/** The base-5 number a key spells, accumulated in four 32-bit words by `mult`. */
module KeyNumber {
  import opened Bytes
  import opened Digits
  import opened KeyWords

  function Value(w: Words): nat {
    w[0] * 0x1_0000_0000_0000_0000_0000_0000 + w[1] * 0x1_0000_0000_0000_0000 + w[2] * U32_SIZE + w[3]
  }

  /** What arrives in word i: the digit, or the high half of the product one word below. */
  function CarryIn(w: Words, x: U32, digit: U32, i: nat): nat
    requires i < 4
  {
    if i == 3 then digit else w[i + 1] * x / U32_SIZE
  }

  /** Word i of the sum before it is cut to 32 bits. */
  function Uncut(w: Words, x: U32, digit: U32, i: nat): nat
    requires i < 4
  {
    CarryIn(w, x, digit, i) + w[i] * x % U32_SIZE
  }

  /** `mult`: the carry out of the addition in a word is lost. */
  function Mult(w: Words, x: U32, digit: U32): Words {
    [Uncut(w, x, digit, 0) % U32_SIZE, Uncut(w, x, digit, 1) % U32_SIZE,
     Uncut(w, x, digit, 2) % U32_SIZE, Uncut(w, x, digit, 3) % U32_SIZE]
  }

  lemma CarryBound(a: U32, x: U32)
    ensures 0 <= a * x / U32_SIZE < U32_SIZE
  {
    MulMono(0, a, x);
    MulMono(a, 0xFFFF_FFFF, x);
    HighHalf(a * x);
  }

  lemma HighHalf(t: nat)
    requires t <= 0xFFFF_FFFF * 0xFFFF_FFFF
    ensures t / U32_SIZE < U32_SIZE
  {}

  /** How much too small the result of `mult` is, word by word. */
  ghost function Lost(w: Words, x: U32, digit: U32): int {
    Uncut(w, x, digit, 3) / U32_SIZE * U32_SIZE
    + Uncut(w, x, digit, 2) / U32_SIZE * 0x1_0000_0000_0000_0000
    + Uncut(w, x, digit, 1) / U32_SIZE * 0x1_0000_0000_0000_0000_0000_0000
    + (Uncut(w, x, digit, 0) / U32_SIZE + w[0] * x / U32_SIZE) * 0x1_0000_0000_0000_0000_0000_0000_0000_0000
  }

  lemma Regroup(a: nat, x: nat, k: nat)
    ensures (a * k) * x == (a * x) * k
  {}

  lemma Spread(w: Words, x: nat)
    ensures Value(w) * x == w[0] * x * 0x1_0000_0000_0000_0000_0000_0000 + w[1] * x * 0x1_0000_0000_0000_0000
                            + w[2] * x * U32_SIZE + w[3] * x
  {
    Regroup(w[0], x, 0x1_0000_0000_0000_0000_0000_0000);
    Regroup(w[1], x, 0x1_0000_0000_0000_0000);
    Regroup(w[2], x, U32_SIZE);
  }

  /** `mult` computes value * x + digit, less what the dropped carries were worth. */
  lemma MultFallsShort(w: Words, x: U32, digit: U32)
    ensures Value(w) * x + digit == Value(Mult(w, x, digit)) + Lost(w, x, digit)
  {
    Spread(w, x);
    ShortByWord(w[0] * x, w[1] * x, w[2] * x, w[3] * x, digit);
  }

  lemma ShortByWord(a: nat, b: nat, c: nat, d: nat, digit: nat)
    ensures
      var u3 := digit + d % U32_SIZE;
      var u2 := d / U32_SIZE + c % U32_SIZE;
      var u1 := c / U32_SIZE + b % U32_SIZE;
      var u0 := b / U32_SIZE + a % U32_SIZE;
      a * 0x1_0000_0000_0000_0000_0000_0000 + b * 0x1_0000_0000_0000_0000 + c * U32_SIZE + d + digit
      == u0 % U32_SIZE * 0x1_0000_0000_0000_0000_0000_0000 + u1 % U32_SIZE * 0x1_0000_0000_0000_0000
         + u2 % U32_SIZE * U32_SIZE + u3 % U32_SIZE
         + u3 / U32_SIZE * U32_SIZE + u2 / U32_SIZE * 0x1_0000_0000_0000_0000
         + u1 / U32_SIZE * 0x1_0000_0000_0000_0000_0000_0000
         + (u0 / U32_SIZE + a / U32_SIZE) * 0x1_0000_0000_0000_0000_0000_0000_0000_0000
  {}

  lemma LostIsNotNegative(w: Words, x: U32, digit: U32)
    ensures Lost(w, x, digit) >= 0
  {
    hide Uncut;
    CarryBound(w[0], x);
  }

  const TOTAL := 0x1_0000_0000_0000_0000_0000_0000_0000_0000

  ghost predicate NoCarryDropped(w: Words, x: U32, digit: U32) {
    forall i: nat :: 1 <= i < 4 ==> Uncut(w, x, digit, i) < U32_SIZE
  }

  lemma Offset(r: nat, short: nat, top: nat)
    requires r < TOTAL && short < TOTAL
    ensures (r + short + top * TOTAL) % TOTAL == r <==> short == 0
  {
    if r + short < TOTAL {
      DivModUnique(top, TOTAL, r + short);
    } else {
      DivModUnique(top + 1, TOTAL, r + short - TOTAL);
    }
  }

  lemma ValueBelowTotal(w: Words)
    ensures Value(w) < TOTAL
  {}

  /** `mult` is right modulo 2 to the 128 exactly when no addition in the low three words carries out. */
  lemma MultIsExactIff(w: Words, x: U32, digit: U32)
    ensures Value(Mult(w, x, digit)) == (Value(w) * x + digit) % TOTAL <==> NoCarryDropped(w, x, digit)
  {
    hide Uncut, Value, Mult, Lost, LowLost;
    var u1, u2, u3 := Uncut(w, x, digit, 1), Uncut(w, x, digit, 2), Uncut(w, x, digit, 3);
    UncutBound(w, x, digit, 1);
    UncutBound(w, x, digit, 2);
    UncutBound(w, x, digit, 3);
    MultFallsShort(w, x, digit);
    LostParts(w, x, digit);
    CarryBound(w[0], x);
    ValueBelowTotal(Mult(w, x, digit));
    Offset(Value(Mult(w, x, digit)), LowLost(u1, u2, u3), Uncut(w, x, digit, 0) / U32_SIZE + w[0] * x / U32_SIZE);
    assert NoCarryDropped(w, x, digit) <==> u1 < U32_SIZE && u2 < U32_SIZE && u3 < U32_SIZE;
  }

  lemma UncutBound(w: Words, x: U32, digit: U32, i: nat)
    requires i < 4
    ensures Uncut(w, x, digit, i) < 2 * U32_SIZE
  {
    if i < 3 { CarryBound(w[i + 1], x); }
    assert w[i] * x % U32_SIZE < U32_SIZE;
  }

  lemma LostParts(w: Words, x: U32, digit: U32)
    requires Uncut(w, x, digit, 1) < 2 * U32_SIZE && Uncut(w, x, digit, 2) < 2 * U32_SIZE
             && Uncut(w, x, digit, 3) < 2 * U32_SIZE
    ensures Lost(w, x, digit) == LowLost(Uncut(w, x, digit, 1), Uncut(w, x, digit, 2), Uncut(w, x, digit, 3))
                                 + (Uncut(w, x, digit, 0) / U32_SIZE + w[0] * x / U32_SIZE) * TOTAL
  {
    hide Uncut;
  }

  function LowLost(u1: nat, u2: nat, u3: nat): (lost: nat)
    requires u1 < 2 * U32_SIZE && u2 < 2 * U32_SIZE && u3 < 2 * U32_SIZE
    ensures lost < TOTAL && (lost == 0 <==> u1 < U32_SIZE && u2 < U32_SIZE && u3 < U32_SIZE)
  {
    u3 / U32_SIZE * U32_SIZE + u2 / U32_SIZE * 0x1_0000_0000_0000_0000
    + u1 / U32_SIZE * 0x1_0000_0000_0000_0000_0000_0000
  }

  /** A carry that is dropped: 0x33333333 * 5 + 1 is 2 to the 32, and the result is 0. */
  lemma MultDropsACarry()
    ensures Mult([0, 0, 0, 0x3333_3333], 5, 1) == [0, 0, 0, 0]
  {}

  // ---- accumulation ----

  type Digit5 = x: int | 0 <= x < 5
  type Table = t: seq<Digit5> | |t| == 52 witness seq(52, i => 0)

  /** The words after the table's digits 51 down to i have been multiplied in. */
  function Accumulated(t: Table, i: nat): Words
    requires i <= 52
    decreases 52 - i
  {
    if i == 52 then [0, 0, 0, 0] else Mult(Accumulated(t, i + 1), 5, t[i])
  }

  /** The number those digits spell in base 5. */
  function Spelled(t: Table, i: nat): nat
    requires i <= 52
    decreases 52 - i
  {
    if i == 52 then 0 else Spelled(t, i + 1) * 5 + t[i]
  }

  /** No carry is dropped in any of the rounds down to i. */
  ghost predicate NothingDropped(t: Table, i: nat)
    requires i <= 52
  {
    forall k: nat :: i <= k < 52 ==> NoCarryDropped(Accumulated(t, k + 1), 5, t[k])
  }

  lemma {:induction false} SpelledBound(t: Table, i: nat)
    requires i <= 52
    ensures Spelled(t, i) < Pow(5, 52 - i)
    decreases 52 - i
  {
    if i < 52 { SpelledBound(t, i + 1); }
  }

  /** Fifty-two base-5 digits spell different numbers for different tables. */
  lemma {:induction false} SpellingIsUnique(t: Table, u: Table, i: nat)
    requires i <= 52 && Spelled(t, i) == Spelled(u, i)
    ensures t[i..] == u[i..]
    decreases 52 - i
  {
    if i < 52 {
      SpellingIsUnique(t, u, i + 1);
      assert t[i..] == [t[i]] + t[i + 1..] && u[i..] == [u[i]] + u[i + 1..];
    }
  }

  lemma PowerBelow(k: nat)
    requires k <= 52
    ensures Pow(5, k) <= 0x200_0000_0000_0000_0000_0000_0000_0000
  {
    PowMono(5, k, 52);
    assert Pow(5, 13) == 1220703125;
    PowSum(5, 13, 13);
    PowSum(5, 26, 26);
  }

  /** In these rounds the top word loses nothing: the number stays far below 2 to the 128. */
  lemma RoundIsExactIff(w: Words, digit: Digit5)
    requires Value(w) < 0x200_0000_0000_0000_0000_0000_0000_0000
    ensures Value(Mult(w, 5, digit)) <= Value(w) * 5 + digit
    ensures Value(Mult(w, 5, digit)) == Value(w) * 5 + digit <==> NoCarryDropped(w, 5, digit)
  {
    hide Mult, Lost, NoCarryDropped, Value;
    MultIsExactIff(w, 5, digit);
    MultFallsShort(w, 5, digit);
    LostIsNotNegative(w, 5, digit);
    assert Value(w) * 5 + digit < TOTAL;
  }

  /** The accumulated words hold the number the table spells exactly when no round drops a carry. */
  lemma {:induction false} AccumulatedIsSpelledIff(t: Table, i: nat)
    requires i <= 52
    ensures Value(Accumulated(t, i)) <= Spelled(t, i)
    ensures Value(Accumulated(t, i)) == Spelled(t, i) <==> NothingDropped(t, i)
    decreases 52 - i
  {
    if i < 52 {
      AccumulatedIsSpelledIff(t, i + 1);
      SpelledBound(t, i + 1);
      PowerBelow(52 - (i + 1));
      var w := Accumulated(t, i + 1);
      hide Value, Mult, NoCarryDropped;
      RoundIsExactIff(w, t[i]);
      assert NothingDropped(t, i) <==> NothingDropped(t, i + 1) && NoCarryDropped(w, 5, t[i]);
    }
  }
}
