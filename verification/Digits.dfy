/**
 Unsigned words read as digit strings: base 2 for bits, base 16 for nibbles. Masking and shifting a
 word reads or replaces one digit, and XOR works on the base-2 digits.
 */
module Digits {
  function Pow(b: nat, n: nat): nat {
    if n == 0 then 1 else b * Pow(b, n - 1)
  }

  lemma MulAssociates(a: int, b: int, c: int)
    ensures a * (b * c) == a * b * c
  {}

  lemma {:induction false} PowSum(b: nat, m: nat, n: nat)
    ensures Pow(b, m + n) == Pow(b, m) * Pow(b, n)
  {
    if m > 0 {
      PowSum(b, m - 1, n);
      MulAssociates(b, Pow(b, m - 1), Pow(b, n));
    }
  }

  lemma {:induction false} PowMono(b: nat, m: nat, n: nat)
    requires b >= 1 && m <= n
    ensures 1 <= Pow(b, m) <= Pow(b, n)
    decreases n
  {
    if m < n {
      PowMono(b, m, n - 1);
      MulMono(1, b, Pow(b, n - 1));
    } else if m > 0 {
      PowMono(b, m - 1, m - 1);
      MulMono(1, b, Pow(b, m - 1));
    }
  }

  /** Digit k of w, the least significant being digit 0: `(w & mask << s) >> s`. */
  function DigitAt(w: nat, b: nat, k: nat): nat
    requires b >= 2
    decreases k
  {
    if k == 0 then w % b else DigitAt(w / b, b, k - 1)
  }

  /** w with digit k replaced: `(w & !(mask << s)) | v << s`. */
  function SetDigit(w: nat, b: nat, k: nat, v: nat): nat
    requires b >= 2
    decreases k
  {
    if k == 0 then w / b * b + v else SetDigit(w / b, b, k - 1, v) * b + w % b
  }

  lemma MulMono(x: int, y: int, b: nat)
    requires x <= y
    ensures x * b <= y * b
  {}

  lemma DivModUnique(q: nat, b: nat, r: nat)
    requires r < b
    ensures (q * b + r) / b == q && (q * b + r) % b == r
  {
    var d, m := (q * b + r) / b, (q * b + r) % b;
    assert (q - d) * b == m - r;
    assert q - d >= 1 ==> (q - d) * b >= b;
    assert d - q >= 1 ==> (d - q) * b >= b;
  }

  lemma {:induction false} DigitBound(w: nat, b: nat, k: nat)
    requires b >= 2
    ensures DigitAt(w, b, k) < b
    decreases k
  {
    if k > 0 { DigitBound(w / b, b, k - 1); }
  }

  /** Setting one digit changes that digit and no other. */
  lemma {:induction false} SetDigitReads(w: nat, b: nat, k: nat, v: nat, j: nat)
    requires b >= 2 && v < b
    ensures DigitAt(SetDigit(w, b, k, v), b, j) == if j == k then v else DigitAt(w, b, j)
    decreases k
  {
    if k == 0 {
      DivModUnique(w / b, b, v);
    } else {
      DivModUnique(SetDigit(w / b, b, k - 1, v), b, w % b);
      if j > 0 { SetDigitReads(w / b, b, k - 1, v, j - 1); }
    }
  }

  lemma SetDigitStep(w: nat, b: nat, k: nat, v: nat, q: nat, r: nat)
    requires b >= 2 && k > 0 && r < b && w == q * b + r
    ensures SetDigit(w, b, k, v) == SetDigit(q, b, k - 1, v) * b + r
    ensures DigitAt(w, b, k) == DigitAt(q, b, k - 1)
  {
    DivModUnique(q, b, r);
  }

  lemma Recompose(w: nat, b: nat)
    requires b >= 1
    ensures w / b >= 0 && w == w / b * b + w % b
  {}

  /** Putting the old digit back restores the word. */
  lemma {:induction false} SetDigitUndone(w: nat, b: nat, k: nat, v: nat)
    requires b >= 2 && v < b
    ensures SetDigit(SetDigit(w, b, k, v), b, k, DigitAt(w, b, k)) == w
    decreases k
  {
    if k == 0 {
      DivModUnique(w / b, b, v);
    } else {
      hide SetDigit, DigitAt;
      Recompose(w, b);
      SetDigitUndone(w / b, b, k - 1, v);
      SetDigitUndoneStep(w, b, k, v, w / b, w % b);
    }
  }

  lemma SetDigitUndoneStep(w: nat, b: nat, k: nat, v: nat, q: nat, r: nat)
    requires b >= 2 && v < b && k > 0 && r < b && w == q * b + r
    requires SetDigit(SetDigit(q, b, k - 1, v), b, k - 1, DigitAt(q, b, k - 1)) == q
    ensures SetDigit(SetDigit(w, b, k, v), b, k, DigitAt(w, b, k)) == w
  {
    hide SetDigit, DigitAt;
    var s := SetDigit(q, b, k - 1, v);
    SetDigitStep(w, b, k, v, q, r);
    SetDigitStep(s * b + r, b, k, DigitAt(w, b, k), s, r);
  }

  lemma DivBelow(w: nat, b: nat, m: nat)
    requires b >= 2 && w < b * m
    ensures w / b < m
  {
    assert w / b * b <= w;
    if w / b >= m { MulMono(m, w / b, b); }
  }

  lemma BelowNext(s: nat, r: nat, b: nat, m: nat)
    requires s < m && r < b
    ensures s * b + r < b * m
  {
    MulMono(s + 1, m, b);
  }

  lemma {:induction false} SetDigitBound(w: nat, b: nat, k: nat, v: nat, n: nat)
    requires b >= 2 && v < b && k < n && w < Pow(b, n)
    ensures SetDigit(w, b, k, v) < Pow(b, n)
    decreases k
  {
    var m := Pow(b, n - 1);
    DivBelow(w, b, m);
    if k == 0 {
      BelowNext(w / b, v, b, m);
    } else {
      SetDigitBound(w / b, b, k - 1, v, n - 1);
      BelowNext(SetDigit(w / b, b, k - 1, v), w % b, b, m);
    }
  }

  /** A word is determined by its digits. */
  lemma {:induction false} SameDigits(w: nat, v: nat, b: nat, n: nat)
    requires b >= 2 && w < Pow(b, n) && v < Pow(b, n)
    requires forall j: nat :: j < n ==> DigitAt(w, b, j) == DigitAt(v, b, j)
    ensures w == v
    decreases n
  {
    hide DigitAt, Pow;
    if n == 0 {
      BelowOne(w, v, b);
    } else {
      PowStep(b, n);
      ShiftDigits(w, v, b, n);
      DivBelow(w, b, Pow(b, n - 1));
      DivBelow(v, b, Pow(b, n - 1));
      SameDigits(w / b, v / b, b, n - 1);
      SameParts(w, v, b);
    }
  }

  lemma BelowOne(w: nat, v: nat, b: nat)
    requires w < Pow(b, 0) && v < Pow(b, 0)
    ensures w == v
  {}

  lemma PowStep(b: nat, n: nat)
    requires n > 0
    ensures Pow(b, n) == b * Pow(b, n - 1)
  {}

  lemma SameParts(w: nat, v: nat, b: nat)
    requires b >= 2 && w / b == v / b && w % b == v % b
    ensures w == v
  {
    assert w == w / b * b + w % b && v == v / b * b + v % b;
  }

  lemma ShiftDigits(w: nat, v: nat, b: nat, n: nat)
    requires b >= 2 && n > 0
    requires forall j: nat :: j < n ==> DigitAt(w, b, j) == DigitAt(v, b, j)
    ensures w % b == v % b
    ensures forall j: nat :: j < n - 1 ==> DigitAt(w / b, b, j) == DigitAt(v / b, b, j)
  {
    assert DigitAt(w, b, 0) == DigitAt(v, b, 0);
    forall j: nat | j < n - 1 ensures DigitAt(w / b, b, j) == DigitAt(v / b, b, j) {
      assert DigitAt(w, b, j + 1) == DigitAt(v, b, j + 1);
    }
  }

  // ---- XOR ----

  function Xor(a: nat, b: nat): nat
    decreases a + b
  {
    if a == 0 && b == 0 then 0 else (a % 2 + b % 2) % 2 + 2 * Xor(a / 2, b / 2)
  }

  /** Digits of a number made of a low part of n digits and a high part. */
  lemma {:induction false} DigitsJoin(low: nat, high: nat, b: nat, n: nat, k: nat)
    requires b >= 2 && low < Pow(b, n)
    ensures DigitAt(low + high * Pow(b, n), b, k) == if k < n then DigitAt(low, b, k) else DigitAt(high, b, k - n)
    decreases n
  {
    if n > 0 {
      var p := Pow(b, n - 1);
      var w := low + high * Pow(b, n);
      Recompose(low, b);
      MulAssociates(high, b, p);
      assert high * Pow(b, n) == high * p * b;
      assert w == (low / b + high * p) * b + low % b;
      DivModUnique(low / b + high * p, b, low % b);
      DivBelow(low, b, p);
      if k > 0 { DigitsJoin(low / b, high, b, n - 1, k - 1); }
    }
  }

  /** Bit by bit. */
  lemma {:induction false} XorBits(a: nat, b: nat, k: nat)
    ensures DigitAt(Xor(a, b), 2, k) == (DigitAt(a, 2, k) + DigitAt(b, 2, k)) % 2
  {
    XorStep(a, b, a / 2, b / 2, a % 2, b % 2);
    hide Xor;
    if k > 0 { XorBits(a / 2, b / 2, k - 1); }
  }

  lemma {:induction false} XorBound(a: nat, b: nat, n: nat)
    requires a < Pow(2, n) && b < Pow(2, n)
    ensures Xor(a, b) < Pow(2, n)
    decreases n
  {
    if n > 0 && a + b > 0 { XorBound(a / 2, b / 2, n - 1); }
  }

  /** XOR with the same word twice changes nothing. */
  lemma {:induction false} XorCancels(a: nat, b: nat)
    ensures Xor(a, Xor(a, b)) == b
    decreases a + b
  {
    if a + b > 0 {
      XorCancels(a / 2, b / 2);
      XorCancelsStep(a, b, a / 2, b / 2, a % 2, b % 2);
    }
  }

  lemma XorCancelsStep(a: nat, b: nat, x: nat, y: nat, p: nat, q: nat)
    requires p < 2 && q < 2 && a == 2 * x + p && b == 2 * y + q && Xor(x, Xor(x, y)) == y
    ensures Xor(a, Xor(a, b)) == b
  {
    hide Xor;
    XorStep(a, b, x, y, p, q);
    XorStep(a, Xor(a, b), x, Xor(x, y), p, (p + q) % 2);
  }

  lemma XorStep(a: nat, b: nat, x: nat, y: nat, p: nat, q: nat)
    requires p < 2 && q < 2 && a == 2 * x + p && b == 2 * y + q
    ensures Xor(a, b) == (p + q) % 2 + 2 * Xor(x, y)
  {
    assert a / 2 == x && b / 2 == y;
  }

  lemma HalfBelow(a: nat, n: nat)
    requires n > 0 && a < Pow(2, n)
    ensures Pow(2, n) == 2 * Pow(2, n - 1) && a / 2 < Pow(2, n - 1)
  {}

  /** XOR works on low and high parts apart. */
  lemma {:induction false} XorSplit(a: nat, b: nat, c: nat, d: nat, n: nat)
    requires a < Pow(2, n) && b < Pow(2, n)
    ensures Xor(a + c * Pow(2, n), b + d * Pow(2, n)) == Xor(a, b) + Xor(c, d) * Pow(2, n)
    decreases n
  {
    hide Xor, Pow;
    if n == 0 {
      NothingBelow(a, b, c, d);
    } else {
      HalfBelow(a, n);
      HalfBelow(b, n);
      XorSplit(a / 2, b / 2, c, d, n - 1);
      XorSplitStep(a, b, c, d, Pow(2, n - 1), Pow(2, n));
    }
  }

  lemma NothingBelow(a: nat, b: nat, c: nat, d: nat)
    requires a < Pow(2, 0) && b < Pow(2, 0)
    ensures Xor(a + c * Pow(2, 0), b + d * Pow(2, 0)) == Xor(a, b) + Xor(c, d) * Pow(2, 0)
  {
    assert Pow(2, 0) == 1 && a == 0 && b == 0 && Xor(0, 0) == 0;
    hide Xor, Pow;
  }

  lemma XorSplitStep(a: nat, b: nat, c: nat, d: nat, p: nat, m: nat)
    requires m == 2 * p
    requires Xor(a / 2 + c * p, b / 2 + d * p) == Xor(a / 2, b / 2) + Xor(c, d) * p
    ensures Xor(a + c * m, b + d * m) == Xor(a, b) + Xor(c, d) * m
  {
    hide Xor;
    XorStep(a, b, a / 2, b / 2, a % 2, b % 2);
    Double(a, c, p);
    Double(b, d, p);
    XorStep(a + c * (2 * p), b + d * (2 * p), a / 2 + c * p, b / 2 + d * p, a % 2, b % 2);
    Double(0, Xor(c, d), p);
  }

  lemma Double(a: nat, c: nat, p: nat)
    ensures a + c * (2 * p) == 2 * (a / 2 + c * p) + a % 2
  {}
}
