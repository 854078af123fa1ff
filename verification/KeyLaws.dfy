/** The key decoder read from outside: the alphabet, the rounds each nibble goes through, and how the three
    values put together give back the four words. */
module KeyLaws {
  import opened Bytes
  import opened Digits
  import opened KeyDecoder
  import opened KeyScramble
  import opened KeyTables
  import opened KeyWords

  // ---- pass one ----

  /** Which nibble keys nibble n in round i: 29 down to 0, n left out. */
  function KeyingNibble(n: nat, i: nat): (j: nat)
    requires n < 30 && i < 29
    ensures j < 30 && j != n
  {
    if i < 29 - n then 29 - i else 28 - i
  }

  lemma {:induction false} KeysFrom(w: Words, n: nat, j: nat)
    requires n < 30 && j <= 30
    ensures |Keys(w, n, j)| == 30 - j - (if j <= n then 1 else 0)
    ensures forall i: nat :: i < |Keys(w, n, j)| ==> i < 29 && Keys(w, n, j)[i] == Nib(w, KeyingNibble(n, i))
    decreases 30 - j
  {
    hide Nib, Keys;
    if j < 30 {
      KeysFrom(w, n, j + 1);
      NextKey(w, n, j);
    } else {
      NoKeys(w, n);
    }
  }

  /** One round for each key: look up, exclusive or with the key, look up again. */
  ghost predicate Follows(row: seq<Nibble>, keys: seq<Nibble>, trace: seq<Nibble>) {
    && |row| == 16 && |trace| == |keys| + 1
    && forall i :: 0 <= i < |keys| ==> trace[i + 1] == row[Mixed(keys[i], row[trace[i]])]
  }

  lemma {:induction false} KeyedFollows(row: seq<Nibble>, keys: seq<Nibble>, v: Nibble) returns (trace: seq<Nibble>)
    requires |row| == 16
    ensures Follows(row, keys, trace) && trace[0] == v && trace[|keys|] == Keyed(row, keys, v)
  {
    hide Mixed;
    if keys == [] {
      trace := [v];
    } else {
      var n := |keys| - 1;
      var front := KeyedFollows(row, keys[..n], v);
      trace := front + [Keyed(row, keys, v)];
    }
  }

  /** Keying is bitwise. */
  lemma MixedBits(a: Nibble, b: Nibble, k: nat)
    ensures DigitAt(Mixed(a, b), 2, k) == (DigitAt(a, 2, k) + DigitAt(b, 2, k)) % 2
  {
    XorBits(a, b, k);
  }

  /** Nibble n of r comes from nibble n of w through twenty-nine rounds of its row and one more look-up. Nibbles
      above it key it as they are in r, those below as they are in w. */
  ghost predicate ComesThrough(w: Words, r: Words, n: nat, trace: seq<Nibble>)
    requires n < 30
  {
    && |trace| == 30 && |Row(n)| == 16 && trace[0] == Nib(w, n) && Nib(r, n) == Row(n)[trace[29]]
    && forall i: nat :: i < 29 ==>
      var j := KeyingNibble(n, i);
      trace[i + 1] == Row(n)[Mixed(if j > n then Nib(r, j) else Nib(w, j), Row(n)[trace[i]])]
  }

  lemma {:induction false} PassOneSoFar(w: Words, n: nat, m: nat)
    requires n <= 30 && m < 32
    ensures m < n || m >= 30 ==> Nib(PassOne(w, n), m) == Nib(w, m)
    ensures n <= m < 30 ==> Nib(PassOne(w, n), m) == Nib(PassOne(w, m), m)
    decreases 30 - n
  {
    hide Nib, SetNib, Scrambled;
    if n < 30 {
      PassOneSoFar(w, n + 1, m);
      var u := PassOne(w, n + 1);
      SetNibReads(u, n, Scrambled(n, Keys(u, n, 0), Nib(u, n)), m);
    }
  }

  /** Pass one, nibble by nibble. */
  lemma PassOneComesThrough(w: Words, n: nat) returns (trace: seq<Nibble>)
    requires n < 30
    ensures ComesThrough(w, PassOne(w, 0), n, trace)
  {
    hide Nib, SetNib, PassOne, Row, Mixed, Keyed, Keys;
    var u, r := PassOne(w, n + 1), PassOne(w, 0);
    RowsInvert(n, 0);
    KeysFrom(u, n, 0);
    trace := KeyedFollows(Row(n), Keys(u, n, 0), Nib(u, n));
    OneStep(w, n);
    PassOneSoFar(w, n + 1, n);
    PassOneSoFar(w, 0, n);
    forall i: nat | i < 29
      ensures var j := KeyingNibble(n, i); Nib(u, j) == if j > n then Nib(r, j) else Nib(w, j)
    {
      var j := KeyingNibble(n, i);
      PassOneSoFar(w, n + 1, j);
      PassOneSoFar(w, 0, j);
    }
  }

  lemma OneStep(w: Words, n: nat)
    requires n < 30 && |Row(n)| == 16
    ensures
      var u := PassOne(w, n + 1);
      Nib(PassOne(w, n), n) == Row(n)[Keyed(Row(n), Keys(u, n, 0), Nib(u, n))]
  {
    hide Nib, SetNib, Row, Keyed, Keys;
    var u := PassOne(w, n + 1);
    SetNibReads(u, n, Scrambled(n, Keys(u, n, 0), Nib(u, n)), n);
  }

  // ---- the three values ----

  function Four(a: int, b: int, c: int, d: int): int {
    a * 0x100_0000 + b * 0x1_0000 + c * 0x100 + d
  }

  /** The product is the top twenty-two bits, value1 the next twenty-six, value2 the rest, so that the words can
      be put together again. */
  lemma ExtractedReassembles(w: Words)
    ensures
      var d := Extracted(w);
      var v := d.value2;
      && |v| == 10
      && w[0] == d.product * 0x400 + d.value1 % 4 * 0x100 + d.value1 / 0x100 % 0x100
      && w[1] == Four(d.value1 / 0x1_0000 % 0x100, d.value1 / 0x100_0000, v[1], v[0])
      && w[2] == Four(v[5], v[4], v[3], v[2]) && w[3] == Four(v[9], v[8], v[7], v[6])
      && d.value1 / 4 % 0x40 == 0
  {
    Value1Packs(w);
    TopWord(w[0]);
    BigEndianValue(w[1]);
    BigEndianValue(w[2]);
    BigEndianValue(w[3]);
    var s, t := BigEndian(w[0]), BigEndian(w[1]);
    hide BigEndian, FromLe32, Masked;
    Unpacked(s[2] % 4, s[3], t[0], t[1]);
  }

  lemma Unpacked(a: nat, b: nat, c: nat, d: nat)
    requires a < 4 && b < 0x100 && c < 0x100 && d < 0x100
    ensures
      var x := a + b * 0x100 + c * 0x1_0000 + d * 0x100_0000;
      && x % 4 == a && x / 4 % 0x40 == 0 && x / 0x100 % 0x100 == b && x / 0x1_0000 % 0x100 == c && x / 0x100_0000 == d
  {
    var x := a + b * 0x100 + c * 0x1_0000 + d * 0x100_0000;
    assert x == (b + c * 0x100 + d * 0x1_0000) * 0x100 + a;
    assert x == (c + d * 0x100) * 0x1_0000 + (a + b * 0x100);
    LowBits(a, b + c * 0x100 + d * 0x1_0000);
    assert x / 0x100 == (c + d * 0x100) * 0x100 + b;
    assert x / 0x1_0000 == d * 0x100 + c;
  }

  lemma LowBits(a: nat, high: nat)
    requires a < 4
    ensures var x := high * 0x100 + a; x % 4 == a && x / 4 % 0x40 == 0
  {
    assert high * 0x100 + a == high * 0x40 * 4 + a;
    DivModUnique(high * 0x40, 4, a);
  }

  // ---- the alphabet ----

  const ALPHABET := "246789BCDEFGHJKMNPRTVWXYZ"

  /** A character stands for its place in the alphabet, and any other for nothing. */
  lemma KeyMapIsTheAlphabet(c: Byte)
    ensures if KeyMap(c) == NO_ENTRY then c as char !in ALPHABET
            else KeyMap(c) < |ALPHABET| && ALPHABET[KeyMap(c)] == c as char
  {}
}
