/**
 The keyed permutation of `decode_key_table`: each of thirty nibbles is passed through a row of the
 translate map, keyed by all the others; then the low 120 bits are permuted with stride 11.
 */
module KeyScramble {
  import opened Digits
  import opened KeyTables
  import opened KeyWords

  function Mixed(a: Nibble, b: Nibble): Nibble {
    assert Pow(2, 4) == 16;
    XorBound(a, b, 4);
    Xor(a, b)
  }

  lemma MixedTwice(a: Nibble, b: Nibble)
    ensures Mixed(a, Mixed(a, b)) == b
  {
    hide Xor;
    XorCancels(a, b);
  }

  /** v after one round for each key in turn. */
  function Keyed(row: seq<Nibble>, keys: seq<Nibble>, v: Nibble): Nibble
    requires |row| == 16
  {
    if keys == [] then v else row[Mixed(keys[|keys| - 1], row[Keyed(row, keys[..|keys| - 1], v)])]
  }

  function Unkeyed(back: seq<Nibble>, keys: seq<Nibble>, v: Nibble): Nibble
    requires |back| == 16
  {
    if keys == [] then v
    else Unkeyed(back, keys[..|keys| - 1], back[Mixed(keys[|keys| - 1], back[v])])
  }

  lemma {:induction false} KeyedUndone(row: seq<Nibble>, back: seq<Nibble>, keys: seq<Nibble>, v: Nibble)
    requires |row| == 16 && |back| == 16 && forall x: Nibble :: UndoneAt(row, back, x)
    ensures Unkeyed(back, keys, Keyed(row, keys, v)) == v
  {
    hide Mixed;
    if keys != [] {
      var last, u := keys[|keys| - 1], Keyed(row, keys[..|keys| - 1], v);
      assert UndoneAt(row, back, u) && UndoneAt(row, back, Mixed(last, row[u]));
      MixedTwice(last, row[u]);
      KeyedUndone(row, back, keys[..|keys| - 1], v);
    }
  }

  lemma {:induction false} UnkeyedUndone(row: seq<Nibble>, back: seq<Nibble>, keys: seq<Nibble>, v: Nibble)
    requires |row| == 16 && |back| == 16 && forall x: Nibble :: UndoneAt(row, back, x)
    ensures Keyed(row, keys, Unkeyed(back, keys, v)) == v
  {
    hide Mixed;
    if keys != [] {
      var last := keys[|keys| - 1];
      assert UndoneAt(row, back, v) && UndoneAt(row, back, Mixed(last, back[v]));
      MixedTwice(last, back[v]);
      UnkeyedUndone(row, back, keys[..|keys| - 1], back[Mixed(last, back[v])]);
    }
  }

  /** The nibbles 29 down to j except n, in the order in which they key nibble n. */
  function Keys(w: Words, n: nat, j: nat): seq<Nibble>
    requires j <= 30
    decreases 30 - j
  {
    if j == 30 then [] else Keys(w, n, j + 1) + if j == n then [] else [Nib(w, j)]
  }

  /** What pass one makes of a nibble and what undoes it, under given keys. */
  function Scrambled(n: nat, keys: seq<Nibble>, v: Nibble): Nibble
    requires n < 30
  {
    RowsInvert(n, 0);
    Row(n)[Keyed(Row(n), keys, v)]
  }

  function Unscrambled(n: nat, keys: seq<Nibble>, v: Nibble): Nibble
    requires n < 30
  {
    RowsInvert(n, 0);
    Unkeyed(InverseRow(n), keys, InverseRow(n)[v])
  }

  /** Under any keys each nibble is permuted. */
  lemma NibbleIsPermuted(n: nat, keys: seq<Nibble>, v: Nibble)
    requires n < 30
    ensures Unscrambled(n, keys, Scrambled(n, keys, v)) == v
    ensures Scrambled(n, keys, Unscrambled(n, keys, v)) == v
  {
    hide Row, InverseRow, Keyed, Unkeyed, Inverts;
    forall x: Nibble ensures UndoneAt(Row(n), InverseRow(n), x) {
      RowsInvert(n, x);
    }
    assert UndoneAt(Row(n), InverseRow(n), 0);
    KeyedUndone(Row(n), InverseRow(n), keys, v);
    assert UndoneAt(Row(n), InverseRow(n), Keyed(Row(n), keys, v));
    assert UndoneAt(Row(n), InverseRow(n), v);
    UnkeyedUndone(Row(n), InverseRow(n), keys, InverseRow(n)[v]);
  }

  /** A nibble does not key itself. */
  lemma {:induction false} KeysIgnoreOwnNibble(w: Words, n: nat, v: Nibble, j: nat)
    requires n < 30 && j <= 30
    ensures Keys(SetNib(w, n, v), n, j) == Keys(w, n, j)
    decreases 30 - j
  {
    hide SetNib, Nib, Keys;
    var u := SetNib(w, n, v);
    if j < 30 {
      KeysIgnoreOwnNibble(w, n, v, j + 1);
      SetNibReads(w, n, v, j);
      NextKey(w, n, j);
      NextKey(u, n, j);
    } else {
      NoKeys(w, n);
      NoKeys(u, n);
    }
  }

  lemma NextKey(w: Words, n: nat, j: nat)
    requires j < 30
    ensures Keys(w, n, j) == Keys(w, n, j + 1) + if j == n then [] else [Nib(w, j)]
  {
    hide Nib;
  }

  lemma NoKeys(w: Words, n: nat)
    ensures Keys(w, n, 30) == []
  {}

  function Step(w: Words, n: nat): Words
    requires n < 30
  {
    SetNib(w, n, Scrambled(n, Keys(w, n, 0), Nib(w, n)))
  }

  function Unstep(w: Words, n: nat): Words
    requires n < 30
  {
    SetNib(w, n, Unscrambled(n, Keys(w, n, 0), Nib(w, n)))
  }

  lemma StepUndone(w: Words, n: nat)
    requires n < 30
    ensures Unstep(Step(w, n), n) == w && Step(Unstep(w, n), n) == w
  {
    hide SetNib, Nib, Keys, Scrambled, Unscrambled;
    var keys, v := Keys(w, n, 0), Nib(w, n);
    NibbleIsPermuted(n, keys, v);
    StepUndoneOnce(w, n, Scrambled(n, keys, v));
    StepUndoneOnce(w, n, Unscrambled(n, keys, v));
  }

  lemma StepUndoneOnce(w: Words, n: nat, s: Nibble)
    requires n < 30
    ensures Keys(SetNib(w, n, s), n, 0) == Keys(w, n, 0) && Nib(SetNib(w, n, s), n) == s
    ensures SetNib(SetNib(w, n, s), n, Nib(w, n)) == w
  {
    hide SetNib, Nib, Keys;
    KeysIgnoreOwnNibble(w, n, s, 0);
    SetNibReads(w, n, s, n);
    SetNibUndone(w, n, s);
  }

  /** Pass one after nibbles 29 down to n, each seeing the new values of those above it. */
  function PassOne(w: Words, n: nat): Words
    requires n <= 30
    decreases 30 - n
  {
    if n == 30 then w else Step(PassOne(w, n + 1), n)
  }

  function UndoPassOne(w: Words, n: nat): Words
    requires n <= 30
    decreases 30 - n
  {
    if n == 30 then w else UndoPassOne(Unstep(w, n), n + 1)
  }

  lemma {:induction false} PassOneUndone(w: Words, n: nat)
    requires n <= 30
    ensures UndoPassOne(PassOne(w, n), n) == w && PassOne(UndoPassOne(w, n), n) == w
    decreases 30 - n
  {
    hide Step, Unstep;
    if n < 30 {
      StepUndone(PassOne(w, n + 1), n);
      PassOneUndone(w, n + 1);
      StepUndone(w, n);
      PassOneUndone(Unstep(w, n), n + 1);
    }
  }

  // ---- pass two ----

  /** w after the first m rounds of pass two: bit k has become bit 11 * k modulo 120. */
  function PassTwo(w: Words, m: nat): Words
    requires m <= 120
  {
    if m == 0 then w else SetBit(PassTwo(w, m - 1), m - 1, Bit(w, 11 * (m - 1) % 120))
  }

  lemma {:induction false} PassTwoReads(w: Words, m: nat, k: nat)
    requires m <= 120 && k < 128
    ensures Bit(PassTwo(w, m), k) == Bit(w, if k < m then 11 * k % 120 else k)
  {
    hide Bit, SetBit;
    if m > 0 {
      PassTwoReads(w, m - 1, k);
      SetBitReads(PassTwo(w, m - 1), m - 1, Bit(w, 11 * (m - 1) % 120), k);
    }
  }

  lemma Stride(k: nat)
    requires k < 120
    ensures 11 * (11 * k % 120) % 120 == k
  {
    var q := 11 * k / 120;
    assert 11 * k % 120 == 11 * k - 120 * q;
    assert 11 * (11 * k % 120) == k + 120 * (k - 11 * q);
  }

  /** Pass two is its own inverse, because 11 * 11 is 1 modulo 120. */
  lemma PassTwoTwice(w: Words)
    ensures PassTwo(PassTwo(w, 120), 120) == w
  {
    hide Bit, PassTwo;
    var u := PassTwo(w, 120);
    forall k: nat | k < 128 ensures Bit(PassTwo(u, 120), k) == Bit(w, k) {
      PassTwoReads(u, 120, k);
      if k < 120 {
        PassTwoReads(w, 120, 11 * k % 120);
        Stride(k);
      } else {
        PassTwoReads(w, 120, k);
      }
    }
    SameBits(PassTwo(u, 120), w);
  }

  /** All of `decode_key_table`, and its inverse. */
  function Permuted(w: Words): Words {
    PassTwo(PassOne(w, 0), 120)
  }

  function Unpermuted(w: Words): Words {
    UndoPassOne(PassTwo(w, 120), 0)
  }

  /** Decoding the key table is a bijection on four words. */
  lemma KeyTableIsPermuted(w: Words)
    ensures Unpermuted(Permuted(w)) == w && Permuted(Unpermuted(w)) == w
  {
    hide PassOne, PassTwo, UndoPassOne;
    PassTwoTwice(PassOne(w, 0));
    PassOneUndone(w, 0);
    PassOneUndone(PassTwo(w, 120), 0);
    PassTwoTwice(w);
  }
}
