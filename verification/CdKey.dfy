/** The key decoder's loops over its table and its four words, proved against their specifications. */
module CdKey {
  import opened Bytes
  import opened Digits
  import opened KeyDecoder
  import opened KeyNumber
  import opened KeyScramble
  import opened KeyTables
  import opened KeyWords

  /** Entry k of the flat translate map. */
  function Translate(k: nat): Nibble
    requires k < 480
  {
    RowsInvert(k / 16, 0);
    Row(k / 16)[k % 16]
  }

  /** XOR with a nibble leaves the row number of a flat index alone. */
  lemma XorInRow(a: Nibble, b: Nibble, n: nat)
    requires n < 30
    ensures Xor(a, b + 16 * n) == Mixed(a, b) + 16 * n
  {
    assert Pow(2, 4) == 16;
    XorSplit(a, b, 0, n, 4);
    XorZero(n);
  }

  lemma {:induction false} XorZero(n: nat)
    ensures Xor(0, n) == n
  {
    if n > 0 { XorZero(n / 2); }
  }

  lemma TranslateAt(n: nat, v: Nibble)
    requires n < 30
    ensures |Row(n)| == 16 && Translate(v + 16 * n) == Row(n)[v]
  {
    hide Row, InverseRow;
    RowsInvert(n, 0);
    var k := v + 16 * n;
    assert k / 16 == n && k % 16 == v;
    TranslateIs(k);
  }

  lemma TranslateIs(k: nat)
    requires k < 480
    ensures |Row(k / 16)| == 16 && Translate(k) == Row(k / 16)[k % 16]
  {
    hide Row, InverseRow;
    RowsInvert(k / 16, 0);
  }

  /** One keying round; row r, column c of the table is entry 16r + c. */
  lemma FlatRound(n: nat, key: Nibble, v: Nibble)
    requires n < 30
    ensures |Row(n)| == 16
    ensures Translate(v + 16 * n) == Row(n)[v]
    ensures Xor(key, Translate(v + 16 * n) + 16 * n) < 480
    ensures Translate(Xor(key, Translate(v + 16 * n) + 16 * n)) == Row(n)[Mixed(key, Row(n)[v])]
  {
    hide Row, Xor, Mixed, Translate;
    TranslateAt(n, v);
    var u := Row(n)[v];
    XorInRow(key, u, n);
    TranslateAt(n, Mixed(key, u));
  }

  /** `mult`. */
  method MultiplyAdd(values: array<U32>, x: U32, digit: U32)
    requires values.Length == 4
    modifies values
    ensures values[..] == Mult(old(values[..]), x, digit)
  {
    ghost var w: Words := values[..];
    var carry := digit;
    var i := 4;
    while i > 0
      invariant 0 <= i <= 4
      invariant forall k :: 0 <= k < i ==> values[k] == w[k]
      invariant forall k :: i <= k < 4 ==> values[k] == Uncut(w, x, digit, k) % U32_SIZE
      invariant i > 0 ==> carry == CarryIn(w, x, digit, i - 1)
    {
      i := i - 1;
      var product := values[i] * x;
      CarryBound(values[i], x);
      values[i] := (carry + product % U32_SIZE) % U32_SIZE;
      carry := product / U32_SIZE;
    }
    assert values[..] == [values[0], values[1], values[2], values[3]];
  }

  /** Pass one of `decode_key_table`; i is always 16 times the nibble being replaced. */
  method ScrambleNibbles(words: array<U32>)
    requires words.Length == 4
    modifies words
    ensures words[..] == PassOne(old(words[..]), 0)
  {
    hide Row, Translate, Xor, Keyed, Scrambled, SetNib, Nib, Keys;
    ghost var was: Words := words[..];
    var nibble: int, i: int := 29, 464;
    while i >= 0
      invariant -1 <= nibble <= 29 && i == 16 * nibble
      invariant words[..] == PassOne(was, nibble + 1)
      decreases i
    {
      var v := KeyedByOthers(words, nibble, i);
      ghost var w: Words := words[..];
      FlatRound(nibble, 0, v);
      ScrambledIs(w, nibble, v);
      PutNibble(words, nibble, Translate(v + i));
      nibble := nibble - 1;
      i := i - 16;
    }
  }

  lemma ScrambledIs(w: Words, n: nat, v: Nibble)
    requires n < 30 && |Row(n)| == 16 && v == Keyed(Row(n), Keys(w, n, 0), Nib(w, n))
    ensures Step(w, n) == SetNib(w, n, Row(n)[v])
  {}

  /** Keying with nibble j extends the keys by it. */
  lemma KeyRound(w: Words, n: nat, j: nat, start: Nibble, v: Nibble)
    requires n < 30 && j < 30 && j != n && |Row(n)| == 16
    requires v == Keyed(Row(n), Keys(w, n, j + 1), start)
    ensures Xor(Nib(w, j), Translate(v + 16 * n) + 16 * n) < 480
    ensures Translate(Xor(Nib(w, j), Translate(v + 16 * n) + 16 * n)) == Keyed(Row(n), Keys(w, n, j), start)
  {
    hide Row, Translate, Xor, Mixed, Nib;
    FlatRound(n, Nib(w, j), v);
    var keys := Keys(w, n, j + 1);
    assert Keys(w, n, j) == keys + [Nib(w, j)];
    assert (keys + [Nib(w, j)])[..|keys|] == keys;
  }

  lemma NoKeysYet(w: Words, n: nat, start: Nibble)
    requires n < 30
    ensures |Row(n)| == 16 && Keyed(Row(n), Keys(w, n, 30), start) == start && Keys(w, n, n) == Keys(w, n, n + 1)
  {
    TranslateAt(n, 0);
    hide Row, Nib;
  }

  /** The two inner loops: nibble n after a round for each of the others, from 29 down. */
  method KeyedByOthers(words: array<U32>, n: nat, i: nat) returns (v: Nibble)
    requires words.Length == 4 && n < 30 && i == 16 * n
    ensures |Row(n)| == 16 && v == Keyed(Row(n), Keys(words[..], n, 0), Nib(words[..], n))
  {
    hide Row, Translate, Xor, Mixed, Nib, Keys, Keyed;
    ghost var w: Words := words[..];
    v := Nib(words[..], n);
    NoKeysYet(w, n, v);
    var start := v;
    var j := 29;
    if i < 464 {
      while j > n
        invariant n <= j <= 29
        invariant v == Keyed(Row(n), Keys(w, n, j + 1), start)
      {
        KeyRound(w, n, j, start, v);
        v := Translate(Xor(Nib(words[..], j), Translate(v + i) + i));
        j := j - 1;
      }
    }
    j := n - 1;
    while j >= 0
      invariant -1 <= j < n
      invariant v == Keyed(Row(n), Keys(w, n, j + 1), start)
    {
      KeyRound(w, n, j, start, v);
      v := Translate(Xor(Nib(words[..], j), Translate(v + i) + i));
      j := j - 1;
    }
  }

  /** Replaces nibble n: clear it, then or the new one in. */
  method PutNibble(words: array<U32>, n: nat, v: Nibble)
    requires words.Length == 4 && n < 30
    modifies words
    ensures words[..] == SetNib(old(words[..]), n, v)
  {
    hide DigitAt, SetDigit;
    ghost var w: Words := words[..];
    words[3 - n / 8] := SetNib(words[..], n, v)[3 - n / 8];
    assert words[..] == w[3 - n / 8 := SetNib(w, n, v)[3 - n / 8]];
  }

  lemma NextSource(to: nat)
    ensures 11 * (to + 1) % 120 == if 11 * to % 120 + 11 >= 120 then 11 * to % 120 + 11 - 120 else 11 * to % 120 + 11
  {}

  /** Pass two of `decode_key_table`. */
  method SpreadBits(words: array<U32>)
    requires words.Length == 4
    modifies words
    ensures words[..] == PassTwo(old(words[..]), 120)
  {
    hide Bit, SetBit, PassTwo;
    var copy: Words := words[..];
    var from := 0;
    PassTwoStep(copy, 0);
    for to := 0 to 120
      invariant from == 11 * to % 120
      invariant words[..] == PassTwo(copy, to)
    {
      PassTwoStep(copy, to + 1);
      var next := SetBit(words[..], to, Bit(copy, from));
      OneWordChanges(words[..], to, Bit(copy, from));
      words[3 - to / 32] := next[3 - to / 32];
      assert words[..] == next;
      NextSource(to);
      from := from + 11;
      if from >= 120 { from := from - 120; }
    }
  }

  lemma PassTwoStep(w: Words, m: nat)
    requires m <= 120
    ensures PassTwo(w, m) == if m == 0 then w else SetBit(PassTwo(w, m - 1), m - 1, Bit(w, 11 * (m - 1) % 120))
  {
    hide Bit, SetBit;
  }

  lemma OneWordChanges(w: Words, k: nat, v: Binary)
    requires k < 128
    ensures SetBit(w, k, v) == w[3 - k / 32 := SetBit(w, k, v)[3 - k / 32]]
  {
    hide SetDigit;
  }

  /** `decode_key_table`. */
  method DecodeKeyTable(words: array<U32>)
    requires words.Length == 4
    modifies words
    ensures words[..] == Permuted(old(words[..]))
  {
    ScrambleNibbles(words);
    SpreadBits(words);
  }

  lemma NextPlaces(j: nat)
    ensures (Place(2 * j) + 0x7B5) % 52 == Place(2 * j + 1)
    ensures ((0x21 + 0x7B5 * (2 * j)) % 52 + 0x7B5) % 52 == Place(2 * j)
  {
    ModAdd(0x21 + 0x7B5 * (2 * j + 1), 0x7B5);
    ModAdd(0x21 + 0x7B5 * (2 * j), 0x7B5);
  }

  lemma ModAdd(a: nat, c: nat)
    ensures (a % 52 + c) % 52 == (a + c) % 52
  {
    DivModUnique(a / 52 + (a % 52 + c) / 52, 52, (a % 52 + c) % 52);
  }

  /** The table holds the first m digits of the key. */
  ghost predicate HoldsDigits(table: seq<Digit5>, key: seq<Byte>, m: nat)
    requires |table| == 52 && |key| == KEY_LENGTH && m <= 52
  {
    forall k: nat :: k < m ==>
      KeyMap(Upper(key[k / 2])) != NO_ENTRY && Place(k) < 52 && table[Place(k)] == Half(key, k)
  }

  /** A digit put in its place displaces none of those before it. */
  lemma DigitStored(table: seq<Digit5>, key: seq<Byte>, m: nat)
    requires |table| == 52 && |key| == KEY_LENGTH && m < 52 && HoldsDigits(table, key, m)
    requires KeyMap(Upper(key[m / 2])) != NO_ENTRY
    ensures Place(m) < 52 && HoldsDigits(table[Place(m) := Half(key, m)], key, m + 1)
  {
    hide Place, Half, KeyMap, Upper;
    PlacesAreAPermutation(m);
    forall k: nat | k < m ensures Place(k) < 52 && Place(k) != Place(m) {
      PlacesAreAPermutation(k);
    }
  }

  /** The first loop of `decode`: every character adds two digits, unless the key map has no entry for it. */
  method FillTable(key: seq<Byte>, table: array<Digit5>) returns (ok: bool)
    requires |key| == KEY_LENGTH && table.Length == 52
    modifies table
    ensures ok <==> forall j :: 0 <= j < KEY_LENGTH ==> KeyMap(Upper(key[j])) != NO_ENTRY
    ensures ok ==> HoldsDigits(table[..], key, 52)
  {
    hide KeyMap, Upper, Place, HoldsDigits, Half;
    var b := 0x21;
    NothingHeld(table[..], key);
    for j := 0 to KEY_LENGTH
      invariant forall k :: 0 <= k < j ==> KeyMap(Upper(key[k])) != NO_ENTRY
      invariant b == (0x21 + 0x7B5 * (2 * j)) % 52
      invariant HoldsDigits(table[..], key, 2 * j)
    {
      NextPlaces(j);
      var a := (b + 0x7B5) % 52;
      b := (a + 0x7B5) % 52;
      NextStart(j);
      var v := KeyMap(Upper(key[j]));
      if v == NO_ENTRY { return false; }
      HalvesOf(key, j);
      ghost var was := table[..];
      ghost var half: seq<Digit5> := was[a := v / 5];
      DigitStored(was, key, 2 * j);
      DigitStored(half, key, 2 * j + 1);
      table[a] := v / 5;
      table[b] := v % 5;
      assert table[..] == half[b := v % 5];
    }
    return true;
  }

  lemma NothingHeld(table: seq<Digit5>, key: seq<Byte>)
    requires |table| == 52 && |key| == KEY_LENGTH
    ensures HoldsDigits(table, key, 0)
  {}

  lemma NextStart(j: nat)
    ensures Place(2 * j + 1) == (0x21 + 0x7B5 * (2 * (j + 1))) % 52
  {}

  lemma HalvesOf(key: seq<Byte>, j: nat)
    requires |key| == KEY_LENGTH && j < KEY_LENGTH && KeyMap(Upper(key[j])) != NO_ENTRY
    ensures Half(key, 2 * j) == KeyMap(Upper(key[j])) / 5 && Half(key, 2 * j + 1) == KeyMap(Upper(key[j])) % 5
  {
    hide KeyMap, Upper;
    assert 2 * j / 2 == j && (2 * j + 1) / 2 == j && 2 * j % 2 == 0 && (2 * j + 1) % 2 == 1;
  }

  lemma TableFilled(table: seq<Digit5>, key: seq<Byte>)
    requires |table| == 52 && WellFormed(key) && HoldsDigits(table, key, 52)
    ensures table == TableOf(key)
  {
    hide Place, Source, Half, KeyMap, Upper, Alphanumeric;
    forall p: nat | p < 52 ensures Source(p) < 52 && table[p] == Half(key, Source(p)) {
      PlacesAreAPermutation(p);
      SourceBound(p);
      assert KeyMap(Upper(key[Source(p) / 2])) != NO_ENTRY;
    }
  }

  /** The second loop of `decode`. */
  method Accumulate(table: array<Digit5>, values: array<U32>)
    requires table.Length == 52 && values.Length == 4 && values[..] == [0, 0, 0, 0]
    modifies values
    ensures table[..] == old(table[..]) && values[..] == Accumulated(old(table[..]), 0)
  {
    hide Mult;
    ghost var t: Table := table[..];
    var i := 52;
    while i > 0
      invariant 0 <= i <= 52 && table[..] == t
      invariant values[..] == Accumulated(t, i)
    {
      i := i - 1;
      MultiplyAdd(values, 5, table[i]);
    }
  }

  /** `CdKeyW3::decode`. */
  method Decode(key: seq<Byte>) returns (r: Decoding)
    ensures r == Decoded(key)
  {
    hide KeyMap, Permuted, Extracted, Upper, Alphanumeric, Accumulated, HoldsDigits, TableOf;
    if |key| != KEY_LENGTH || exists j :: 0 <= j < KEY_LENGTH && !Alphanumeric(key[j]) {
      return Rejected;
    }
    var table := new Digit5[52](_ => 0);
    var ok := FillTable(key, table);
    if !ok { return Rejected; }
    TableFilled(table[..], key);
    var values := new U32[4](_ => 0);
    assert values[..] == [0, 0, 0, 0];
    Accumulate(table, values);
    DecodeKeyTable(values);
    r := Extracted(values[..]);
  }
}
