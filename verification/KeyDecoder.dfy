/** Decoding a 26-character Warcraft III key into the three values sent at login. */
module KeyDecoder {
  import opened Bytes
  import opened Digits
  import opened KeyNumber
  import opened KeyScramble
  import opened KeyWords

  datatype Decoding = Rejected | Accepted(product: U32, value1: U32, value2: seq<Byte>)

  const KEY_LENGTH := 26
  const NO_ENTRY: Byte := 0xFF

  function Upper(c: Byte): Byte {
    if 97 <= c <= 122 then c - 32 else c
  }

  predicate Alphanumeric(c: Byte) {
    48 <= c <= 57 || 65 <= c <= 90 || 97 <= c <= 122
  }

  /** The key map's entry for an upper-case character: its place in "246789BCDEFGHJKMNPRTVWXYZ". */
  function KeyMap(c: Byte): (v: Byte)
    ensures v < 25 || v == NO_ENTRY
  {
    if c == 50 then 0
    else if c == 52 then 1
    else if c == 54 then 2
    else if c == 55 then 3
    else if c == 56 then 4
    else if c == 57 then 5
    else if c == 66 then 6
    else if c == 67 then 7
    else if c == 68 then 8
    else if c == 69 then 9
    else if c == 70 then 10
    else if c == 71 then 11
    else if c == 72 then 12
    else if c == 74 then 13
    else if c == 75 then 14
    else if c == 77 then 15
    else if c == 78 then 16
    else if c == 80 then 17
    else if c == 82 then 18
    else if c == 84 then 19
    else if c == 86 then 20
    else if c == 87 then 21
    else if c == 88 then 22
    else if c == 89 then 23
    else if c == 90 then 24
    else NO_ENTRY
  }

  lemma KeyMapIsInjective(c: Byte, d: Byte)
    requires KeyMap(c) == KeyMap(d) != NO_ENTRY
    ensures c == d
  {}

  predicate WellFormed(key: seq<Byte>) {
    |key| == KEY_LENGTH && forall j :: 0 <= j < KEY_LENGTH ==> Alphanumeric(key[j]) && KeyMap(Upper(key[j])) != NO_ENTRY
  }

  // ---- the table ----

  /** Where the m-th base-5 digit of the key goes. */
  function Place(m: nat): nat {
    (0x21 + 0x7B5 * (m + 1)) % 52
  }

  /** Which digit goes to place p. */
  function Source(p: nat): nat {
    (17 * p + 10) % 52
  }

  lemma PlaceReduced(m: nat)
    ensures Place(m) == (30 + 49 * m) % 52
  {
    var q := (30 + 49 * m) / 52;
    DivModUnique(38 + 37 * m + q, 52, 30 + 49 * m - 52 * q);
  }

  /** The 52 digits land on 52 different places of the table. */
  lemma PlacesAreAPermutation(m: nat)
    requires m < 52
    ensures Place(m) < 52 && Source(Place(m)) == m && Place(Source(m)) == m
  {
    var q, r := (30 + 49 * m) / 52, (17 * m + 10) / 52;
    DivModUnique(10 + 16 * m - 17 * q, 52, m);
    DivModUnique(10 + 16 * m - 49 * r, 52, m);
    PlaceReduced(m);
    PlaceReduced(Source(m));
  }

  /** The key's m-th base-5 digit: each character is worth two. */
  function Half(key: seq<Byte>, m: nat): Digit5
    requires |key| == KEY_LENGTH && m < 52 && KeyMap(Upper(key[m / 2])) != NO_ENTRY
  {
    var v := KeyMap(Upper(key[m / 2]));
    if m % 2 == 0 then v / 5 else v % 5
  }

  function TableOf(key: seq<Byte>): Table
    requires WellFormed(key)
  {
    seq(52, p requires 0 <= p < 52 => Half(key, Source(p)))
  }

  lemma SameHalf(key: seq<Byte>, other: seq<Byte>, m: nat)
    requires WellFormed(key) && WellFormed(other) && TableOf(key) == TableOf(other) && m < 52
    ensures Half(key, m) == Half(other, m)
  {
    hide Half, KeyMap, Source, Place;
    PlacesAreAPermutation(m);
    assert TableOf(key)[Place(m)] == TableOf(other)[Place(m)];
  }

  lemma SameTable(key: seq<Byte>, other: seq<Byte>)
    requires WellFormed(key) && WellFormed(other) && TableOf(key) == TableOf(other)
    ensures forall j :: 0 <= j < KEY_LENGTH ==> Upper(key[j]) == Upper(other[j])
  {
    forall j | 0 <= j < KEY_LENGTH ensures Upper(key[j]) == Upper(other[j]) {
      SameHalf(key, other, 2 * j);
      SameHalf(key, other, 2 * j + 1);
      hide KeyMap, TableOf;
      assert 2 * j / 2 == j && (2 * j + 1) / 2 == j;
      KeyMapIsInjective(Upper(key[j]), Upper(other[j]));
    }
  }

  function Letter(v: nat): Byte
    requires v < 25
  {
    if v == 0 then 50
    else if v == 1 then 52
    else if v == 2 then 54
    else if v == 3 then 55
    else if v == 4 then 56
    else if v == 5 then 57
    else if v == 6 then 66
    else if v == 7 then 67
    else if v == 8 then 68
    else if v == 9 then 69
    else if v == 10 then 70
    else if v == 11 then 71
    else if v == 12 then 72
    else if v == 13 then 74
    else if v == 14 then 75
    else if v == 15 then 77
    else if v == 16 then 78
    else if v == 17 then 80
    else if v == 18 then 82
    else if v == 19 then 84
    else if v == 20 then 86
    else if v == 21 then 87
    else if v == 22 then 88
    else if v == 23 then 89
    else 90
  }

  lemma LetterRoundTrip(v: nat)
    requires v < 25
    ensures Alphanumeric(Letter(v)) && KeyMap(Upper(Letter(v))) == v
  {}

  /** The value of the character that carries digits 2 * j and 2 * j + 1. */
  function Pair(t: Table, j: nat): (v: nat)
    requires j < KEY_LENGTH
    ensures v < 25
  {
    (t[Place(2 * j)] as int) * 5 + (t[Place(2 * j + 1)] as int)
  }

  /** A key spelling a given table. */
  function KeyOf(t: Table): seq<Byte> {
    seq(KEY_LENGTH, j requires 0 <= j < KEY_LENGTH => Letter(Pair(t, j)))
  }

  lemma KeyOfHalf(t: Table, m: nat)
    requires m < 52 && WellFormed(KeyOf(t))
    ensures Half(KeyOf(t), m) == t[Place(m)]
  {
    var j := m / 2;
    hide Letter, KeyMap, Upper, Place;
    LetterRoundTrip(Pair(t, j));
    assert m == 2 * j || m == 2 * j + 1;
  }

  /** Every table of 52 base-5 digits is some key's. */
  lemma EveryTableHasAKey(t: Table)
    ensures WellFormed(KeyOf(t)) && TableOf(KeyOf(t)) == t
  {
    var key := KeyOf(t);
    hide Letter, KeyMap, Upper, Alphanumeric, Pair, Half, Place, Source;
    forall j | 0 <= j < KEY_LENGTH ensures Alphanumeric(key[j]) && KeyMap(Upper(key[j])) != NO_ENTRY {
      LetterRoundTrip(Pair(t, j));
    }
    forall p: nat | p < 52 ensures Source(p) < 52 && Half(key, Source(p)) == t[p] {
      PlacesAreAPermutation(p);
      SourceBound(p);
      KeyOfHalf(t, Source(p));
    }
    assert TableOf(key) == t;
  }

  lemma SourceBound(p: nat)
    ensures Source(p) < 52
  {}

  // ---- the three values ----

  /** The sixteen bytes of the words, each word most significant byte first. */
  function Memory(w: Words): (s: seq<Byte>)
    ensures |s| == 16
  {
    BigEndian(w[0]) + BigEndian(w[1]) + BigEndian(w[2]) + BigEndian(w[3])
  }

  function BigEndian(x: U32): (s: seq<Byte>)
    ensures |s| == 4
  {
    [x / 0x100_0000, x / 0x1_0000 % 0x100, x / 0x100 % 0x100, x % 0x100]
  }

  /** `x & 0xFFFFFF03`: of the low byte only two bits stay. */
  function Masked(x: U32): U32 {
    x - x % 0x100 + x % 4
  }

  function Extracted(w: Words): Decoding {
    var mem := Memory(w);
    Accepted(w[0] / 0x400, Masked(FromLe32(mem[2..6])),
             [mem[7], mem[6], mem[11], mem[10], mem[9], mem[8], mem[15], mem[14], mem[13], mem[12]])
  }

  function FromBigEndian(s: seq<Byte>): int
    requires |s| == 4
  {
    (s[0] as int) * 0x100_0000 + (s[1] as int) * 0x1_0000 + (s[2] as int) * 0x100 + (s[3] as int)
  }

  lemma BigEndianValue(x: U32)
    ensures FromBigEndian(BigEndian(x)) == x
  {
    assert x / 0x1_0000 % 0x100 == x / 0x1_0000 - x / 0x100_0000 * 0x100;
    assert x / 0x100 % 0x100 == x / 0x100 - x / 0x1_0000 * 0x100;
  }

  lemma MaskedBytes(b2: int, b3: int, b4: int, b5: int)
    requires 0 <= b2 < 0x100 && 0 <= b3 < 0x100 && 0 <= b4 < 0x100 && 0 <= b5 < 0x100
    ensures Masked(FromLe32([b2, b3, b4, b5])) == b2 % 4 + b3 * 0x100 + b4 * 0x1_0000 + b5 * 0x100_0000
  {
    var x := FromLe32([b2, b3, b4, b5]);
    assert x == b2 + 0x100 * (b3 + b4 * 0x100 + b5 * 0x1_0000);
    assert x % 0x100 == b2 && x % 4 == b2 % 4;
  }

  /** value1 packs two bits of byte 2 and bytes 3 to 5. */
  lemma Value1Packs(w: Words)
    ensures
      var s, t := BigEndian(w[0]), BigEndian(w[1]);
      Extracted(w).value1 == (s[2] as int) % 4 + (s[3] as int) * 0x100 + (t[0] as int) * 0x1_0000
                             + (t[1] as int) * 0x100_0000
  {
    var s, t := BigEndian(w[0]), BigEndian(w[1]);
    hide BigEndian;
    assert Memory(w)[2..6] == [s[2], s[3], t[0], t[1]];
    MaskedBytes(s[2], s[3], t[0], t[1]);
  }

  lemma Unpack(a: nat, b: nat, c: nat, d: nat, a': nat, b': nat, c': nat, d': nat)
    requires a < 4 && a' < 4 && b < 0x100 && b' < 0x100 && c < 0x100 && c' < 0x100
    requires a + b * 0x100 + c * 0x1_0000 + d * 0x100_0000 == a' + b' * 0x100 + c' * 0x1_0000 + d' * 0x100_0000
    ensures a == a' && b == b' && c == c' && d == d'
  {}

  lemma TopWord(x: U32)
    ensures var s := BigEndian(x); x == x / 0x400 * 0x400 + (s[2] as int) % 4 * 0x100 + (s[3] as int)
  {}

  /** product and value1 give the top word and the high half of the next. */
  lemma Value1Determines(w: Words, u: Words)
    requires Extracted(w).product == Extracted(u).product && Extracted(w).value1 == Extracted(u).value1
    ensures w[0] == u[0] && BigEndian(w[1])[..2] == BigEndian(u[1])[..2]
  {
    assert w[0] / 0x400 == u[0] / 0x400;
    hide BigEndian, Extracted;
    Value1Packs(w);
    Value1Packs(u);
    TopWord(w[0]);
    TopWord(u[0]);
    var s, t, x, y := BigEndian(w[0]), BigEndian(w[1]), BigEndian(u[0]), BigEndian(u[1]);
    Unpack(s[2] % 4, s[3], t[0], t[1], x[2] % 4, x[3], y[0], y[1]);
  }

  lemma Value2Determines(w: Words, u: Words)
    requires Extracted(w).value2 == Extracted(u).value2
    ensures w[2] == u[2] && w[3] == u[3] && BigEndian(w[1])[2..] == BigEndian(u[1])[2..]
  {
    var x, y := Extracted(w).value2, Extracted(u).value2;
    BigEndianValue(w[2]);
    BigEndianValue(u[2]);
    BigEndianValue(w[3]);
    BigEndianValue(u[3]);
    hide BigEndian;
    assert forall i :: 0 <= i < 10 ==> x[i] == y[i];
    assert x[0] == BigEndian(w[1])[3] && x[1] == BigEndian(w[1])[2];
    assert y[0] == BigEndian(u[1])[3] && y[1] == BigEndian(u[1])[2];
    assert x[2..6] == [BigEndian(w[2])[3], BigEndian(w[2])[2], BigEndian(w[2])[1], BigEndian(w[2])[0]];
    assert x[6..] == [BigEndian(w[3])[3], BigEndian(w[3])[2], BigEndian(w[3])[1], BigEndian(w[3])[0]];
  }

  /** Between them the three values hold all 128 bits. */
  lemma ExtractedDetermines(w: Words, u: Words)
    requires Extracted(w) == Extracted(u)
    ensures w == u
  {
    Value1Determines(w, u);
    Value2Determines(w, u);
    BigEndianValue(w[1]);
    BigEndianValue(u[1]);
    hide Extracted;
    var s, t := BigEndian(w[1]), BigEndian(u[1]);
    assert s == s[..2] + s[2..] && t == t[..2] + t[2..];
  }

  /** The decoder as a function. */
  function Decoded(key: seq<Byte>): Decoding {
    if WellFormed(key) then Extracted(Permuted(Accumulated(TableOf(key), 0))) else Rejected
  }

  /** For any two keys only the accumulated words decide: nothing after them loses anything. */
  lemma DecodedAlikeIffSameWords(key: seq<Byte>, other: seq<Byte>)
    requires WellFormed(key) && WellFormed(other)
    ensures Decoded(key) == Decoded(other) <==> Accumulated(TableOf(key), 0) == Accumulated(TableOf(other), 0)
  {
    hide KeyMap, Permuted, Unpermuted, Extracted, Accumulated, Upper;
    var w, u := Accumulated(TableOf(key), 0), Accumulated(TableOf(other), 0);
    if Decoded(key) == Decoded(other) {
      ExtractedDetermines(Permuted(w), Permuted(u));
      KeyTableIsPermuted(w);
      KeyTableIsPermuted(u);
    }
  }

  /**
   When no carry is dropped on the way, two keys decode alike exactly when they are the same key up to
   letter case.
   */
  lemma DecodedAlikeIffSameKey(key: seq<Byte>, other: seq<Byte>)
    requires WellFormed(key) && WellFormed(other)
    requires NothingDropped(TableOf(key), 0) && NothingDropped(TableOf(other), 0)
    ensures Decoded(key) == Decoded(other) <==> forall j :: 0 <= j < KEY_LENGTH ==> Upper(key[j]) == Upper(other[j])
  {
    hide KeyMap, Permuted, Unpermuted, Extracted, Accumulated, Spelled, Upper;
    var t, u := TableOf(key), TableOf(other);
    DecodedAlikeIffSameWords(key, other);
    if Decoded(key) == Decoded(other) {
      AccumulatedIsSpelledIff(t, 0);
      AccumulatedIsSpelledIff(u, 0);
      SpellingIsUnique(t, u, 0);
      assert t == t[0..] && u == u[0..];
      SameTable(key, other);
    }
    if forall j :: 0 <= j < KEY_LENGTH ==> Upper(key[j]) == Upper(other[j]) {
      assert forall m: nat :: m < 52 ==> Half(key, m) == Half(other, m);
      assert t == u;
    }
  }

  /** The table whose digits spell 2 to the 32: the last round multiplies 0x33333333 by 5 and adds 1. */
  const DROPPING: Table := [1, 4, 1, 3, 2, 4, 2, 0, 0, 4, 4, 2, 2, 3] + seq(38, i => 0)
  const ZEROS: Table := seq(52, i => 0)

  lemma {:induction false} LeadingZeros(t: Table, i: nat)
    requires i <= 52 && forall p :: i <= p < 52 ==> t[p] == 0
    ensures Accumulated(t, i) == [0, 0, 0, 0]
    decreases 52 - i
  {
    if i < 52 { LeadingZeros(t, i + 1); }
  }

  lemma SmallRound(t: Table, i: nat, v: nat)
    requires i < 52 && v <= 0x3333_3333 && Accumulated(t, i + 1) == [0, 0, 0, v]
    ensures Accumulated(t, i) == [0, 0, 0, (v * 5 + t[i]) % U32_SIZE]
  {}

  lemma DroppingTable()
    ensures Accumulated(DROPPING, 0) == [0, 0, 0, 0]
  {
    hide Accumulated;
    LeadingZeros(DROPPING, 14);
    SmallRound(DROPPING, 13, 0);
    SmallRound(DROPPING, 12, 3);
    SmallRound(DROPPING, 11, 17);
    SmallRound(DROPPING, 10, 87);
    SmallRound(DROPPING, 9, 439);
    SmallRound(DROPPING, 8, 2199);
    SmallRound(DROPPING, 7, 10995);
    SmallRound(DROPPING, 6, 54975);
    SmallRound(DROPPING, 5, 274877);
    SmallRound(DROPPING, 4, 1374389);
    SmallRound(DROPPING, 3, 6871947);
    SmallRound(DROPPING, 2, 34359738);
    SmallRound(DROPPING, 1, 171798691);
    SmallRound(DROPPING, 0, 858993459);
  }

  /** Two different keys that decode alike, because the carry out of the last round is dropped. */
  lemma DroppedCarryMakesKeysCollide()
    ensures var key, other := KeyOf(DROPPING), KeyOf(ZEROS);
            WellFormed(key) && WellFormed(other) && TableOf(key) != TableOf(other) && Decoded(key) == Decoded(other)
  {
    DroppingTable();
    LeadingZeros(ZEROS, 0);
    EveryTableHasAKey(DROPPING);
    EveryTableHasAKey(ZEROS);
    assert DROPPING[0] != ZEROS[0];
  }
}
