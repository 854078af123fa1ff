/**
 The HCL string: each character is folded together with an occupied slot's handicap into a handicap
 value no player can choose, from which the map recovers both.
 */
module Hcl {
  import opened Bytes
  import opened Lobby

  /** "abcdefghijklmnopqrstuvwxyz0123456789 -=,." as bytes. */
  const HCL_CHARS: seq<Byte> :=
    [97, 98, 99, 100, 101, 102, 103, 104, 105, 106, 107, 108,
     109, 110, 111, 112, 113, 114, 115, 116, 117, 118, 119, 120,
     121, 122, 48, 49, 50, 51, 52, 53, 54, 55, 56, 57, 32, 45, 61, 44, 46]

  /** The full stop, the last of them. */
  const DOT: Byte := 46

  predicate Choosable(h: int) {
    h == 50 || h == 60 || h == 70 || h == 80 || h == 90 || h == 100
  }

  /** The handicap values that are never used as codes. */
  predicate Plain(h: int) {
    h == 0 || Choosable(h)
  }

  // ---- codes ----

  /** Entry k of the encoding map: the codes in order, the plain values passed over. */
  function Code(k: nat): (v: nat)
    ensures !Plain(v) && v > k
  {
    if k == 0 then 1
    else
      var j := Code(k - 1) + 1;
      if Plain(j) then j + 1 else j
  }

  /** How many plain values lie below v. */
  function PlainBelow(v: nat): nat {
    (if v > 0 then 1 else 0) + (if v > 50 then 1 else 0) + (if v > 60 then 1 else 0) + (if v > 70 then 1 else 0)
    + (if v > 80 then 1 else 0) + (if v > 90 then 1 else 0) + if v > 100 then 1 else 0
  }

  /** Which entry of the encoding map a code is. */
  function Entry(v: nat): int {
    v - PlainBelow(v)
  }

  lemma {:induction false} EntryOfCode(k: nat)
    ensures Entry(Code(k)) == k && Code(k) <= k + 7
  {
    if k > 0 { EntryOfCode(k - 1); }
  }

  // ---- one slot ----

  function HandicapIndex(h: Byte): nat {
    (if h < 50 then 0 else h - 50) / 10
  }

  /** What the map makes of a code: a character number and a handicap. */
  function CharOf(v: nat): int {
    Entry(v) / 6
  }

  function HandicapOf(v: nat): int {
    50 + Entry(v) % 6 * 10
  }

  /** Where the encoding map is looked up for a handicap and a character number. */
  function MapIndex(h: Byte, c: nat): nat {
    HandicapIndex(h) + c * 6
  }

  /** What the 256-entry map holds there: codes past 255 have wrapped round. */
  function Stored(h: Byte, c: nat): Byte {
    Code(MapIndex(h, c)) % 0x100
  }

  /** The lookup leaves the map for one character only, the full stop, and only for handicaps from 210 on. */
  lemma IndexInMapIff(h: Byte, c: nat)
    requires c < |HCL_CHARS|
    ensures MapIndex(h, c) < 256 <==> !(h >= 210 && c == CharIndex(DOT, 0))
  {
    DotIsLast();
    hide CharIndex;
  }

  lemma DotIsLast()
    ensures CharIndex(DOT, 0) == 40
  {
    hide CharIndex;
    LastChar(0);
  }

  lemma {:induction false} LastChar(i: nat)
    requires i <= 40
    ensures CharIndex(DOT, i) == 40
    decreases 40 - i
  {
    assert HCL_CHARS[40] == DOT;
    assert i < 40 ==> HCL_CHARS[i] != DOT;
    if i < 40 { LastChar(i + 1); }
  }

  lemma WrappedCode(k: nat)
    ensures k < 249 ==> Code(k) < 0x100
    ensures 249 <= k < 256 ==> Code(k) % 0x100 == k - 249
  {
    EntryOfCode(k);
    hide Code;
  }

  /**
   Of what the map stores for a slot, the character survives exactly when the handicap is below 110, and
   both do exactly when a player could have chosen it.
   */
  lemma SlotRoundTripIff(h: Byte, c: nat)
    requires c < |HCL_CHARS| && MapIndex(h, c) < 256
    ensures CharOf(Stored(h, c)) == c <==> h < 110
    ensures CharOf(Stored(h, c)) == c && HandicapOf(Stored(h, c)) == h <==> Choosable(h)
    ensures h < 110 ==> !Plain(Stored(h, c)) && Stored(h, c) == Code(MapIndex(h, c))
  {
    var i, k := HandicapIndex(h), MapIndex(h, c);
    EntryOfCode(k);
    WrappedCode(k);
    hide Code, Entry, Plain;
    IndexTells(h);
    if i < 6 {
      SixesApart(i, c);
    } else if k < 249 {
      SixesOver(i, c);
    } else {
      SmallEntry(k - 249);
    }
  }

  lemma IndexTells(h: Byte)
    ensures (h < 110 <==> HandicapIndex(h) < 6) && HandicapIndex(h) <= 20
    ensures h < 110 ==> (50 + HandicapIndex(h) * 10 == h <==> Choosable(h))
    ensures Choosable(h) ==> h < 110
  {}

  lemma SixesApart(i: nat, c: nat)
    requires i < 6
    ensures (i + c * 6) / 6 == c && (i + c * 6) % 6 == i
  {}

  lemma SixesOver(i: nat, c: nat)
    requires i >= 6
    ensures (i + c * 6) / 6 > c
  {}

  lemma SmallEntry(v: nat)
    requires v < 7
    ensures 0 <= Entry(v) < 6
  {}

  // ---- the whole string ----

  function CharIndex(c: Byte, i: nat): (k: nat)
    requires i <= |HCL_CHARS|
    ensures i <= k <= |HCL_CHARS|
    ensures k < |HCL_CHARS| ==> HCL_CHARS[k] == c
    ensures forall j :: i <= j < k ==> HCL_CHARS[j] != c
    decreases |HCL_CHARS| - i
  {
    if i == |HCL_CHARS| || HCL_CHARS[i] == c then i else CharIndex(c, i + 1)
  }

  function OccupiedCount(slots: seq<Slot>): nat {
    if slots == [] then 0 else (if slots[0].status == OCCUPIED then 1 else 0) + OccupiedCount(slots[1..])
  }

  predicate AllLegal(hcl: seq<Byte>) {
    forall i :: 0 <= i < |hcl| ==> CharIndex(hcl[i], 0) < |HCL_CHARS|
  }

  ghost predicate AllChoosable(slots: seq<Slot>) {
    forall i :: 0 <= i < |slots| && slots[i].status == OCCUPIED ==> Choosable(slots[i].handicap)
  }

  predicate Encodable(hcl: seq<Byte>, slots: seq<Slot>) {
    hcl != [] && CanFold(hcl, slots)
  }

  /** Whether what is left of the string can go into what is left of the slots. */
  predicate CanFold(hcl: seq<Byte>, slots: seq<Slot>) {
    |hcl| <= OccupiedCount(slots) && AllLegal(hcl)
  }

  /** The slots after encoding, or a lookup outside the encoding map, which stops the program. */
  datatype Outcome = Panicked | Encoded(slots: seq<Slot>)

  function Behind(done: seq<Slot>, r: Outcome): Outcome {
    match r case Panicked => Panicked case Encoded(rest) => Encoded(done + rest)
  }

  /** Slots with the characters folded into the first occupied ones. */
  function Folded(hcl: seq<Byte>, slots: seq<Slot>): (r: Outcome)
    requires CanFold(hcl, slots)
    ensures r.Encoded? ==> |r.slots| == |slots|
    decreases |slots|
  {
    if hcl == [] then Encoded(slots)
    else if slots[0].status != OCCUPIED then Behind([slots[0]], Folded(hcl, slots[1..]))
    else
      var h, c := slots[0].handicap, CharIndex(hcl[0], 0);
      if MapIndex(h, c) >= 256 then Panicked
      else Behind([slots[0].(handicap := Stored(h, c))], Folded(hcl[1..], slots[1..]))
  }

  /** The occupied slots, in order: the i-th character goes into the i-th of them. */
  function Seats(slots: seq<Slot>): (r: seq<Slot>)
    ensures |r| == OccupiedCount(slots)
  {
    if slots == [] then []
    else (if slots[0].status == OCCUPIED then [slots[0]] else []) + Seats(slots[1..])
  }

  ghost predicate DotOnHighHandicap(hcl: seq<Byte>, slots: seq<Slot>)
    requires |hcl| <= OccupiedCount(slots)
  {
    exists i :: 0 <= i < |hcl| && hcl[i] == DOT && Seats(slots)[i].handicap >= 210
  }

  /** Encoding panics exactly when a full stop is to go into a slot with a handicap of 210 or more. */
  lemma {:induction false} FoldPanicsIff(hcl: seq<Byte>, slots: seq<Slot>)
    requires CanFold(hcl, slots)
    ensures Folded(hcl, slots).Panicked? <==> DotOnHighHandicap(hcl, slots)
    decreases |slots|
  {
    hide CharIndex, MapIndex, Stored;
    if hcl != [] {
      if slots[0].status != OCCUPIED {
        assert Seats(slots) == Seats(slots[1..]);
        FoldPanicsIff(hcl, slots[1..]);
      } else {
        FoldPanicsIff(hcl[1..], slots[1..]);
        CharTellsDot(hcl[0]);
        IndexInMapIff(slots[0].handicap, CharIndex(hcl[0], 0));
        FirstOrLater(hcl, slots);
      }
    }
  }

  lemma CharTellsDot(c: Byte)
    ensures CharIndex(c, 0) < |HCL_CHARS| ==> (CharIndex(c, 0) == CharIndex(DOT, 0) <==> c == DOT)
  {
    DotIsLast();
    hide CharIndex;
  }

  lemma FirstOrLater(hcl: seq<Byte>, slots: seq<Slot>)
    requires hcl != [] && |hcl| <= OccupiedCount(slots) && slots[0].status == OCCUPIED
    ensures DotOnHighHandicap(hcl, slots)
            <==> (hcl[0] == DOT && slots[0].handicap >= 210) || DotOnHighHandicap(hcl[1..], slots[1..])
  {
    assert forall i :: 0 <= i < |hcl| - 1 ==> hcl[1..][i] == hcl[i + 1] && Seats(slots[1..])[i] == Seats(slots)[i + 1];
    if DotOnHighHandicap(hcl[1..], slots[1..]) {
      var i :| 0 <= i < |hcl| - 1 && hcl[1..][i] == DOT && Seats(slots[1..])[i].handicap >= 210;
      assert hcl[i + 1] == DOT && Seats(slots)[i + 1].handicap >= 210;
    }
    if DotOnHighHandicap(hcl, slots) {
      var i :| 0 <= i < |hcl| && hcl[i] == DOT && Seats(slots)[i].handicap >= 210;
      assert i > 0 ==> hcl[1..][i - 1] == DOT && Seats(slots[1..])[i - 1].handicap >= 210;
    }
  }

  /** The string "." and one seat with handicap 210: the lookup is at 256 in a map of 256. */
  lemma DotPanicsAt210(slot: Slot)
    requires slot.status == OCCUPIED && slot.handicap == 210
    ensures CanFold([DOT], [slot]) && MapIndex(210, CharIndex(DOT, 0)) == 256 && Folded([DOT], [slot]) == Panicked
  {
    DotIsLast();
    hide CharIndex;
    assert OccupiedCount([slot]) == 1;
  }

  /** The map's side: occupied slots whose handicap is a code, in order. */
  function Unfolded(slots: seq<Slot>): (seq<int>, seq<Slot>)
  {
    if slots == [] then ([], [])
    else
      var s := slots[0];
      var (chars, rest) := Unfolded(slots[1..]);
      if s.status == OCCUPIED && !Plain(s.handicap) then
        ([CharOf(s.handicap)] + chars, [s.(handicap := HandicapOf(s.handicap) % 0x100)] + rest)
      else (chars, [s] + rest)
  }

  function CharIndices(hcl: seq<Byte>): seq<int> {
    seq(|hcl|, i requires 0 <= i < |hcl| => CharIndex(hcl[i], 0))
  }

  lemma {:induction false} NothingFolded(slots: seq<Slot>)
    requires forall i :: 0 <= i < |slots| && slots[i].status == OCCUPIED ==> Plain(slots[i].handicap)
    ensures Unfolded(slots) == ([], slots)
  {
    if slots != [] {
      NothingFolded(slots[1..]);
      assert slots == [slots[0]] + slots[1..];
    }
  }

  lemma ChoosableIsSmall(h: Byte)
    ensures Choosable(h) ==> 50 <= h <= 100
  {}

  lemma FoldedSlot(slot: Slot, c: nat)
    requires Choosable(slot.handicap) && c < |HCL_CHARS|
    ensures
      var s := slot.(handicap := Stored(slot.handicap, c));
      && MapIndex(slot.handicap, c) < 256 && !Plain(s.handicap) && CharOf(s.handicap) == c
      && s.(handicap := HandicapOf(s.handicap) % 0x100) == slot
  {
    hide CharOf, HandicapOf, Choosable, MapIndex, Stored, CharIndex;
    ChoosableIsSmall(slot.handicap);
    IndexInMapIff(slot.handicap, c);
    SlotRoundTripIff(slot.handicap, c);
  }

  /** Decoding recovers the string and every handicap, and every slot that carries a character is told apart. */
  lemma {:induction false} RoundTrip(hcl: seq<Byte>, slots: seq<Slot>)
    requires CanFold(hcl, slots) && AllChoosable(slots)
    ensures Folded(hcl, slots).Encoded? && Unfolded(Folded(hcl, slots).slots) == (CharIndices(hcl), slots)
    decreases |slots|
  {
    hide CharIndex, HandicapOf, CharOf, MapIndex, Stored;
    if hcl == [] {
      NothingFolded(slots);
      assert CharIndices(hcl) == [];
    } else {
      assert slots == [slots[0]] + slots[1..];
      if slots[0].status != OCCUPIED {
        RoundTrip(hcl, slots[1..]);
        assert Folded(hcl, slots).slots[1..] == Folded(hcl, slots[1..]).slots;
      } else {
        var c := CharIndex(hcl[0], 0);
        RoundTrip(hcl[1..], slots[1..]);
        FoldedSlot(slots[0], c);
        assert Folded(hcl, slots).slots[1..] == Folded(hcl[1..], slots[1..]).slots;
        assert CharIndices(hcl) == [c] + CharIndices(hcl[1..]);
      }
    }
  }

  // ---- the loops of `event_game_started` ----

  lemma CodeStep(k: nat, j: nat)
    requires j == if k == 0 then 0 else Code(k - 1) + 1
    ensures Code(k) == if Plain(j) then j + 1 else j
  {}

  /** The encoding map, entry by entry. */
  method BuildEncodingMap() returns (m: seq<Byte>)
    ensures |m| == 256 && forall k :: 0 <= k < 256 ==> m[k] == Code(k) % 0x100
  {
    hide Code, Plain;
    m := [];
    var j: nat := 0;
    while |m| < 256
      invariant |m| <= 256 && forall k :: 0 <= k < |m| ==> m[k] == Code(k) % 0x100
      invariant j == if |m| == 0 then 0 else Code(|m| - 1) + 1
    {
      CodeStep(|m|, j);
      if Plain(j) { j := j + 1; }
      m := m + [j % 0x100];
      j := j + 1;
    }
  }

  method CountOccupied(slots: seq<Slot>) returns (n: nat)
    ensures n == OccupiedCount(slots)
  {
    n := 0;
    var i := |slots|;
    while i > 0
      invariant 0 <= i <= |slots| && n == OccupiedCount(slots[i..])
    {
      i := i - 1;
      assert slots[i..][1..] == slots[i + 1..];
      if slots[i].status == OCCUPIED { n := n + 1; }
    }
    assert slots[0..] == slots;
  }

  /** The scan for the next occupied slot; it never runs off the end. */
  method NextOccupied(slots: seq<Slot>, from: nat, ghost hcl: seq<Byte>) returns (sid: nat)
    requires from <= |slots| && hcl != [] && CanFold(hcl, slots[from..])
    ensures from <= sid < |slots| && slots[sid].status == OCCUPIED && CanFold(hcl, slots[sid..])
    ensures forall k :: from <= k < sid ==> slots[k].status != OCCUPIED
    ensures Folded(hcl, slots[from..]) == Behind(slots[from..sid], Folded(hcl, slots[sid..]))
  {
    hide CanFold, Folded;
    sid := from;
    CanFoldMeans(hcl, slots[sid..]);
    NothingBefore(slots[from..sid], Folded(hcl, slots[sid..]));
    while slots[sid].status != OCCUPIED
      invariant from <= sid < |slots| && CanFold(hcl, slots[sid..])
      invariant forall k :: from <= k < sid ==> slots[k].status != OCCUPIED
      invariant Folded(hcl, slots[from..]) == Behind(slots[from..sid], Folded(hcl, slots[sid..]))
      decreases |slots| - sid
    {
      Skipped(hcl, slots[sid..]);
      assert slots[sid..][1..] == slots[sid + 1..];
      assert slots[from..sid + 1] == slots[from..sid] + [slots[sid]];
      BehindTwice(slots[from..sid], [slots[sid]], Folded(hcl, slots[sid + 1..]));
      sid := sid + 1;
      CanFoldMeans(hcl, slots[sid..]);
    }
  }

  /** The HCL part of `event_game_started`: a string that does not fit, or with a character not allowed, is left out. */
  method EncodeHcl(hcl: seq<Byte>, slots: seq<Slot>) returns (r: Outcome)
    ensures r == if Encodable(hcl, slots) then Folded(hcl, slots) else Encoded(slots)
  {
    hide Code, CharIndex, HandicapIndex, Folded, OccupiedCount, AllLegal, Stored;
    var occupied := CountOccupied(slots);
    if hcl == [] || |hcl| > occupied || !AllLegal(hcl) { return Encoded(slots); }
    assert hcl[0..] == hcl && slots[0..] == slots && CanFold(hcl, slots) && Encodable(hcl, slots);
    var done, cur := slots, 0;
    NothingBefore(done[..0], Folded(hcl, slots));
    hide CanFold, Encodable, Behind;
    var m := BuildEncodingMap();
    for i := 0 to |hcl|
      invariant cur <= |slots| == |done| && done[cur..] == slots[cur..] && CanFold(hcl[i..], slots[cur..])
      invariant Folded(hcl, slots) == Behind(done[..cur], Folded(hcl[i..], slots[cur..]))
    {
      var sid := NextOccupied(slots, cur, hcl[i..]);
      Carried(hcl[i..], slots[sid..]);
      assert slots[sid..][1..] == slots[sid + 1..] && hcl[i..][1..] == hcl[i + 1..];
      assert done[sid] == done[cur..][sid - cur] == slots[sid];
      var at := HandicapIndex(done[sid].handicap) + CharIndex(hcl[i], 0) * 6;
      assert at == MapIndex(slots[sid].handicap, CharIndex(hcl[i], 0));
      if at >= 256 {
        NeverBehind(done[..cur], slots[cur..sid]);
        return Panicked;
      }
      StoredIs(slots[sid].handicap, CharIndex(hcl[i], 0));
      SeatWritten(slots, done, cur, sid, slots[sid].(handicap := m[at]), Folded(hcl[i + 1..], slots[sid + 1..]));
      done := done[sid := done[sid].(handicap := m[at])];
      cur := sid + 1;
    }
    Finished(hcl[|hcl|..], slots[cur..]);
    assert done == done[..cur] + done[cur..];
    PlacedBehind(done[..cur], done[cur..]);
    return Encoded(done);
  }

  lemma StoredIs(h: Byte, c: nat)
    ensures Stored(h, c) == Code(MapIndex(h, c)) % 0x100
  {}

  lemma NothingBefore(done: seq<Slot>, r: Outcome)
    requires done == []
    ensures Behind(done, r) == r
  {
    if r.Encoded? { assert done + r.slots == r.slots; }
  }

  lemma BehindTwice(a: seq<Slot>, b: seq<Slot>, r: Outcome)
    ensures Behind(a, Behind(b, r)) == Behind(a + b, r)
  {
    if r.Encoded? { assert a + (b + r.slots) == a + b + r.slots; }
  }

  lemma NeverBehind(a: seq<Slot>, b: seq<Slot>)
    ensures Behind(a, Behind(b, Panicked)) == Panicked
  {}

  lemma PlacedBehind(a: seq<Slot>, b: seq<Slot>)
    ensures Behind(a, Encoded(b)) == Encoded(a + b)
  {}

  lemma SeatWritten(slots: seq<Slot>, done: seq<Slot>, cur: nat, sid: nat, seat: Slot, rest: Outcome)
    requires cur <= sid < |slots| == |done| && done[cur..] == slots[cur..]
    ensures done[sid := seat][sid + 1..] == slots[sid + 1..]
    ensures Behind(done[..cur], Behind(slots[cur..sid], Behind([seat], rest)))
            == Behind(done[sid := seat][..sid + 1], rest)
  {
    assert done[cur..sid] == done[cur..][..sid - cur] == slots[cur..sid];
    assert done[sid := seat][..sid + 1] == done[..cur] + slots[cur..sid] + [seat];
    assert done[sid + 1..] == done[cur..][sid + 1 - cur..] == slots[sid + 1..];
    BehindTwice(done[..cur], slots[cur..sid], Behind([seat], rest));
    BehindTwice(done[..cur] + slots[cur..sid], [seat], rest);
  }

  lemma CanFoldMeans(hcl: seq<Byte>, slots: seq<Slot>)
    requires CanFold(hcl, slots) && hcl != []
    ensures slots != []
  {}

  lemma Skipped(hcl: seq<Byte>, slots: seq<Slot>)
    requires hcl != [] && CanFold(hcl, slots) && slots != [] && slots[0].status != OCCUPIED
    ensures CanFold(hcl, slots[1..]) && Folded(hcl, slots) == Behind([slots[0]], Folded(hcl, slots[1..]))
  {
    hide Stored, CharIndex;
  }

  lemma Carried(hcl: seq<Byte>, slots: seq<Slot>)
    requires hcl != [] && CanFold(hcl, slots) && slots != [] && slots[0].status == OCCUPIED
    ensures CharIndex(hcl[0], 0) < |HCL_CHARS| && CanFold(hcl[1..], slots[1..])
    ensures
      var h, c := slots[0].handicap, CharIndex(hcl[0], 0);
      Folded(hcl, slots)
      == if MapIndex(h, c) >= 256 then Panicked
         else Behind([slots[0].(handicap := Stored(h, c))], Folded(hcl[1..], slots[1..]))
  {
    hide Stored, CharIndex;
  }

  lemma Finished(hcl: seq<Byte>, slots: seq<Slot>)
    requires hcl == [] && CanFold(hcl, slots)
    ensures Folded(hcl, slots) == Encoded(slots)
  {}
}
