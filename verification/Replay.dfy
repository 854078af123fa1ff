/** Replay records: the blocks a recorder appends, and how a replay viewer reads them back. */
module Replay {
  import opened Batching
  import opened Bytes

  const LEAVE_GAME: Byte := 0x17
  const FIRST_START: Byte := 0x1A
  const SECOND_START: Byte := 0x1B
  const THIRD_START: Byte := 0x1C
  const TIME_SLOT2: Byte := 0x1E
  const TIME_SLOT: Byte := 0x1F
  const CHAT_MESSAGE: Byte := 0x20

  datatype Record =
    | TimeSlot(interval: U16, actions: seq<Action>)
    | TimeSlot2(actions: seq<Action>)
    | Chat(pid: Byte, flag: Byte, mode: U32, text: seq<Byte>)
    | Leave(leaver: Byte, result: U32)

  datatype Read<T> = Fail | Got(value: T, rest: seq<Byte>)

  // ---- writing ----

  function SlotBlock(id: Byte, interval: U16, actions: seq<Action>): seq<Byte> {
    var sub := Subpacket(actions);
    [id] + Le16((|sub| + 2) % 0x1_0000) + Le16(interval) + sub
  }

  function ChatBlock(pid: Byte, flag: Byte, mode: U32, text: seq<Byte>): seq<Byte> {
    [CHAT_MESSAGE, pid] + Le16((|text| + 6) % 0x1_0000) + [flag] + Le32(mode) + text + [0]
  }

  function LeaveBlock(pid: Byte, result: U32): seq<Byte> {
    [LEAVE_GAME] + Le32(1) + [pid] + Le32(result) + Le32(1)
  }

  function Block(r: Record): (s: seq<Byte>)
    ensures s != []
  {
    match r
    case TimeSlot(interval, actions) => SlotBlock(TIME_SLOT, interval, actions)
    case TimeSlot2(actions) => SlotBlock(TIME_SLOT2, 0, actions)
    case Chat(pid, flag, mode, text) => ChatBlock(pid, flag, mode, text)
    case Leave(pid, result) => LeaveBlock(pid, result)
  }

  function Blocks(records: seq<Record>): seq<Byte> {
    if records == [] then [] else Blocks(records[..|records| - 1]) + Block(records[|records| - 1])
  }

  /** The record's length fits its two-byte length field. */
  predicate Fits(r: Record) {
    match r
    case TimeSlot(_, actions) => Weight(actions) + 2 < 0x1_0000
    case TimeSlot2(actions) => Weight(actions) + 2 < 0x1_0000
    case Chat(_, _, _, text) => |text| + 6 < 0x1_0000
    case Leave(_, _) => true
  }

  // ---- reading, as a viewer knows the format ----

  function ReadSlot(s: seq<Byte>): Read<Record>
    requires s != []
  {
    if |s| < 3 then Fail
    else
      var n := FromLe16(s[1..3]);
      if n < 2 || |s| < 3 + n || (s[0] == 0x1E && s[3..5] != [0, 0]) then Fail
      else
        var (ok, actions) := ParseEntries(s[5..3 + n]);
        if !ok then Fail
        else Got(if s[0] == 0x1F then TimeSlot(FromLe16(s[3..5]), actions) else TimeSlot2(actions), s[3 + n..])
  }

  function ReadChat(s: seq<Byte>): Read<Record> {
    if |s| < 4 then Fail
    else
      var n := FromLe16(s[2..4]);
      if n < 6 || |s| < 4 + n || s[3 + n] != 0 then Fail
      else Got(Chat(s[1], s[4], FromLe32(s[5..9]), s[9..3 + n]), s[4 + n..])
  }

  function ReadLeave(s: seq<Byte>): Read<Record> {
    if |s| < 14 || s[1..5] != [1, 0, 0, 0] || s[10..14] != [1, 0, 0, 0] then Fail
    else Got(Leave(s[5], FromLe32(s[6..10])), s[14..])
  }

  function ReadRecord(s: seq<Byte>): (r: Read<Record>)
    ensures r.Got? ==> |r.rest| < |s|
  {
    if s == [] then Fail
    else if s[0] == 0x1F || s[0] == 0x1E then ReadSlot(s)
    else if s[0] == 0x20 then ReadChat(s)
    else if s[0] == 0x17 then ReadLeave(s)
    else Fail
  }

  /** All records up to the end of the data. */
  function ReadRecords(s: seq<Byte>): (bool, seq<Record>)
    decreases |s|
  {
    if s == [] then (true, [])
    else
      match ReadRecord(s)
      case Fail => (false, [])
      case Got(r, rest) => var (ok, more) := ReadRecords(rest); (ok, [r] + more)
  }

  // ---- each record ----

  lemma {:induction false} MembersFit(actions: seq<Action>)
    requires Weight(actions) < 0x1_0000
    ensures forall a :: a in actions ==> |a.data| <= 65535
  {
    forall a | a in actions ensures |a.data| <= 65535 { WeightBounds(actions, a); }
  }

  lemma SlotFields(id: Byte, interval: U16, actions: seq<Action>, tail: seq<Byte>)
    ensures
      var sub := Subpacket(actions);
      var s := SlotBlock(id, interval, actions) + tail;
      && |s| == 5 + |sub| + |tail| && s[0] == id && s[1..3] == Le16((|sub| + 2) % 0x1_0000)
      && s[3..5] == Le16(interval) && s[5..5 + |sub|] == sub && s[5 + |sub|..] == tail
  {
    hide Le16, Subpacket;
  }

  lemma SlotRead(id: Byte, interval: U16, actions: seq<Action>, s: seq<Byte>, tail: seq<Byte>)
    requires (id == TIME_SLOT || id == TIME_SLOT2) && Weight(actions) + 2 < 0x1_0000
    requires |s| == 5 + Weight(actions) + |tail| && s[0] == id && FromLe16(s[1..3]) == Weight(actions) + 2
    requires FromLe16(s[3..5]) == interval && (id == TIME_SLOT2 ==> s[3..5] == [0, 0])
             && s[5..5 + Weight(actions)] == Subpacket(actions)
    requires s[5 + Weight(actions)..] == tail
    ensures ReadSlot(s) == Got(if id == TIME_SLOT then TimeSlot(interval, actions) else TimeSlot2(actions), tail)
  {
    MembersFit(actions);
    EntriesRoundTrip(actions);
    hide Subpacket, FromLe16, ParseEntries, Weight;
  }

  lemma {:induction false} WeightFront(a: Action, rest: seq<Action>)
    ensures Weight([a] + rest) == Cost(a) + Weight(rest)
  {
    if rest == [] {
      assert [a] + rest == [a];
      OneActionWeight([a]);
    } else {
      var n := |rest| - 1;
      assert ([a] + rest)[..n + 1] == [a] + rest[..n];
      WeightFront(a, rest[..n]);
    }
  }

  /** Entries that parse weigh as much as the bytes they were parsed from. */
  lemma {:induction false} ParsedWeight(s: seq<Byte>)
    ensures ParseEntries(s).0 ==> Weight(ParseEntries(s).1) == |s|
    decreases |s|
  {
    hide Weight;
    if s == [] {
      NoWeight();
    } else if |s| >= 3 && |s| >= 3 + FromLe16(s[1..3]) {
      var n := 3 + FromLe16(s[1..3]);
      ParsedWeight(s[n..]);
      WeightFront(Action(s[0], s[3..n]), ParseEntries(s[n..]).1);
    }
  }

  lemma NoWeight()
    ensures Weight([]) == 0
  {}

  /** A length field that wrapped round ends the record too soon, with fewer actions than were recorded. */
  lemma SlotCutShort(s: seq<Byte>, n: nat)
    requires |s| >= 3 && FromLe16(s[1..3]) == n
    ensures var r := ReadSlot(s);
            r.Got? ==> |r.rest| == |s| - 3 - n && !r.value.Chat? && !r.value.Leave? && Weight(r.value.actions) == n - 2
  {
    hide FromLe16, ParseEntries, Weight;
    if 2 <= n && |s| >= 3 + n { ParsedWeight(s[5..3 + n]); }
  }

  lemma SlotRoundTripIff(id: Byte, interval: U16, actions: seq<Action>, tail: seq<Byte>)
    requires id == TIME_SLOT || (id == TIME_SLOT2 && interval == 0)
    ensures
      var r := if id == TIME_SLOT then TimeSlot(interval, actions) else TimeSlot2(actions);
      var read := ReadRecord(SlotBlock(id, interval, actions) + tail);
      && (read == Got(r, tail) <==> Weight(actions) + 2 < 0x1_0000)
      && (read.Got? && read.value == r ==> Weight(actions) + 2 < 0x1_0000)
  {
    var s := SlotBlock(id, interval, actions) + tail;
    SubpacketWeight(actions);
    SlotFields(id, interval, actions, tail);
    var n := (Weight(actions) + 2) % 0x1_0000;
    assert FromLe16(s[1..3]) == n && FromLe16(s[3..5]) == interval;
    assert Le16(0) == [0, 0];
    hide Subpacket, Le16, FromLe16, Weight, SlotBlock, ReadSlot;
    if Weight(actions) + 2 < 0x1_0000 {
      SlotRead(id, interval, actions, s, tail);
    } else {
      SlotCutShort(s, n);
      assert n < Weight(actions) + 2;
    }
  }

  lemma ChatFields(pid: Byte, flag: Byte, mode: U32, text: seq<Byte>, tail: seq<Byte>)
    ensures
      var s := ChatBlock(pid, flag, mode, text) + tail;
      && |s| == 10 + |text| + |tail| && s[0] == CHAT_MESSAGE && s[1] == pid && s[2..4] == Le16((|text| + 6) % 0x1_0000)
      && s[4] == flag && s[5..9] == Le32(mode) && s[9..9 + |text|] == text && s[10 + |text|..] == tail
  {
    hide Le16, Le32;
  }

  lemma ChatRoundTripIff(pid: Byte, flag: Byte, mode: U32, text: seq<Byte>, tail: seq<Byte>)
    ensures
      var read := ReadRecord(ChatBlock(pid, flag, mode, text) + tail);
      && (read == Got(Chat(pid, flag, mode, text), tail) <==> |text| + 6 < 0x1_0000)
      && (read.Got? && read.value == Chat(pid, flag, mode, text) ==> |text| + 6 < 0x1_0000)
  {
    var s := ChatBlock(pid, flag, mode, text) + tail;
    ChatFields(pid, flag, mode, text, tail);
    var n := (|text| + 6) % 0x1_0000;
    hide Le16, FromLe16, Le32, FromLe32, ChatBlock;
    assert FromLe16(s[2..4]) == n && FromLe32(s[5..9]) == mode;
    if |text| + 6 < 0x1_0000 {
      assert s[9..3 + n] == text && s[4 + n..] == tail;
    } else {
      assert n < |text| + 6;
    }
  }

  lemma LeaveRoundTrip(pid: Byte, result: U32, tail: seq<Byte>)
    ensures ReadRecord(LeaveBlock(pid, result) + tail) == Got(Leave(pid, result), tail)
  {
    assert Le32(1) == [1, 0, 0, 0];
    hide Le32, FromLe32;
    var s := LeaveBlock(pid, result) + tail;
    assert s[0] == LEAVE_GAME && s[5] == pid && s[6..10] == Le32(result) && s[14..] == tail;
    assert s[1..5] == Le32(1) && s[10..14] == Le32(1);
  }

  /** A record is read back, and the rest left, exactly when its length fits the length field; one that
      does not fit is not even read as the record it was. */
  lemma RecordRoundTripIff(r: Record, tail: seq<Byte>)
    ensures ReadRecord(Block(r) + tail) == Got(r, tail) <==> Fits(r)
    ensures var read := ReadRecord(Block(r) + tail); read.Got? && read.value == r ==> Fits(r)
  {
    hide ReadRecord, SlotBlock, ChatBlock, LeaveBlock;
    match r
    case TimeSlot(interval, actions) => SlotRoundTripIff(TIME_SLOT, interval, actions, tail);
    case TimeSlot2(actions) => SlotRoundTripIff(TIME_SLOT2, 0, actions, tail);
    case Chat(pid, flag, mode, text) => ChatRoundTripIff(pid, flag, mode, text, tail);
    case Leave(pid, result) => LeaveRoundTrip(pid, result, tail);
  }

  /** Every chunk the beat cuts is recorded readably, as long as no single action is longer than 65530 bytes. */
  lemma RecordedChunksFit(queue: seq<Action>, i: nat)
    requires i < |Chunks(queue)| && forall a :: a in queue ==> |a.data| <= 65530
    ensures Fits(TimeSlot2(Chunks(queue)[i]))
  {
    var chunk := Chunks(queue)[i];
    ChunksAreWellCut(queue);
    if |chunk| == 1 {
      OneActionWeight(chunk);
      ConcatMember(Chunks(queue), i, chunk[0]);
    }
  }

  lemma {:induction false} BlocksFront(records: seq<Record>)
    requires records != []
    ensures Blocks(records) == Block(records[0]) + Blocks(records[1..])
  {
    hide Block;
    if |records| == 1 {
      assert Blocks(records[..0]) == [] && Blocks(records[1..]) == [];
    } else {
      var n := |records| - 1;
      BlocksFront(records[..n]);
      assert records[..n][1..] == records[1..][..n - 1];
    }
  }

  /** The recorded stream is read back whole, in order, exactly when every record fits. */
  lemma {:induction false} RecordsRoundTripIff(records: seq<Record>)
    ensures ReadRecords(Blocks(records)) == (true, records) <==> forall r :: r in records ==> Fits(r)
  {
    hide Block, ReadRecord, Fits;
    if records != [] {
      var r, rest := records[0], records[1..];
      assert records == [r] + rest;
      BlocksFront(records);
      RecordRoundTripIff(r, Blocks(rest));
      RecordsRoundTripIff(rest);
      FirstRead(Block(r) + Blocks(rest));
      hide ReadRecords, Blocks;
      assert (forall x :: x in records ==> Fits(x)) <==> Fits(r) && forall x :: x in rest ==> Fits(x);
      if Fits(r) {
        assert ReadRecords(Blocks(records)) == (ReadRecords(Blocks(rest)).0, [r] + ReadRecords(Blocks(rest)).1);
        SameRest(r, ReadRecords(Blocks(rest)).1, rest);
      }
    }
  }

  lemma FirstRead(s: seq<Byte>)
    requires s != []
    ensures
      ReadRecords(s)
      == match ReadRecord(s)
         case Fail => (false, [])
         case Got(r, rest) => (ReadRecords(rest).0, [r] + ReadRecords(rest).1)
  {
    hide ReadRecord;
  }

  lemma SameRest(r: Record, a: seq<Record>, b: seq<Record>)
    ensures [r] + a == [r] + b <==> a == b
  {
    assert ([r] + a)[1..] == a && ([r] + b)[1..] == b;
  }

  /** What decoding makes of n bytes that are no UTF-8, such as 0xFF: a replacement character for each. */
  function Replacements(n: nat): (text: seq<Byte>)
    ensures |text| == 3 * n
  {
    if n == 0 then [] else Replacements(n - 1) + [0xEF, 0xBF, 0xBD]
  }

  /**
   A chat message of undecodable bytes triples in length before it is recorded: from 21844 bytes on,
   which a frame can carry, the replay does not read back.
   */
  lemma UndecodableChatIsUnreadable(pid: Byte, flag: Byte, mode: U32, n: nat, before: seq<Record>, after: seq<Record>)
    requires n >= 21844
    ensures !Fits(Chat(pid, flag, mode, Replacements(n)))
    ensures var records := before + [Chat(pid, flag, mode, Replacements(n))] + after;
            ReadRecords(Blocks(records)) != (true, records)
  {
    var chat := Chat(pid, flag, mode, Replacements(n));
    var records := before + [chat] + after;
    hide Blocks, ReadRecords, Replacements;
    assert !Fits(chat) && records[|before|] == chat;
    assert chat in records;
    RecordsRoundTripIff(records);
  }

  // ---- the recorder ----

  /** The milliseconds the time slots add up to. */
  function Length(records: seq<Record>): nat {
    if records == [] then 0
    else
      var r := records[|records| - 1];
      Length(records[..|records| - 1]) + if r.TimeSlot? then r.interval else 0
  }

  lemma NothingAdded(head: seq<Byte>)
    ensures head + Subpacket([]) == head
  {}

  lemma ActionAdded(block: seq<Byte>, head: seq<Byte>, actions: seq<Action>, i: nat)
    requires i < |actions| && block == head + Subpacket(actions[..i])
    ensures
      var a := actions[i];
      block + [a.pid] + Le16(|a.data| % 0x1_0000) + a.data == head + Subpacket(actions[..i + 1])
  {
    assert actions[..i + 1][..i] == actions[..i];
  }

  lemma LengthPatched(id: Byte, interval: U16, actions: seq<Action>)
    ensures
      var block := [id, 0, 0] + Le16(interval) + Subpacket(actions);
      var len := Le16((|block| - 3) % 0x1_0000);
      block[1 := len[0]][2 := len[1]] == SlotBlock(id, interval, actions)
  {
    hide Subpacket;
  }

  class ReplayRecorder {
    var loadingBlocks: seq<Byte>
    var compiledBlocks: seq<Byte>
    var replayLengthMs: nat
    ghost var leaves: seq<Record>
    ghost var records: seq<Record>

    ghost predicate Valid()
      reads this
    {
      && loadingBlocks == Blocks(leaves) && (forall r :: r in leaves ==> r.Leave?)
      && compiledBlocks == Blocks(records) && replayLengthMs == Length(records)
    }

    constructor ()
      ensures Valid() && leaves == [] && records == []
    {
      loadingBlocks, compiledBlocks, replayLengthMs, leaves, records := [], [], 0, [], [];
    }

    method PushTimeSlot(id: Byte, interval: U16, actions: seq<Action>)
      modifies this`compiledBlocks
      ensures compiledBlocks == old(compiledBlocks) + SlotBlock(id, interval, actions)
    {
      hide SlotBlock, Subpacket;
      var block := [id, 0, 0] + Le16(interval);
      NothingAdded(block);
      for i := 0 to |actions|
        invariant compiledBlocks == old(compiledBlocks)
        invariant block == [id, 0, 0] + Le16(interval) + Subpacket(actions[..i])
      {
        var a := actions[i];
        ActionAdded(block, [id, 0, 0] + Le16(interval), actions, i);
        block := block + [a.pid];
        block := block + Le16(|a.data| % 0x1_0000);
        block := block + a.data;
      }
      assert actions[..|actions|] == actions;
      assert block == [id, 0, 0] + Le16(interval) + Subpacket(actions);
      LengthPatched(id, interval, actions);
      var len := Le16((|block| - 3) % 0x1_0000);
      block := block[1 := len[0]];
      block := block[2 := len[1]];
      compiledBlocks := compiledBlocks + block;
    }

    method AddTimeSlot(interval: U16, actions: seq<Action>)
      requires Valid()
      modifies this
      ensures Valid() && leaves == old(leaves) && records == old(records) + [TimeSlot(interval, actions)]
      ensures replayLengthMs == old(replayLengthMs) + interval
    {
      PushTimeSlot(TIME_SLOT, interval, actions);
      replayLengthMs := replayLengthMs + interval;
      records := records + [TimeSlot(interval, actions)];
      assert records[..|records| - 1] == old(records);
    }

    method AddTimeSlot2(actions: seq<Action>)
      requires Valid()
      modifies this
      ensures Valid() && leaves == old(leaves) && records == old(records) + [TimeSlot2(actions)]
      ensures replayLengthMs == old(replayLengthMs)
    {
      PushTimeSlot(TIME_SLOT2, 0, actions);
      records := records + [TimeSlot2(actions)];
      assert records[..|records| - 1] == old(records);
    }

    method AddChat(pid: Byte, flag: Byte, mode: U32, text: seq<Byte>)
      requires Valid()
      modifies this
      ensures Valid() && leaves == old(leaves) && records == old(records) + [Chat(pid, flag, mode, text)]
      ensures replayLengthMs == old(replayLengthMs)
    {
      var block := [CHAT_MESSAGE, pid, 0, 0, flag] + Le32(mode) + text + [0];
      var len := Le16((|block| - 4) % 0x1_0000);
      block := block[2 := len[0]];
      block := block[3 := len[1]];
      assert block == ChatBlock(pid, flag, mode, text);
      compiledBlocks := compiledBlocks + block;
      records := records + [Chat(pid, flag, mode, text)];
      assert records[..|records| - 1] == old(records);
    }

    method AddLeave(pid: Byte, result: U32, duringLoading: bool)
      requires Valid()
      modifies this
      ensures Valid() && replayLengthMs == old(replayLengthMs)
      ensures leaves == old(leaves) + if duringLoading then [Leave(pid, result)] else []
      ensures records == old(records) + if duringLoading then [] else [Leave(pid, result)]
    {
      var block := [LEAVE_GAME] + Le32(1) + [pid] + Le32(result) + Le32(1);
      if duringLoading {
        loadingBlocks := loadingBlocks + block;
        leaves := leaves + [Leave(pid, result)];
        assert leaves[..|leaves| - 1] == old(leaves);
      } else {
        compiledBlocks := compiledBlocks + block;
        records := records + [Leave(pid, result)];
        assert records[..|records| - 1] == old(records);
      }
    }
  }
}
