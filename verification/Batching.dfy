/**
 Sending queued player actions: the queue is cut into chunks of at most 1452 bytes, every chunk but
 the last goes out as INCOMING_ACTION2 and the last, perhaps empty, as INCOMING_ACTION.
 */
module Batching {
  import opened Bytes

  type Pid = Byte

  datatype Action = Action(pid: Pid, data: seq<Byte>)

  const CHUNK_LIMIT := 1452
  const W3GS_HEADER_CONSTANT: Byte := 247
  const W3GS_INCOMING_ACTION: Byte := 12
  const W3GS_INCOMING_ACTION2: Byte := 72

  // ---- chunking ----

  /** One subpacket entry: PID, two length bytes, the action. */
  function Cost(a: Action): nat { |a.data| + 3 }

  function Weight(chunk: seq<Action>): nat {
    if chunk == [] then 0 else Weight(chunk[..|chunk| - 1]) + Cost(chunk[|chunk| - 1])
  }

  function Concat(chunks: seq<seq<Action>>): seq<Action> {
    if chunks == [] then [] else Concat(chunks[..|chunks| - 1]) + chunks[|chunks| - 1]
  }

  /** Append an action to the last chunk, or start a new one when that would not fit. */
  function Placed(chunks: seq<seq<Action>>, a: Action): (r: seq<seq<Action>>)
    requires chunks != []
    ensures r != []
  {
    var n := |chunks| - 1;
    if Weight(chunks[n]) + Cost(a) > CHUNK_LIMIT && chunks[n] != [] then chunks + [[a]]
    else chunks[..n] + [chunks[n] + [a]]
  }

  function Chunks(queue: seq<Action>): (chunks: seq<seq<Action>>)
    ensures chunks != []
  {
    if queue == [] then [[]] else Placed(Chunks(queue[..|queue| - 1]), queue[|queue| - 1])
  }

  /** The cut between two chunks was forced: one more action would not have fitted. */
  ghost predicate Forced(chunk: seq<Action>, next: seq<Action>) {
    next != [] && Weight(chunk) + Cost(next[0]) > CHUNK_LIMIT
  }

  /** What cutting promises, without saying how it is done: nothing lost or reordered, no chunk over
      the limit unless it is a single action, no empty chunk, and no chunk cut sooner than it had to be. */
  ghost predicate WellCut(chunks: seq<seq<Action>>, queue: seq<Action>) {
    && chunks != [] && Concat(chunks) == queue
    && (forall i :: 0 <= i < |chunks| ==> Weight(chunks[i]) <= CHUNK_LIMIT || |chunks[i]| == 1)
    && (forall i :: 0 <= i < |chunks| ==> chunks[i] == [] ==> queue == [] && |chunks| == 1)
    && (forall i :: 0 < i < |chunks| ==> Forced(chunks[i - 1], chunks[i]))
  }

  lemma PlacedIsWellCut(c: seq<seq<Action>>, queue: seq<Action>, a: Action)
    requires WellCut(c, queue)
    ensures WellCut(Placed(c, a), queue + [a])
  {
    var r, n := Placed(c, a), |c| - 1;
    if Weight(c[n]) + Cost(a) > CHUNK_LIMIT && c[n] != [] {
      assert r[..n + 1] == c && r[n + 1] == [a];
      assert Weight([]) == 0;
    } else {
      assert r[..n] == c[..n] && r[n] == c[n] + [a];
      assert (c[n] + [a])[..|c[n]|] == c[n];
      assert Concat(r) == Concat(c[..n]) + (c[n] + [a]);
    }
  }

  lemma {:induction false} ChunksAreWellCut(queue: seq<Action>)
    ensures WellCut(Chunks(queue), queue)
  {
    if queue == [] {
      assert Concat([[]]) == Concat([]) + [];
    } else {
      var m := |queue| - 1;
      ChunksAreWellCut(queue[..m]);
      PlacedIsWellCut(Chunks(queue[..m]), queue[..m], queue[m]);
      assert queue == queue[..m] + [queue[m]];
    }
  }

  // ---- packets ----

  function Subpacket(chunk: seq<Action>): seq<Byte> {
    if chunk == [] then []
    else
      var a := chunk[|chunk| - 1];
      Subpacket(chunk[..|chunk| - 1]) + [a.pid] + Le16(|a.data| % 0x1_0000) + a.data
  }

  /** assign_length: only a packet of 4 to 65535 bytes gets its length written. */
  function AssignLength(packet: seq<Byte>): seq<Byte> {
    if 4 <= |packet| <= 65535 then packet[2 := |packet| % 0x100][3 := |packet| / 0x100] else packet
  }

  predicate ValidLength(packet: seq<Byte>) {
    |packet| >= 4 && FromLe16(packet[2..4]) == |packet|
  }

  /** `crc` stands for the low two bytes of the subpacket's CRC-32. */
  function Packet(id: Byte, interval: U16, chunk: seq<Action>, crc: seq<Byte> -> U16): seq<Byte> {
    var sub := Subpacket(chunk);
    AssignLength([W3GS_HEADER_CONSTANT, id, 0, 0] + Le16(interval) + if sub == [] then [] else Le16(crc(sub)) + sub)
  }

  function Packets(chunks: seq<seq<Action>>, interval: U16, crc: seq<Byte> -> U16): seq<seq<Byte>>
  {
    seq(|chunks|, i requires 0 <= i < |chunks| =>
      if i == |chunks| - 1 then Packet(W3GS_INCOMING_ACTION, interval, chunks[i], crc)
      else Packet(W3GS_INCOMING_ACTION2, 0, chunks[i], crc))
  }

  lemma {:induction false} SubpacketWeight(chunk: seq<Action>)
    ensures |Subpacket(chunk)| == Weight(chunk)
  {
    if chunk != [] { SubpacketWeight(chunk[..|chunk| - 1]); }
  }

  // ---- parsing ----

  datatype Parsed = Malformed | Parsed(id: Byte, interval: U16, chunk: seq<Action>)

  /** Read entries until the bytes run out. */
  function ParseEntries(s: seq<Byte>): (bool, seq<Action>)
    decreases |s|
  {
    if s == [] then (true, [])
    else if |s| < 3 || |s| < 3 + FromLe16(s[1..3]) then (false, [])
    else
      var n := 3 + FromLe16(s[1..3]);
      var (ok, rest) := ParseEntries(s[n..]);
      (ok, [Action(s[0], s[3..n])] + rest)
  }

  /** A client's reading of an action packet. */
  function Parse(packet: seq<Byte>, crc: seq<Byte> -> U16): Parsed {
    if !ValidLength(packet) || packet[0] != W3GS_HEADER_CONSTANT || |packet| < 6 then Malformed
    else if |packet| == 6 then Parsed(packet[1], FromLe16(packet[4..6]), [])
    else if |packet| < 8 || FromLe16(packet[6..8]) != crc(packet[8..]) then Malformed
    else
      var (ok, chunk) := ParseEntries(packet[8..]);
      if ok then Parsed(packet[1], FromLe16(packet[4..6]), chunk) else Malformed
  }

  lemma {:induction false} SubpacketFront(chunk: seq<Action>)
    requires chunk != []
    ensures Subpacket(chunk) == Entry(chunk[0]) + Subpacket(chunk[1..])
  {
    hide Entry;
    SubpacketBack(chunk);
    if |chunk| == 1 {
      assert Subpacket(chunk[..0]) == [] && chunk[1..] == [];
    } else {
      var n := |chunk| - 1;
      var first, last := Entry(chunk[0]), Entry(chunk[n]);
      SubpacketFront(chunk[..n]);
      assert chunk[..n][1..] == chunk[1..][..n - 1];
      var middle := Subpacket(chunk[1..][..n - 1]);
      SubpacketBack(chunk[1..]);
      hide Subpacket;
      assert (first + middle) + last == first + (middle + last);
    }
  }

  lemma SubpacketBack(chunk: seq<Action>)
    requires chunk != []
    ensures Subpacket(chunk) == Subpacket(chunk[..|chunk| - 1]) + Entry(chunk[|chunk| - 1])
  {
    hide Le16;
  }

  function Entry(a: Action): seq<Byte> {
    [a.pid] + Le16(|a.data| % 0x1_0000) + a.data
  }

  lemma EntryFields(a: Action, tail: seq<Byte>)
    requires |a.data| <= 65535
    ensures var s := [a.pid] + Le16(|a.data|) + a.data + tail;
            && |s| >= 3 + |a.data| && s[0] == a.pid && s[1..3] == Le16(|a.data|)
            && s[3..3 + |a.data|] == a.data && s[3 + |a.data|..] == tail
  {}

  lemma ParseOne(a: Action, tail: seq<Byte>)
    requires |a.data| <= 65535
    ensures ParseEntries([a.pid] + Le16(|a.data|) + a.data + tail) == (ParseEntries(tail).0, [a] + ParseEntries(tail).1)
  {
    hide Le16, FromLe16;
    EntryFields(a, tail);
    var s := [a.pid] + Le16(|a.data|) + a.data + tail;
    assert FromLe16(s[1..3]) == |a.data|;
  }

  lemma {:induction false} EntriesRoundTrip(chunk: seq<Action>)
    requires forall a :: a in chunk ==> |a.data| <= 65535
    ensures ParseEntries(Subpacket(chunk)) == (true, chunk)
  {
    if chunk != [] {
      hide Le16, FromLe16, Subpacket, ParseEntries;
      var a, tail := chunk[0], Subpacket(chunk[1..]);
      assert a in chunk && |a.data| % 0x1_0000 == |a.data|;
      SubpacketFront(chunk);
      EntriesRoundTrip(chunk[1..]);
      ParseOne(a, tail);
      assert Subpacket(chunk) == [a.pid] + Le16(|a.data|) + a.data + tail;
      assert chunk == [a] + chunk[1..];
    }
  }

  /** A packet is well framed if and only if its chunk leaves room for the eight bytes before it; one
      that is too long keeps a zero length field. */
  lemma FramedIffFits(id: Byte, interval: U16, chunk: seq<Action>, crc: seq<Byte> -> U16)
    ensures ValidLength(Packet(id, interval, chunk, crc)) <==> Weight(chunk) <= 65527
    ensures |Packet(id, interval, chunk, crc)| == if chunk == [] then 6 else Weight(chunk) + 8
  {
    SubpacketWeight(chunk);
    if chunk != [] { SubpacketFront(chunk); }
    var p := Packet(id, interval, chunk, crc);
    if |p| <= 65535 {
      assert p[2..4] == Le16(|p|);
    } else {
      assert p[2..4] == [0, 0];
    }
  }

  lemma PacketFields(id: Byte, interval: U16, chunk: seq<Action>, crc: seq<Byte> -> U16)
    requires Weight(chunk) <= 65527
    ensures
      var p, sub := Packet(id, interval, chunk, crc), Subpacket(chunk);
      && ValidLength(p) && |p| == (if chunk == [] then 6 else Weight(chunk) + 8)
      && p[0] == W3GS_HEADER_CONSTANT && p[1] == id && p[4..6] == Le16(interval)
      && (chunk != [] ==> |p| >= 8 && p[6..8] == Le16(crc(sub)) && p[8..] == sub)
  {
    FramedIffFits(id, interval, chunk, crc);
    SubpacketWeight(chunk);
    if chunk != [] { SubpacketFront(chunk); }
    hide Subpacket, Le16, ValidLength, Weight;
    var p, sub := Packet(id, interval, chunk, crc), Subpacket(chunk);
    assert p[4..6] == Le16(interval);
    assert chunk != [] ==> p[6..8] == Le16(crc(sub)) && p[8..] == sub;
  }

  lemma {:induction false} WeightPositive(chunk: seq<Action>)
    ensures chunk != [] ==> Weight(chunk) > 0
  {}

  lemma PacketRoundTrip(id: Byte, interval: U16, chunk: seq<Action>, crc: seq<Byte> -> U16)
    requires Weight(chunk) <= 65527 && forall a :: a in chunk ==> |a.data| <= 65535
    ensures Parse(Packet(id, interval, chunk, crc), crc) == Parsed(id, interval, chunk)
  {
    PacketFields(id, interval, chunk, crc);
    EntriesRoundTrip(chunk);
    WeightPositive(chunk);
    hide Le16, FromLe16, ParseEntries, ValidLength, Weight, Packet, Subpacket;
  }

  lemma {:induction false} WeightBounds(chunk: seq<Action>, a: Action)
    requires a in chunk
    ensures Cost(a) <= Weight(chunk)
  {
    var n := |chunk| - 1;
    if a != chunk[n] {
      assert chunk == chunk[..n] + [chunk[n]];
      WeightBounds(chunk[..n], a);
    }
  }

  lemma {:induction false} ConcatMember(chunks: seq<seq<Action>>, i: nat, a: Action)
    requires i < |chunks| && a in chunks[i]
    ensures a in Concat(chunks)
  {
    var n := |chunks| - 1;
    if i < n { ConcatMember(chunks[..n], i, a); }
  }

  function ParseAll(packets: seq<seq<Byte>>, crc: seq<Byte> -> U16): seq<Action> {
    if packets == [] then []
    else
      var n := |packets| - 1;
      ParseAll(packets[..n], crc) + match Parse(packets[n], crc) case Parsed(_, _, chunk) => chunk case Malformed => []
  }

  lemma {:induction false} ParseAllChunks(chunks: seq<seq<Action>>, packets: seq<seq<Byte>>, crc: seq<Byte> -> U16)
    requires |packets| == |chunks|
    requires forall i :: 0 <= i < |chunks| ==> var r := Parse(packets[i], crc); r.Parsed? && r.chunk == chunks[i]
    ensures ParseAll(packets, crc) == Concat(chunks)
  {
    if chunks != [] {
      ParseAllChunks(chunks[..|chunks| - 1], packets[..|chunks| - 1], crc);
    }
  }

  lemma OneActionWeight(chunk: seq<Action>)
    requires |chunk| == 1
    ensures Weight(chunk) == Cost(chunk[0])
  {
    assert chunk[..0] == [];
  }

  /** A chunk that is too heavy for a packet is a single action of at least 65525 bytes, and its packet is
      unreadable; any other is read back. */
  lemma ChunkReadIff(chunk: seq<Action>, id: Byte, interval: U16, crc: seq<Byte> -> U16)
    requires Weight(chunk) <= CHUNK_LIMIT || |chunk| == 1
    requires forall a :: a in chunk ==> |a.data| <= 65527
    ensures
      var r := Parse(Packet(id, interval, chunk, crc), crc);
      if forall a :: a in chunk ==> |a.data| <= 65524 then r == Parsed(id, interval, chunk)
      else r == Malformed && chunk != []
  {
    hide Packet, Parse;
    if |chunk| == 1 {
      OneActionWeight(chunk);
      assert chunk[0] in chunk;
    }
    HeavyMember(chunk);
    if Weight(chunk) <= 65527 {
      PacketRoundTrip(id, interval, chunk, crc);
    } else {
      TooHeavy(id, interval, chunk, crc);
    }
  }

  lemma HeavyMember(chunk: seq<Action>)
    ensures forall a :: a in chunk ==> Cost(a) <= Weight(chunk)
  {
    forall a | a in chunk ensures Cost(a) <= Weight(chunk) { WeightBounds(chunk, a); }
  }

  lemma TooHeavy(id: Byte, interval: U16, chunk: seq<Action>, crc: seq<Byte> -> U16)
    requires Weight(chunk) > 65527
    ensures Parse(Packet(id, interval, chunk, crc), crc) == Malformed
  {
    hide Packet, Weight, ValidLength;
    FramedIffFits(id, interval, chunk, crc);
  }

  /** What clients read of a series of packets each of which is read back or not at all: never more than was
      sent, and less as soon as one that is not empty is lost. */
  lemma {:induction false} LostChunkShortens(chunks: seq<seq<Action>>, packets: seq<seq<Byte>>,
                                         crc: seq<Byte> -> U16, i: nat)
    requires |packets| == |chunks|
    requires forall j :: 0 <= j < |chunks| ==> var r := Parse(packets[j], crc); r == Malformed || r.chunk == chunks[j]
    ensures |ParseAll(packets, crc)| <= |Concat(chunks)|
    ensures i < |chunks| && chunks[i] != [] && Parse(packets[i], crc) == Malformed ==>
              |ParseAll(packets, crc)| < |Concat(chunks)|
  {
    hide Parse;
    if chunks != [] {
      LostChunkShortens(chunks[..|chunks| - 1], packets[..|chunks| - 1], crc, i);
    }
  }

  lemma ActionsInChunks(queue: seq<Action>, i: nat)
    requires i < |Chunks(queue)|
    ensures forall a :: a in Chunks(queue)[i] ==> a in queue
  {
    ChunksAreWellCut(queue);
    forall a | a in Chunks(queue)[i] ensures a in queue { ConcatMember(Chunks(queue), i, a); }
  }

  lemma {:induction false} ChunkOf(chunks: seq<seq<Action>>, a: Action) returns (i: nat)
    requires a in Concat(chunks)
    ensures i < |chunks| && a in chunks[i]
  {
    var n := |chunks| - 1;
    if a in chunks[n] {
      i := n;
    } else {
      i := ChunkOf(chunks[..n], a);
    }
  }

  /** One packet of a beat: its id, and what it is read as. */
  lemma BeatPacket(queue: seq<Action>, interval: U16, crc: seq<Byte> -> U16, i: nat)
    requires i < |Chunks(queue)| && forall a :: a in queue ==> |a.data| <= 65527
    ensures
      var chunk := Chunks(queue)[i];
      var r := Parse(Packets(Chunks(queue), interval, crc)[i], crc);
      var id := if i == |Chunks(queue)| - 1 then W3GS_INCOMING_ACTION else W3GS_INCOMING_ACTION2;
      if forall a :: a in chunk ==> |a.data| <= 65524 then r.Parsed? && r.id == id && r.chunk == chunk
      else r == Malformed && chunk != []
  {
    hide Packet, Parse, Chunks, Weight;
    ChunksAreWellCut(queue);
    ActionsInChunks(queue, i);
    var last := i == |Chunks(queue)| - 1;
    ChunkReadIff(Chunks(queue)[i], if last then W3GS_INCOMING_ACTION else W3GS_INCOMING_ACTION2,
                 if last then interval else 0, crc);
  }

  /**
   Clients read back exactly the queue, one INCOMING_ACTION after any number of INCOMING_ACTION2, if and
   only if no action has 65525 bytes or more; a frame from the network holds at most 65527.
   */
  lemma BatchRoundTripIff(queue: seq<Action>, interval: U16, crc: seq<Byte> -> U16)
    requires forall a :: a in queue ==> |a.data| <= 65527
    ensures ParseAll(Packets(Chunks(queue), interval, crc), crc) == queue
            <==> forall a :: a in queue ==> |a.data| <= 65524
    ensures
      var packets := Packets(Chunks(queue), interval, crc);
      forall i :: 0 <= i < |packets| ==>
        var r := Parse(packets[i], crc);
        r.Parsed? ==> r.id == if i == |packets| - 1 then W3GS_INCOMING_ACTION else W3GS_INCOMING_ACTION2
  {
    hide Packet, Parse, Weight;
    var chunks := Chunks(queue);
    var packets := Packets(chunks, interval, crc);
    ChunksAreWellCut(queue);
    assert |packets| == |chunks|;
    hide Chunks, Packets, ParseAll;
    forall i: nat | i < |chunks| ensures
      var r := Parse(packets[i], crc);
      && (r == Malformed || r.chunk == chunks[i])
      && (r.Parsed? ==> r.id == if i == |packets| - 1 then W3GS_INCOMING_ACTION else W3GS_INCOMING_ACTION2)
    {
      BeatPacket(queue, interval, crc, i);
    }
    if forall a :: a in queue ==> |a.data| <= 65524 {
      forall i: nat | i < |chunks| ensures var r := Parse(packets[i], crc); r.Parsed? && r.chunk == chunks[i] {
        BeatPacket(queue, interval, crc, i);
        ActionsInChunks(queue, i);
      }
      ParseAllChunks(chunks, packets, crc);
    } else {
      var a :| a in queue && |a.data| > 65524;
      var i := ChunkOf(chunks, a);
      BeatPacket(queue, interval, crc, i);
      LostChunkShortens(chunks, packets, crc, i);
    }
  }

  /** A packet of a beat is followed by another only when the next action would have taken it beyond 1460 bytes. */
  lemma PacketsAreFull(queue: seq<Action>, interval: U16, crc: seq<Byte> -> U16, i: nat)
    requires i + 1 < |Chunks(queue)|
    ensures
      var next := Chunks(queue)[i + 1];
      next != [] && |Packets(Chunks(queue), interval, crc)[i]| + 3 + |next[0].data| > 1460
  {
    ChunksAreWellCut(queue);
    hide Packet, Chunks;
    var chunk := Chunks(queue)[i];
    assert Forced(chunk, Chunks(queue)[i + 1]);
    FramedIffFits(W3GS_INCOMING_ACTION2, 0, chunk, crc);
  }

  /** Where no action exceeds 1449 bytes no packet of a beat exceeds 1460. */
  lemma SmallActionsSmallPackets(queue: seq<Action>, interval: U16, crc: seq<Byte> -> U16, i: nat)
    requires i < |Chunks(queue)| && forall a :: a in queue ==> |a.data| <= 1449
    ensures |Packets(Chunks(queue), interval, crc)[i]| <= 1460
  {
    hide Packet, Chunks;
    var chunk := Chunks(queue)[i];
    ChunksAreWellCut(queue);
    ActionsInChunks(queue, i);
    if |chunk| == 1 { OneActionWeight(chunk); }
    var last := i == |Chunks(queue)| - 1;
    FramedIffFits(if last then W3GS_INCOMING_ACTION else W3GS_INCOMING_ACTION2,
                  if last then interval else 0, chunk, crc);
  }

  /** The longest action a player can send is 65527 bytes; from 65525 on its packet is unreadable. */
  lemma OversizeActionIsUnreadable(pid: Pid, data: seq<Byte>, interval: U16, crc: seq<Byte> -> U16)
    requires |data| <= 65527
    ensures Packets(Chunks([Action(pid, data)]), interval, crc)
         == [Packet(W3GS_INCOMING_ACTION, interval, [Action(pid, data)], crc)]
    ensures Parse(Packet(W3GS_INCOMING_ACTION, interval, [Action(pid, data)], crc), crc) == Malformed
       <==> |data| >= 65525
  {
    var a := Action(pid, data);
    var queue := [a];
    var empty: seq<Action> := [];
    assert queue[..0] == empty && empty + [a] == [a] && [empty][..0] == [];
    assert Chunks(queue) == Placed([empty], a) == [[a]];
    OneActionWeight([a]);
    FramedIffFits(W3GS_INCOMING_ACTION, interval, [a], crc);
    if |data| <= 65524 { PacketRoundTrip(W3GS_INCOMING_ACTION, interval, [a], crc); }
  }

  // ---- the loops of send_all_actions ----

  lemma PlacedAtEnd(chunks: seq<seq<Action>>, a: Action)
    requires chunks != []
    ensures
      var n, r := |chunks| - 1, Placed(chunks, a);
      if Weight(chunks[n]) + Cost(a) > CHUNK_LIMIT && chunks[n] != [] then
        r == chunks + [[a]] && Weight([a]) == Cost(a)
      else
        r == chunks[n := chunks[n] + [a]] && Weight(chunks[n] + [a]) == Weight(chunks[n]) + Cost(a)
  {
    var last := chunks[|chunks| - 1];
    assert (last + [a])[..|last|] == last;
    OneActionWeight([a]);
  }

  lemma ChunksSnoc(queue: seq<Action>, k: nat)
    requires k < |queue|
    ensures Chunks(queue[..k + 1]) == Placed(Chunks(queue[..k]), queue[k])
  {
    assert queue[..k + 1][..k] == queue[..k];
  }

  /** Drain the queue into chunks, keeping the current chunk's length in a counter. */
  method CutIntoChunks(queue: seq<Action>) returns (chunks: seq<seq<Action>>)
    ensures chunks == Chunks(queue) && WellCut(chunks, queue)
  {
    ChunksAreWellCut(queue);
    assert queue[..0] == [];
    chunks := [[]];
    assert Weight([]) == 0;
    hide Weight, Cost, Placed, WellCut, Concat;
    var currentLen, i := 0, 0;
    while i < |queue|
      invariant i <= |queue| && chunks != [] && chunks == Chunks(queue[..i])
      invariant currentLen == Weight(chunks[|chunks| - 1])
    {
      var a := queue[i];
      ChunksSnoc(queue, i);
      PlacedAtEnd(chunks, a);
      ghost var was := chunks;
      if currentLen + Cost(a) > CHUNK_LIMIT && chunks[|chunks| - 1] != [] {
        chunks := chunks + [[]];
        assert chunks[|was|] + [a] == [a];
        currentLen := 0;
      }
      var n := |chunks| - 1;
      currentLen := currentLen + Cost(a);
      chunks := chunks[n := chunks[n] + [a]];
      assert chunks == if n == |was| then was + [[a]] else was[n := was[n] + [a]];
      i := i + 1;
    }
    assert queue[..|queue|] == queue;
  }

  /** incoming_action_subpacket. */
  method BuildSubpacket(actions: seq<Action>) returns (sub: seq<Byte>)
    ensures sub == Subpacket(actions)
  {
    sub := [];
    for i := 0 to |actions|
      invariant sub == Subpacket(actions[..i])
    {
      var a := actions[i];
      assert actions[..i + 1][..i] == actions[..i];
      sub := sub + [a.pid];
      sub := sub + Le16(|a.data| % 0x1_0000);
      sub := sub + a.data;
    }
    assert actions[..|actions|] == actions;
  }
}
