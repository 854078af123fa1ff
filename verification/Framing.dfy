/** Cutting a byte stream into packets: the same packets come out however the stream is split into reads. */
module Framing {
  import opened Bytes

  const BNCS: Byte := 0xFF
  const W3GS: Byte := 0xF7
  const GPS: Byte := 0xF8

  datatype FrameError = BadMagic(got: Byte) | BadLength(length: U16)

  /** What one call of `decode` says: wait for more, a frame of the given length, or an error. */
  datatype Verdict = Wait | Ready(length: nat) | Broken(error: FrameError)

  function Judged(accepted: set<Byte>, src: seq<Byte>): (v: Verdict)
    ensures v.Ready? ==> 4 <= v.length <= |src|
  {
    if |src| < 4 then Wait
    else if src[0] !in accepted then Broken(BadMagic(src[0]))
    else
      var length := FromLe16(src[2..4]);
      if length < 4 then Broken(BadLength(length))
      else if |src| < length then Wait
      else Ready(length)
  }

  datatype Progress = Reading(rest: seq<Byte>) | Stopped(error: FrameError)

  datatype Stream = Stream(frames: seq<seq<Byte>>, progress: Progress)

  /** Decode until nothing more comes out. */
  function Drained(accepted: set<Byte>, src: seq<Byte>): Stream
    decreases |src|
  {
    match Judged(accepted, src)
    case Wait => Stream([], Reading(src))
    case Broken(e) => Stream([], Stopped(e))
    case Ready(n) =>
      var more := Drained(accepted, src[n..]);
      Stream([src[..n]] + more.frames, more.progress)
  }

  /** The stream after one more read; nothing is read after an error. */
  function Fed(accepted: set<Byte>, s: Stream, read: seq<Byte>): Stream {
    match s.progress
    case Stopped(_) => s
    case Reading(rest) =>
      var more := Drained(accepted, rest + read);
      Stream(s.frames + more.frames, more.progress)
  }

  function FedAll(accepted: set<Byte>, chunks: seq<seq<Byte>>): Stream {
    if chunks == [] then Stream([], Reading([]))
    else Fed(accepted, FedAll(accepted, chunks[..|chunks| - 1]), chunks[|chunks| - 1])
  }

  function Joined(chunks: seq<seq<Byte>>): seq<Byte> {
    if chunks == [] then [] else Joined(chunks[..|chunks| - 1]) + chunks[|chunks| - 1]
  }

  /** More bytes never change a verdict already reached. */
  lemma VerdictStands(accepted: set<Byte>, a: seq<Byte>, b: seq<Byte>)
    ensures Judged(accepted, a) != Wait ==> Judged(accepted, a + b) == Judged(accepted, a)
  {
    if |a| >= 4 { assert (a + b)[2..4] == a[2..4]; }
  }

  /** Draining in two goes is draining in one. */
  lemma {:induction false} DrainedInTwo(accepted: set<Byte>, a: seq<Byte>, b: seq<Byte>)
    ensures Drained(accepted, a + b) == Fed(accepted, Drained(accepted, a), b)
    decreases |a|
  {
    hide Judged, Drained, Fed;
    VerdictStands(accepted, a, b);
    match Judged(accepted, a)
    case Wait => EndsReading(accepted, a, b);
    case Broken(e) => EndsStopped(accepted, a, b);
    case Ready(n) =>
      DrainedInTwo(accepted, a[n..], b);
      assert (a + b)[..n] == a[..n] && (a + b)[n..] == a[n..] + b;
      OneFrame(accepted, a);
      OneFrame(accepted, a + b);
      FedBehind(accepted, [a[..n]], Drained(accepted, a[n..]), b);
  }

  lemma EndsReading(accepted: set<Byte>, a: seq<Byte>, b: seq<Byte>)
    requires Judged(accepted, a) == Wait
    ensures Drained(accepted, a + b) == Fed(accepted, Drained(accepted, a), b)
  {
    hide Judged;
  }

  lemma EndsStopped(accepted: set<Byte>, a: seq<Byte>, b: seq<Byte>)
    requires Judged(accepted, a).Broken? && Judged(accepted, a + b) == Judged(accepted, a)
    ensures Drained(accepted, a + b) == Fed(accepted, Drained(accepted, a), b)
  {
    hide Judged;
  }

  lemma OneFrame(accepted: set<Byte>, a: seq<Byte>)
    requires Judged(accepted, a).Ready?
    ensures
      var n := Judged(accepted, a).length;
      var more := Drained(accepted, a[n..]);
      Drained(accepted, a) == Stream([a[..n]] + more.frames, more.progress)
  {
    hide Judged;
  }

  /** Frames that came before stay before. */
  lemma FedBehind(accepted: set<Byte>, frames: seq<seq<Byte>>, s: Stream, read: seq<Byte>)
    ensures
      var t := Fed(accepted, s, read);
      Fed(accepted, Stream(frames + s.frames, s.progress), read) == Stream(frames + t.frames, t.progress)
  {
    hide Drained;
    if s.progress.Reading? {
      var more := Drained(accepted, s.progress.rest + read);
      assert frames + s.frames + more.frames == frames + (s.frames + more.frames);
    }
  }

  /** Frames, leftover and error depend only on the bytes, not on how they were split into reads. */
  lemma {:induction false} SplitDoesNotMatter(accepted: set<Byte>, chunks: seq<seq<Byte>>)
    ensures FedAll(accepted, chunks) == Drained(accepted, Joined(chunks))
  {
    hide Judged;
    if chunks == [] {
      NothingDrained(accepted);
    } else {
      SplitDoesNotMatter(accepted, chunks[..|chunks| - 1]);
      DrainedInTwo(accepted, Joined(chunks[..|chunks| - 1]), chunks[|chunks| - 1]);
    }
  }

  lemma NothingDrained(accepted: set<Byte>)
    ensures Drained(accepted, []) == Stream([], Reading([]))
  {}

  /** A packet with an accepted first byte and its own length in bytes 2 and 3. */
  predicate WellFramed(accepted: set<Byte>, p: seq<Byte>) {
    |p| >= 4 && p[0] in accepted && FromLe16(p[2..4]) == |p|
  }

  /** Well-framed packets written one after another come out as they went in, however the bytes arrive. */
  lemma {:induction false} PacketsComeOut(accepted: set<Byte>, packets: seq<seq<Byte>>, chunks: seq<seq<Byte>>)
    requires forall p :: p in packets ==> WellFramed(accepted, p)
    requires Joined(chunks) == Joined(packets)
    ensures FedAll(accepted, chunks) == Stream(packets, Reading([]))
  {
    hide FedAll, Drained, WellFramed;
    SplitDoesNotMatter(accepted, chunks);
    SplitDoesNotMatter(accepted, packets);
    OnePacketAtATime(accepted, packets);
  }

  lemma {:induction false} OnePacketAtATime(accepted: set<Byte>, packets: seq<seq<Byte>>)
    requires forall p :: p in packets ==> WellFramed(accepted, p)
    ensures FedAll(accepted, packets) == Stream(packets, Reading([]))
  {
    hide Drained, WellFramed;
    if packets != [] {
      var front, p := packets[..|packets| - 1], packets[|packets| - 1];
      OnePacketAtATime(accepted, front);
      assert p in packets && [] + p == p;
      OnePacket(accepted, p);
      assert packets == front + [p];
    }
  }

  lemma OnePacket(accepted: set<Byte>, p: seq<Byte>)
    requires WellFramed(accepted, p)
    ensures Drained(accepted, p) == Stream([p], Reading([]))
  {
    assert p[..|p|] == p && p[|p|..] == [];
    NothingDrained(accepted);
  }

  /** Four bytes that can begin no packet: what is wrong with them. */
  ghost predicate BadStart(accepted: set<Byte>, s: seq<Byte>, e: FrameError) {
    && |s| >= 4
    && if s[0] !in accepted then e == BadMagic(s[0]) else s[3] == 0 && s[2] < 4 && e == BadLength(s[2])
  }

  /** Packets before a bad header come out as they went in, however the bytes arrive; then reading stops. */
  lemma BadHeaderStops(accepted: set<Byte>, packets: seq<seq<Byte>>, bad: seq<Byte>, e: FrameError,
                       chunks: seq<seq<Byte>>)
    requires forall p :: p in packets ==> WellFramed(accepted, p)
    requires BadStart(accepted, bad, e) && Joined(chunks) == Joined(packets) + bad
    ensures FedAll(accepted, chunks) == Stream(packets, Stopped(e))
  {
    BadIsBroken(accepted, bad, e);
    hide FedAll, Drained, WellFramed, Joined, BadStart;
    SplitDoesNotMatter(accepted, chunks);
    SplitDoesNotMatter(accepted, packets);
    OnePacketAtATime(accepted, packets);
    DrainedInTwo(accepted, Joined(packets), bad);
    assert [] + bad == bad && packets + [] == packets;
  }

  lemma BadIsBroken(accepted: set<Byte>, bad: seq<Byte>, e: FrameError)
    requires BadStart(accepted, bad, e)
    ensures Drained(accepted, bad) == Stream([], Stopped(e))
  {}

  /** A packet that has begun but not ended is waited for. */
  lemma PartialIsAwaited(accepted: set<Byte>, p: seq<Byte>, n: nat)
    requires WellFramed(accepted, p) && n < |p|
    ensures Drained(accepted, p[..n]) == Stream([], Reading(p[..n]))
  {
    if n >= 4 { assert p[..n][2..4] == p[2..4]; }
  }

  // ---- `decode` ----

  class FrameCodec {
    const accepted: set<Byte>
    var src: seq<Byte>

    constructor Bncs()
      ensures accepted == {BNCS} && src == []
    {
      accepted, src := {BNCS}, [];
    }

    constructor W3gs()
      ensures accepted == {W3GS, GPS} && src == []
    {
      accepted, src := {W3GS, GPS}, [];
    }

    /** One call: splits a complete frame off the buffer, or leaves the buffer alone. */
    method Decode() returns (v: Verdict, frame: seq<Byte>)
      modifies this`src
      ensures v == Judged(accepted, old(src))
      ensures if v.Ready? then frame == old(src)[..v.length] && src == old(src)[v.length..]
              else frame == [] && src == old(src)
    {
      frame := [];
      if |src| < 4 { return Wait, []; }
      if src[0] !in accepted { return Broken(BadMagic(src[0])), []; }
      var length := FromLe16(src[2..4]);
      if length < 4 { return Broken(BadLength(length)), []; }
      if |src| < length { return Wait, []; }
      frame := src[..length];
      src := src[length..];
      return Ready(length), frame;
    }

    /** One read: the bytes are appended and frames taken off until none is complete. */
    method Read(bytes: seq<Byte>) returns (frames: seq<seq<Byte>>, progress: Progress)
      modifies this`src
      ensures Stream(frames, progress) == Drained(accepted, old(src) + bytes)
      ensures progress.Reading? ==> src == progress.rest
    {
      hide Judged;
      src := src + bytes;
      ghost var all := src;
      frames := [];
      while true
        invariant Drained(accepted, all)
                  == Stream(frames + Drained(accepted, src).frames, Drained(accepted, src).progress)
        decreases |src|
      {
        var v, frame := Decode();
        match v
        case Wait => return frames, Reading(src);
        case Broken(e) => return frames, Stopped(e);
        case Ready(n) =>
          assert frames + ([frame] + Drained(accepted, src).frames)
                 == (frames + [frame]) + Drained(accepted, src).frames;
          frames := frames + [frame];
      }
    }
  }
}
