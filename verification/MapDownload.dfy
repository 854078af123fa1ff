/** Sending the map to a player: parts of 1442 bytes, at most a hundred beyond what has been acknowledged. */
module MapDownload {
  import opened Batching
  import opened Bytes

  const PART := 1442
  const WINDOW := 144200
  const W3GS_MAPPART: Byte := 67

  datatype Part = Part(start: nat, data: seq<Byte>)

  /** One player's download: the fields of the player record, and the parts sent since the last restart. */
  datatype Transfer = Transfer(allowed: bool, started: bool, finished: bool, sent: nat, acked: nat, parts: seq<Part>)

  /** The map file, whether it could be read, and the download mode: 0 off, 2 on approval, else on. */
  datatype Config = Config(file: seq<Byte>, mode: nat, present: bool)

  function Payload(parts: seq<Part>): seq<Byte> {
    if parts == [] then [] else Payload(parts[..|parts| - 1]) + parts[|parts| - 1].data
  }

  function PartEnd(file: seq<Byte>, start: nat): (end: nat)
    requires start <= |file|
    ensures start <= end <= |file|
  {
    if start + PART <= |file| then start + PART else |file|
  }

  // ---- steps ----

  /** `send_map_parts`: fill the window. */
  function Filled(file: seq<Byte>, t: Transfer): Transfer
    requires t.sent <= |file|
    decreases |file| - t.sent
  {
    if t.sent == |file| || t.sent >= t.acked + WINDOW then t
    else
      var end := PartEnd(file, t.sent);
      Filled(file, t.(sent := end, parts := t.parts + [Part(t.sent, file[t.sent..end])]))
  }

  function Pumped(file: seq<Byte>, t: Transfer): Transfer
    requires t.sent <= |file|
  {
    if t.started && !t.finished then Filled(file, t) else t
  }

  function Restarted(t: Transfer): Transfer {
    t.(started := true, sent := 0, acked := 0, parts := [])
  }

  /** A MAPPARTOK: acknowledgements never go back. */
  function Acknowledged(file: seq<Byte>, t: Transfer, acked: nat): Transfer
    requires t.sent <= |file|
  {
    Pumped(file, if acked > t.acked then t.(acked := acked) else t)
  }

  /** An admin's approval, for a player who has not finished. */
  function Approved(file: seq<Byte>, t: Transfer): Transfer
    requires t.sent <= |file|
  {
    if t.finished then t else Pumped(file, Restarted(t).(allowed := true))
  }

  datatype Reported = Kicked | Kept(transfer: Transfer)

  /** A MAPSIZE report in the lobby: the size the client has, flag 1 at rest and 3 while downloading. */
  function SizeReported(c: Config, t: Transfer, flag: Byte, size: nat): Reported
    requires t.sent <= |c.file|
  {
    if flag == 1 && size == |c.file| then Kept(if t.started && !t.finished then t.(finished := true) else t)
    else if c.mode == 0 || !c.present then Kicked
    else if c.mode == 2 && !t.allowed then Kept(t)
    else if !t.started && flag == 1 then Kept(Pumped(c.file, Restarted(t)))
    else Kept(Pumped(c.file, t.(acked := size)))
  }

  // ---- the invariant ----

  /** The parts follow one another without gap or overlap, from the start of the map. */
  ghost predicate Contiguous(parts: seq<Part>, end: nat) {
    if parts == [] then end == 0
    else
      var p := parts[|parts| - 1];
      p.start + |p.data| == end && 1 <= |p.data| <= PART && Contiguous(parts[..|parts| - 1], p.start)
  }

  /** What has been sent since the last restart is exactly the map up to `sent`. */
  ghost predicate TransferOk(file: seq<Byte>, t: Transfer) {
    && t.sent <= |file| && Payload(t.parts) == file[..t.sent] && Contiguous(t.parts, t.sent)
    && (t.sent > 0 ==> t.started) && (t.finished ==> t.started)
  }

  lemma PartSent(file: seq<Byte>, t: Transfer)
    requires TransferOk(file, t) && t.sent < |file| && t.started
    ensures var end := PartEnd(file, t.sent);
            TransferOk(file, t.(sent := end, parts := t.parts + [Part(t.sent, file[t.sent..end])]))
  {
    var end := PartEnd(file, t.sent);
    var p := Part(t.sent, file[t.sent..end]);
    assert (t.parts + [p])[..|t.parts|] == t.parts;
    assert file[..t.sent] + file[t.sent..end] == file[..end];
  }

  /** Filling keeps the invariant, never sends a part that starts outside the window, and stops only at the
      end of the map or when the window is full. */
  lemma {:induction false} FillKeepsOk(file: seq<Byte>, t: Transfer)
    requires TransferOk(file, t) && t.started
    ensures var f := Filled(file, t);
            && TransferOk(file, f) && f.acked == t.acked && f.started
            && f.finished == t.finished && f.allowed == t.allowed
            && t.sent <= f.sent && t.parts <= f.parts
            && (forall i :: |t.parts| <= i < |f.parts| ==> f.parts[i].start < t.acked + WINDOW)
            && (f.sent == |file| || f.sent >= t.acked + WINDOW)
    decreases |file| - t.sent
  {
    hide TransferOk;
    OkBound(file, t);
    if t.sent < |file| && t.sent < t.acked + WINDOW {
      var end := PartEnd(file, t.sent);
      var u := t.(sent := end, parts := t.parts + [Part(t.sent, file[t.sent..end])]);
      PartSent(file, t);
      FillKeepsOk(file, u);
    }
  }

  lemma OkBound(file: seq<Byte>, t: Transfer)
    requires TransferOk(file, t)
    ensures t.sent <= |file|
  {}

  lemma PumpKeepsOk(file: seq<Byte>, t: Transfer)
    requires TransferOk(file, t)
    ensures TransferOk(file, Pumped(file, t)) && Pumped(file, t).acked == t.acked
  {
    hide Filled;
    if t.started { FillKeepsOk(file, t); }
  }

  lemma RestartIsOk(file: seq<Byte>, t: Transfer)
    requires !t.finished
    ensures TransferOk(file, Restarted(t))
  {}

  // ---- whole runs ----

  datatype Event = Pump | Ack(acked: nat) | Approve | Report(flag: Byte, size: nat)

  function Step(c: Config, t: Transfer, e: Event): Transfer {
    if t.sent > |c.file| then t
    else
      match e
      case Pump => if c.present then Pumped(c.file, t) else t
      case Ack(acked) =>
        if c.present then Acknowledged(c.file, t, acked)
        else t.(acked := if acked > t.acked then acked else t.acked)
      case Approve =>
        if c.present then Approved(c.file, t)
        else if t.finished then t else Restarted(t).(allowed := true)
      case Report(flag, size) => match SizeReported(c, t, flag, size) case Kicked => t case Kept(u) => u
  }

  function Run(c: Config, t: Transfer, es: seq<Event>): Transfer {
    if es == [] then t else Step(c, Run(c, t, es[..|es| - 1]), es[|es| - 1])
  }

  const NEW_PLAYER := Transfer(false, false, false, 0, 0, [])

  lemma StepKeepsOk(c: Config, t: Transfer, e: Event)
    requires TransferOk(c.file, t)
    ensures TransferOk(c.file, Step(c, t, e))
  {
    hide Payload, Contiguous, Pumped;
    match e
    case Pump => PumpKeepsOk(c.file, t);
    case Ack(acked) => PumpKeepsOk(c.file, if acked > t.acked then t.(acked := acked) else t);
    case Approve =>
      if !t.finished {
        RestartIsOk(c.file, t);
        PumpKeepsOk(c.file, Restarted(t).(allowed := true));
      }
    case Report(flag, size) =>
      PumpKeepsOk(c.file, t.(acked := size));
      if !t.started {
        RestartIsOk(c.file, t);
        PumpKeepsOk(c.file, Restarted(t));
      }
  }

  /** Over any run of reports, acknowledgements, approvals and pumps, true or not, the parts sent since the
      last restart spell the file up to `sent`. */
  lemma {:induction false} PartsSpellTheFile(c: Config, es: seq<Event>)
    ensures TransferOk(c.file, Run(c, NEW_PLAYER, es))
  {
    hide Step, TransferOk;
    if es == [] {
      NewIsOk(c.file);
    } else {
      PartsSpellTheFile(c, es[..|es| - 1]);
      StepKeepsOk(c, Run(c, NEW_PLAYER, es[..|es| - 1]), es[|es| - 1]);
    }
  }

  lemma NewIsOk(file: seq<Byte>)
    ensures TransferOk(file, NEW_PLAYER)
  {
    assert file[..0] == [];
  }

  // ---- who is sent the map ----

  /** A report kicks the player exactly when the map is missing or incomplete and cannot be had from here. */
  lemma KickedIff(c: Config, t: Transfer, flag: Byte, size: nat)
    requires t.sent <= |c.file|
    ensures SizeReported(c, t, flag, size) == Kicked
            <==> !(flag == 1 && size == |c.file|) && (c.mode == 0 || !c.present)
  {
    hide Filled;
  }

  lemma {:induction false} FilledKeeps(file: seq<Byte>, t: Transfer)
    requires t.sent <= |file|
    ensures var f := Filled(file, t);
            f.allowed == t.allowed && f.started == t.started && f.finished == t.finished && f.acked == t.acked
    decreases |file| - t.sent
  {
    if t.sent < |file| && t.sent < t.acked + WINDOW {
      var end := PartEnd(file, t.sent);
      FilledKeeps(file, t.(sent := end, parts := t.parts + [Part(t.sent, file[t.sent..end])]));
    }
  }

  lemma PumpedKeeps(file: seq<Byte>, t: Transfer)
    requires t.sent <= |file|
    ensures var f := Pumped(file, t);
            && f.allowed == t.allowed && f.started == t.started && f.finished == t.finished
            && (!t.started || t.finished ==> f == t)
  {
    hide Filled;
    FilledKeeps(file, t);
  }

  /** What a step does to the three flags: approval allows and starts, a report of a player without the map starts
      where it may, a report of the whole map finishes what was started, and nothing is undone. */
  lemma FlagsAdvance(c: Config, t: Transfer, e: Event)
    requires t.sent <= |c.file|
    ensures
      var u := Step(c, t, e);
      var whole := e.Report? && e.flag == 1 && e.size == |c.file|;
      && (u.allowed <==> t.allowed || (e.Approve? && !t.finished))
      && (u.started <==>
           (t.started || (e.Approve? && !t.finished)
            || (e.Report? && e.flag == 1 && !whole && c.mode != 0 && c.present && (c.mode != 2 || t.allowed))))
      && (u.finished <==> t.finished || (whole && t.started))
  {
    hide Filled;
    PumpedKeeps(c.file, t);
    match e
    case Ack(acked) => PumpedKeeps(c.file, if acked > t.acked then t.(acked := acked) else t);
    case Approve => PumpedKeeps(c.file, Restarted(t).(allowed := true));
    case Report(flag, size) =>
      PumpedKeeps(c.file, Restarted(t));
      PumpedKeeps(c.file, t.(acked := size));
    case Pump =>
  }

  /** On approval only, nothing is sent to a player nobody approved. */
  lemma {:induction false} NothingWithoutApproval(c: Config, es: seq<Event>)
    requires c.mode == 2 && Approve !in es
    ensures var t := Run(c, NEW_PLAYER, es); !t.allowed && !t.started && !t.finished && t.parts == [] && t.sent == 0
  {
    hide Step;
    if es != [] {
      var n := |es| - 1;
      assert es[n] in es;
      NothingWithoutApproval(c, es[..n]);
      NotStartedStays(c, Run(c, NEW_PLAYER, es[..n]), es[n]);
    }
  }

  lemma NotStartedStays(c: Config, t: Transfer, e: Event)
    requires c.mode == 2 && !e.Approve? && !t.allowed && !t.started && !t.finished && t.parts == [] && t.sent == 0
    ensures var u := Step(c, t, e); !u.allowed && !u.started && !u.finished && u.parts == [] && u.sent == 0
  {
    FlagsAdvance(c, t, e);
    hide Filled;
  }

  /** Nothing is sent to a player who has the map. */
  lemma NothingAfterTheEnd(c: Config, t: Transfer, e: Event)
    requires t.started && t.finished
    ensures var u := Step(c, t, e); u.finished && u.parts == t.parts && u.sent == t.sent
  {
    hide Filled;
  }

  // ---- progress ----

  /** From a fully acknowledged state one filling sends exactly one window, or the rest of the map. */
  lemma {:induction false} FillAdvances(file: seq<Byte>, t: Transfer, k: nat)
    requires t.sent <= |file| && t.sent == t.acked + k * PART && k <= 100
    ensures Filled(file, t).sent == if t.acked + WINDOW <= |file| then t.acked + WINDOW else |file|
    decreases 100 - k
  {
    if t.sent < |file| && k < 100 {
      var end := PartEnd(file, t.sent);
      var u := t.(sent := end, parts := t.parts + [Part(t.sent, file[t.sent..end])]);
      if t.sent + PART <= |file| { FillAdvances(file, u, k + 1); }
    }
  }

  /** A window is a hundred parts of 1442 bytes. */
  lemma {:induction false} WindowIsAHundredParts(file: seq<Byte>, t: Transfer, k: nat)
    requires t.sent == t.acked + k * 1442 && k <= 100 && t.acked + 144200 <= |file|
    ensures
      var f := Filled(file, t);
      && f.sent == t.acked + 144200 && |f.parts| == |t.parts| + (100 - k) && t.parts <= f.parts
      && forall i :: |t.parts| <= i < |f.parts| ==>
           |f.parts[i].data| == 1442 && f.parts[i].start == t.sent + (i - |t.parts|) * 1442
    decreases 100 - k
  {
    if k < 100 {
      var end := PartEnd(file, t.sent);
      var u := t.(sent := end, parts := t.parts + [Part(t.sent, file[t.sent..end])]);
      WindowIsAHundredParts(file, u, k + 1);
    }
  }

  /** The client acknowledges all it was sent, n times over. */
  function Rounds(file: seq<Byte>, t: Transfer, n: nat): Transfer
    requires t.sent <= |file|
    ensures Rounds(file, t, n).sent <= |file|
  {
    if n == 0 then t
    else
      var u := Rounds(file, t, n - 1);
      FillBound(file, if u.sent > u.acked then u.(acked := u.sent) else u);
      Acknowledged(file, u, u.sent)
  }

  lemma {:induction false} FillBound(file: seq<Byte>, t: Transfer)
    requires t.sent <= |file|
    ensures Filled(file, t).sent <= |file|
    decreases |file| - t.sent
  {
    if t.sent < |file| && t.sent < t.acked + WINDOW {
      var end := PartEnd(file, t.sent);
      FillBound(file, t.(sent := end, parts := t.parts + [Part(t.sent, file[t.sent..end])]));
    }
  }

  /** With a truthful client each round trip sends another 144200 bytes until the whole map is out. */
  lemma {:induction false} RoundsAdvance(file: seq<Byte>, t: Transfer, n: nat)
    requires TransferOk(file, t) && t.started && !t.finished && t.acked <= t.sent
    ensures var r := Rounds(file, t, n);
            && TransferOk(file, r) && r.started && !r.finished && r.acked <= r.sent
            && r.sent == if t.sent + n * WINDOW <= |file| then t.sent + n * WINDOW else |file|
  {
    hide TransferOk;
    OkBound(file, t);
    if n > 0 {
      RoundsAdvance(file, t, n - 1);
      var u := Rounds(file, t, n - 1);
      var v := u.(acked := u.sent);
      AckedIsOk(file, u, u.sent);
      FillAdvances(file, v, 0);
      FillKeepsOk(file, v);
    }
  }

  lemma AckedIsOk(file: seq<Byte>, t: Transfer, acked: nat)
    requires TransferOk(file, t)
    ensures TransferOk(file, t.(acked := acked))
  {}

  /** So a download needs no more round trips than the map has windows, and the client then holds the map. */
  lemma DownloadCompletes(file: seq<Byte>, t: Transfer, n: nat)
    requires TransferOk(file, t) && t.started && !t.finished && t.acked <= t.sent && n * WINDOW >= |file|
    ensures Payload(Rounds(file, t, n).parts) == file
  {
    RoundsAdvance(file, t, n);
    assert file[..|file|] == file;
  }

  /** The client's acknowledgements taken one after another. */
  function AckedAll(file: seq<Byte>, t: Transfer, acks: seq<nat>): (r: Transfer)
    requires t.sent <= |file|
    ensures r.sent <= |file|
  {
    if acks == [] then t
    else
      var n := |acks| - 1;
      var u := AckedAll(file, t, acks[..n]);
      FillBound(file, if acks[n] > u.acked then u.(acked := acks[n]) else u);
      Acknowledged(file, u, acks[n])
  }

  /** Each acknowledges at least `more` further bytes, of those it was sent. */
  ghost predicate Advancing(file: seq<Byte>, t: Transfer, acks: seq<nat>, more: nat)
    requires t.sent <= |file|
  {
    forall i :: 0 <= i < |acks| ==>
      var u := AckedAll(file, t, acks[..i]);
      u.acked + more <= acks[i] <= u.sent
  }

  /** Whatever part of what it was sent a client acknowledges each time, the window behind what it has
      acknowledged is always full, or the map is out. */
  lemma {:induction false} AcksAdvance(file: seq<Byte>, t: Transfer, acks: seq<nat>, more: nat)
    requires TransferOk(file, t) && t.started && !t.finished && t.acked <= t.sent && Advancing(file, t, acks, more)
    ensures var r := AckedAll(file, t, acks);
            && TransferOk(file, r) && r.started && !r.finished && t.acked + |acks| * more <= r.acked <= r.sent
            && (acks != [] ==> r.sent == |file| || r.sent >= r.acked + WINDOW)
  {
    hide TransferOk, Acknowledged, Advancing;
    OkBound(file, t);
    if acks != [] {
      var n := |acks| - 1;
      AdvancingFront(file, t, acks, more);
      AcksAdvance(file, t, acks[..n], more);
      AckAdvances(file, AckedAll(file, t, acks[..n]), acks[n]);
      assert |acks| * more == n * more + more;
    }
  }

  lemma AdvancingFront(file: seq<Byte>, t: Transfer, acks: seq<nat>, more: nat)
    requires t.sent <= |file| && Advancing(file, t, acks, more) && acks != []
    ensures
      var n := |acks| - 1;
      var u := AckedAll(file, t, acks[..n]);
      Advancing(file, t, acks[..n], more) && u.acked + more <= acks[n] <= u.sent
  {
    hide AckedAll;
    assert forall i :: 0 <= i < |acks| - 1 ==> acks[..|acks| - 1][..i] == acks[..i];
  }

  lemma AckAdvances(file: seq<Byte>, t: Transfer, acked: nat)
    requires TransferOk(file, t) && t.started && !t.finished && t.acked <= acked <= t.sent
    ensures var r := Acknowledged(file, t, acked);
            && TransferOk(file, r) && r.started && !r.finished && r.acked == acked <= r.sent
            && (r.sent == |file| || r.sent >= r.acked + WINDOW)
  {
    hide TransferOk, Filled;
    OkBound(file, t);
    AckedIsOk(file, t, acked);
    FillKeepsOk(file, t.(acked := acked));
    assert t.(acked := t.acked) == t;
  }

  /** So the map is out once the acknowledgements, each of some `more` bytes, come within a window of its end;
      until then the client always holds a whole window it has yet to acknowledge. */
  lemma PartialAcksComplete(file: seq<Byte>, t: Transfer, acks: seq<nat>, more: nat)
    requires TransferOk(file, t) && t.started && !t.finished && t.acked <= t.sent && Advancing(file, t, acks, more)
    requires acks != []
    ensures var r := AckedAll(file, t, acks);
            if t.acked + |acks| * more + WINDOW >= |file| then Payload(r.parts) == file
            else Payload(r.parts) == file || r.sent - r.acked >= WINDOW
  {
    AcksAdvance(file, t, acks, more);
    assert file[..|file|] == file;
  }

  // ---- packets ----

  /** `send_w3gs_mappart`, for a start inside the map. */
  function PartPacket(from: Byte, to: Byte, file: seq<Byte>, start: nat, crc: seq<Byte> -> U32): seq<Byte>
    requires start < |file| < U32_SIZE
  {
    var chunk := file[start..PartEnd(file, start)];
    AssignLength([W3GS_HEADER_CONSTANT, W3GS_MAPPART, 0, 0, to, from, 1, 0, 0, 0]
                 + Le32(start) + Le32(crc(chunk)) + chunk)
  }

  datatype ReadPart = Unreadable | Readable(to: Byte, part: Part)

  /** A client's reading of a part. */
  function ParsePart(s: seq<Byte>, crc: seq<Byte> -> U32): ReadPart {
    if !ValidLength(s) || |s| < 18 || s[0] != W3GS_HEADER_CONSTANT || s[1] != W3GS_MAPPART
       || FromLe32(s[14..18]) != crc(s[18..]) then Unreadable
    else Readable(s[4], Part(FromLe32(s[10..14]), s[18..]))
  }

  /** Every part fits one packet and is read back with its place and contents. */
  lemma PartRoundTrip(from: Byte, to: Byte, file: seq<Byte>, start: nat, crc: seq<Byte> -> U32)
    requires start < |file| < U32_SIZE
    ensures |PartPacket(from, to, file, start, crc)| <= 1460
    ensures ParsePart(PartPacket(from, to, file, start, crc), crc)
            == Readable(to, Part(start, file[start..PartEnd(file, start)]))
  {
    hide Le32, FromLe32;
    var chunk := file[start..PartEnd(file, start)];
    var p := PartPacket(from, to, file, start, crc);
    assert p[2..4] == Le16(|p|);
    assert p[10..14] == Le32(start) && p[14..18] == Le32(crc(chunk)) && p[18..] == chunk;
  }

  // ---- the methods ----

  function SaturatingAdd(a: U32, b: U32): U32 {
    if a + b < U32_SIZE then a + b else U32_SIZE - 1
  }

  /** One packet for each part, in order. */
  ghost predicate PacketsCarry(packets: seq<seq<Byte>>, parts: seq<Part>, file: seq<Byte>, from: Byte, to: Byte,
                               crc: seq<Byte> -> U32)
    requires |file| < U32_SIZE
  {
    && |packets| == |parts|
    && forall i :: 0 <= i < |packets| ==>
      parts[i].start < |file| && packets[i] == PartPacket(from, to, file, parts[i].start, crc)
  }

  /** The download fields of one player record. */
  class LobbyPlayer {
    var downloadAllowed: bool
    var downloadStarted: bool
    var downloadFinished: bool
    var lastPartSent: U32
    var lastPartAcked: U32
    ghost var parts: seq<Part>

    ghost function State(): Transfer
      reads this
    {
      Transfer(downloadAllowed, downloadStarted, downloadFinished, lastPartSent, lastPartAcked, parts)
    }

    /** `send_map_parts`; the packets of the parts sent are returned. */
    method SendMapParts(file: seq<Byte>, from: Byte, pid: Byte, crc: seq<Byte> -> U32) returns (packets: seq<seq<Byte>>)
      requires |file| < U32_SIZE && lastPartSent <= |file|
      modifies this
      ensures State() == Pumped(file, old(State())) && downloadStarted == old(downloadStarted)
      ensures old(parts) <= parts
      ensures PacketsCarry(packets, parts[|old(parts)|..], file, from, pid, crc)
    {
      hide PartPacket;
      packets := [];
      if !downloadStarted || downloadFinished { return; }
      ghost var start := State();
      var sent := lastPartSent;
      while sent < |file| && sent < SaturatingAdd(lastPartAcked, WINDOW)
        invariant sent <= |file| && old(parts) <= parts
        invariant State() == start.(parts := parts)
        invariant PacketsCarry(packets, parts[|old(parts)|..], file, from, pid, crc)
        invariant Filled(file, start) == Filled(file, start.(sent := sent, parts := parts))
      {
        ghost var part := Part(sent, file[sent..PartEnd(file, sent)]);
        assert (parts + [part])[|old(parts)|..] == parts[|old(parts)|..] + [part];
        packets := packets + [PartPacket(from, pid, file, sent, crc)];
        parts := parts + [part];
        var next := SaturatingAdd(sent, PART);
        sent := if next < |file| then next else |file|;
      }
      lastPartSent := sent;
    }

    method Restart()
      modifies this
      ensures State() == Restarted(old(State()))
    {
      downloadStarted := true;
      lastPartSent := 0;
      lastPartAcked := 0;
      parts := [];
    }

    /** MAPPARTOK. */
    method HandleMapPartOk(file: seq<Byte>, acked: U32, from: Byte, pid: Byte, crc: seq<Byte> -> U32)
      returns (packets: seq<seq<Byte>>)
      requires |file| < U32_SIZE && lastPartSent <= |file|
      modifies this
      ensures State() == Acknowledged(file, old(State()), acked)
      ensures old(parts) <= parts
      ensures PacketsCarry(packets, parts[|old(parts)|..], file, from, pid, crc)
    {
      hide Filled, PartPacket;
      if acked > lastPartAcked { lastPartAcked := acked; }
      packets := SendMapParts(file, from, pid, crc);
    }

    /** `handle_map_size`: false when the player is to be kicked. A download begun here counts its parts afresh. */
    method HandleMapSize(c: Config, flag: Byte, size: U32, from: Byte, pid: Byte, crc: seq<Byte> -> U32)
      returns (kept: bool, packets: seq<seq<Byte>>)
      requires |c.file| < U32_SIZE && lastPartSent <= |c.file|
      modifies this
      ensures SizeReported(c, old(State()), flag, size) == if kept then Kept(State()) else Kicked
      ensures
        var before := if downloadStarted && !old(downloadStarted) then [] else old(parts);
        before <= parts && PacketsCarry(packets, parts[|before|..], c.file, from, pid, crc)
    {
      hide Filled, PartPacket;
      packets := [];
      if flag != 1 || size != |c.file| {
        if c.mode == 0 || !c.present { return false, packets; }
        var permitted := c.mode != 2 || downloadAllowed;
        if permitted {
          if !downloadStarted && flag == 1 {
            Restart();
          } else {
            lastPartAcked := size;
          }
          packets := SendMapParts(c.file, from, pid, crc);
        }
      } else if downloadStarted && !downloadFinished {
        downloadFinished := true;
      }
      return true, packets;
    }
  }
}
