/**
 A connection's write queue: one sender and one write task sharing an atomic byte count and an
 unbounded channel. Every atomic operation is a step of its own, so a run is one interleaving.
 */
module WriteQueue {
  import opened Bytes
  import Session
  import SessionTable

  const WRITE_QUEUE_MAX_BYTES := 8 * 1024 * 1024
  const GPROXY_BUFFER_MAX_BYTES := WRITE_QUEUE_MAX_BYTES - 64 * 1024
  /** The GPSS_RECONNECT packet: a four-byte header and a count. */
  const HANDSHAKE_BYTES := 8

  /** Where try_send stands: past the check, charged, or taking the charge back. */
  datatype Sender = Idle | Checked(len: nat) | Charged(len: nat) | Refunding(len: nat)

  /** Where the write task stands. */
  datatype Writer = Waiting | Writing(len: nat) | Failed | Draining | Releasing(len: nat) | Ended

  /** `queued` is the shared counter, an int so that an underflow would show. `abandoned` counts the
      bytes an aborted task left charged, `refusals` the sends turned away for want of budget; `answers`
      is what try_send returned, in order. */
  datatype Queue = Queue(queued: int, channel: seq<nat>, open: bool, sender: Sender, writer: Writer,
                         abandoned: nat, refusals: nat, answers: seq<bool>)

  datatype Event =
    | Begin(len: nat)   // load the counter and compare
    | Charge            // fetch_add
    | Push              // send on the channel
    | Refund            // fetch_sub after a failed send
    | Receive           // the writer takes a packet
    | Wrote(ok: bool)   // the write returned; fetch_sub
    | Close             // the writer closes the channel after an error
    | DrainTake
    | DrainRelease      // fetch_sub for a packet that will never be written
    | Finish
    | Abort             // ConnHandle::close at an await point

  function Step(q: Queue, ev: Event): Queue {
    match ev
    case Begin(len) =>
      if q.sender != Idle then q
      else if q.queued + len > WRITE_QUEUE_MAX_BYTES then
        q.(refusals := q.refusals + 1, answers := q.answers + [false])
      else q.(sender := Checked(len))
    case Charge =>
      if q.sender.Checked? then q.(queued := q.queued + q.sender.len, sender := Charged(q.sender.len)) else q
    case Push =>
      if !q.sender.Charged? then q
      else if q.open then
        q.(channel := q.channel + [q.sender.len], sender := Idle, answers := q.answers + [true])
      else q.(sender := Refunding(q.sender.len))
    case Refund =>
      if q.sender.Refunding? then
        q.(queued := q.queued - q.sender.len, sender := Idle, answers := q.answers + [false])
      else q
    case Receive =>
      if q.writer == Waiting && q.channel != [] then
        q.(channel := q.channel[1..], writer := Writing(q.channel[0]))
      else q
    case Wrote(ok) =>
      if q.writer.Writing? then
        q.(queued := q.queued - q.writer.len, writer := if ok then Waiting else Failed)
      else q
    case Close => if q.writer == Failed then q.(open := false, writer := Draining) else q
    case DrainTake =>
      if q.writer == Draining && q.channel != [] then
        q.(channel := q.channel[1..], writer := Releasing(q.channel[0]))
      else q
    case DrainRelease =>
      if q.writer.Releasing? then q.(queued := q.queued - q.writer.len, writer := Draining) else q
    case Finish => if q.writer == Draining && q.channel == [] then q.(writer := Ended) else q
    case Abort =>
      if q.writer == Waiting || q.writer.Writing? then
        q.(open := false, channel := [], writer := Ended, abandoned := q.abandoned + Sum(q.channel) + Held(q.writer))
      else q
  }

  function Run(q: Queue, evs: seq<Event>): Queue {
    if evs == [] then q else Step(Run(q, evs[..|evs| - 1]), evs[|evs| - 1])
  }

  const FRESH := Queue(0, [], true, Idle, Waiting, 0, 0, [])

  function Sum(lens: seq<nat>): nat {
    if lens == [] then 0 else Sum(lens[..|lens| - 1]) + lens[|lens| - 1]
  }

  /** Bytes in the write task's hands. */
  function Held(w: Writer): nat {
    if w.Writing? || w.Releasing? then w.len else 0
  }

  /** Bytes charged by the sender but not yet in the channel. */
  function Owed(s: Sender): nat {
    if s.Charged? || s.Refunding? then s.len else 0
  }

  /** The counter is exactly what is outstanding, and within the budget even at the check. */
  ghost predicate Accounted(q: Queue) {
    && q.queued == Sum(q.channel) + Held(q.writer) + Owed(q.sender) + q.abandoned
    && q.queued + (if q.sender.Checked? then q.sender.len else 0) <= WRITE_QUEUE_MAX_BYTES
    && (q.abandoned > 0 ==> q.writer == Ended)
    && (q.writer == Ended ==> q.channel == [] && !q.open)
    && (q.writer == Draining || q.writer.Releasing? ==> !q.open)
  }

  lemma {:induction false} SumFront(lens: seq<nat>)
    requires lens != []
    ensures Sum(lens) == lens[0] + Sum(lens[1..])
  {
    if |lens| > 1 {
      var n := |lens| - 1;
      SumFront(lens[..n]);
      assert lens[..n][1..] == lens[1..][..n - 1];
    }
  }

  lemma StepKeepsAccounts(q: Queue, ev: Event)
    requires Accounted(q)
    ensures Accounted(Step(q, ev))
  {
    if q.channel != [] { SumFront(q.channel); }
    if q.sender.Charged? {
      assert (q.channel + [q.sender.len])[..|q.channel|] == q.channel;
    }
  }

  /** Under every interleaving the counter equals the bytes outstanding, so it never underflows and
      never exceeds the budget; only an aborted task leaves bytes charged, and then for good. */
  lemma {:induction false} CounterIsOutstandingBytes(evs: seq<Event>)
    ensures var q := Run(FRESH, evs);
            && Accounted(q) && 0 <= q.queued <= WRITE_QUEUE_MAX_BYTES
            && (q.sender.Idle? && q.writer != Ended ==> q.queued == Sum(q.channel) + Held(q.writer))
  {
    if evs != [] {
      var n := |evs| - 1;
      CounterIsOutstandingBytes(evs[..n]);
      StepKeepsAccounts(Run(FRESH, evs[..n]), evs[n]);
    }
  }

  /** The lengths handed to try_send, in order. */
  function Sends(evs: seq<Event>): seq<nat> {
    if evs == [] then []
    else
      var n := |evs| - 1;
      Sends(evs[..n]) + if evs[n].Begin? then [evs[n].len] else []
  }

  lemma {:induction false} CounterWithinSends(evs: seq<Event>)
    requires Sum(Sends(evs)) <= WRITE_QUEUE_MAX_BYTES
    ensures var q := Run(FRESH, evs);
            q.refusals == 0 && q.queued + (if q.sender.Checked? then q.sender.len else 0) <= Sum(Sends(evs))
  {
    if evs != [] {
      var n := |evs| - 1;
      var sent := Sends(evs[..n]);
      if evs[n].Begin? { assert (sent + [evs[n].len])[..|sent|] == sent; }
      assert Sends(evs) == sent || Sends(evs)[..|sent|] == sent;
      CounterWithinSends(evs[..n]);
      CounterIsOutstandingBytes(evs[..n]);
      hide Run, Sends;
      StepWithinSends(Run(FRESH, evs[..n]), evs[n], Sum(sent));
    }
  }

  lemma StepWithinSends(q: Queue, ev: Event, sent: nat)
    requires Accounted(q) && q.refusals == 0
    requires q.queued + (if q.sender.Checked? then q.sender.len else 0) <= sent
    requires ev.Begin? ==> sent + ev.len <= WRITE_QUEUE_MAX_BYTES
    ensures var r := Step(q, ev);
            r.refusals == 0
            && r.queued + (if r.sender.Checked? then r.sender.len else 0) <= sent + if ev.Begin? then ev.len else 0
  {
    hide Sum;
  }

  /** One send at a time, with a write task that never gets to run. */
  function Stalled(lens: seq<nat>): seq<Event> {
    if lens == [] then [] else Stalled(lens[..|lens| - 1]) + [Begin(lens[|lens| - 1]), Charge, Push]
  }

  lemma {:induction false} RunSnoc(q: Queue, evs: seq<Event>, ev: Event)
    ensures Run(q, evs + [ev]) == Step(Run(q, evs), ev)
    ensures Sends(evs + [ev]) == Sends(evs) + if ev.Begin? then [ev.len] else []
  {
    assert (evs + [ev])[..|evs|] == evs;
  }

  lemma RunSend(q: Queue, evs: seq<Event>, len: nat)
    ensures Run(q, evs + [Begin(len), Charge, Push]) == Step(Step(Step(Run(q, evs), Begin(len)), Charge), Push)
    ensures Sends(evs + [Begin(len), Charge, Push]) == Sends(evs) + [len]
  {
    hide Run, Step, Sends;
    RunSnoc(q, evs, Begin(len));
    RunSnoc(q, evs + [Begin(len)], Charge);
    RunSnoc(q, evs + [Begin(len)] + [Charge], Push);
    assert evs + [Begin(len), Charge, Push] == evs + [Begin(len)] + [Charge] + [Push];
  }

  lemma {:induction false} StalledRun(lens: seq<nat>)
    ensures var q := Run(FRESH, Stalled(lens));
            && q.sender == Idle && q.open
            && Sends(Stalled(lens)) == lens
            && (q.refusals == 0 ==> q.queued == Sum(lens) <= WRITE_QUEUE_MAX_BYTES)
  {
    if lens != [] {
      var n := |lens| - 1;
      StalledRun(lens[..n]);
      RunSend(FRESH, Stalled(lens[..n]), lens[n]);
      hide Run, Sends;
    }
  }

  // ---- what try_send answers ----

  /** A false answer has one of two causes, the budget or a closed channel, and both give false. */
  ghost predicate AnswersOk(q: Queue) {
    && (false in q.answers ==> q.refusals > 0 || !q.open)
    && (q.refusals > 0 ==> false in q.answers)
    && (q.sender.Refunding? ==> !q.open)
  }

  lemma StepKeepsAnswers(q: Queue, ev: Event)
    requires AnswersOk(q)
    ensures AnswersOk(Step(q, ev)) && q.answers <= Step(q, ev).answers
  {
    hide Sum, Held;
  }

  /** Under every interleaving try_send answers false only over budget or on a closed channel. */
  lemma {:induction false} FalseOnlyOverBudgetOrClosed(evs: seq<Event>)
    ensures AnswersOk(Run(FRESH, evs))
  {
    hide Step, AnswersOk;
    if evs == [] {
      NoAnswersYet();
    } else {
      FalseOnlyOverBudgetOrClosed(evs[..|evs| - 1]);
      StepKeepsAnswers(Run(FRESH, evs[..|evs| - 1]), evs[|evs| - 1]);
    }
  }

  lemma NoAnswersYet()
    ensures AnswersOk(FRESH)
  {}

  /** No write fails and nobody tears the connection down. */
  ghost predicate Smooth(evs: seq<Event>) {
    Abort !in evs && Wrote(false) !in evs
  }

  /** While no write fails and nobody tears it down the channel stays open. */
  lemma {:induction false} SmoothStaysOpen(evs: seq<Event>)
    requires Smooth(evs)
    ensures var q := Run(FRESH, evs);
            q.open && !q.sender.Refunding? && (q.writer == Waiting || q.writer.Writing?)
  {
    if evs != [] {
      var n := |evs| - 1;
      assert evs[n] in evs;
      SmoothStaysOpen(evs[..n]);
      hide Sum, Held;
    }
  }

  /** Within the budget and with nothing failing every answer is true. */
  lemma WithinBudgetAnswersTrue(evs: seq<Event>)
    requires Smooth(evs) && Sum(Sends(evs)) <= WRITE_QUEUE_MAX_BYTES
    ensures false !in Run(FRESH, evs).answers
  {
    hide Run, Sends, Sum, Smooth;
    CounterWithinSends(evs);
    FalseOnlyOverBudgetOrClosed(evs);
    SmoothStaysOpen(evs);
  }

  /** On a fresh connection a series of packets is answered true in every interleaving in which no write
      fails and nobody tears the connection down, if and only if together they fit the budget. */
  lemma SureToFitIffWithinBudget(lens: seq<nat>)
    ensures (forall evs :: Sends(evs) == lens && Smooth(evs) ==> false !in Run(FRESH, evs).answers)
       <==> Sum(lens) <= WRITE_QUEUE_MAX_BYTES
  {
    hide Run, Sends, Sum, Smooth;
    if Sum(lens) <= WRITE_QUEUE_MAX_BYTES {
      forall evs | Sends(evs) == lens && Smooth(evs) ensures false !in Run(FRESH, evs).answers {
        WithinBudgetAnswersTrue(evs);
      }
    } else {
      StalledRun(lens);
      StalledIsSmooth(lens);
      FalseOnlyOverBudgetOrClosed(Stalled(lens));
    }
  }

  lemma {:induction false} StalledIsSmooth(lens: seq<nat>)
    ensures Smooth(Stalled(lens))
  {
    if lens != [] { StalledIsSmooth(lens[..|lens| - 1]); }
  }

  /** A closed channel stays closed, and from then on every send is answered false: such a refusal is final. */
  lemma {:induction false} ClosedRefusesForever(q: Queue, evs: seq<Event>)
    requires !q.open
    ensures var r := Run(q, evs);
            !r.open && q.answers <= r.answers && true !in r.answers[|q.answers|..]
  {
    hide Sum, Held;
    if evs != [] {
      var n := |evs| - 1;
      ClosedRefusesForever(q, evs[..n]);
      ClosedRefuses(Run(q, evs[..n]), evs[n]);
      assert Run(q, evs).answers[..|q.answers|] == q.answers;
    }
  }

  lemma ClosedRefuses(q: Queue, ev: Event)
    requires !q.open
    ensures var r := Step(q, ev); !r.open && (r.answers == q.answers || r.answers == q.answers + [false])
  {}

  /** What a send does with nothing else going on. */
  lemma SendAlone(q: Queue, len: nat)
    requires q.sender == Idle && q.open
    ensures
      var r := Step(Step(Step(q, Begin(len)), Charge), Push);
      var fits := q.queued + len <= WRITE_QUEUE_MAX_BYTES;
      && r.sender == Idle && r.open && r.answers == q.answers + [fits]
      && r.queued == if fits then q.queued + len else q.queued
  {
    hide Sum, Held;
  }

  lemma OneMore(lens: seq<nat>, len: nat)
    requires var q := Run(FRESH, Stalled(lens)); q.sender == Idle && q.open
    ensures
      var q, r := Run(FRESH, Stalled(lens)), Run(FRESH, Stalled(lens + [len]));
      var fits := q.queued + len <= WRITE_QUEUE_MAX_BYTES;
      && r.sender == Idle && r.open && r.answers == q.answers + [fits]
      && r.queued == if fits then q.queued + len else q.queued
  {
    hide Run, Step;
    assert (lens + [len])[..|lens|] == lens;
    RunSend(FRESH, Stalled(lens), len);
    SendAlone(Run(FRESH, Stalled(lens)), len);
  }

  lemma {:induction false} AllTaken(lens: seq<nat>)
    requires Sum(lens) <= WRITE_QUEUE_MAX_BYTES
    ensures var q := Run(FRESH, Stalled(lens));
            q.queued == Sum(lens) && q.sender == Idle && q.open && q.answers == seq(|lens|, i => true)
  {
    if lens != [] {
      var n := |lens| - 1;
      AllTaken(lens[..n]);
      hide Run, Stalled;
      OneMore(lens[..n], lens[n]);
      assert lens[..n] + [lens[n]] == lens;
      assert seq(|lens|, i => true) == seq(n, i => true) + [true];
    }
  }

  /** A refusal for want of budget is not final: whatever has been queued, a packet beyond the budget is
      refused and one within it, sent right after, is taken. */
  lemma SmallerPacketIsTakenAfterRefusal(lens: seq<nat>, large: nat, small: nat)
    requires Sum(lens) + small <= WRITE_QUEUE_MAX_BYTES < Sum(lens) + large
    ensures Run(FRESH, Stalled(lens + [large, small])).answers == seq(|lens|, i => true) + [false, true]
  {
    hide Run, Stalled, Sum;
    AllTaken(lens);
    OneMore(lens, large);
    OneMore(lens + [large], small);
    assert lens + [large] + [small] == lens + [large, small];
    assert seq(|lens|, i => true) + [false] + [true] == seq(|lens|, i => true) + [false, true];
  }

  function Lengths(pkts: seq<Session.Packet>): seq<nat> {
    seq(|pkts|, i requires 0 <= i < |pkts| => |pkts[i]|)
  }

  lemma {:induction false} TotalIsSum(pkts: seq<Session.Packet>)
    ensures Session.Total(pkts) == Sum(Lengths(pkts))
  {
    if pkts != [] {
      TotalIsSum(pkts[1..]);
      assert Lengths(pkts)[1..] == Lengths(pkts[1..]);
      SumFront(Lengths(pkts));
    }
  }

  /** A player whose counted buffer is within its cap can always be replayed: on the fresh socket of a
      reconnect neither the handshake nor any buffered packet is refused unless the channel has closed,
      which takes a failed write or a tear-down. */
  lemma CappedReplayIsNeverRefused(p: Session.LobbyPlayer, log: seq<Session.Packet>, loaded: bool, evs: seq<Event>)
    requires SessionTable.BufferOk(p, log, loaded)
    requires p.gproxyBufferBytes <= GPROXY_BUFFER_MAX_BYTES
    requires Sends(evs) == [HANDSHAKE_BYTES] + Lengths(p.gproxyBuffer)
    ensures false in Run(FRESH, evs).answers ==> !Run(FRESH, evs).open
    ensures Smooth(evs) ==> false !in Run(FRESH, evs).answers
  {
    TotalIsSum(p.gproxyBuffer);
    SumFront(Sends(evs));
    assert Sends(evs)[1..] == Lengths(p.gproxyBuffer);
    hide Run, Smooth, Sum;
    CounterWithinSends(evs);
    FalseOnlyOverBudgetOrClosed(evs);
    if Smooth(evs) { WithinBudgetAnswersTrue(evs); }
  }
}
