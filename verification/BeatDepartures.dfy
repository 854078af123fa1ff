/** Over every run, everyone who remains and the replay are told of each departure, once and in order. */
module BeatDepartures {
  import opened Bytes
  import opened Batching
  import opened Beat
  import opened BeatRuns
  import opened BeatStreams

  /** The departures announced in a stream, in order. */
  function Announced(msgs: seq<Msg>): seq<Pid> {
    if msgs == [] then []
    else
      var k := |msgs| - 1;
      Announced(msgs[..k]) + match msgs[k] case PlayerLeave(pid) => [pid] case _ => []
  }

  function Departed(blocks: seq<Block>): seq<Pid> {
    if blocks == [] then []
    else
      var k := |blocks| - 1;
      Departed(blocks[..k]) + match blocks[k] case Leave(pid) => [pid] case _ => []
  }

  lemma {:induction false} AnnouncedAppend(a: seq<Msg>, b: seq<Msg>)
    ensures Announced(a + b) == Announced(a) + Announced(b)
  {
    if b == [] {
      assert a + b == a;
    } else {
      var k := |b| - 1;
      AnnouncedAppend(a, b[..k]);
      assert (a + b)[..|a| + k] == a + b[..k];
    }
  }

  lemma {:induction false} DepartedAppend(a: seq<Block>, b: seq<Block>)
    ensures Departed(a + b) == Departed(a) + Departed(b)
  {
    if b == [] {
      assert a + b == a;
    } else {
      var k := |b| - 1;
      DepartedAppend(a, b[..k]);
      assert (a + b)[..|a| + k] == a + b[..k];
    }
  }

  /** The players `gone` left between g and h, each once. */
  ghost predicate Went(g: Game, h: Game, gone: seq<Pid>) {
    h.players.Keys <= g.players.Keys && multiset(gone) == multiset(g.players.Keys - h.players.Keys)
  }

  /** Their departures, and no others, were announced to everyone who stayed. */
  ghost predicate StayersTold(g: Game, h: Game, gone: seq<Pid>) {
    forall p :: p in h.players && p in g.players ==>
      Announced(Msgs(h.players[p].stream)) == Announced(Msgs(g.players[p].stream)) + gone
  }

  ghost predicate ReplayTold(g: Game, h: Game, c: Config, gone: seq<Pid>) {
    Departed(h.replay) == Departed(g.replay) + if c.recording then gone else []
  }

  ghost predicate Told(g: Game, h: Game, c: Config, gone: seq<Pid>) {
    Went(g, h, gone) && StayersTold(g, h, gone) && ReplayTold(g, h, c, gone)
  }

  lemma ToldTwice(g: Game, h: Game, k: Game, c: Config, a: seq<Pid>, b: seq<Pid>)
    requires Told(g, h, c, a) && Told(h, k, c, b)
    ensures Told(g, k, c, a + b)
  {
    WentTwice(g, h, k, a, b);
    StayersTwice(g, h, k, a, b);
    Associates(Departed(g.replay), a, b);
    hide Departed, Went, StayersTold;
  }

  lemma WentTwice(g: Game, h: Game, k: Game, a: seq<Pid>, b: seq<Pid>)
    requires Went(g, h, a) && Went(h, k, b)
    ensures Went(g, k, a + b)
  {
    SetsApart(g.players.Keys, h.players.Keys, k.players.Keys);
  }

  lemma StayersTwice(g: Game, h: Game, k: Game, a: seq<Pid>, b: seq<Pid>)
    requires k.players.Keys <= h.players.Keys && StayersTold(g, h, a) && StayersTold(h, k, b)
    ensures StayersTold(g, k, a + b)
  {
    hide Announced, Msgs;
    forall p | p in k.players && p in g.players
      ensures Announced(Msgs(k.players[p].stream)) == Announced(Msgs(g.players[p].stream)) + (a + b)
    {
      Associates(Announced(Msgs(g.players[p].stream)), a, b);
    }
  }

  lemma Associates(x: seq<Pid>, a: seq<Pid>, b: seq<Pid>)
    ensures x + a + b == x + (a + b)
  {}

  lemma SetsApart(x: set<Pid>, y: set<Pid>, z: set<Pid>)
    requires z <= y <= x
    ensures multiset(x - y) + multiset(y - z) == multiset(x - z)
  {}

  lemma Nothing(g: Game, h: Game, c: Config)
    requires h.players.Keys == g.players.Keys && h.replay == g.replay
    requires forall p :: p in g.players ==> h.players[p].stream == g.players[p].stream
    ensures Told(g, h, c, [])
  {
    assert g.players.Keys - h.players.Keys == {};
  }

  lemma {:induction false} NoneAnnounced(msgs: seq<Msg>)
    requires forall i :: 0 <= i < |msgs| ==> !msgs[i].PlayerLeave?
    ensures Announced(msgs) == []
  {
    if msgs != [] { NoneAnnounced(msgs[..|msgs| - 1]); }
  }

  lemma {:induction false} NoneRecorded(blocks: seq<Block>)
    requires forall i :: 0 <= i < |blocks| ==> !blocks[i].Leave?
    ensures Departed(blocks) == []
  {
    if blocks != [] { NoneRecorded(blocks[..|blocks| - 1]); }
  }

  lemma GivenAnnounces(p: Player, msgs: seq<Msg>)
    ensures Announced(Msgs(Given(p, msgs).stream)) == Announced(Msgs(p.stream)) + Announced(msgs)
  {
    AnnouncedAppend(Msgs(p.stream), msgs);
    assert Msgs(Given(p, msgs).stream) == Msgs(p.stream) + msgs;
  }

  /** Packets that announce nobody, and blocks that record nobody. */
  lemma QuietTold(g: Game, h: Game, c: Config, flagged: Players, direct: seq<Msg>, via: seq<Msg>, blocks: seq<Block>)
    requires flagged.Keys == g.players.Keys && h.players == GiveEach(flagged, direct, via)
    requires forall p :: p in flagged ==> flagged[p].stream == g.players[p].stream
    requires (forall i :: 0 <= i < |direct| ==> !direct[i].PlayerLeave?)
             && forall i :: 0 <= i < |via| ==> !via[i].PlayerLeave?
    requires h.replay == g.replay + blocks && forall i :: 0 <= i < |blocks| ==> !blocks[i].Leave?
    ensures Told(g, h, c, [])
  {
    QuietStayers(g, h, flagged, direct, via);
    NoneRecorded(blocks);
    DepartedAppend(g.replay, blocks);
    assert h.players.Keys == g.players.Keys && g.players.Keys - h.players.Keys == {};
    assert Departed(g.replay) + [] == Departed(g.replay);
    hide Departed, StayersTold, GiveEach;
  }

  lemma QuietStayers(g: Game, h: Game, flagged: Players, direct: seq<Msg>, via: seq<Msg>)
    requires flagged.Keys == g.players.Keys && h.players == GiveEach(flagged, direct, via)
    requires forall p :: p in flagged ==> flagged[p].stream == g.players[p].stream
    requires (forall i :: 0 <= i < |direct| ==> !direct[i].PlayerLeave?)
             && forall i :: 0 <= i < |via| ==> !via[i].PlayerLeave?
    ensures StayersTold(g, h, [])
  {
    hide Announced, Msgs, Given;
    NoneAnnounced(direct);
    NoneAnnounced(via);
    forall p | p in h.players
      ensures Announced(Msgs(h.players[p].stream)) == Announced(Msgs(g.players[p].stream)) + []
    {
      GivenAnnounces(flagged[p], if flagged[p].gproxy then via else direct);
      GivenAnnouncesSame(flagged[p], g.players[p]);
    }
  }

  lemma GivenAnnouncesSame(p: Player, q: Player)
    requires p.stream == q.stream
    ensures Announced(Msgs(p.stream)) == Announced(Msgs(q.stream))
  {}

  lemma RemoveTold(g: Game, c: Config, pid: Pid)
    ensures Told(g, RemovePlayer(g, c, pid), c, if pid in g.players then [pid] else [])
  {
    if pid in g.players {
      hide RemovePlayer, Went, StayersTold, ReplayTold;
      RemoveWent(g, c, pid);
      RemoveAnnounced(g, c, pid);
      RemoveRecorded(g, c, pid);
    } else {
      Nothing(g, g, c);
    }
  }

  lemma RemoveWent(g: Game, c: Config, pid: Pid)
    requires pid in g.players
    ensures Went(g, RemovePlayer(g, c, pid), [pid])
  {
    hide Purged, Given;
    var h := RemovePlayer(g, c, pid);
    assert h.players.Keys == g.players.Keys - {pid} && g.players.Keys - h.players.Keys == {pid};
  }

  lemma RemoveAnnounced(g: Game, c: Config, pid: Pid)
    requires pid in g.players
    ensures StayersTold(g, RemovePlayer(g, c, pid), [pid])
  {
    hide Announced, Purged, Msgs, Given;
    var h := RemovePlayer(g, c, pid);
    OneLeft(pid);
    forall p | p in h.players
      ensures Announced(Msgs(h.players[p].stream)) == Announced(Msgs(g.players[p].stream)) + [pid]
    {
      GivenAnnounces(g.players[p], [PlayerLeave(pid)]);
    }
  }

  lemma RemoveRecorded(g: Game, c: Config, pid: Pid)
    requires pid in g.players
    ensures ReplayTold(g, RemovePlayer(g, c, pid), c, [pid])
  {
    hide Departed, Purged, Given;
    OneLeft(pid);
    DepartedAppend(g.replay, [Leave(pid)]);
    assert Departed(g.replay) + [] == Departed(g.replay);
  }

  lemma OneLeft(pid: Pid)
    ensures Announced([PlayerLeave(pid)]) == [pid] && Departed([Leave(pid)]) == [pid]
  {
    assert [PlayerLeave(pid)][..0] == [] && [Leave(pid)][..0] == [];
  }

  lemma {:induction false} RemoveEachTold(g: Game, c: Config, pids: seq<Pid>) returns (gone: seq<Pid>)
    ensures Told(g, RemoveEach(g, c, pids), c, gone)
  {
    hide RemovePlayer, Told;
    if pids == [] {
      Nothing(g, g, c);
      gone := [];
    } else {
      var k := |pids| - 1;
      var front := RemoveEachTold(g, c, pids[..k]);
      var h := RemoveEach(g, c, pids[..k]);
      RemoveTold(h, c, pids[k]);
      var last := if pids[k] in h.players then [pids[k]] else [];
      ToldTwice(g, h, RemoveEach(g, c, pids), c, front, last);
      gone := front + last;
    }
  }

  lemma {:induction false} ClearEachTold(g: Game, c: Config, pids: seq<Pid>, now: nat)
    ensures Told(g, ClearEach(g, pids, now), c, [])
  {
    hide ClearOne, Told;
    if pids == [] {
      Nothing(g, g, c);
    } else {
      var k := |pids| - 1;
      ClearEachTold(g, c, pids[..k], now);
      ClearOneTold(ClearEach(g, pids[..k], now), c, pids[k], now);
      var none: seq<Pid> := [];
      ToldTwice(g, ClearEach(g, pids[..k], now), ClearEach(g, pids, now), c, none, none);
      assert none + none == none;
    }
  }

  lemma ClearOneTold(g: Game, c: Config, pid: Pid, now: nat)
    ensures Told(g, ClearOne(g, pid, now), c, [])
  {
    if pid in g.players {
      var p := g.players[pid];
      var m := [StopLag(pid, LagMs(p, now))];
      hide Told, LagMs, GiveEach;
      assert g.replay + [] == g.replay;
      QuietTold(g, ClearOne(g, pid, now), c, g.players[pid := p.(lagging := false)], m, m, []);
    } else {
      Nothing(g, g, c);
    }
  }

  lemma OpenTold(g: Game, c: Config, now: nat, secs: nat)
    ensures Told(g, OpenScreen(g, c, now, secs), c, [])
  {
    hide Told, SyncLimit, Behind, GiveEach;
    var late := set p | p in g.players && Behind(g, g.players[p]) > SyncLimit(c);
    if late == {} {
      Nothing(g, g, c);
    } else {
      var flagged := map p | p in g.players ::
        if p in late then g.players[p].(lagging := true, startedLagging := now) else g.players[p];
      var m := [StartLag(map p | p in late :: 0)];
      assert g.replay + [] == g.replay;
      QuietTold(g, OpenScreen(g, c, now, secs), c, flagged, m, m, []);
    }
  }

  lemma StopTold(g: Game, c: Config, order: seq<Pid>) returns (gone: seq<Pid>)
    ensures Told(g, StopLaggers(g, c, order), c, gone)
  {
    hide RemoveEach;
    if Laggers(g.players) == {} {
      Nothing(g, g, c);
      gone := [];
    } else {
      gone := RemoveEachTold(g, c, InOrder(order, Laggers(g.players)));
    }
  }

  lemma ResetTold(g: Game, c: Config, now: nat, order: seq<Pid>)
    ensures Told(g, ResetScreen(g, c, now, order), c, [])
  {
    hide Told, GiveEach;
    var owed := if UsingGproxy(g.players) then c.emptyActions else 0;
    var direct, via := ResetMsgs(g.players, order, owed, now), ResetMsgs(g.players, order, 0, now);
    assert g.replay + [] == g.replay;
    QuietTold(g, ResetScreen(g, c, now, order), c, g.players, direct, via,
              if c.recording then EmptySlots(owed) + [TimeSlot([], 0)] else []);
  }

  lemma BeatTold(g: Game, c: Config)
    ensures Told(g, SendAllActions(g, c), c, [])
  {
    hide Told, GiveEach, Chunks;
    var owed := if UsingGproxy(g.players) then c.emptyActions else 0;
    var chunks := Chunks(g.actions);
    var msgs := ChunkMsgs(chunks, c.latency);
    assert g.replay + [] == g.replay;
    QuietTold(g, SendAllActions(g, c), c, g.players, Empties(owed) + msgs, msgs,
              if c.recording then EmptySlots(owed) + ChunkSlots(chunks, c.latency) else []);
  }

  lemma CloseTold(g: Game, c: Config, now: nat, order: seq<Pid>)
    ensures Told(g, CloseOrReset(g, c, now, order), c, [])
  {
    hide ResetScreen, Told;
    ResetTold(g, c, now, order);
    Nothing(g, g, c);
    Nothing(g, g.(lagging := false), c);
  }

  lemma KeepTold(g: Game, c: Config, now: nat, secs: nat, order: seq<Pid>) returns (gone: seq<Pid>)
    ensures Told(g, KeepScreen(g, c, now, secs, order), c, gone)
  {
    hide Told, StopLaggers, ClearEach, CloseOrReset, LagScreenExpired;
    var w := Waited(g, c, secs, order);
    if w == g { Nothing(g, g, c); gone := []; } else { gone := StopTold(g, c, order); }
    var k := Cleared(w, c, now, order);
    ClearEachTold(w, c, InOrder(order, Recovered(w, c)), now);
    ToldTwice(g, w, k, c, gone, []);
    CloseTold(k, c, now, order);
    assert gone + [] == gone;
    ToldTwice(g, k, CloseOrReset(k, c, now, order), c, gone, []);
  }

  lemma TickTold(g: Game, c: Config, now: nat, secs: nat, expired: set<Pid>, order: seq<Pid>) returns (gone: seq<Pid>)
    ensures Told(g, Tick(g, c, now, secs, expired, order), c, gone)
  {
    hide Told, RemoveEach, KeepScreen, OpenScreen, SendAllActions;
    var h := if c.reconnectEnabled then RemoveEach(g, c, InOrder(order, expired)) else g;
    if c.reconnectEnabled { gone := RemoveEachTold(g, c, InOrder(order, expired)); }
    else { Nothing(g, g, c); gone := []; }
    var k := if h.lagging then KeepScreen(h, c, now, secs, order) else OpenScreen(h, c, now, secs);
    var more := [];
    if h.lagging { more := KeepTold(h, c, now, secs, order); } else { OpenTold(h, c, now, secs); }
    ToldTwice(g, h, k, c, gone, more);
    gone := gone + more;
    if !k.lagging {
      BeatTold(k, c);
      ToldTwice(g, k, SendAllActions(k, c), c, gone, []);
      assert gone + [] == gone;
    }
  }

  lemma {:induction false} CheckTold(g: Game, c: Config, order: seq<Pid>) returns (gone: seq<Pid>)
    requires Lists(order, g.players)
    ensures Told(g, CheckDesync(g, c, order), c, gone)
    decreases Backlog(g.players, order)
  {
    hide Told, Victims, Heads, Popped, InOrder;
    if !AllPending(g.players) {
      Nothing(g, g, c);
      gone := [];
    } else {
      ComparedShrinks(g, c, order);
      var k := Compared(g, c, order);
      gone := ComparedTold(g, c, order);
      hide Compared;
      var more := CheckTold(k, c, order);
      ToldTwice(g, k, CheckDesync(k, c, order), c, gone, more);
      gone := gone + more;
    }
  }

  lemma ComparedTold(g: Game, c: Config, order: seq<Pid>) returns (gone: seq<Pid>)
    requires AllPending(g.players)
    ensures Told(g, Compared(g, c, order), c, gone)
  {
    hide Told, Victims, Heads, InOrder;
    var h := g.(players := Popped(g.players), turn := g.turn + 1);
    Nothing(g, h, c);
    if |Heads(g.players).Values| == 1 {
      gone := [];
    } else {
      gone := RemoveEachTold(h, c, InOrder(order, Victims(Heads(g.players))));
      ToldTwice(g, h, Compared(g, c, order), c, [], gone);
      assert [] + gone == gone;
    }
  }

  lemma StepTold(g: Game, c: Config, ev: Event) returns (gone: seq<Pid>)
    ensures Told(g, Step(g, c, ev), c, gone)
  {
    hide Told, Tick, CheckDesync, StopLaggers, RemovePlayer, Lists;
    gone := [];
    Nothing(g, g, c);
    match ev
    case Act(a) => Nothing(g, QueueAction(g, a), c);
    case KeepAlive(pid, checksum, order) =>
      var h := Heard(g, pid, checksum);
      Nothing(g, h, c);
      if pid in g.players && Lists(order, h.players) {
        gone := CheckTold(h, c, order);
        ToldTwice(g, h, CheckDesync(h, c, order), c, [], gone);
        assert [] + gone == gone;
      }
    case GameTick(now, secs, expired, order) =>
      if Lists(order, g.players) { gone := TickTold(g, c, now, secs, expired, order); }
    case Depart(pid) =>
      RemoveTold(g, c, pid);
      gone := if pid in g.players then [pid] else [];
    case DropLaggers(order) =>
      if g.lagging && Lists(order, g.players) { gone := StopTold(g, c, order); }
    case GpsInit(pid) => Nothing(g, BehindGproxy(g, pid), c);
  }

  /** Over every run: the departures form one sequence, each departed player in it once, that everyone who
      remains was told and the replay recorded. */
  lemma {:induction false} EveryDepartureIsTold(g: Game, c: Config, evs: seq<Event>) returns (gone: seq<Pid>)
    requires JustLoaded(g)
    ensures
      var h := Run(g, c, evs);
      && Went(g, h, gone) && (forall p :: p in h.players ==> Announced(Msgs(h.players[p].stream)) == gone)
      && Departed(h.replay) == Departed(g.replay) + if c.recording then gone else []
    ensures Told(g, Run(g, c, evs), c, gone)
  {
    hide Step;
    if evs == [] {
      Nothing(g, g, c);
      gone := [];
    } else {
      var k := |evs| - 1;
      var front := EveryDepartureIsTold(g, c, evs[..k]);
      var last := StepTold(Run(g, c, evs[..k]), c, evs[k]);
      gone := front + last;
      ToldTwice(g, Run(g, c, evs[..k]), Run(g, c, evs), c, front, last);
    }
    FromNothing(g, Run(g, c, evs), c, gone);
  }

  lemma FromNothing(g: Game, h: Game, c: Config, gone: seq<Pid>)
    requires JustLoaded(g) && Told(g, h, c, gone)
    ensures forall p :: p in h.players ==> Announced(Msgs(h.players[p].stream)) == gone
  {
    forall p | p in h.players ensures Announced(Msgs(h.players[p].stream)) == gone {
      assert Msgs(g.players[p].stream) == [] && [] + gone == gone;
    }
  }
}
