/** The lag screen over whole runs: what recipients are shown, and how far behind anyone can fall. */
module BeatLag {
  import opened Bytes
  import opened Batching
  import opened Beat
  import opened BeatRuns
  import opened BeatStreams
  import opened Sequences

  // ---- everyone's screen shows exactly the laggers ----

  /** Every packet came at a time it could, the screen shows `shown`, and nobody of `keys` was
      announced gone. */
  ghost predicate Sound(t: Screen, shown: set<Pid>, keys: set<Pid>) {
    t.ok && t.shown == shown && t.left !! keys
  }

  ghost predicate ScreensSound(g: Game) {
    forall p :: p in g.players ==> Sound(ScreenOf(g.players[p]), Laggers(g.players), g.players.Keys)
  }

  ghost predicate ScreenOk(g: Game) {
    && ScreensSound(g)
    && (Laggers(g.players) != {} ==> g.lagging)
    && forall i :: 0 <= i < |g.actions| ==> g.actions[i].pid in g.players
  }

  /** These packets take a sound screen showing `a` to a sound screen showing `b`. */
  ghost predicate Turns(msgs: seq<Msg>, a: set<Pid>, keysA: set<Pid>, b: set<Pid>, keysB: set<Pid>) {
    forall t: Screen :: Sound(t, a, keysA) ==> Sound(Watch(t, msgs), b, keysB)
  }

  lemma GiveEachSound(before: Players, players: Players, direct: seq<Msg>, via: seq<Msg>,
                      shown: set<Pid>, keys: set<Pid>)
    requires players.Keys <= before.Keys
    requires forall p :: p in players ==> ScreenOf(players[p]) == ScreenOf(before[p])
    requires forall p :: p in before ==> Sound(ScreenOf(before[p]), Laggers(before), before.Keys)
    requires Turns(direct, Laggers(before), before.Keys, shown, keys)
    requires Turns(via, Laggers(before), before.Keys, shown, keys)
    ensures forall p :: p in players ==> Sound(ScreenOf(GiveEach(players, direct, via)[p]), shown, keys)
  {
    hide Sound, Watch, ScreenOf;
    forall p | p in players ensures Sound(ScreenOf(GiveEach(players, direct, via)[p]), shown, keys) {
      ScreenGiven(players[p], if players[p].gproxy then via else direct);
    }
  }

  lemma LaggersGiven(players: Players, direct: seq<Msg>, via: seq<Msg>)
    ensures Laggers(GiveEach(players, direct, via)) == Laggers(players)
  {}

  /** Packets that turn the true screen into the true screen keep everything in order. */
  lemma GivenScreenOk(g: Game, flagged: Players, h: Game, direct: seq<Msg>, via: seq<Msg>)
    requires ScreenOk(g) && flagged.Keys == g.players.Keys
    requires forall p :: p in flagged ==> flagged[p].stream == g.players[p].stream
    requires Turns(direct, Laggers(g.players), g.players.Keys, Laggers(flagged), g.players.Keys)
    requires Turns(via, Laggers(g.players), g.players.Keys, Laggers(flagged), g.players.Keys)
    requires h.players == GiveEach(flagged, direct, via)
    requires Laggers(flagged) != {} ==> h.lagging
    requires forall i :: 0 <= i < |h.actions| ==> h.actions[i].pid in g.players
    ensures ScreenOk(h) && Laggers(h.players) == Laggers(flagged)
  {
    hide Sound, Turns, Watch, Msgs;
    GiveEachSound(g.players, flagged, direct, via, Laggers(flagged), g.players.Keys);
    LaggersGiven(flagged, direct, via);
    hide GiveEach, ScreenOf, Laggers;
  }

  lemma {:induction false} PurgedPids(actions: seq<Action>, pid: Pid, players: Players)
    requires forall i :: 0 <= i < |actions| ==> actions[i].pid in players
    ensures forall i :: 0 <= i < |Purged(actions, pid)| ==>
              Purged(actions, pid)[i].pid in players && Purged(actions, pid)[i].pid != pid
  {
    if actions != [] { PurgedPids(actions[..|actions| - 1], pid, players); }
  }

  lemma LeaveTurns(pid: Pid, shown: set<Pid>, keys: set<Pid>)
    requires pid in keys
    ensures Turns([PlayerLeave(pid)], shown, keys, shown - {pid}, keys - {pid})
  {
    forall t: Screen | Sound(t, shown, keys) ensures Sound(Watch(t, [PlayerLeave(pid)]), shown - {pid}, keys - {pid}) {
      WatchOne(t, PlayerLeave(pid));
    }
  }

  lemma RemoveKeepsScreen(g: Game, c: Config, pid: Pid)
    requires ScreenOk(g)
    ensures ScreenOk(RemovePlayer(g, c, pid))
    ensures Laggers(RemovePlayer(g, c, pid).players) == Laggers(g.players) - {pid}
  {
    hide Sound, Turns, ScreenOf;
    if pid in g.players {
      PurgedPids(g.actions, pid, g.players);
      var rest := g.players - {pid};
      var m := [PlayerLeave(pid)];
      LeaveTurns(pid, Laggers(g.players), g.players.Keys);
      GiveEachSound(g.players, rest, m, m, Laggers(g.players) - {pid}, g.players.Keys - {pid});
      LaggersGiven(rest, m, m);
      assert Laggers(rest) == Laggers(g.players) - {pid};
      assert rest.Keys == g.players.Keys - {pid};
      assert RemovePlayer(g, c, pid).players == GiveEach(rest, m, m);
      hide GiveEach;
    } else {
      assert pid !in Laggers(g.players);
    }
  }

  lemma {:induction false} RemoveEachKeepsScreen(g: Game, c: Config, pids: seq<Pid>)
    requires ScreenOk(g)
    ensures ScreenOk(RemoveEach(g, c, pids))
    ensures Laggers(RemoveEach(g, c, pids).players) == Laggers(g.players) - (set p | p in pids)
  {
    hide ScreenOk, RemovePlayer;
    if pids != [] {
      var k := |pids| - 1;
      RemoveEachKeepsScreen(g, c, pids[..k]);
      RemoveKeepsScreen(RemoveEach(g, c, pids[..k]), c, pids[k]);
      assert (set p | p in pids) == (set p | p in pids[..k]) + {pids[k]};
    }
  }

  lemma StartTurns(laggers: map<Pid, nat>, keys: set<Pid>)
    requires laggers.Keys <= keys
    ensures Turns([StartLag(laggers)], {}, keys, laggers.Keys, keys)
  {
    forall t: Screen | Sound(t, {}, keys) ensures Sound(Watch(t, [StartLag(laggers)]), laggers.Keys, keys) {
      WatchOne(t, StartLag(laggers));
    }
  }

  lemma OpenKeepsScreen(g: Game, c: Config, now: nat, secs: nat)
    requires ScreenOk(g) && !g.lagging
    ensures ScreenOk(OpenScreen(g, c, now, secs))
  {
    hide Sound, Turns, ScreenOf, GiveEach, ScreensSound;
    var late := set p | p in g.players && Behind(g, g.players[p]) > SyncLimit(c);
    if late != {} {
      var flagged := map p | p in g.players ::
        if p in late then g.players[p].(lagging := true, startedLagging := now) else g.players[p];
      var laggers := map p | p in late :: 0;
      assert laggers.Keys == late;
      forall p | p in g.players ensures !g.players[p].lagging { assert p !in Laggers(g.players); }
      assert Laggers(g.players) == {} && Laggers(flagged) == late;
      StartTurns(laggers, g.players.Keys);
      GivenScreenOk(g, flagged, OpenScreen(g, c, now, secs), [StartLag(laggers)], [StartLag(laggers)]);
    }
  }

  lemma StopTurns(pid: Pid, ms: nat, shown: set<Pid>, keys: set<Pid>)
    requires pid in shown
    ensures Turns([StopLag(pid, ms)], shown, keys, shown - {pid}, keys)
  {
    forall t: Screen | Sound(t, shown, keys) ensures Sound(Watch(t, [StopLag(pid, ms)]), shown - {pid}, keys) {
      WatchOne(t, StopLag(pid, ms));
    }
  }

  lemma ClearKeepsScreen(g: Game, pid: Pid, now: nat)
    requires ScreenOk(g) && pid in Laggers(g.players)
    ensures ScreenOk(ClearOne(g, pid, now))
    ensures Laggers(ClearOne(g, pid, now).players) == Laggers(g.players) - {pid}
  {
    hide Sound, Turns, ScreenOf, GiveEach, ScreensSound;
    var p := g.players[pid];
    var flagged := g.players[pid := p.(lagging := false)];
    var m := [StopLag(pid, LagMs(p, now))];
    assert Laggers(flagged) == Laggers(g.players) - {pid};
    StopTurns(pid, LagMs(p, now), Laggers(g.players), g.players.Keys);
    GivenScreenOk(g, flagged, ClearOne(g, pid, now), m, m);
  }

  lemma {:induction false} InOrderDistinct(order: seq<Pid>, chosen: set<Pid>)
    requires Distinct(order)
    ensures Distinct(InOrder(order, chosen))
  {
    if order != [] {
      var k := |order| - 1;
      InOrderDistinct(order[..k], chosen);
      InOrderMembers(order[..k], chosen);
      assert order[k] !in order[..k];
      assert order[k] !in InOrder(order[..k], chosen);
    }
  }

  lemma {:induction false} ClearEachKeepsScreen(g: Game, pids: seq<Pid>, now: nat)
    requires ScreenOk(g) && Distinct(pids) && forall p :: p in pids ==> p in Laggers(g.players)
    ensures ScreenOk(ClearEach(g, pids, now))
    ensures Laggers(ClearEach(g, pids, now).players) == Laggers(g.players) - (set p | p in pids)
  {
    hide ScreenOk, ClearOne;
    if pids != [] {
      var k := |pids| - 1;
      ClearEachKeepsScreen(g, pids[..k], now);
      assert pids[k] in pids && pids[k] !in pids[..k];
      ClearKeepsScreen(ClearEach(g, pids[..k], now), pids[k], now);
      assert (set p | p in pids) == (set p | p in pids[..k]) + {pids[k]};
    }
  }

  lemma StopKeepsScreen(g: Game, c: Config, order: seq<Pid>)
    requires ScreenOk(g) && Lists(order, g.players)
    ensures ScreenOk(StopLaggers(g, c, order))
    ensures Laggers(g.players) != {} ==> !StopLaggers(g, c, order).lagging
  {
    hide Sound, RemoveEach;
    var late := Laggers(g.players);
    RemoveEachKeepsScreen(g, c, InOrder(order, late));
    InOrderMembers(order, late);
    assert late - (set p | p in InOrder(order, late)) == {};
  }

  lemma ResetWatched(t: Screen, players: Players, pids: seq<Pid>, acts: seq<Msg>, again: map<Pid, nat>, now: nat)
    requires t.ok && t.shown == (set p | p in pids) == again.Keys && again.Keys !! t.left && Distinct(pids)
    requires forall i :: 0 <= i < |acts| ==> acts[i] == Actions([], 0)
    ensures Watch(t, StopMsgs(players, pids, now) + acts + [StartLag(again)]) == t
  {
    var stops := StopMsgs(players, pids, now);
    var u := t.(shown := {});
    WatchStops(t, players, pids, now);
    assert Watch(t, stops) == u;
    WatchActions(u, acts);
    WatchAppend(t, stops, acts);
    WatchAppend(t, stops + acts, [StartLag(again)]);
    WatchOne(u, StartLag(again));
    hide Watch, StopMsgs;
  }

  lemma ResetTurns(players: Players, order: seq<Pid>, owed: nat, now: nat, keys: set<Pid>)
    requires Lists(order, players) && keys == players.Keys
    ensures Turns(ResetMsgs(players, order, owed, now), Laggers(players), keys, Laggers(players), keys)
  {
    var late := Laggers(players);
    var pids := InOrder(order, late);
    InOrderMembers(order, late);
    InOrderDistinct(order, late);
    assert (set p | p in pids) == late;
    var acts := Empties(owed) + [Actions([], 0)];
    var again := map p | p in late && p in players :: LagMs(players[p], now);
    assert again.Keys == late <= keys;
    assert ResetMsgs(players, order, owed, now) == StopMsgs(players, pids, now) + acts + [StartLag(again)];
    hide ResetMsgs, StopMsgs, Watch, InOrder, Lists;
    forall t: Screen | Sound(t, late, keys) ensures Sound(Watch(t, ResetMsgs(players, order, owed, now)), late, keys) {
      ResetWatched(t, players, pids, acts, again, now);
    }
  }

  lemma ResetKeepsScreen(g: Game, c: Config, now: nat, order: seq<Pid>)
    requires ScreenOk(g) && Lists(order, g.players)
    ensures ScreenOk(ResetScreen(g, c, now, order))
    ensures Laggers(ResetScreen(g, c, now, order).players) == Laggers(g.players)
  {
    hide Sound, Turns, ResetMsgs, Lists;
    var owed := if UsingGproxy(g.players) then c.emptyActions else 0;
    var direct := ResetMsgs(g.players, order, owed, now);
    var via := ResetMsgs(g.players, order, 0, now);
    ResetTurns(g.players, order, owed, now, g.players.Keys);
    ResetTurns(g.players, order, 0, now, g.players.Keys);
    GiveEachSound(g.players, g.players, direct, via, Laggers(g.players), g.players.Keys);
    LaggersGiven(g.players, direct, via);
    hide GiveEach;
  }

  /** Actions go out only when nobody lags, and only from players who are still there. */
  lemma BeatTurns(g: Game, c: Config, owed: nat)
    requires ScreenOk(g) && Laggers(g.players) == {}
    ensures var keys := g.players.Keys;
            Turns(Empties(owed) + ChunkMsgs(Chunks(g.actions), c.latency), {}, keys, {}, keys)
  {
    hide Chunks;
    var chunks, keys := Chunks(g.actions), g.players.Keys;
    var msgs := Empties(owed) + ChunkMsgs(chunks, c.latency);
    ChunksAreWellCut(g.actions);
    forall i, k | 0 <= i < |chunks| && 0 <= k < |chunks[i]| ensures chunks[i][k].pid in keys {
      assert chunks[i][k] in chunks[i];
      ConcatMember(chunks, i, chunks[i][k]);
    }
    forall t: Screen | Sound(t, {}, keys) ensures Sound(Watch(t, msgs), {}, keys) {
      WatchActions(t, msgs);
    }
  }

  lemma BeatKeepsScreen(g: Game, c: Config)
    requires ScreenOk(g) && !g.lagging
    ensures ScreenOk(SendAllActions(g, c))
  {
    hide Sound, Turns, ScreenOf, GiveEach, ScreensSound, Chunks;
    var owed := if UsingGproxy(g.players) then c.emptyActions else 0;
    assert Laggers(g.players) == {};
    BeatTurns(g, c, owed);
    BeatTurns(g, c, 0);
    var msgs := ChunkMsgs(Chunks(g.actions), c.latency);
    assert Empties(0) + msgs == msgs;
    hide ChunkMsgs, Empties, EmptySlots, ChunkSlots;
    GivenScreenOk(g, g.players, SendAllActions(g, c), Empties(owed) + msgs, msgs);
  }

  lemma ClosedKeepsScreen(g: Game, c: Config, now: nat, order: seq<Pid>)
    requires ScreenOk(g) && Lists(order, g.players)
    ensures ScreenOk(CloseOrReset(g, c, now, order))
  {
    hide Sound, ResetScreen;
    ResetKeepsScreen(g, c, now, order);
  }

  lemma KeepKeepsScreen(g: Game, c: Config, now: nat, secs: nat, order: seq<Pid>)
    requires ScreenOk(g) && Lists(order, g.players)
    ensures ScreenOk(KeepScreen(g, c, now, secs, order))
  {
    hide StopLaggers, ClearEach, CloseOrReset, LagScreenExpired, ScreenOk;
    var h := Waited(g, c, secs, order);
    StopKeepsScreen(g, c, order);
    StopFrame(g, c, order);
    var pids := InOrder(order, Recovered(h, c));
    InOrderMembers(order, Recovered(h, c));
    InOrderDistinct(order, Recovered(h, c));
    ClearEachKeepsScreen(h, pids, now);
    ClearEachFrame(h, pids, now);
    ClosedKeepsScreen(Cleared(h, c, now, order), c, now, order);
  }

  /** Clearing takes players off the screen and touches nothing else but streams. */
  ghost predicate OnlyCleared(g: Game, h: Game, pids: set<Pid>) {
    && h.players.Keys == g.players.Keys && SameCounters(g, h)
    && h.syncCounter == g.syncCounter && h.lagging == g.lagging
    && forall p :: p in g.players ==> h.players[p].lagging == (g.players[p].lagging && p !in pids)
  }

  lemma ClearOneFrame(g: Game, pid: Pid, now: nat)
    ensures OnlyCleared(g, ClearOne(g, pid, now), {pid})
  {}

  lemma ClearedTwice(g: Game, h: Game, k: Game, a: set<Pid>, b: set<Pid>)
    requires OnlyCleared(g, h, a) && OnlyCleared(h, k, b)
    ensures OnlyCleared(g, k, a + b)
  {
    forall p | p in k.players ensures Counters(k.players[p]) == Counters(g.players[p]) {
      assert Counters(h.players[p]) == Counters(g.players[p]);
    }
  }

  lemma {:induction false} ClearEachFrame(g: Game, pids: seq<Pid>, now: nat)
    ensures OnlyCleared(g, ClearEach(g, pids, now), set p | p in pids)
  {
    if pids != [] {
      var k := |pids| - 1;
      ClearEachFrame(g, pids[..k], now);
      ClearOneFrame(ClearEach(g, pids[..k], now), pids[k], now);
      ClearedTwice(g, ClearEach(g, pids[..k], now), ClearEach(g, pids, now), set p | p in pids[..k], {pids[k]});
      assert (set p | p in pids) == (set p | p in pids[..k]) + {pids[k]};
    }
  }

  lemma StopFrame(g: Game, c: Config, order: seq<Pid>)
    ensures SameButStreams(g.(lagging := StopLaggers(g, c, order).lagging), StopLaggers(g, c, order))
    ensures Lists(order, g.players) ==> Lists(order, StopLaggers(g, c, order).players)
    ensures StopLaggers(g, c, order).lagging == g.lagging || Laggers(StopLaggers(g, c, order).players) == {}
  {
    hide RemoveEach;
    RemoveEachKeys(g, c, InOrder(order, Laggers(g.players)));
  }

  lemma TickKeepsScreen(g: Game, c: Config, now: nat, secs: nat, expired: set<Pid>, order: seq<Pid>)
    requires ScreenOk(g) && Lists(order, g.players)
    ensures ScreenOk(Tick(g, c, now, secs, expired, order))
  {
    var h := if c.reconnectEnabled then RemoveEach(g, c, InOrder(order, expired)) else g;
    RemoveEachKeepsScreen(g, c, InOrder(order, expired));
    RemoveEachKeys(g, c, InOrder(order, expired));
    assert Lists(order, h.players);
    hide ScreenOk, RemoveEach, KeepScreen, OpenScreen, SendAllActions, Lists;
    if h.lagging { KeepKeepsScreen(h, c, now, secs, order); } else { OpenKeepsScreen(h, c, now, secs); }
    var k := if h.lagging then KeepScreen(h, c, now, secs, order) else OpenScreen(h, c, now, secs);
    if !k.lagging { BeatKeepsScreen(k, c); }
  }

  lemma SameStreamsKeepScreen(g: Game, h: Game)
    requires ScreenOk(g) && h.players.Keys == g.players.Keys && h.lagging == g.lagging && h.actions == g.actions
    requires forall p :: p in g.players ==>
               h.players[p].stream == g.players[p].stream && h.players[p].lagging == g.players[p].lagging
    ensures ScreenOk(h)
  {
    hide Watch, Sound;
    assert Laggers(h.players) == Laggers(g.players);
    forall p | p in g.players ensures ScreenOf(h.players[p]) == ScreenOf(g.players[p]) {}
  }

  lemma {:induction false} CheckKeepsScreen(g: Game, c: Config, order: seq<Pid>)
    requires ScreenOk(g) && Lists(order, g.players)
    ensures ScreenOk(CheckDesync(g, c, order))
    decreases Backlog(g.players, order)
  {
    hide Sound, ScreenOk, Victims;
    if AllPending(g.players) {
      ComparedShrinks(g, c, order);
      var h := g.(players := Popped(g.players), turn := g.turn + 1);
      SameStreamsKeepScreen(g, h);
      RemoveEachKeepsScreen(h, c, InOrder(order, Victims(Heads(g.players))));
      assert ScreenOk(Compared(g, c, order));
      hide Compared;
      CheckKeepsScreen(Compared(g, c, order), c, order);
    }
  }

  lemma StepKeepsScreen(g: Game, c: Config, ev: Event)
    requires ScreenOk(g)
    ensures ScreenOk(Step(g, c, ev))
  {
    hide Tick, CheckDesync, StopLaggers, RemovePlayer, Sound, ScreenOk, Lists;
    match ev
    case Act(a) => QueuedKeepsScreen(g, a);
    case KeepAlive(pid, checksum, order) =>
      var h := Heard(g, pid, checksum);
      SameStreamsKeepScreen(g, h);
      if pid in g.players && Lists(order, h.players) { CheckKeepsScreen(h, c, order); }
    case GameTick(now, secs, expired, order) =>
      if Lists(order, g.players) { TickKeepsScreen(g, c, now, secs, expired, order); }
    case Depart(pid) => RemoveKeepsScreen(g, c, pid);
    case DropLaggers(order) => if Lists(order, g.players) { StopKeepsScreen(g, c, order); }
    case GpsInit(pid) => SameStreamsKeepScreen(g, BehindGproxy(g, pid));
  }

  lemma QueuedKeepsScreen(g: Game, a: Action)
    requires ScreenOk(g)
    ensures ScreenOk(QueueAction(g, a))
  {
    hide Sound;
  }

  /** Over every run, for every recipient: reading START_LAG, STOP_LAG and PLAYERLEAVE off their own
      stream gives exactly the set of players lagging now; actions reached them only while that set
      was empty; and no action named a player whose departure they had been told of. */
  lemma {:induction false} ScreensAreTrue(g: Game, c: Config, evs: seq<Event>)
    requires JustLoaded(g)
    ensures ScreenOk(Run(g, c, evs))
    ensures var h := Run(g, c, evs);
            forall p :: p in h.players ==>
              ScreenOf(h.players[p]).ok && ScreenOf(h.players[p]).shown == Laggers(h.players)
  {
    if evs != [] {
      ScreensAreTrue(g, c, evs[..|evs| - 1]);
      StepKeepsScreen(Run(g, c, evs[..|evs| - 1]), c, evs[|evs| - 1]);
    }
  }

  // ---- how far behind anyone can fall ----

  /** At most one batch past the limit; and while the screen is up, everyone not on it is within it. */
  ghost predicate Bounded(g: Game, c: Config) {
    && (forall p :: p in g.players ==> Behind(g, g.players[p]) <= SyncLimit(c) + 1)
    && (g.lagging ==> forall p :: p in g.players && !g.players[p].lagging ==> Behind(g, g.players[p]) <= SyncLimit(c))
  }

  lemma WaitedIsBounded(g: Game, c: Config, secs: nat, order: seq<Pid>)
    requires Bounded(g, c) && g.lagging && Lists(order, g.players)
    ensures var h := Waited(g, c, secs, order);
            && Bounded(h.(lagging := true), c) && Lists(order, h.players)
            && (h.lagging || Laggers(h.players) == {})
  {
    hide StopLaggers, LagScreenExpired, SyncLimit;
    StopFrame(g, c, order);
    var h := Waited(g, c, secs, order);
    if h != g { ApartIsBounded(g, h.(lagging := true), c); }
  }

  /** Whoever comes off the screen is within the limit again. */
  lemma ClearedIsBounded(g: Game, c: Config, now: nat, order: seq<Pid>)
    requires Bounded(g.(lagging := true), c)
    ensures var k := Cleared(g, c, now, order);
            Bounded(k.(lagging := true), c) && k.lagging == g.lagging && Laggers(k.players) <= Laggers(g.players)
  {
    var rec := Recovered(g, c);
    InOrderMembers(order, rec);
    ClearEachFrame(g, InOrder(order, rec), now);
    RecoverWithinLimit(c);
    hide ClearEach, RecoverLimit, SyncLimit, InOrder;
    var k := Cleared(g, c, now, order);
    forall p | p in k.players ensures Behind(k, k.players[p]) == Behind(g, g.players[p]) {
      assert Counters(k.players[p]) == Counters(g.players[p]);
    }
    forall p | p in k.players && !k.players[p].lagging ensures Behind(k, k.players[p]) <= SyncLimit(c) {
      assert p in rec || !g.players[p].lagging;
    }
  }

  lemma CloseIsBounded(g: Game, c: Config, now: nat, order: seq<Pid>)
    requires Bounded(g.(lagging := true), c)
    ensures var k := CloseOrReset(g, c, now, order);
            Bounded(k, c) && (Laggers(g.players) == {} ==> WithinLimit(k, c))
  {
    hide ResetMsgs, Tagged, SyncLimit;
    forall p | p in g.players && Laggers(g.players) == {} ensures !g.players[p].lagging {
      assert p !in Laggers(g.players);
    }
  }

  ghost predicate WithinLimit(g: Game, c: Config) {
    forall p :: p in g.players ==> Behind(g, g.players[p]) <= SyncLimit(c)
  }

  lemma KeepIsBounded(g: Game, c: Config, now: nat, secs: nat, order: seq<Pid>)
    requires Bounded(g, c) && g.lagging && Lists(order, g.players)
    ensures var k := KeepScreen(g, c, now, secs, order); Bounded(k, c) && (!k.lagging ==> WithinLimit(k, c))
  {
    var h := Waited(g, c, secs, order);
    WaitedIsBounded(g, c, secs, order);
    ClearedIsBounded(h, c, now, order);
    var i := Cleared(h, c, now, order);
    CloseIsBounded(i, c, now, order);
    hide Waited, Cleared, SyncLimit, ResetMsgs, Tagged, Behind, Bounded, WithinLimit, Lists;
  }

  lemma RecoverWithinLimit(c: Config)
    ensures RecoverLimit(c) <= SyncLimit(c)
  {}

  lemma FewerAreBounded(g: Game, h: Game, c: Config)
    requires Bounded(g, c) && h.syncCounter == g.syncCounter && h.players.Keys <= g.players.Keys
    requires h.lagging ==> g.lagging
    requires forall p :: p in h.players ==>
               h.players[p].lagging == g.players[p].lagging && h.players[p].syncCounter >= g.players[p].syncCounter
    ensures Bounded(h, c)
  {}

  lemma OpenIsBounded(g: Game, c: Config, now: nat, secs: nat)
    requires Bounded(g, c) && !g.lagging
    ensures var k := OpenScreen(g, c, now, secs);
            && Bounded(k, c)
            && (!k.lagging ==> WithinLimit(k, c))
  {
    hide Tagged;
    var late := set p | p in g.players && Behind(g, g.players[p]) > SyncLimit(c);
    forall p | p in g.players && p !in late ensures Behind(g, g.players[p]) <= SyncLimit(c) {}
  }

  lemma BeatIsBounded(g: Game, c: Config)
    requires WithinLimit(g, c) && !g.lagging
    ensures Bounded(SendAllActions(g, c), c)
  {
    hide Chunks, Tagged, UsingGproxy;
  }

  lemma ApartIsBounded(g: Game, h: Game, c: Config)
    requires Bounded(g, c) && SameButStreams(g, h)
    ensures Bounded(h, c)
  {
    forall p | p in h.players ensures h.players[p].lagging == g.players[p].lagging
                                   && h.players[p].syncCounter == g.players[p].syncCounter {
      assert Apart(h.players[p]) == Apart(g.players[p]);
    }
  }

  lemma TickIsBounded(g: Game, c: Config, now: nat, secs: nat, expired: set<Pid>, order: seq<Pid>)
    requires Bounded(g, c) && Lists(order, g.players)
    ensures Bounded(Tick(g, c, now, secs, expired, order), c)
  {
    var h := if c.reconnectEnabled then RemoveEach(g, c, InOrder(order, expired)) else g;
    RemoveEachKeys(g, c, InOrder(order, expired));
    assert Lists(order, h.players);
    ApartIsBounded(g, h, c);
    hide Bounded, WithinLimit, RemoveEach, KeepScreen, OpenScreen, SendAllActions, Lists;
    if h.lagging { KeepIsBounded(h, c, now, secs, order); } else { OpenIsBounded(h, c, now, secs); }
    var k := if h.lagging then KeepScreen(h, c, now, secs, order) else OpenScreen(h, c, now, secs);
    if !k.lagging { BeatIsBounded(k, c); }
  }

  lemma {:induction false} CheckIsBounded(g: Game, c: Config, order: seq<Pid>)
    requires Bounded(g, c) && Lists(order, g.players)
    ensures Bounded(CheckDesync(g, c, order), c)
    decreases Backlog(g.players, order)
  {
    if AllPending(g.players) {
      ComparedShrinks(g, c, order);
      ComparedFrame(g, c, order);
      var h := g.(players := Popped(g.players), turn := g.turn + 1);
      FewerAreBounded(g, h, c);
      hide Compared, Bounded;
      ApartIsBounded(h, Compared(g, c, order), c);
      CheckIsBounded(Compared(g, c, order), c, order);
    }
  }

  lemma StepIsBounded(g: Game, c: Config, ev: Event)
    requires Bounded(g, c)
    ensures Bounded(Step(g, c, ev), c)
  {
    hide Tick, CheckDesync, StopLaggers, RemovePlayer, Bounded, Lists;
    match ev
    case Act(a) => FewerAreBounded(g, QueueAction(g, a), c);
    case KeepAlive(pid, checksum, order) =>
      var h := Heard(g, pid, checksum);
      FewerAreBounded(g, h, c);
      if pid in g.players && Lists(order, h.players) { CheckIsBounded(h, c, order); }
    case GameTick(now, secs, expired, order) =>
      if Lists(order, g.players) { TickIsBounded(g, c, now, secs, expired, order); }
    case Depart(pid) =>
      RemoveKeys(g, c, pid);
      ApartIsBounded(g, RemovePlayer(g, c, pid), c);
    case DropLaggers(order) =>
      if g.lagging && Lists(order, g.players) {
        StopFrame(g, c, order);
        var h := StopLaggers(g, c, order);
        FewerAreBounded(g, g.(lagging := h.lagging), c);
        ApartIsBounded(g.(lagging := h.lagging), h, c);
      }
    case GpsInit(pid) => FewerAreBounded(g, BehindGproxy(g, pid), c);
  }

  /** With latency and window fixed, nobody is ever more than limit + 1 batches behind. */
  lemma {:induction false} NobodyPassesTheLimit(g: Game, c: Config, evs: seq<Event>)
    requires JustLoaded(g)
    ensures Bounded(Run(g, c, evs), c)
  {
    if evs != [] {
      NobodyPassesTheLimit(g, c, evs[..|evs| - 1]);
      StepIsBounded(Run(g, c, evs[..|evs| - 1]), c, evs[|evs| - 1]);
    }
  }

  // ---- nobody left ever disagreed ----

  lemma ApartCounters(g: Game, h: Game)
    requires SameButStreams(g, h)
    ensures SameCounters(g, h)
  {
    forall p | p in h.players ensures Counters(h.players[p]) == Counters(g.players[p]) {
      assert Apart(h.players[p]) == Apart(g.players[p]);
    }
  }

  lemma CountersInLockstep(g: Game, h: Game)
    requires InLockstep(g) && SameCounters(g, h)
    ensures InLockstep(h)
  {
    forall p | p in h.players ensures h.players[p].checksums == g.players[p].checksums
                                   && h.players[p].heard == g.players[p].heard {
      assert Counters(h.players[p]) == Counters(g.players[p]);
    }
  }

  lemma KeepInLockstep(g: Game, c: Config, now: nat, secs: nat, order: seq<Pid>)
    requires InLockstep(g)
    ensures InLockstep(KeepScreen(g, c, now, secs, order))
  {
    hide InLockstep, Waited, Cleared, CloseOrReset, SameCounters;
    var h := Waited(g, c, secs, order);
    var k := Cleared(h, c, now, order);
    WaitedCounters(g, c, secs, order);
    CountersInLockstep(g, h);
    ClearedCounters(h, c, now, order);
    CountersInLockstep(h, k);
    ClosedCounters(k, c, now, order);
    CountersInLockstep(k, CloseOrReset(k, c, now, order));
  }

  lemma WaitedCounters(g: Game, c: Config, secs: nat, order: seq<Pid>)
    ensures SameCounters(g, Waited(g, c, secs, order))
  {
    hide StopLaggers, LagScreenExpired;
    var h := Waited(g, c, secs, order);
    StopFrame(g, c, order);
    if h != g { ApartCounters(g.(lagging := h.lagging), h); }
  }

  lemma ClearedCounters(g: Game, c: Config, now: nat, order: seq<Pid>)
    ensures SameCounters(g, Cleared(g, c, now, order))
  {
    hide ClearEach;
    ClearEachFrame(g, InOrder(order, Recovered(g, c)), now);
  }

  lemma ClosedCounters(g: Game, c: Config, now: nat, order: seq<Pid>)
    ensures SameCounters(g, CloseOrReset(g, c, now, order))
  {
    hide ResetMsgs, Tagged;
  }

  lemma OpenCounters(g: Game, c: Config, now: nat, secs: nat)
    ensures SameCounters(g, OpenScreen(g, c, now, secs))
  {
    hide Tagged, SyncLimit, Behind;
  }

  lemma BeatCounters(g: Game, c: Config)
    ensures SameCounters(g, SendAllActions(g, c))
  {
    hide Tagged, Chunks, UsingGproxy;
  }

  lemma TickInLockstep(g: Game, c: Config, now: nat, secs: nat, expired: set<Pid>, order: seq<Pid>)
    requires InLockstep(g)
    ensures InLockstep(Tick(g, c, now, secs, expired, order))
  {
    hide InLockstep, RemoveEach, KeepScreen, OpenScreen, SendAllActions;
    var h := if c.reconnectEnabled then RemoveEach(g, c, InOrder(order, expired)) else g;
    RemoveEachKeys(g, c, InOrder(order, expired));
    if h != g { ApartCounters(g, h); }
    CountersInLockstep(g, h);
    KeepInLockstep(h, c, now, secs, order);
    OpenCounters(h, c, now, secs);
    CountersInLockstep(h, OpenScreen(h, c, now, secs));
    var k := if h.lagging then KeepScreen(h, c, now, secs, order) else OpenScreen(h, c, now, secs);
    BeatCounters(k, c);
    CountersInLockstep(k, SendAllActions(k, c));
  }

  lemma HeardInLockstep(g: Game, pid: Pid, checksum: U32)
    requires InLockstep(g)
    ensures InLockstep(Heard(g, pid, checksum))
  {
    if pid in g.players {
      var q := g.players[pid];
      assert (q.heard + [checksum])[g.turn..] == q.heard[g.turn..] + [checksum];
      assert (q.heard + [checksum])[..g.turn] == q.heard[..g.turn];
    }
  }

  lemma StepInLockstep(g: Game, c: Config, ev: Event)
    requires InLockstep(g)
    ensures InLockstep(Step(g, c, ev))
  {
    hide Tick, CheckDesync, StopLaggers, RemovePlayer, InLockstep, Lists;
    match ev
    case Act(a) => CountersInLockstep(g, QueueAction(g, a));
    case KeepAlive(pid, checksum, order) =>
      var h := Heard(g, pid, checksum);
      HeardInLockstep(g, pid, checksum);
      if pid in g.players && Lists(order, h.players) { CheckKeepsLockstep(h, c, order); }
    case GameTick(now, secs, expired, order) => TickInLockstep(g, c, now, secs, expired, order);
    case Depart(pid) =>
      RemoveKeys(g, c, pid);
      ApartCounters(g, RemovePlayer(g, c, pid));
      CountersInLockstep(g, RemovePlayer(g, c, pid));
    case DropLaggers(order) =>
      var h := StopLaggers(g, c, order);
      StopFrame(g, c, order);
      ApartCounters(g.(lagging := h.lagging), h);
      CountersInLockstep(g, h);
    case GpsInit(pid) => CountersInLockstep(g, BehindGproxy(g, pid));
  }

  /** Over every run: round k compares each player's k-th checksum since the game loaded, and any two
      players still in the game agreed on every turn that was compared. */
  lemma {:induction false} SurvivorsNeverDisagreed(g: Game, c: Config, evs: seq<Event>)
    requires JustLoaded(g)
    ensures InLockstep(Run(g, c, evs))
  {
    if evs != [] {
      SurvivorsNeverDisagreed(g, c, evs[..|evs| - 1]);
      StepInLockstep(Run(g, c, evs[..|evs| - 1]), c, evs[|evs| - 1]);
    }
  }
}
