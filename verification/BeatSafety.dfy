/**
 What holds over every run of a game in progress: everyone's game is fed the same actions, the lag
 screen everyone sees is the true one, nobody falls further behind than the limit allows, and no two
 players who remain ever disagreed on a compared turn.
 */
module BeatSafety {
  import opened Bytes
  import opened Batching
  import opened Beat
  import opened BeatRuns
  import opened BeatStreams

  // ---- what becomes of the actions queued ----

  /** Those of the actions whose players are among `keys`, in order. */
  function Here(actions: seq<Action>, keys: set<Pid>): seq<Action> {
    if actions == [] then []
    else
      var n := |actions| - 1;
      Here(actions[..n], keys) + if actions[n].pid in keys then [actions[n]] else []
  }

  lemma {:induction false} HereAgain(actions: seq<Action>, keys: set<Pid>, fewer: set<Pid>)
    requires fewer <= keys
    ensures Here(Here(actions, keys), fewer) == Here(actions, fewer)
  {
    if actions != [] {
      var n := |actions| - 1;
      HereAgain(actions[..n], keys, fewer);
      var h := Here(actions[..n], keys);
      HereSnoc(h, actions[n], fewer);
      assert actions[n].pid !in keys ==> Here(actions, keys) == h;
    }
  }

  lemma HereSnoc(actions: seq<Action>, a: Action, keys: set<Pid>)
    ensures Here(actions + [a], keys) == Here(actions, keys) + if a.pid in keys then [a] else []
  {
    assert (actions + [a])[..|actions|] == actions;
  }

  ghost predicate AllHere(actions: seq<Action>, keys: set<Pid>) {
    forall i :: 0 <= i < |actions| ==> actions[i].pid in keys
  }

  lemma {:induction false} HereIsAll(actions: seq<Action>, keys: set<Pid>)
    requires AllHere(actions, keys)
    ensures Here(actions, keys) == actions
  {
    if actions != [] { HereIsAll(actions[..|actions| - 1], keys); }
  }

  lemma {:induction false} HereIsHere(actions: seq<Action>, keys: set<Pid>)
    ensures AllHere(Here(actions, keys), keys)
  {
    if actions != [] { HereIsHere(actions[..|actions| - 1], keys); }
  }

  lemma {:induction false} PurgedIsHere(actions: seq<Action>, keys: set<Pid>, pid: Pid)
    requires AllHere(actions, keys)
    ensures Purged(actions, pid) == Here(actions, keys - {pid})
  {
    if actions != [] { PurgedIsHere(actions[..|actions| - 1], keys, pid); }
  }

  /** No beat: the queue only loses the actions of players who left. */
  ghost predicate NoBeat(g: Game, h: Game) {
    && h.syncCounter == g.syncCounter && h.players.Keys <= g.players.Keys
    && h.actions == Here(g.actions, h.players.Keys)
  }

  /** From g to h the stream grew by x: by nothing that counts without a beat, by the queue of those still
      there and one interval with a beat. */
  ghost predicate Grew(g: Game, h: Game, c: Config, x: seq<Msg>) {
    if h.syncCounter == g.syncCounter then NoBeat(g, h) && ActsOf(x) == [] && TimeOf(x) == 0
    else
      && h.syncCounter == g.syncCounter + 1 && h.players.Keys <= g.players.Keys && h.actions == []
      && ActsOf(x) == Here(g.actions, h.players.Keys) && TimeOf(x) == c.latency
  }

  lemma NoBeatTwice(g: Game, h: Game, k: Game)
    requires NoBeat(g, h) && NoBeat(h, k)
    ensures NoBeat(g, k)
  {
    HereAgain(g.actions, h.players.Keys, k.players.Keys);
  }

  lemma NoBeatThenGrew(g: Game, h: Game, k: Game, c: Config, x: seq<Msg>)
    requires NoBeat(g, h) && Grew(h, k, c, x)
    ensures Grew(g, k, c, x)
  {
    HereAgain(g.actions, h.players.Keys, k.players.Keys);
  }

  lemma GrewTwice(g: Game, h: Game, k: Game, c: Config, x: seq<Msg>, y: seq<Msg>)
    requires Grew(g, h, c, x) && h.syncCounter == g.syncCounter && Grew(h, k, c, y)
    ensures Grew(g, k, c, x + y)
  {
    CarriedAppend(x, y);
    NoBeatThenGrew(g, h, k, c, y);
    assert [] + ActsOf(y) == ActsOf(y);
  }

  lemma SameQueue(g: Game, h: Game)
    requires h.syncCounter == g.syncCounter && h.players.Keys == g.players.Keys && h.actions == g.actions
    requires AllHere(g.actions, g.players.Keys)
    ensures NoBeat(g, h) && AllHere(h.actions, h.players.Keys) && (forall c :: Grew(g, h, c, []))
  {
    HereIsAll(g.actions, g.players.Keys);
  }

  lemma RemoveIsQuiet(g: Game, c: Config, pid: Pid)
    requires AllHere(g.actions, g.players.Keys)
    ensures var h := RemovePlayer(g, c, pid); NoBeat(g, h) && AllHere(h.actions, h.players.Keys)
  {
    hide Purged, Tagged;
    if pid in g.players {
      PurgedIsHere(g.actions, g.players.Keys, pid);
      HereIsHere(g.actions, g.players.Keys - {pid});
      assert RemovePlayer(g, c, pid).players.Keys == g.players.Keys - {pid};
    } else {
      SameQueue(g, g);
    }
  }

  lemma {:induction false} RemoveEachIsQuiet(g: Game, c: Config, pids: seq<Pid>)
    requires AllHere(g.actions, g.players.Keys)
    ensures var h := RemoveEach(g, c, pids); NoBeat(g, h) && AllHere(h.actions, h.players.Keys)
  {
    hide RemovePlayer, NoBeat, AllHere;
    if pids == [] {
      SameQueue(g, g);
    } else {
      var k := |pids| - 1;
      RemoveEachIsQuiet(g, c, pids[..k]);
      RemoveIsQuiet(RemoveEach(g, c, pids[..k]), c, pids[k]);
      NoBeatTwice(g, RemoveEach(g, c, pids[..k]), RemoveEach(g, c, pids));
    }
  }

  lemma {:induction false} ClearEachIsQuiet(g: Game, pids: seq<Pid>, now: nat)
    requires AllHere(g.actions, g.players.Keys)
    ensures var h := ClearEach(g, pids, now); NoBeat(g, h) && AllHere(h.actions, h.players.Keys)
  {
    hide ClearOne, NoBeat, AllHere;
    if pids == [] {
      SameQueue(g, g);
    } else {
      var k := |pids| - 1;
      ClearEachIsQuiet(g, pids[..k], now);
      ClearOneIsQuiet(ClearEach(g, pids[..k], now), pids[k], now);
      NoBeatTwice(g, ClearEach(g, pids[..k], now), ClearEach(g, pids, now));
    }
  }

  lemma ClearOneIsQuiet(g: Game, pid: Pid, now: nat)
    requires AllHere(g.actions, g.players.Keys)
    ensures var h := ClearOne(g, pid, now); NoBeat(g, h) && AllHere(h.actions, h.players.Keys)
  {
    SameQueue(g, ClearOne(g, pid, now));
  }

  lemma StopIsQuiet(g: Game, c: Config, order: seq<Pid>)
    requires AllHere(g.actions, g.players.Keys)
    ensures var h := StopLaggers(g, c, order); NoBeat(g, h) && AllHere(h.actions, h.players.Keys)
  {
    hide RemoveEach;
    RemoveEachIsQuiet(g, c, InOrder(order, Laggers(g.players)));
    SameQueue(g, g);
  }

  lemma {:induction false} CheckIsQuiet(g: Game, c: Config, order: seq<Pid>)
    requires AllHere(g.actions, g.players.Keys) && Lists(order, g.players)
    ensures var h := CheckDesync(g, c, order); NoBeat(g, h) && AllHere(h.actions, h.players.Keys)
    decreases Backlog(g.players, order)
  {
    hide NoBeat, AllHere, Victims, Heads, Popped;
    if AllPending(g.players) {
      ComparedShrinks(g, c, order);
      PoppedKeys(g.players);
      var h := g.(players := Popped(g.players), turn := g.turn + 1);
      SameQueue(g, h);
      SameQueue(h, h);
      RemoveEachIsQuiet(h, c, InOrder(order, Victims(Heads(g.players))));
      NoBeatTwice(g, h, Compared(g, c, order));
      hide Compared;
      CheckIsQuiet(Compared(g, c, order), c, order);
      NoBeatTwice(g, Compared(g, c, order), CheckDesync(g, c, order));
    } else {
      SameQueue(g, g);
    }
  }

  // ---- the same game for everyone ----

  ghost predicate Sees(p: Player, v: seq<Msg>, n: nat) {
    Shown(p.stream, true, n) == (v, true)
  }

  /** `v` is the one action stream: every client's, and the replay's. */
  ghost predicate AllSee(g: Game, c: Config, v: seq<Msg>) {
    && (forall p :: p in g.players ==> Sees(g.players[p], v, c.emptyActions))
    && (c.recording ==> Slots(g.replay) == v)
  }

  lemma GivenSees(p: Player, msgs: seq<Msg>, v: seq<Msg>, x: seq<Msg>, n: nat)
    requires Sees(p, v, n) && Shown(Tagged(msgs, p.gproxy), true, n) == (x, true)
    ensures Sees(Given(p, msgs), v + x, n)
  {
    ShownAppend(p.stream, Tagged(msgs, p.gproxy), true, n);
  }

  lemma GiveEachSees(players: Players, direct: seq<Msg>, via: seq<Msg>, v: seq<Msg>, x: seq<Msg>, n: nat)
    requires forall p :: p in players ==> Sees(players[p], v, n)
    requires forall p :: p in players ==>
               Shown(Tagged(if players[p].gproxy then via else direct, players[p].gproxy), true, n) == (x, true)
    ensures forall p :: p in players ==> Sees(GiveEach(players, direct, via)[p], v + x, n)
  {
    hide Sees, Shown, Tagged;
    forall p | p in players ensures Sees(GiveEach(players, direct, via)[p], v + x, n) {
      GivenSees(players[p], if players[p].gproxy then via else direct, v, x, n);
    }
  }

  lemma RecordedSees(g: Game, c: Config, v: seq<Msg>, x: seq<Msg>, blocks: seq<Block>)
    requires c.recording ==> Slots(g.replay) == v
    requires Slots(blocks) == x
    ensures c.recording ==> Slots(Recorded(g, c, blocks).replay) == v + x
  {
    SlotsAppend(g.replay, blocks);
  }

  lemma QuietSees(g: Game, c: Config, v: seq<Msg>, m: Msg)
    requires AllSee(g, c, v) && !IsAction(m)
    ensures AllSee(SendAll(g, m), c, v)
  {
    hide Sees, Shown, Tagged;
    QuietShown([m], false, true, c.emptyActions);
    QuietShown([m], true, true, c.emptyActions);
    GiveEachSees(g.players, [m], [m], v, [], c.emptyActions);
    assert v + [] == v;
  }

  lemma RemoveSees(g: Game, c: Config, v: seq<Msg>, pid: Pid)
    requires AllSee(g, c, v)
    ensures AllSee(RemovePlayer(g, c, pid), c, v)
  {
    hide Sees, Purged;
    if pid in g.players {
      var h := g.(players := g.players - {pid}, actions := Purged(g.actions, pid));
      assert [Leave(pid)][..0] == [];
      RecordedSees(h, c, v, [], [Leave(pid)]);
      assert v + [] == v;
      hide Slots, SendAll;
      QuietSees(Recorded(h, c, [Leave(pid)]), c, v, PlayerLeave(pid));
    }
  }

  lemma {:induction false} RemoveEachSees(g: Game, c: Config, v: seq<Msg>, pids: seq<Pid>)
    requires AllSee(g, c, v)
    ensures AllSee(RemoveEach(g, c, pids), c, v)
  {
    hide AllSee, RemovePlayer;
    if pids != [] {
      var k := |pids| - 1;
      RemoveEachSees(g, c, v, pids[..k]);
      RemoveSees(RemoveEach(g, c, pids[..k]), c, v, pids[k]);
    }
  }

  lemma {:induction false} ClearEachSees(g: Game, c: Config, v: seq<Msg>, pids: seq<Pid>, now: nat)
    requires AllSee(g, c, v)
    ensures AllSee(ClearEach(g, pids, now), c, v)
  {
    if pids != [] {
      var k, pid := |pids| - 1, pids[|pids| - 1];
      ClearEachSees(g, c, v, pids[..k], now);
      var h := ClearEach(g, pids[..k], now);
      hide ClearEach, Shown, SendAll;
      if pid in h.players {
        var p := h.players[pid];
        QuietSees(h.(players := h.players[pid := p.(lagging := false)]), c, v, StopLag(pid, LagMs(p, now)));
      }
    }
  }

  lemma OpenSees(g: Game, c: Config, v: seq<Msg>, now: nat, secs: nat)
    requires AllSee(g, c, v)
    ensures AllSee(OpenScreen(g, c, now, secs), c, v)
  {
    hide Shown, Slots, SendAll;
    var late := set p | p in g.players && Behind(g, g.players[p]) > SyncLimit(c);
    var flagged := map p | p in g.players ::
      if p in late then g.players[p].(lagging := true, startedLagging := now) else g.players[p];
    QuietSees(g.(lagging := true, lastReset := now, startedLaggingTime := secs, players := flagged), c, v,
              StartLag(map p | p in late :: 0));
  }

  lemma StopSees(g: Game, c: Config, v: seq<Msg>, order: seq<Pid>)
    requires AllSee(g, c, v)
    ensures AllSee(StopLaggers(g, c, order), c, v)
  {
    hide Sees, Slots, RemoveEach;
    RemoveEachSees(g, c, v, InOrder(order, Laggers(g.players)));
  }

  lemma StopsAreQuiet(players: Players, pids: seq<Pid>, now: nat, gproxy: bool, n: nat)
    ensures Shown(Tagged(StopMsgs(players, pids, now), gproxy), true, n) == ([], true)
  {
    QuietShown(StopMsgs(players, pids, now), gproxy, true, n);
  }

  lemma ResetActsShown(owed: nat, n: nat, gproxy: bool)
    requires gproxy ==> owed == 0
    ensures Shown(Tagged(Empties(owed) + [Actions([], 0)], gproxy), true, n)
         == (Empties(if gproxy then n else owed) + [Actions([], 0)], true)
  {
    var acts := Empties(owed) + [Actions([], 0)];
    if gproxy {
      ViaShown(acts, n);
      assert acts == [Actions([], 0)];
    } else {
      DirectShown(acts, true, n);
    }
  }

  lemma ResetShown(players: Players, order: seq<Pid>, owed: nat, now: nat, n: nat, gproxy: bool)
    requires gproxy ==> owed == 0
    ensures Shown(Tagged(ResetMsgs(players, order, owed, now), gproxy), true, n)
         == (Empties(if gproxy then n else owed) + [Actions([], 0)], true)
  {
    hide Shown, Tagged, Empties, StopMsgs, InOrder;
    var stops := StopMsgs(players, InOrder(order, Laggers(players)), now);
    var acts := Empties(owed) + [Actions([], 0)];
    var start := [StartLag(map p | p in Laggers(players) && p in players :: LagMs(players[p], now))];
    TaggedAppend(stops, acts, gproxy);
    TaggedAppend(stops + acts, start, gproxy);
    StopsAreQuiet(players, InOrder(order, Laggers(players)), now, gproxy, n);
    QuietShown(start, gproxy, true, n);
    ResetActsShown(owed, n, gproxy);
    ShownAppend(Tagged(stops, gproxy), Tagged(acts, gproxy), true, n);
    ShownAppend(Tagged(stops, gproxy) + Tagged(acts, gproxy), Tagged(start, gproxy), true, n);
    var x := Empties(if gproxy then n else owed) + [Actions([], 0)];
    assert [] + x == x && x + [] == x;
    assert ResetMsgs(players, order, owed, now) == stops + acts + start;
  }

  lemma TaggedAppend(a: seq<Msg>, b: seq<Msg>, gproxy: bool)
    ensures Tagged(a + b, gproxy) == Tagged(a, gproxy) + Tagged(b, gproxy)
  {}

  lemma ResetSees(g: Game, c: Config, v: seq<Msg>, now: nat, order: seq<Pid>) returns (x: seq<Msg>)
    requires AllSee(g, c, v)
    ensures AllSee(ResetScreen(g, c, now, order), c, v + x) && ActsOf(x) == [] && TimeOf(x) == 0
  {
    hide Sees, Shown, Tagged, ResetMsgs;
    var n := c.emptyActions;
    var owed := if UsingGproxy(g.players) then n else 0;
    x := Empties(owed) + [Actions([], 0)];
    EmptiesCarryNothing(owed);
    OneEmpty();
    CarriedAppend(Empties(owed), [Actions([], 0)]);
    ResetShown(g.players, order, owed, now, n, false);
    ResetShown(g.players, order, 0, now, n, true);
    GiveEachSees(g.players, ResetMsgs(g.players, order, owed, now), ResetMsgs(g.players, order, 0, now), v, x, n);
    EmptySlotsShown(owed);
    SlotsAppend(EmptySlots(owed), [TimeSlot([], 0)]);
    assert [TimeSlot([], 0)][..0] == [];
    RecordedSees(g, c, v, x, EmptySlots(owed) + [TimeSlot([], 0)]);
    hide Slots, GiveEach;
    assert AllSee(ResetScreen(g, c, now, order), c, v + x);
  }

  lemma OneEmpty()
    ensures ActsOf([Actions([], 0)]) == [] && TimeOf([Actions([], 0)]) == 0
  {
    EmptiesCarryNothing(1);
    assert Empties(1) == [Actions([], 0)];
  }

  /** What a beat carries: the whole queue, in order, and one interval. */
  lemma BeatCarries(queue: seq<Action>, owed: nat, interval: nat)
    ensures
      var x := Empties(owed) + ChunkMsgs(Chunks(queue), interval);
      ActsOf(x) == queue && TimeOf(x) == interval
  {
    hide Chunks;
    var chunks := Chunks(queue);
    var msgs := ChunkMsgs(chunks, interval);
    ChunksAreWellCut(queue);
    ChunksCarry(chunks, interval, |chunks|);
    EmptiesCarryNothing(owed);
    CarriedAppend(Empties(owed), msgs);
    assert msgs[..|chunks|] == msgs && chunks[..|chunks|] == chunks && [] + queue == queue;
  }

  /** One beat's packets: so many empty actions without an interval, then INCOMING_ACTION2s and one INCOMING_ACTION. */
  ghost predicate BeatShaped(msgs: seq<Msg>, empties: nat, interval: nat) {
    && empties < |msgs| && msgs[|msgs| - 1].Actions? && msgs[|msgs| - 1].interval == interval
    && (forall i :: 0 <= i < empties ==> msgs[i] == Actions([], 0))
    && (forall i :: empties <= i < |msgs| - 1 ==> msgs[i].Actions2?)
  }

  /** A beat hands each player packets that carry the queue as it stood, in order, and one interval; and it
      leaves the queue empty. Whoever is not behind GProxy++ is sent the empty actions first, if anyone is. */
  lemma EveryoneIsSentTheQueue(g: Game, c: Config, p: Pid)
    requires p in g.players
    ensures
      var h := SendAllActions(g, c);
      var was, s := g.players[p].stream, h.players[p].stream;
      && was <= s && ActsOf(Msgs(s[|was|..])) == g.actions && TimeOf(Msgs(s[|was|..])) == c.latency
      && BeatShaped(Msgs(s[|was|..]),
                    if !g.players[p].gproxy && (exists q :: q in g.players && g.players[q].gproxy)
                    then c.emptyActions else 0,
                    c.latency)
      && h.actions == [] && h.syncCounter == g.syncCounter + 1
  {
    hide Chunks, ActsOf, TimeOf, ChunkMsgs;
    var owed := if UsingGproxy(g.players) then c.emptyActions else 0;
    var msgs := ChunkMsgs(Chunks(g.actions), c.latency);
    BeatCarries(g.actions, owed, c.latency);
    BeatCarries(g.actions, 0, c.latency);
    assert Empties(0) + msgs == msgs;
    var x := if g.players[p].gproxy then msgs else Empties(owed) + msgs;
    var was, s := g.players[p].stream, SendAllActions(g, c).players[p].stream;
    assert s == was + Tagged(x, g.players[p].gproxy);
    assert Msgs(s[|was|..]) == x;
    ShapedBeat(Chunks(g.actions), c.latency, owed);
    ShapedBeat(Chunks(g.actions), c.latency, 0);
  }

  lemma ShapedBeat(chunks: seq<seq<Action>>, interval: nat, owed: nat)
    requires chunks != []
    ensures BeatShaped(Empties(owed) + ChunkMsgs(chunks, interval), owed, interval)
  {}

  /** What a beat adds to the one stream. */
  function BeatMsgs(g: Game, c: Config): seq<Msg> {
    Empties(if UsingGproxy(g.players) then c.emptyActions else 0) + ChunkMsgs(Chunks(g.actions), c.latency)
  }

  lemma BeatGrew(g: Game, c: Config)
    requires AllHere(g.actions, g.players.Keys)
    ensures var h := SendAllActions(g, c); Grew(g, h, c, BeatMsgs(g, c)) && AllHere(h.actions, h.players.Keys)
  {
    hide ActsOf, TimeOf, Tagged, Here, Chunks, ChunkMsgs, ChunkSlots, Empties, EmptySlots, UsingGproxy;
    BeatCarries(g.actions, if UsingGproxy(g.players) then c.emptyActions else 0, c.latency);
    HereIsAll(g.actions, g.players.Keys);
  }

  lemma ChunksAreABeat(chunks: seq<seq<Action>>, interval: nat)
    requires chunks != []
    ensures IsBeat(ChunkMsgs(chunks, interval))
    ensures Slots(ChunkSlots(chunks, interval)) == ChunkMsgs(chunks, interval)
  {
    ChunkSlotsShown(chunks, interval, |chunks|);
    assert ChunkSlots(chunks, interval)[..|chunks|] == ChunkSlots(chunks, interval);
    assert ChunkMsgs(chunks, interval)[..|chunks|] == ChunkMsgs(chunks, interval);
  }

  lemma BeatSees(g: Game, c: Config, v: seq<Msg>)
    requires AllSee(g, c, v)
    ensures AllSee(SendAllActions(g, c), c, v + BeatMsgs(g, c))
  {
    hide Sees, Shown, Tagged, Chunks, ChunkMsgs, ChunkSlots, Slots, IsBeat, GiveEach, Empties, EmptySlots;
    var n := c.emptyActions;
    var owed := if UsingGproxy(g.players) then n else 0;
    var chunks := Chunks(g.actions);
    var msgs := ChunkMsgs(chunks, c.latency);
    var x := Empties(owed) + msgs;
    ChunksAreABeat(chunks, c.latency);
    EmptiesAreActions(owed, msgs);
    DirectShown(x, true, n);
    if UsingGproxy(g.players) { BeatIsTheSame(msgs, n); }
    GiveEachSees(g.players, x, msgs, v, x, n);
    EmptySlotsShown(owed);
    SlotsAppend(EmptySlots(owed), ChunkSlots(chunks, c.latency));
    RecordedSees(g, c, v, x, EmptySlots(owed) + ChunkSlots(chunks, c.latency));
    GivenKeys(g.players, x, msgs);
  }

  lemma GivenKeys(players: Players, direct: seq<Msg>, via: seq<Msg>)
    ensures GiveEach(players, direct, via).Keys == players.Keys
  {}

  lemma EmptiesAreActions(owed: nat, msgs: seq<Msg>)
    requires IsBeat(msgs)
    ensures forall i :: 0 <= i < |Empties(owed) + msgs| ==> IsAction((Empties(owed) + msgs)[i])
    ensures (Empties(owed) + msgs) != [] && (Empties(owed) + msgs)[|Empties(owed) + msgs| - 1].Actions?
  {}

  lemma KeepSees(g: Game, c: Config, v: seq<Msg>, now: nat, secs: nat, order: seq<Pid>) returns (x: seq<Msg>)
    requires AllSee(g, c, v) && AllHere(g.actions, g.players.Keys)
    ensures var h := KeepScreen(g, c, now, secs, order);
            && AllSee(h, c, v + x) && ActsOf(x) == [] && TimeOf(x) == 0
            && NoBeat(g, h) && AllHere(h.actions, h.players.Keys)
  {
    KeepIsQuiet(g, c, now, secs, order);
    hide Sees, Slots, StopLaggers, ClearEach, ResetScreen, LagScreenExpired, NoBeat, AllHere;
    StopSees(g, c, v, order);
    var h := Waited(g, c, secs, order);
    ClearEachSees(h, c, v, InOrder(order, Recovered(h, c)), now);
    var k := Cleared(h, c, now, order);
    assert v + [] == v;
    x := [];
    if Laggers(k.players) != {} && now - k.lastReset >= 60_000 { x := ResetSees(k, c, v, now, order); }
  }

  lemma KeepIsQuiet(g: Game, c: Config, now: nat, secs: nat, order: seq<Pid>)
    requires AllHere(g.actions, g.players.Keys)
    ensures var h := KeepScreen(g, c, now, secs, order); NoBeat(g, h) && AllHere(h.actions, h.players.Keys)
  {
    hide StopLaggers, ClearEach, LagScreenExpired, ResetMsgs, NoBeat, AllHere, Tagged;
    var h := Waited(g, c, secs, order);
    var k := Cleared(h, c, now, order);
    StopIsQuiet(g, c, order);
    SameQueue(g, g);
    ClearEachIsQuiet(h, InOrder(order, Recovered(h, c)), now);
    NoBeatTwice(g, h, k);
    SameQueue(k, CloseOrReset(k, c, now, order));
    NoBeatTwice(g, k, CloseOrReset(k, c, now, order));
  }

  lemma OpenIsQuiet(g: Game, c: Config, now: nat, secs: nat)
    requires AllHere(g.actions, g.players.Keys)
    ensures var h := OpenScreen(g, c, now, secs); NoBeat(g, h) && AllHere(h.actions, h.players.Keys)
  {
    hide Tagged;
    SameQueue(g, OpenScreen(g, c, now, secs));
  }

  lemma TickSees(g: Game, c: Config, v: seq<Msg>, now: nat, secs: nat, expired: set<Pid>, order: seq<Pid>)
    returns (x: seq<Msg>)
    requires AllSee(g, c, v) && AllHere(g.actions, g.players.Keys)
    ensures var h := Tick(g, c, now, secs, expired, order);
            AllSee(h, c, v + x) && Grew(g, h, c, x) && AllHere(h.actions, h.players.Keys)
  {
    hide AllSee, RemoveEach, KeepScreen, OpenScreen, SendAllActions, NoBeat, Grew, AllHere;
    RemoveEachSees(g, c, v, InOrder(order, expired));
    RemoveEachIsQuiet(g, c, InOrder(order, expired));
    SameQueue(g, g);
    var h := if c.reconnectEnabled then RemoveEach(g, c, InOrder(order, expired)) else g;
    assert v + [] == v;
    x := [];
    if h.lagging {
      x := KeepSees(h, c, v, now, secs, order);
    } else {
      OpenSees(h, c, v, now, secs);
      OpenIsQuiet(h, c, now, secs);
    }
    var k := if h.lagging then KeepScreen(h, c, now, secs, order) else OpenScreen(h, c, now, secs);
    NoBeatTwice(g, h, k);
    QuietGrew(g, k, c, x);
    if !k.lagging {
      var y := BeatMsgs(k, c);
      BeatSees(k, c, v + x);
      BeatGrew(k, c);
      GrewTwice(g, k, SendAllActions(k, c), c, x, y);
      assert v + x + y == v + (x + y);
      x := x + y;
    }
  }

  lemma QuietGrew(g: Game, h: Game, c: Config, x: seq<Msg>)
    requires NoBeat(g, h) && ActsOf(x) == [] && TimeOf(x) == 0
    ensures Grew(g, h, c, x) && h.syncCounter == g.syncCounter
  {}

  lemma {:induction false} CheckSees(g: Game, c: Config, v: seq<Msg>, order: seq<Pid>)
    requires AllSee(g, c, v) && Lists(order, g.players)
    ensures AllSee(CheckDesync(g, c, order), c, v)
    decreases Backlog(g.players, order)
  {
    if AllPending(g.players) {
      ComparedShrinks(g, c, order);
      var h := g.(players := Popped(g.players), turn := g.turn + 1);
      assert AllSee(h, c, v);
      RemoveEachSees(h, c, v, InOrder(order, Victims(Heads(g.players))));
      assert AllSee(Compared(g, c, order), c, v);
      hide AllSee, Compared;
      CheckSees(Compared(g, c, order), c, v, order);
    }
  }

  /** An action is accepted from a player in the game. */
  function Accepted(g: Game, ev: Event): seq<Action> {
    if ev.Act? && ev.action.pid in g.players then [ev.action] else []
  }

  lemma StepSees(g: Game, c: Config, v: seq<Msg>, ev: Event) returns (x: seq<Msg>)
    requires AllSee(g, c, v) && AllHere(g.actions, g.players.Keys)
    ensures var h := Step(g, c, ev);
            && AllSee(h, c, v + x) && AllHere(h.actions, h.players.Keys)
            && Grew(g.(actions := g.actions + Accepted(g, ev)), h, c, x)
  {
    hide Shown, Slots, Tick, CheckDesync, StopLaggers, RemovePlayer, AllHere, NoBeat, Grew, TimeOf, ActsOf;
    assert v + [] == v && g.actions + [] == g.actions;
    var h := Step(g, c, ev);
    x := [];
    SameQueue(g, g);
    match ev
    case GameTick(now, secs, expired, order) =>
      if Lists(order, g.players) { x := TickSees(g, c, v, now, secs, expired, order); }
    case KeepAlive(pid, checksum, order) => StepChecks(g, c, v, pid, checksum, order);
    case Depart(pid) =>
      RemoveSees(g, c, v, pid);
      RemoveIsQuiet(g, c, pid);
      NothingGrew(g, h, c);
    case DropLaggers(order) =>
      StopSees(g, c, v, order);
      StopIsQuiet(g, c, order);
      NothingGrew(g, h, c);
    case Act(a) =>
      if a.pid in g.players {
        HereSoFar(g.actions, a, g.players.Keys);
        SameQueue(h, h);
      }
    case GpsInit(pid) =>
      SameQueue(g, h);
  }

  lemma HereSoFar(actions: seq<Action>, a: Action, keys: set<Pid>)
    requires AllHere(actions, keys) && a.pid in keys
    ensures AllHere(actions + [a], keys)
  {}

  lemma NothingGrew(g: Game, h: Game, c: Config)
    requires NoBeat(g, h)
    ensures Grew(g, h, c, [])
  {}

  lemma StepChecks(g: Game, c: Config, v: seq<Msg>, pid: Pid, checksum: U32, order: seq<Pid>)
    requires AllSee(g, c, v) && AllHere(g.actions, g.players.Keys)
    ensures var k := Step(g, c, KeepAlive(pid, checksum, order));
            AllSee(k, c, v) && AllHere(k.actions, k.players.Keys) && Grew(g, k, c, [])
  {
    hide Shown, Slots, CheckDesync, AllHere, NoBeat, Grew;
    var h := Heard(g, pid, checksum);
    assert AllSee(h, c, v);
    SameQueue(g, g);
    SameQueue(g, h);
    SameQueue(h, h);
    if pid in g.players && Lists(order, h.players) {
      CheckSees(h, c, v, order);
      CheckIsQuiet(h, c, order);
      NoBeatTwice(g, h, CheckDesync(h, c, order));
      NothingGrew(g, CheckDesync(h, c, order), c);
    }
  }

  /** What has been sent and what is queued, told from the history alone: an accepted action is queued while
      its player stays, until the next beat sends the queue. */
  ghost function Spoken(g: Game, c: Config, evs: seq<Event>): (seq<Action>, seq<Action>) {
    if evs == [] then ([], [])
    else
      var k := |evs| - 1;
      var before, after := Run(g, c, evs[..k]), Run(g, c, evs);
      var (sent, queued) := Spoken(g, c, evs[..k]);
      var still := Here(queued + Accepted(before, evs[k]), after.players.Keys);
      if after.syncCounter == before.syncCounter then (sent, still) else (sent + still, [])
  }

  /** The one stream carries what has been spoken and sent, and one interval for each beat. */
  ghost predicate Carries(g: Game, c: Config, evs: seq<Event>, v: seq<Msg>) {
    var h := Run(g, c, evs);
    && ActsOf(v) == Spoken(g, c, evs).0 && h.actions == Spoken(g, c, evs).1
    && TimeOf(v) == c.latency * h.syncCounter
  }

  lemma CarriesOn(g: Game, c: Config, evs: seq<Event>, u: seq<Msg>, x: seq<Msg>)
    requires evs != [] && Carries(g, c, evs[..|evs| - 1], u)
    requires
      var before := Run(g, c, evs[..|evs| - 1]);
      Grew(before.(actions := before.actions + Accepted(before, evs[|evs| - 1])), Run(g, c, evs), c, x)
    ensures Carries(g, c, evs, u + x)
  {
    hide Run, ActsOf, TimeOf, Here;
    CarriedAppend(u, x);
    OneMoreInterval(c.latency, Run(g, c, evs[..|evs| - 1]).syncCounter);
    assert ActsOf(u) + [] == ActsOf(u);
  }

  lemma OneMoreInterval(latency: nat, beats: nat)
    ensures latency * (beats + 1) == latency * beats + latency
  {}

  /** Over every run, whatever mix of direct and GProxy++ players comes and goes: there is one action stream
      that every remaining player's game was fed and the replay recorded. It carries exactly the actions
      accepted, in order, of players who stayed until they were sent, and one interval per beat. */
  lemma {:induction false} SameGameForEveryone(g: Game, c: Config, evs: seq<Event>) returns (v: seq<Msg>)
    requires JustLoaded(g)
    ensures AllSee(Run(g, c, evs), c, v) && Carries(g, c, evs, v)
    ensures AllHere(Run(g, c, evs).actions, Run(g, c, evs).players.Keys)
  {
    hide Step, AllHere, AllSee, Carries, Grew;
    if evs == [] {
      v := [];
      AtFirst(g, c);
    } else {
      var k := |evs| - 1;
      var u := SameGameForEveryone(g, c, evs[..k]);
      var x := StepSees(Run(g, c, evs[..k]), c, u, evs[k]);
      CarriesOn(g, c, evs, u, x);
      v := u + x;
    }
  }

  lemma AtFirst(g: Game, c: Config)
    requires JustLoaded(g)
    ensures AllSee(g, c, []) && Carries(g, c, [], []) && AllHere(g.actions, g.players.Keys)
  {
    LeavesOnly(g.replay);
  }

  lemma {:induction false} LeavesOnly(blocks: seq<Block>)
    requires forall i :: 0 <= i < |blocks| ==> blocks[i].Leave?
    ensures Slots(blocks) == []
  {
    if blocks != [] { LeavesOnly(blocks[..|blocks| - 1]); }
  }

  lemma AnyTwoPlayersSeeTheSame(g: Game, c: Config, evs: seq<Event>, p: Pid, q: Pid)
    requires JustLoaded(g) && p in Run(g, c, evs).players && q in Run(g, c, evs).players
    ensures var h := Run(g, c, evs);
            && Shown(h.players[p].stream, true, c.emptyActions) == Shown(h.players[q].stream, true, c.emptyActions)
            && (c.recording ==> Shown(h.players[p].stream, true, c.emptyActions).0 == Slots(h.replay))
  {
    var v := SameGameForEveryone(g, c, evs);
    hide Run;
  }
}
