/**
 The game in progress as the actor runs it: packets go out one player at a time, in the order the
 player table yields them, which every method takes as a parameter.
 */
module BeatActor {
  import opened Bytes
  import opened Batching
  import opened Beat
  import BeatRuns

  class GameActor {
    const cfg: Config
    var players: Players
    var actions: seq<Action>
    var syncCounter: nat
    var lagging: bool
    var lastReset: nat
    var startedLaggingTime: nat
    var turn: nat
    var replay: seq<Block>

    function State(): Game reads this {
      Game(players, actions, syncCounter, lagging, lastReset, startedLaggingTime, turn, replay)
    }

    constructor (cfg: Config, players: Players, replay: seq<Block>)
      ensures this.cfg == cfg && State() == Game(players, [], 0, false, 0, 0, 0, replay)
    {
      this.cfg := cfg;
      this.players, this.replay := players, replay;
      actions, syncCounter, lagging, lastReset, startedLaggingTime, turn := [], 0, false, 0, 0, 0;
    }

    // ---- sending ----

    method SendToPid(pid: Pid, msg: Msg)
      modifies this`players
      ensures players == if pid in old(players)
                        then old(players)[pid := Given(old(players)[pid], [msg])]
                        else old(players)
    {
      if pid in players {
        var p := players[pid];
        players := players[pid := p.(stream := p.stream + [Sent(msg, p.gproxy)])];
        assert Tagged([msg], p.gproxy) == [Sent(msg, p.gproxy)];
      }
    }

    method SendAll(order: seq<Pid>, msg: Msg)
      requires Lists(order, players)
      modifies this`players
      ensures players == GiveEach(old(players), [msg], [msg])
    {
      for i := 0 to |order|
        invariant players.Keys == old(players).Keys
        invariant forall p :: p in players ==>
          players[p] == if p in order[..i] then Given(old(players)[p], [msg]) else old(players)[p]
      {
        assert order[..i + 1] == order[..i] + [order[i]];
        assert order[i] !in order[..i];
        SendToPid(order[i], msg);
      }
      assert order[..|order|] == order;
    }

    method SendSeveral(pid: Pid, msgs: seq<Msg>)
      requires pid in players
      modifies this`players
      ensures players == old(players)[pid := Given(old(players)[pid], msgs)]
    {
      assert Given(players[pid], msgs[..0]) == players[pid] by {
        assert players[pid].stream + [] == players[pid].stream;
      }
      for i := 0 to |msgs|
        invariant players == old(players)[pid := Given(old(players)[pid], msgs[..i])]
      {
        SendToPid(pid, msgs[i]);
        GivenTwice(old(players)[pid], msgs[..i], [msgs[i]]);
        assert msgs[..i + 1] == msgs[..i] + [msgs[i]];
      }
      assert msgs[..|msgs|] == msgs;
    }

    method Record(blocks: seq<Block>)
      modifies this`replay
      ensures replay == if cfg.recording then old(replay) + blocks else old(replay)
    {
      if cfg.recording { replay := replay + blocks; }
    }

    /** One run of packets for the direct players, another for those behind GProxy++. */
    method HandOut(order: seq<Pid>, direct: seq<Msg>, via: seq<Msg>)
      requires Lists(order, players)
      modifies this`players
      ensures players == GiveEach(old(players), direct, via)
    {
      hide Given;
      for i := 0 to |order|
        invariant players.Keys == old(players).Keys
        invariant forall p :: p in players ==>
          players[p] == if p in order[..i] then Given(old(players)[p], if old(players)[p].gproxy then via else direct)
                        else old(players)[p]
      {
        var pid := order[i];
        assert order[..i + 1] == order[..i] + [pid];
        assert pid !in order[..i];
        if pid in players { SendSeveral(pid, if players[pid].gproxy then via else direct); }
      }
      assert order[..|order|] == order;
    }

    method RecordEmpties(n: nat)
      modifies this`replay
      ensures replay == if cfg.recording then old(replay) + EmptySlots(n) else old(replay)
    {
      for i := 0 to n
        invariant replay == if cfg.recording then old(replay) + EmptySlots(i) else old(replay)
      {
        Record([TimeSlot([], 0)]);
        assert EmptySlots(i + 1) == EmptySlots(i) + [TimeSlot([], 0)];
      }
    }

    // ---- departures ----

    method RemovePlayer(pid: Pid, order: seq<Pid>)
      requires Lists(order, players)
      modifies this
      ensures State() == Beat.RemovePlayer(old(State()), cfg, pid)
      ensures Lists(order, players)
    {
      if pid !in players { return; }
      players := players - {pid};
      var kept := [];
      for i := 0 to |actions|
        invariant actions == old(actions) && players == old(players) - {pid}
        invariant kept == Purged(actions[..i], pid)
      {
        assert actions[..i + 1][..i] == actions[..i];
        if actions[i].pid != pid { kept := kept + [actions[i]]; }
      }
      assert actions[..|actions|] == actions;
      actions := kept;
      Record([Leave(pid)]);
      SendAll(order, PlayerLeave(pid));
    }

    method RemoveEach(pids: seq<Pid>, order: seq<Pid>)
      requires Lists(order, players)
      modifies this
      ensures State() == Beat.RemoveEach(old(State()), cfg, pids)
      ensures Lists(order, players)
    {
      hide Beat.RemovePlayer;
      for i := 0 to |pids|
        invariant State() == Beat.RemoveEach(old(State()), cfg, pids[..i])
        invariant Lists(order, players)
      {
        assert pids[..i + 1][..i] == pids[..i];
        RemovePlayer(pids[i], order);
      }
      assert pids[..|pids|] == pids;
    }

    // ---- the lag screen ----

    method OpenScreen(now: nat, secs: nat, order: seq<Pid>)
      requires Lists(order, players)
      modifies this
      ensures State() == Beat.OpenScreen(old(State()), cfg, now, secs)
      ensures Lists(order, players)
    {
      var late := set p | p in players && Behind(State(), players[p]) > SyncLimit(cfg);
      if late == {} { return; }
      lagging := true;
      lastReset := now;
      startedLaggingTime := secs;
      players := map p | p in players ::
        if p in late then players[p].(lagging := true, startedLagging := now) else players[p];
      SendAll(order, StartLag(map p | p in late :: 0));
    }

    method StopLaggers(order: seq<Pid>)
      requires Lists(order, players)
      modifies this
      ensures State() == Beat.StopLaggers(old(State()), cfg, order)
      ensures Lists(order, players)
    {
      hide Beat.RemoveEach;
      var late := Laggers(players);
      if late == {} { return; }
      RemoveEach(InOrder(order, late), order);
      if Laggers(players) == {} { lagging := false; }
    }

    method ClearRecovered(now: nat, order: seq<Pid>)
      requires Lists(order, players)
      modifies this`players
      ensures State() == Cleared(old(State()), cfg, now, order)
      ensures Lists(order, players)
    {
      var pids := InOrder(order, Recovered(State(), cfg));
      for i := 0 to |pids|
        invariant State() == ClearEach(old(State()), pids[..i], now)
        invariant Lists(order, players)
      {
        assert pids[..i + 1][..i] == pids[..i];
        var pid := pids[i];
        if pid in players {
          var p := players[pid];
          players := players[pid := p.(lagging := false)];
          SendAll(order, StopLag(pid, LagMs(p, now)));
        }
      }
      assert pids[..|pids|] == pids;
    }

    method ResetScreen(now: nat, order: seq<Pid>)
      requires Lists(order, players)
      modifies this
      ensures State() == Beat.ResetScreen(old(State()), cfg, now, order)
      ensures Lists(order, players)
    {
      hide ResetMsgs, Given;
      lastReset := now;
      var owed := if UsingGproxy(players) then cfg.emptyActions else 0;
      HandOut(order, ResetMsgs(players, order, owed, now), ResetMsgs(players, order, 0, now));
      RecordEmpties(owed);
      Record([TimeSlot([], 0)]);
    }

    method KeepScreen(now: nat, secs: nat, order: seq<Pid>)
      requires Lists(order, players)
      modifies this
      ensures State() == Beat.KeepScreen(old(State()), cfg, now, secs, order)
      ensures Lists(order, players)
    {
      hide Beat.StopLaggers, ClearEach, Beat.ResetScreen, LagScreenExpired;
      if LagScreenExpired(startedLaggingTime, secs, UsingGproxy(players), cfg.emptyActions) {
        StopLaggers(order);
      }
      ClearRecovered(now, order);
      if Laggers(players) == {} {
        lagging := false;
      } else if now - lastReset >= 60_000 {
        ResetScreen(now, order);
      }
    }

    // ---- the beat ----

    method SendAllActions(order: seq<Pid>)
      requires Lists(order, players)
      modifies this
      ensures State() == Beat.SendAllActions(old(State()), cfg)
    {
      hide Chunks, Given, ChunkMsgs, ChunkSlots, WellCut, UsingGproxy, Empties, EmptySlots;
      ghost var before := players;
      var owed := if UsingGproxy(players) then cfg.emptyActions else 0;
      HandOut(order, Empties(owed), []);
      RecordEmpties(owed);
      syncCounter := syncCounter + 1;
      var chunks := CutIntoChunks(actions);
      actions := [];
      SendChunks(chunks, order);
      ghost var msgs, slots := ChunkMsgs(chunks, cfg.latency), ChunkSlots(chunks, cfg.latency);
      GiveEachTwice(before, Empties(owed), [], msgs, msgs);
      hide GiveEach;
      assert [] + msgs == msgs;
      assert old(replay) + EmptySlots(owed) + slots == old(replay) + (EmptySlots(owed) + slots);
    }

    /** INCOMING_ACTION2 for all but the last chunk. */
    method SendChunks(chunks: seq<seq<Action>>, order: seq<Pid>)
      requires Lists(order, players)
      modifies this
      ensures State() == Recorded(old(State()).(players := GiveEach(old(players), ChunkMsgs(chunks, cfg.latency),
                                                                    ChunkMsgs(chunks, cfg.latency))),
                                  cfg, ChunkSlots(chunks, cfg.latency))
    {
      hide Given;
      ghost var msgs, slots := ChunkMsgs(chunks, cfg.latency), ChunkSlots(chunks, cfg.latency);
      NothingGiven(players);
      assert msgs[..0] == [];
      for i := 0 to |chunks|
        invariant players.Keys == old(players).Keys && players == GiveEach(old(players), msgs[..i], msgs[..i])
        invariant State() == old(State()).(players := players, replay := replay)
        invariant replay == if cfg.recording then old(replay) + slots[..i] else old(replay)
      {
        var last := i == |chunks| - 1;
        var msg := if last then Actions(chunks[i], cfg.latency) else Actions2(chunks[i]);
        Record([if last then TimeSlot(chunks[i], cfg.latency) else TimeSlot2(chunks[i])]);
        SendAll(order, msg);
        GiveEachTwice(old(players), msgs[..i], msgs[..i], [msg], [msg]);
        assert msgs[..i + 1] == msgs[..i] + [msg];
        assert slots[..i + 1] == slots[..i] + [slots[i]];
      }
      assert msgs[..|chunks|] == msgs && slots[..|chunks|] == slots;
    }

    method GameTick(now: nat, secs: nat, expired: set<Pid>, order: seq<Pid>)
      requires Lists(order, players)
      modifies this
      ensures State() == Tick(old(State()), cfg, now, secs, expired, order)
    {
      hide Beat.RemoveEach, Beat.KeepScreen, Beat.OpenScreen, Beat.SendAllActions;
      if cfg.reconnectEnabled { RemoveEach(InOrder(order, expired), order); }
      if !lagging {
        OpenScreen(now, secs, order);
      } else {
        KeepScreen(now, secs, order);
      }
      if lagging { return; }
      SendAllActions(order);
    }

    // ---- the desync vote ----

    method CheckDesync(order: seq<Pid>)
      requires Lists(order, players)
      modifies this
      ensures State() == BeatRuns.CheckDesync(old(State()), cfg, order)
    {
      while AllPending(players)
        invariant Lists(order, players)
        invariant BeatRuns.CheckDesync(State(), cfg, order) == BeatRuns.CheckDesync(old(State()), cfg, order)
        decreases Backlog(players, order)
      {
        ghost var g := State();
        BeatRuns.ComparedShrinks(g, cfg, order);
        CompareRound(order);
        assert State() == BeatRuns.Compared(g, cfg, order);
      }
    }

    /** Pop one checksum of everybody and act on the vote. */
    method CompareRound(order: seq<Pid>)
      requires Lists(order, players) && AllPending(players)
      modifies this
      ensures State() == BeatRuns.Compared(old(State()), cfg, order)
      ensures Lists(order, players)
    {
      hide Beat.RemoveEach, Victims, Group, Heads, Popped, InOrder, Lists;
      HeadsListed(order, players);
      BeatRuns.PoppedKeys(players);
      FewerListed(order, players, Popped(players));
      var heads := Heads(players);
      var bins := Bins(order, heads);
      players := Popped(players);
      turn := turn + 1;
      if |bins| != 1 {
        var victims := Outvoted(bins, heads);
        RemoveEach(InOrder(order, victims), order);
      }
    }

    /** Group the players by the state they reported. */
    static method Bins(order: seq<Pid>, heads: map<Pid, U32>) returns (bins: map<U32, set<Pid>>)
      requires forall p :: p in heads ==> p in order
      ensures bins.Keys == heads.Values
      ensures forall v :: v in bins ==> bins[v] == Group(heads, v)
    {
      bins := map[];
      for i := 0 to |order|
        invariant forall v :: v in bins ==> bins[v] == (set p | p in heads && heads[p] == v && p in order[..i])
        invariant forall p :: p in heads && p in order[..i] ==> heads[p] in bins
        invariant bins.Keys <= heads.Values
      {
        var pid := order[i];
        assert order[..i + 1] == order[..i] + [pid];
        if pid in heads {
          var v := heads[pid];
          var group := if v in bins then bins[v] else {};
          bins := bins[v := group + {pid}];
        }
      }
      assert order[..|order|] == order;
      forall v | v in heads.Values ensures v in bins {
        var p :| p in heads && heads[p] == v;
      }
    }

    /** Sort the groups by size, largest first; the vote is tied when the first two are as large. */
    static method Outvoted(bins: map<U32, set<Pid>>, heads: map<Pid, U32>) returns (victims: set<Pid>)
      requires heads != map[] && bins.Keys == heads.Values
      requires forall v :: v in bins ==> bins[v] == Group(heads, v)
      ensures victims == Victims(heads)
    {
      hide Victims, Group;
      var groups := SortBySize(bins);
      ghost var p :| p in heads;
      assert heads[p] in bins;
      if |groups| > 1 && |bins[groups[0]]| == |bins[groups[1]]| {
        TiedDropsAll(bins, groups, heads);
        victims := heads.Keys;
      } else {
        RestIsDropped(bins, groups, heads);
        victims := Members(groups[1..], bins, heads);
      }
    }

    static method Members(groups: seq<U32>, bins: map<U32, set<Pid>>, ghost heads: map<Pid, U32>) returns (r: set<Pid>)
      requires forall v :: v in groups ==> v in bins && bins[v] == Group(heads, v)
      ensures r == set q | q in heads && heads[q] in groups
    {
      r := {};
      for i := 0 to |groups|
        invariant r == set q | q in heads && heads[q] in groups[..i]
      {
        assert groups[..i + 1] == groups[..i] + [groups[i]];
        assert groups[i] in groups;
        r := r + bins[groups[i]];
      }
      assert groups[..|groups|] == groups;
    }

    /** The groups' checksums by falling group size. */
    static method SortBySize(bins: map<U32, set<Pid>>) returns (groups: seq<U32>)
      ensures Ranked(groups, bins) && forall v :: v in bins <==> v in groups
    {
      groups := [];
      var todo := bins.Keys;
      while todo != {}
        invariant todo <= bins.Keys && Ranked(groups, bins)
        invariant forall v :: v in bins <==> v in groups || v in todo
        invariant forall v :: v in groups ==> v !in todo
        decreases todo
      {
        var v :| v in todo;
        todo := todo - {v};
        assert v !in groups;
        hide Ranked;
        var k := 0;
        while k < |groups| && |bins[groups[k]]| >= |bins[v]|
          invariant 0 <= k <= |groups|
          invariant forall i :: 0 <= i < k ==> |bins[groups[i]]| >= |bins[v]|
        {
          k := k + 1;
        }
        RankedWith(groups, bins, v, k);
        groups := groups[..k] + [v] + groups[k..];
      }
    }
  }

  lemma HeadsListed(order: seq<Pid>, players: Players)
    requires Lists(order, players) && AllPending(players)
    ensures Heads(players) != map[] && Heads(players).Keys == players.Keys
            && forall p :: p in Heads(players) ==> p in order
  {
    var p :| p in players;
    assert p in Heads(players);
  }

  lemma FewerListed(order: seq<Pid>, players: Players, fewer: Players)
    requires Lists(order, players) && fewer.Keys <= players.Keys
    ensures Lists(order, fewer)
  {}

  ghost predicate Ranked(groups: seq<U32>, bins: map<U32, set<Pid>>) {
    && (forall i :: 0 <= i < |groups| ==> groups[i] in bins)
    && (forall i, j :: 0 <= i < j < |groups| ==>
          groups[i] != groups[j] && |bins[groups[i]]| >= |bins[groups[j]]|)
  }

  /** Inserted behind all that are as large and before one that is not, a group is in its place. */
  lemma RankedWith(groups: seq<U32>, bins: map<U32, set<Pid>>, v: U32, k: nat)
    requires Ranked(groups, bins) && v in bins && v !in groups && k <= |groups|
    requires forall i :: 0 <= i < k ==> |bins[groups[i]]| >= |bins[v]|
    requires k < |groups| ==> |bins[groups[k]]| < |bins[v]|
    ensures Ranked(groups[..k] + [v] + groups[k..], bins)
    ensures forall u :: u in groups[..k] + [v] + groups[k..] <==> u in groups || u == v
  {
    assert groups == groups[..k] + groups[k..];
  }

  lemma Rivalled(heads: map<Pid, U32>, v: U32, w: U32)
    requires w in heads.Values && w != v && |Group(heads, w)| >= |Group(heads, v)|
    ensures !Largest(heads, v)
  {}

  /** Neither of two equally large leaders is the largest, and nothing else is as large. */
  lemma TiedDropsAll(bins: map<U32, set<Pid>>, groups: seq<U32>, heads: map<Pid, U32>)
    requires Ranked(groups, bins) && |groups| > 1 && bins.Keys == heads.Values
    requires forall v :: v in bins <==> v in groups
    requires forall v :: v in bins ==> bins[v] == Group(heads, v)
    requires |bins[groups[0]]| == |bins[groups[1]]|
    ensures Victims(heads) == heads.Keys
  {
    forall v ensures !Largest(heads, v) {
      if v in heads.Values {
        assert v in bins;
        var k :| 0 <= k < |groups| && groups[k] == v;
        var w := if k == 0 then groups[1] else groups[0];
        assert w in bins;
        hide Group, Largest;
        Rivalled(heads, v, w);
      }
    }
  }

  /** Without a tie the first group stays and every other goes. */
  lemma RestIsDropped(bins: map<U32, set<Pid>>, groups: seq<U32>, heads: map<Pid, U32>)
    requires Ranked(groups, bins) && groups != [] && bins.Keys == heads.Values
    requires forall v :: v in bins <==> v in groups
    requires forall v :: v in bins ==> bins[v] == Group(heads, v)
    requires |groups| > 1 ==> |bins[groups[0]]| != |bins[groups[1]]|
    ensures Victims(heads) == set q | q in heads && heads[q] in groups[1..]
  {
    FirstIsLargest(bins, groups, heads);
    forall v | Largest(heads, v) ensures v == groups[0] { BeatRuns.LargestIsUnique(heads, v, groups[0]); }
    hide Largest;
    assert Victims(heads) == heads.Keys - Group(heads, groups[0]);
    assert groups == [groups[0]] + groups[1..];
    assert groups[0] !in groups[1..];
    forall q | q in heads ensures heads[q] in groups { assert heads[q] in bins; }
  }

  lemma FirstIsLargest(bins: map<U32, set<Pid>>, groups: seq<U32>, heads: map<Pid, U32>)
    requires Ranked(groups, bins) && groups != [] && bins.Keys == heads.Values
    requires forall v :: v in bins <==> v in groups
    requires forall v :: v in bins ==> bins[v] == Group(heads, v)
    requires |groups| > 1 ==> |bins[groups[0]]| != |bins[groups[1]]|
    ensures Largest(heads, groups[0])
  {
    forall w | w in heads.Values && w != groups[0] ensures |Group(heads, w)| < |Group(heads, groups[0])| {
      assert w in bins;
      var k :| 0 <= k < |groups| && groups[k] == w;
    }
  }

  // ---- sending in parts ----

  lemma GivenTwice(p: Player, a: seq<Msg>, b: seq<Msg>)
    ensures Given(Given(p, a), b) == Given(p, a + b)
  {
    assert p.stream + Tagged(a, p.gproxy) + Tagged(b, p.gproxy) == p.stream + Tagged(a + b, p.gproxy);
  }

  lemma GiveEachTwice(players: Players, a: seq<Msg>, b: seq<Msg>, c: seq<Msg>, d: seq<Msg>)
    ensures GiveEach(GiveEach(players, a, b), c, d) == GiveEach(players, a + c, b + d)
  {
    forall p | p in players
      ensures GiveEach(GiveEach(players, a, b), c, d)[p] == GiveEach(players, a + c, b + d)[p]
    {
      if players[p].gproxy { GivenTwice(players[p], b, d); } else { GivenTwice(players[p], a, c); }
    }
  }

  lemma NothingGiven(players: Players)
    ensures players == GiveEach(players, [], [])
  {
    forall p | p in players ensures GiveEach(players, [], [])[p] == players[p] {
      assert players[p].stream + [] == players[p].stream;
    }
  }
}
