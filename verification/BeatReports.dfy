/** What a player's checksums do: nothing but a report of the player's own counts as one. */
module BeatReports {
  import opened Bytes
  import opened Batching
  import opened Beat
  import opened BeatRuns
  import opened BeatLag

  /** What a player has sent, and how far that has taken the player's game. */
  function Progress(p: Player): (nat, seq<U32>) {
    (p.syncCounter, p.heard)
  }

  ghost predicate SameProgress(g: Game, h: Game) {
    h.players.Keys <= g.players.Keys && forall p :: p in h.players ==> Progress(h.players[p]) == Progress(g.players[p])
  }

  lemma ProgressTwice(g: Game, h: Game, k: Game)
    requires SameProgress(g, h) && SameProgress(h, k)
    ensures SameProgress(g, k)
  {
    forall p | p in k.players ensures Progress(k.players[p]) == Progress(g.players[p]) {
      assert Progress(k.players[p]) == Progress(h.players[p]) == Progress(g.players[p]);
    }
  }

  lemma CountersProgress(g: Game, h: Game)
    requires SameCounters(g, h)
    ensures SameProgress(g, h)
  {
    forall p | p in h.players ensures Progress(h.players[p]) == Progress(g.players[p]) {
      assert Counters(h.players[p]) == Counters(g.players[p]);
    }
  }

  lemma ApartProgress(g: Game, h: Game)
    requires h.players.Keys <= g.players.Keys
             && forall p :: p in h.players ==> Apart(h.players[p]) == Apart(g.players[p])
    ensures SameProgress(g, h)
  {
    forall p | p in h.players ensures Progress(h.players[p]) == Progress(g.players[p]) {
      assert Apart(h.players[p]) == Apart(g.players[p]);
    }
  }

  lemma TickProgress(g: Game, c: Config, now: nat, secs: nat, expired: set<Pid>, order: seq<Pid>)
    ensures SameProgress(g, Tick(g, c, now, secs, expired, order))
  {
    hide RemoveEach, KeepScreen, OpenScreen, SendAllActions, SameProgress, SameCounters;
    var h := if c.reconnectEnabled then RemoveEach(g, c, InOrder(order, expired)) else g;
    RemoveEachKeys(g, c, InOrder(order, expired));
    ApartProgress(g, RemoveEach(g, c, InOrder(order, expired)));
    ApartProgress(g, g);
    KeepProgress(h, c, now, secs, order);
    OpenCounters(h, c, now, secs);
    CountersProgress(h, OpenScreen(h, c, now, secs));
    var k := if h.lagging then KeepScreen(h, c, now, secs, order) else OpenScreen(h, c, now, secs);
    ProgressTwice(g, h, k);
    BeatCounters(k, c);
    CountersProgress(k, SendAllActions(k, c));
    ProgressTwice(g, k, SendAllActions(k, c));
  }

  lemma KeepProgress(g: Game, c: Config, now: nat, secs: nat, order: seq<Pid>)
    ensures SameProgress(g, KeepScreen(g, c, now, secs, order))
  {
    hide Waited, Cleared, CloseOrReset, SameProgress, SameCounters;
    var h := Waited(g, c, secs, order);
    var k := Cleared(h, c, now, order);
    WaitedCounters(g, c, secs, order);
    CountersProgress(g, h);
    ClearedCounters(h, c, now, order);
    CountersProgress(h, k);
    ClosedCounters(k, c, now, order);
    CountersProgress(k, CloseOrReset(k, c, now, order));
    ProgressTwice(g, h, k);
    ProgressTwice(g, k, CloseOrReset(k, c, now, order));
  }

  lemma {:induction false} CheckProgress(g: Game, c: Config, order: seq<Pid>)
    requires Lists(order, g.players)
    ensures SameProgress(g, CheckDesync(g, c, order))
    decreases Backlog(g.players, order)
  {
    hide SameProgress, Victims;
    if AllPending(g.players) {
      ComparedShrinks(g, c, order);
      ComparedFrame(g, c, order);
      PoppedProgress(g);
      var h := g.(players := Popped(g.players), turn := g.turn + 1);
      var k := Compared(g, c, order);
      hide Compared, Popped;
      ApartProgress(h, k);
      ProgressTwice(g, h, k);
      CheckProgress(k, c, order);
      ProgressTwice(g, k, CheckDesync(k, c, order));
    } else {
      ApartProgress(g, g);
    }
  }

  lemma PoppedProgress(g: Game)
    requires AllPending(g.players)
    ensures SameProgress(g, g.(players := Popped(g.players), turn := g.turn + 1))
  {}

  /** An event takes a player's game one beat on, with the checksum reported, if it is a report of that player's,
      and leaves it where it is otherwise. */
  lemma OnlyReportsCount(g: Game, c: Config, ev: Event, p: Pid)
    requires p in g.players && p in Step(g, c, ev).players
    ensures
      var was, now := g.players[p], Step(g, c, ev).players[p];
      if ev.KeepAlive? && ev.pid == p && Lists(ev.order, g.players) then
        now.syncCounter == was.syncCounter + 1 && now.heard == was.heard + [ev.checksum]
      else now.syncCounter == was.syncCounter && now.heard == was.heard
  {
    hide Tick, CheckDesync, StopLaggers, RemovePlayer;
    match ev
    case KeepAlive(pid, checksum, order) => ReportCounts(g, c, pid, checksum, order, p);
    case GameTick(now, secs, expired, order) =>
      TickProgress(g, c, now, secs, expired, order);
      assert Lists(order, g.players) ==> Progress(Step(g, c, ev).players[p]) == Progress(g.players[p]);
    case Depart(pid) =>
      RemoveKeys(g, c, pid);
      ApartProgress(g, RemovePlayer(g, c, pid));
      assert Progress(Step(g, c, ev).players[p]) == Progress(g.players[p]);
    case DropLaggers(order) =>
      StopFrame(g, c, order);
      ApartProgress(g, StopLaggers(g, c, order));
      if Step(g, c, ev) != g { assert Progress(StopLaggers(g, c, order).players[p]) == Progress(g.players[p]); }
    case _ =>
  }

  lemma ReportCounts(g: Game, c: Config, pid: Pid, checksum: U32, order: seq<Pid>, p: Pid)
    requires p in g.players && p in Step(g, c, KeepAlive(pid, checksum, order)).players
    ensures
      var was, now := g.players[p], Step(g, c, KeepAlive(pid, checksum, order)).players[p];
      if pid == p && Lists(order, g.players) then
        now.syncCounter == was.syncCounter + 1 && now.heard == was.heard + [checksum]
      else now.syncCounter == was.syncCounter && now.heard == was.heard
  {
    hide CheckDesync;
    var h := Heard(g, pid, checksum);
    if pid in g.players && Lists(order, h.players) {
      SameLists(order, g.players, h.players);
      CheckProgress(h, c, order);
      assert Progress(CheckDesync(h, c, order).players[p]) == Progress(h.players[p]);
    } else if pid in g.players {
      SameLists(order, h.players, g.players);
    }
  }

  lemma SameLists(order: seq<Pid>, a: Players, b: Players)
    requires a.Keys == b.Keys
    ensures Lists(order, a) <==> Lists(order, b)
  {
    forall p: Pid ensures p in a <==> p in b { assert p in a.Keys <==> p in b.Keys; }
  }

  /** A player who announces GProxy++ is behind it from then on, where reconnecting is on; nobody else changes. */
  lemma InitPutsBehindGproxy(g: Game, c: Config, pid: Pid)
    ensures
      var h := Step(g, c, GpsInit(pid));
      && h.players.Keys == g.players.Keys
      && forall p :: p in g.players ==>
           h.players[p] == g.players[p].(gproxy := g.players[p].gproxy || (p == pid && c.reconnectEnabled))
  {}
}
