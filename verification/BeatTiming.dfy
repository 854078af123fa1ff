/**
 The lag screen in milliseconds and seconds: how far behind a player may be, who is put on the screen and
 who comes off it, and who is dropped after how long.
 */
module BeatTiming {
  import opened Bytes
  import opened Batching
  import opened Beat
  import opened BeatRuns
  import opened BeatStreams
  import opened BeatLag

  // ---- the limits ----

  /** The limit is the window in whole beats, but at least one. */
  lemma LimitIsTheWindow(c: Config)
    requires c.latency > 0
    ensures var n := SyncLimit(c);
            && n >= 1
            && if c.window >= c.latency then n * c.latency <= c.window < (n + 1) * c.latency else n == 1
  {
    if c.window < c.latency { SmallQuotient(c.window, c.latency); } else { Quotient(c.window, c.latency); }
  }

  lemma SmallQuotient(x: nat, y: nat)
    requires x < y
    ensures x / y == 0
  {}

  lemma Quotient(x: nat, y: nat)
    requires 0 < y <= x
    ensures x / y >= 1 && x / y * y <= x < (x / y + 1) * y
  {}

  /** So many beats are more than the window, and more than one. */
  predicate TooFar(c: Config, beats: int) {
    beats > 1 && (c.latency == 0 || beats * c.latency > c.window)
  }

  /** So few beats are that twice one more still fit the window. */
  predicate CaughtUp(c: Config, beats: int) {
    beats <= 0 || (c.latency > 0 && 2 * (beats + 1) * c.latency <= c.window)
  }

  lemma Fits(x: nat, y: nat, n: nat)
    requires y > 0
    ensures n <= x / y <==> n * y <= x
  {
    if n <= x / y { MulUp(n, x / y, y); }
    if n * y <= x && n > x / y { MulUp(x / y + 1, n, y); }
  }

  lemma MulUp(a: nat, b: nat, y: nat)
    requires a <= b
    ensures a * y <= b * y
  {}

  lemma TooFarIff(c: Config, beats: nat)
    ensures beats > SyncLimit(c) <==> TooFar(c, beats)
  {
    if c.latency > 0 { Fits(c.window, c.latency, beats); }
  }

  lemma CaughtUpIff(c: Config, beats: nat)
    ensures beats < RecoverLimit(c) <==> CaughtUp(c, beats)
  {
    if c.latency > 0 { Fits(c.window, c.latency, 2 * (beats + 1)); }
  }

  /** How many beats a player's game is behind; negative for one that is ahead. */
  function BeatsBehind(g: Game, p: Player): int {
    g.syncCounter - p.syncCounter
  }

  /** Over every run with fixed settings: one beat less than a player is behind is no more than the window,
      or no more than one; and while the screen is up whoever is not on it is not too far behind. */
  lemma NobodyFallsFurtherBehind(g: Game, c: Config, evs: seq<Event>)
    requires JustLoaded(g)
    ensures
      var h := Run(g, c, evs);
      forall p :: p in h.players ==>
        && !TooFar(c, BeatsBehind(h, h.players[p]) - 1)
        && (h.lagging && !h.players[p].lagging ==> !TooFar(c, BeatsBehind(h, h.players[p])))
  {
    hide SyncLimit;
    NobodyPassesTheLimit(g, c, evs);
    var h := Run(g, c, evs);
    hide Run;
    forall p | p in h.players
      ensures !TooFar(c, BeatsBehind(h, h.players[p]) - 1)
      ensures h.lagging && !h.players[p].lagging ==> !TooFar(c, BeatsBehind(h, h.players[p]))
    {
      var d := Behind(h, h.players[p]);
      TooFarIff(c, d);
      if d > 0 { TooFarIff(c, d - 1); }
    }
  }

  // ---- what a tick decides ----

  /** What a tick reads of a player beside the lagging flag. */
  function Record(p: Player): (nat, nat, bool) {
    (p.syncCounter, p.startedLagging, p.gproxy)
  }

  /** The players of h are players of g, as far behind as they were. */
  ghost predicate SameRecords(g: Game, h: Game) {
    && h.syncCounter == g.syncCounter && h.players.Keys <= g.players.Keys
    && forall p :: p in h.players ==> Record(h.players[p]) == Record(g.players[p])
  }

  lemma RemovedExpired(g: Game, c: Config, pids: seq<Pid>)
    ensures
      var h := RemoveEach(g, c, pids);
      && SameRecords(g, h) && h.players.Keys == g.players.Keys - (set p | p in pids)
      && h.lagging == g.lagging && h.startedLaggingTime == g.startedLaggingTime && h.lastReset == g.lastReset
      && forall p :: p in h.players ==> h.players[p].lagging == g.players[p].lagging
  {
    hide RemoveEach;
    RemoveEachKeys(g, c, pids);
    var h := RemoveEach(g, c, pids);
    forall p | p in h.players
      ensures Record(h.players[p]) == Record(g.players[p]) && h.players[p].lagging == g.players[p].lagging
    {
      assert Apart(h.players[p]) == Apart(g.players[p]);
    }
  }

  /** The seconds everyone on the screen is given, and whether they are over. */
  predicate WaitIsOver(g: Game, c: Config, secs: nat) {
    secs >= g.startedLaggingTime
    && secs - g.startedLaggingTime >= 60 * (if exists p :: p in g.players && g.players[p].gproxy
        then c.emptyActions + 1 else 1)
  }

  lemma WaitIsOverIff(g: Game, c: Config, secs: nat)
    ensures LagScreenExpired(g.startedLaggingTime, secs, UsingGproxy(g.players), c.emptyActions)
            <==> WaitIsOver(g, c, secs)
  {}

  lemma WaitedDrops(g: Game, c: Config, secs: nat, order: seq<Pid>)
    requires Lists(order, g.players) && g.lagging
    ensures
      var h := Waited(g, c, secs, order);
      && SameRecords(g, h) && h.lastReset == g.lastReset && h.startedLaggingTime == g.startedLaggingTime
      && (forall p :: p in g.players ==> (p in h.players <==> !(g.players[p].lagging && WaitIsOver(g, c, secs))))
      && (forall p :: p in h.players ==> h.players[p].lagging == g.players[p].lagging)
      && (h.lagging || Laggers(h.players) == {})
  {
    hide RemoveEach, LagScreenExpired, WaitIsOver;
    WaitIsOverIff(g, c, secs);
    var late := Laggers(g.players);
    RemovedExpired(g, c, InOrder(order, late));
    InOrderMembers(order, late);
    hide InOrder;
    assert forall p :: p in g.players && g.players[p].lagging ==> p in late;
  }

  lemma ClearedComesOff(g: Game, c: Config, now: nat, order: seq<Pid>)
    requires Lists(order, g.players)
    ensures
      var h := Cleared(g, c, now, order);
      && SameRecords(g, h) && h.players.Keys == g.players.Keys && h.lagging == g.lagging
      && h.lastReset == g.lastReset && h.startedLaggingTime == g.startedLaggingTime
      && forall p :: p in g.players ==>
           (h.players[p].lagging <==> g.players[p].lagging && !CaughtUp(c, BeatsBehind(g, g.players[p])))
  {
    hide ClearEach, RecoverLimit, CaughtUp;
    var rec := Recovered(g, c);
    InOrderMembers(order, rec);
    ClearEachFrame(g, InOrder(order, rec), now);
    ClearEachRecords(g, InOrder(order, rec), now);
    forall p | p in g.players
      ensures Behind(g, g.players[p]) < RecoverLimit(c) <==> CaughtUp(c, BeatsBehind(g, g.players[p]))
    {
      CaughtUpIff(c, Behind(g, g.players[p]));
      AheadIsCaughtUp(c, BeatsBehind(g, g.players[p]));
    }
  }

  lemma AheadIsCaughtUp(c: Config, beats: int)
    ensures beats <= 0 ==> CaughtUp(c, beats) && CaughtUp(c, 0)
  {}

  lemma {:induction false} ClearEachRecords(g: Game, pids: seq<Pid>, now: nat)
    ensures var h := ClearEach(g, pids, now);
            SameRecords(g, h) && h.lastReset == g.lastReset && h.startedLaggingTime == g.startedLaggingTime
  {
    hide ClearOne;
    if pids != [] {
      ClearEachRecords(g, pids[..|pids| - 1], now);
      ClearOneRecords(ClearEach(g, pids[..|pids| - 1], now), pids[|pids| - 1], now);
    }
  }

  lemma ClearOneRecords(g: Game, pid: Pid, now: nat)
    ensures var h := ClearOne(g, pid, now);
            SameRecords(g, h) && h.lastReset == g.lastReset && h.startedLaggingTime == g.startedLaggingTime
  {}

  /** The screen closes with nobody on it; otherwise it is shown again after sixty seconds. */
  lemma ClosedOrShown(g: Game, c: Config, now: nat, order: seq<Pid>)
    requires g.lagging || Laggers(g.players) == {}
    ensures
      var h := CloseOrReset(g, c, now, order);
      && SameRecords(g, h) && h.players.Keys == g.players.Keys && h.startedLaggingTime == g.startedLaggingTime
      && (h.lagging <==> Laggers(h.players) != {})
      && (forall p :: p in g.players ==> h.players[p].lagging == g.players[p].lagging)
      && h.lastReset == (if Laggers(h.players) != {} && now - g.lastReset >= 60_000 then now else g.lastReset)
  {
    hide ResetMsgs, Tagged;
    var h := CloseOrReset(g, c, now, order);
    assert Laggers(h.players) == Laggers(g.players);
  }

  lemma OpenedFor(g: Game, c: Config, now: nat, secs: nat)
    requires !g.lagging && Laggers(g.players) == {}
    ensures
      var h := OpenScreen(g, c, now, secs);
      && h.syncCounter == g.syncCounter && h.players.Keys == g.players.Keys
      && (h.lagging <==> Laggers(h.players) != {})
      && (forall p :: p in g.players ==>
            && h.players[p].syncCounter == g.players[p].syncCounter && h.players[p].gproxy == g.players[p].gproxy
            && (h.players[p].lagging <==> TooFar(c, BeatsBehind(g, g.players[p])))
            && (h.players[p].lagging ==> h.players[p].startedLagging == now))
      && (h.lagging ==> h.startedLaggingTime == secs && h.lastReset == now)
  {
    hide SyncLimit, Tagged, TooFar;
    var h := OpenScreen(g, c, now, secs);
    forall p | p in g.players
      ensures Behind(g, g.players[p]) > SyncLimit(c) <==> TooFar(c, BeatsBehind(g, g.players[p]))
    {
      TooFarIff(c, Behind(g, g.players[p]));
      AheadIsNotTooFar(c, BeatsBehind(g, g.players[p]));
    }
    forall p | p in g.players ensures !g.players[p].lagging { assert p !in Laggers(g.players); }
    var late := set p | p in g.players && Behind(g, g.players[p]) > SyncLimit(c);
    assert forall p :: p in g.players ==> (p in late <==> Behind(g, g.players[p]) > SyncLimit(c));
    if late != {} {
      var p :| p in late;
      assert p in Laggers(h.players);
    }
  }

  lemma AheadIsNotTooFar(c: Config, beats: int)
    ensures beats <= 0 ==> !TooFar(c, beats) && !TooFar(c, 0)
  {}

  lemma BeatMovesOn(g: Game, c: Config)
    ensures
      var h := SendAllActions(g, c);
      && h.syncCounter == g.syncCounter + 1 && h.players.Keys == g.players.Keys && h.lagging == g.lagging
      && h.startedLaggingTime == g.startedLaggingTime && h.lastReset == g.lastReset
      && forall p :: p in g.players ==>
           Record(h.players[p]) == Record(g.players[p]) && h.players[p].lagging == g.players[p].lagging
  {
    hide Chunks, Tagged, UsingGproxy;
  }

  /** Those a tick removes first: held too long or over their buffer's cap. */
  ghost predicate Expired(c: Config, expired: set<Pid>, p: Pid) {
    c.reconnectEnabled && p in expired
  }

  /** Whether the wait of those on the screen is over, when only players who have not expired are asked whether
      they are behind GProxy++. */
  ghost predicate ScreenWaitIsOver(g: Game, c: Config, secs: nat, expired: set<Pid>) {
    var wait := if exists p :: p in g.players && !Expired(c, expired, p) && g.players[p].gproxy
                then c.emptyActions + 1 else 1;
    secs >= g.startedLaggingTime && secs - g.startedLaggingTime >= 60 * wait
  }

  /** After a tick: who is still there, who is on the screen, and since when. */
  ghost predicate ScreenDecided(g: Game, c: Config, now: nat, secs: nat, expired: set<Pid>, h: Game) {
    && (forall p :: p in h.players ==> p in g.players)
    && (forall p :: p in g.players ==>
          (p in h.players <==>
             !(Expired(c, expired, p)
               || (g.lagging && g.players[p].lagging && ScreenWaitIsOver(g, c, secs, expired)))))
    && (forall p :: p in h.players ==>
          var beats := BeatsBehind(g, g.players[p]);
          && h.players[p].syncCounter == g.players[p].syncCounter
          && (h.players[p].lagging <==>
                if g.lagging then g.players[p].lagging && !CaughtUp(c, beats) else TooFar(c, beats))
          && (h.players[p].lagging ==>
                h.players[p].startedLagging == if g.lagging then g.players[p].startedLagging else now))
    && (h.lagging <==> exists p :: p in h.players && h.players[p].lagging)
    && (h.lagging ==> h.startedLaggingTime == if g.lagging then g.startedLaggingTime else secs)
    && (h.lagging ==> h.lastReset == if g.lagging && now - g.lastReset < 60_000 then g.lastReset else now)
  }

  /** Without laggers there is no one to flag. */
  lemma NoneFlagged(g: Game)
    requires ScreenOk(g) && !g.lagging
    ensures Laggers(g.players) == {}
  {}

  lemma LaggersAre(players: Players)
    ensures Laggers(players) != {} <==> exists p :: p in players && players[p].lagging
  {
    if Laggers(players) != {} {
      var p :| p in Laggers(players);
    }
    if p :| p in players && players[p].lagging { assert p in Laggers(players); }
  }

  lemma WaitOfThoseLeft(g: Game, h: Game, c: Config, secs: nat, expired: set<Pid>)
    requires SameRecords(g, h) && h.startedLaggingTime == g.startedLaggingTime
    requires forall p :: p in g.players ==> (p in h.players <==> !Expired(c, expired, p))
    ensures WaitIsOver(h, c, secs) <==> ScreenWaitIsOver(g, c, secs, expired)
  {
    forall p | p in h.players ensures h.players[p].gproxy == g.players[p].gproxy {
      assert Record(h.players[p]) == Record(g.players[p]);
    }
  }

  lemma FirstRemoved(g: Game, c: Config, expired: set<Pid>, order: seq<Pid>)
    requires Lists(order, g.players)
    ensures
      var h := if c.reconnectEnabled then RemoveEach(g, c, InOrder(order, expired)) else g;
      && SameRecords(g, h) && Lists(order, h.players)
      && h.lagging == g.lagging && h.startedLaggingTime == g.startedLaggingTime && h.lastReset == g.lastReset
      && (forall p :: p in g.players ==> (p in h.players <==> !Expired(c, expired, p)))
      && forall p :: p in h.players ==> h.players[p].lagging == g.players[p].lagging
  {
    hide RemoveEach;
    RemovedExpired(g, c, InOrder(order, expired));
    InOrderMembers(order, expired);
  }

  /** With the screen up: dropped, taken off, closed or shown again. */
  lemma KeptScreen(g: Game, c: Config, now: nat, secs: nat, order: seq<Pid>)
    requires Lists(order, g.players) && g.lagging
    ensures
      var h := KeepScreen(g, c, now, secs, order);
      && SameRecords(g, h) && h.startedLaggingTime == g.startedLaggingTime
      && (forall p :: p in g.players ==> (p in h.players <==> !(g.players[p].lagging && WaitIsOver(g, c, secs))))
      && (forall p :: p in h.players ==>
            (h.players[p].lagging <==> g.players[p].lagging && !CaughtUp(c, BeatsBehind(g, g.players[p]))))
      && (h.lagging <==> Laggers(h.players) != {})
      && (h.lagging ==> h.lastReset == if now - g.lastReset >= 60_000 then now else g.lastReset)
  {
    var w := Waited(g, c, secs, order);
    var k := Cleared(w, c, now, order);
    WaitedDrops(g, c, secs, order);
    FewerListed(order, g.players, w.players);
    ClearedComesOff(w, c, now, order);
    NobodyNew(w, k);
    ClosedOrShown(k, c, now, order);
    RecordsThrice(g, w, k, CloseOrReset(k, c, now, order));
    hide Waited, Cleared, CloseOrReset, WaitIsOver, CaughtUp, Lists;
    forall p | p in w.players ensures BeatsBehind(w, w.players[p]) == BeatsBehind(g, g.players[p]) {
      assert Record(w.players[p]) == Record(g.players[p]);
    }
  }

  lemma NobodyNew(g: Game, h: Game)
    requires forall p :: p in h.players ==> p in g.players && (h.players[p].lagging ==> g.players[p].lagging)
    ensures Laggers(g.players) == {} ==> Laggers(h.players) == {}
  {
    forall p | p in Laggers(h.players) ensures p in Laggers(g.players) {}
  }

  lemma FewerListed(order: seq<Pid>, players: Players, fewer: Players)
    requires Lists(order, players) && fewer.Keys <= players.Keys
    ensures Lists(order, fewer)
  {}

  lemma RecordsThrice(g: Game, h: Game, i: Game, k: Game)
    requires SameRecords(g, h) && SameRecords(h, i) && SameRecords(i, k)
    ensures SameRecords(g, k)
  {
    forall p | p in k.players ensures Record(k.players[p]) == Record(g.players[p]) {
      assert Record(k.players[p]) == Record(i.players[p]) == Record(h.players[p]) == Record(g.players[p]);
    }
  }

  lemma KeptDecides(g: Game, h: Game, k: Game, c: Config, now: nat, secs: nat, expired: set<Pid>)
    requires g.lagging && SameRecords(g, h) && SameRecords(h, k)
    requires h.startedLaggingTime == g.startedLaggingTime == k.startedLaggingTime && h.lastReset == g.lastReset
    requires forall p :: p in g.players ==> (p in h.players <==> !Expired(c, expired, p))
    requires forall p :: p in h.players ==> h.players[p].lagging == g.players[p].lagging
    requires WaitIsOver(h, c, secs) <==> ScreenWaitIsOver(g, c, secs, expired)
    requires forall p :: p in h.players ==> (p in k.players <==> !(h.players[p].lagging && WaitIsOver(h, c, secs)))
    requires forall p :: p in k.players ==>
               (k.players[p].lagging <==> h.players[p].lagging && !CaughtUp(c, BeatsBehind(h, h.players[p])))
    requires k.lagging <==> Laggers(k.players) != {}
    requires k.lagging ==> k.lastReset == if now - h.lastReset >= 60_000 then now else h.lastReset
    ensures ScreenDecided(g, c, now, secs, expired, k)
  {
    hide WaitIsOver, ScreenWaitIsOver, Expired, CaughtUp, TooFar;
    LaggersAre(k.players);
    hide Laggers;
    forall p | p in k.players
      ensures p in g.players && Record(k.players[p]) == Record(g.players[p]) == Record(h.players[p])
    {
      assert Record(k.players[p]) == Record(h.players[p]) == Record(g.players[p]);
    }
  }

  lemma OpenDecides(g: Game, h: Game, k: Game, c: Config, now: nat, secs: nat, expired: set<Pid>)
    requires !g.lagging && SameRecords(g, h) && k.players.Keys == h.players.Keys && k.syncCounter == h.syncCounter
    requires forall p :: p in g.players ==> (p in h.players <==> !Expired(c, expired, p))
    requires k.lagging <==> Laggers(k.players) != {}
    requires forall p :: p in h.players ==>
               && k.players[p].syncCounter == h.players[p].syncCounter
               && (k.players[p].lagging <==> TooFar(c, BeatsBehind(h, h.players[p])))
               && (k.players[p].lagging ==> k.players[p].startedLagging == now)
    requires k.lagging ==> k.startedLaggingTime == secs && k.lastReset == now
    ensures ScreenDecided(g, c, now, secs, expired, k)
  {
    hide ScreenWaitIsOver, Expired, CaughtUp, TooFar;
    LaggersAre(k.players);
    hide Laggers;
    forall p | p in h.players ensures Record(h.players[p]) == Record(g.players[p]) {}
  }

  lemma BeatDecides(g: Game, k: Game, c: Config, now: nat, secs: nat, expired: set<Pid>)
    requires ScreenDecided(g, c, now, secs, expired, k) && k.syncCounter == g.syncCounter
    ensures
      var h := if k.lagging then k else SendAllActions(k, c);
      && ScreenDecided(g, c, now, secs, expired, h)
      && h.syncCounter == if h.lagging then g.syncCounter else g.syncCounter + 1
  {
    hide ScreenWaitIsOver, Expired, CaughtUp, TooFar, SendAllActions;
    BeatMovesOn(k, c);
    var h := SendAllActions(k, c);
    forall p | p in h.players
      ensures h.players[p].syncCounter == k.players[p].syncCounter
      ensures h.players[p].startedLagging == k.players[p].startedLagging
    {
      assert Record(h.players[p]) == Record(k.players[p]);
    }
  }

  /** What a tick decides, in milliseconds and seconds. With the screen down it comes up, for exactly those who
      are too far behind; with the screen up it drops those on it after the wait, takes off those who have caught
      up, and closes with the last. A beat goes out if and only if nobody is then on the screen. */
  lemma TickDecides(g: Game, c: Config, now: nat, secs: nat, expired: set<Pid>, order: seq<Pid>)
    requires ScreenOk(g) && Lists(order, g.players)
    ensures
      var h := Tick(g, c, now, secs, expired, order);
      && ScreenDecided(g, c, now, secs, expired, h)
      && h.syncCounter == if h.lagging then g.syncCounter else g.syncCounter + 1
  {
    hide KeepScreen, OpenScreen, RemoveEach, SendAllActions, ScreenDecided, WaitIsOver, ScreenWaitIsOver, Lists, TooFar,
         CaughtUp;
    var h := if c.reconnectEnabled then RemoveEach(g, c, InOrder(order, expired)) else g;
    FirstRemoved(g, c, expired, order);
    WaitOfThoseLeft(g, h, c, secs, expired);
    if g.lagging {
      KeptScreen(h, c, now, secs, order);
      KeptDecides(g, h, KeepScreen(h, c, now, secs, order), c, now, secs, expired);
    } else {
      NoneFlagged(g);
      NobodyNew(g, h);
      OpenedFor(h, c, now, secs);
      OpenDecides(g, h, OpenScreen(h, c, now, secs), c, now, secs, expired);
    }
    var k := if h.lagging then KeepScreen(h, c, now, secs, order) else OpenScreen(h, c, now, secs);
    BeatDecides(g, k, c, now, secs, expired);
  }

  // ---- what those who come off the screen are said to have missed ----

  /** The packets handed to a player between two moments. */
  function Since(p: Player, q: Player): seq<Msg> {
    if |p.stream| <= |q.stream| then Msgs(q.stream[|p.stream|..]) else []
  }

  /** Nobody new, and streams only grow. */
  ghost predicate StreamsGrow(g: Game, h: Game) {
    h.players.Keys <= g.players.Keys && forall p :: p in h.players ==> g.players[p].stream <= h.players[p].stream
  }

  ghost predicate ToldToAll(g: Game, h: Game, m: Msg) {
    forall p :: p in h.players && p in g.players ==> m in Since(g.players[p], h.players[p])
  }

  lemma GrowTwice(g: Game, h: Game, k: Game)
    requires StreamsGrow(g, h) && StreamsGrow(h, k)
    ensures StreamsGrow(g, k)
    ensures forall m :: ToldToAll(g, h, m) ==> ToldToAll(g, k, m)
    ensures forall m :: ToldToAll(h, k, m) ==> ToldToAll(g, k, m)
  {
    forall m, p | p in k.players && (m in Since(g.players[p], h.players[p]) || m in Since(h.players[p], k.players[p]))
      ensures m in Since(g.players[p], k.players[p])
    {
      var a, b, d := g.players[p].stream, h.players[p].stream, k.players[p].stream;
      assert d[|a|..] == b[|a|..] + d[|b|..];
      assert Since(g.players[p], k.players[p]) == Since(g.players[p], h.players[p]) + Since(h.players[p], k.players[p]);
    }
  }

  lemma GiveEachGrows(g: Game, h: Game, flagged: Players, direct: seq<Msg>, via: seq<Msg>)
    requires flagged.Keys <= g.players.Keys && h.players == GiveEach(flagged, direct, via)
    requires forall p :: p in flagged ==> flagged[p].stream == g.players[p].stream
    ensures StreamsGrow(g, h)
    ensures forall m :: m in direct && m in via ==> ToldToAll(g, h, m)
  {
    forall p | p in h.players
      ensures Since(g.players[p], h.players[p]) == if flagged[p].gproxy then via else direct
    {
      var msgs := if flagged[p].gproxy then via else direct;
      assert h.players[p].stream == g.players[p].stream + Tagged(msgs, flagged[p].gproxy);
    }
  }

  lemma ClearOneTells(g: Game, pid: Pid, now: nat)
    ensures StreamsGrow(g, ClearOne(g, pid, now))
    ensures pid in g.players ==>
              ToldToAll(g, ClearOne(g, pid, now), StopLag(pid, (now - g.players[pid].startedLagging) % U32_SIZE))
  {
    if pid in g.players {
      var p := g.players[pid];
      var m := StopLag(pid, (now - p.startedLagging) % U32_SIZE);
      GiveEachGrows(g, ClearOne(g, pid, now), g.players[pid := p.(lagging := false)], [m], [m]);
      hide GiveEach;
    }
  }

  lemma {:induction false} ClearEachTells(g: Game, pids: seq<Pid>, now: nat)
    ensures StreamsGrow(g, ClearEach(g, pids, now))
    ensures forall p :: p in pids && p in g.players ==>
              ToldToAll(g, ClearEach(g, pids, now), StopLag(p, (now - g.players[p].startedLagging) % U32_SIZE))
  {
    hide ClearOne, ToldToAll;
    if pids != [] {
      var k := |pids| - 1;
      var h := ClearEach(g, pids[..k], now);
      ClearEachTells(g, pids[..k], now);
      ClearEachRecords(g, pids[..k], now);
      ClearEachFrame(g, pids[..k], now);
      ClearOneTells(h, pids[k], now);
      GrowTwice(g, h, ClearEach(g, pids, now));
      assert pids == pids[..k] + [pids[k]];
      forall p | p in h.players ensures h.players[p].startedLagging == g.players[p].startedLagging {
        assert Record(h.players[p]) == Record(g.players[p]);
      }
    }
  }

  /** Whoever comes off the screen: everyone is told, with the milliseconds since it came up for that player. */
  lemma RecoveryIsTold(g: Game, c: Config, now: nat, order: seq<Pid>, p: Pid)
    requires Lists(order, g.players) && p in g.players && g.players[p].lagging
    requires p in Cleared(g, c, now, order).players && !Cleared(g, c, now, order).players[p].lagging
    ensures ToldToAll(g, Cleared(g, c, now, order), StopLag(p, (now - g.players[p].startedLagging) % U32_SIZE))
  {
    hide ClearEach, RecoverLimit, ToldToAll;
    var rec := Recovered(g, c);
    InOrderMembers(order, rec);
    ClearEachFrame(g, InOrder(order, rec), now);
    ClearEachTells(g, InOrder(order, rec), now);
  }

  /** When the screen comes up everyone is told who is on it, for no time so far. */
  lemma OpeningIsTold(g: Game, c: Config, now: nat, secs: nat)
    requires exists p :: p in g.players && TooFar(c, BeatsBehind(g, g.players[p]))
    ensures ToldToAll(g, OpenScreen(g, c, now, secs),
                      StartLag(map p | p in g.players && TooFar(c, BeatsBehind(g, g.players[p])) :: 0))
  {
    hide SyncLimit, TooFar, ToldToAll, GiveEach;
    forall p | p in g.players
      ensures Behind(g, g.players[p]) > SyncLimit(c) <==> TooFar(c, BeatsBehind(g, g.players[p]))
    {
      TooFarIff(c, Behind(g, g.players[p]));
      AheadIsNotTooFar(c, BeatsBehind(g, g.players[p]));
    }
    var late := set p | p in g.players && Behind(g, g.players[p]) > SyncLimit(c);
    var flagged := map p | p in g.players ::
      if p in late then g.players[p].(lagging := true, startedLagging := now) else g.players[p];
    var m := StartLag(map p | p in late :: 0);
    assert m == StartLag(map p | p in g.players && TooFar(c, BeatsBehind(g, g.players[p])) :: 0);
    var q :| q in g.players && TooFar(c, BeatsBehind(g, g.players[q]));
    assert q in late;
    GiveEachGrows(g, OpenScreen(g, c, now, secs), flagged, [m], [m]);
  }

  /** What showing the screen again takes: each lagger off it, an action without an interval, and the laggers back,
      with the milliseconds each has been on it. */
  ghost predicate ShownAgain(g: Game, now: nat, msgs: seq<Msg>) {
    && |msgs| >= 2 && msgs[|msgs| - 2] == Actions([], 0)
    && msgs[|msgs| - 1] == StartLag(map p | p in g.players && g.players[p].lagging :: Waited32(g, now, p))
    && forall p :: p in g.players && g.players[p].lagging ==> StopLag(p, Waited32(g, now, p)) in msgs
  }

  /** Milliseconds on the screen, in 32 bits. */
  function Waited32(g: Game, now: nat, p: Pid): nat
    requires p in g.players
  {
    (now - g.players[p].startedLagging) % U32_SIZE
  }

  lemma ResetMsgsShow(g: Game, order: seq<Pid>, empties: nat, now: nat)
    requires Lists(order, g.players)
    ensures ShownAgain(g, now, ResetMsgs(g.players, order, empties, now))
  {
    var late := Laggers(g.players);
    var pids := InOrder(order, late);
    InOrderMembers(order, late);
    var msgs := ResetMsgs(g.players, order, empties, now);
    forall p | p in g.players && g.players[p].lagging ensures StopLag(p, Waited32(g, now, p)) in msgs {
      assert p in late && p in pids;
      var i :| 0 <= i < |pids| && pids[i] == p;
      assert msgs[i] == StopMsgs(g.players, pids, now)[i] == StopLag(p, Waited32(g, now, p));
    }
    assert (map p | p in late && p in g.players :: LagMs(g.players[p], now))
           == map p | p in g.players && g.players[p].lagging :: Waited32(g, now, p);
  }

  /** Sixty seconds after it was last shown a screen that stays up is shown again, to everyone. */
  lemma ScreenIsShownAgain(g: Game, c: Config, now: nat, order: seq<Pid>, p: Pid)
    requires Lists(order, g.players) && p in g.players && Laggers(g.players) != {} && now - g.lastReset >= 60_000
    ensures ShownAgain(g, now, Since(g.players[p], CloseOrReset(g, c, now, order).players[p]))
  {
    hide ResetMsgs, ShownAgain;
    var owed := if UsingGproxy(g.players) then c.emptyActions else 0;
    ResetMsgsShow(g, order, owed, now);
    ResetMsgsShow(g, order, 0, now);
    var msgs := ResetMsgs(g.players, order, if g.players[p].gproxy then 0 else owed, now);
    assert CloseOrReset(g, c, now, order).players[p].stream == g.players[p].stream + Tagged(msgs, g.players[p].gproxy);
    assert Since(g.players[p], CloseOrReset(g, c, now, order).players[p]) == msgs;
  }

  /** Dropping the laggers drops exactly those on the screen, and closes it. */
  lemma DroppingDrops(g: Game, c: Config, order: seq<Pid>)
    requires Lists(order, g.players) && Laggers(g.players) != {}
    ensures
      var h := StopLaggers(g, c, order);
      !h.lagging && forall p :: p in h.players <==> p in g.players && !g.players[p].lagging
  {
    hide RemoveEach;
    var late := Laggers(g.players);
    RemovedExpired(g, c, InOrder(order, late));
    InOrderMembers(order, late);
    var h := RemoveEach(g, c, InOrder(order, late));
    assert forall p :: p in g.players && g.players[p].lagging ==> p in late;
    hide InOrder;
    assert Laggers(h.players) == {};
  }
}
