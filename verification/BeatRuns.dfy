/** The lockstep comparison of checksums, and whole runs of a game in progress. */
module BeatRuns {
  import opened Bytes
  import opened Batching
  import opened Beat

  // ---- how departures shape the table ----

  lemma RemoveKeys(g: Game, c: Config, pid: Pid)
    ensures SameButStreams(g, RemovePlayer(g, c, pid))
    ensures RemovePlayer(g, c, pid).players.Keys == g.players.Keys - {pid}
  {}

  /** Departures take players away, and touch nothing of those who stay but their streams. */
  ghost predicate SameButStreams(g: Game, h: Game) {
    && h.turn == g.turn && h.syncCounter == g.syncCounter && h.lagging == g.lagging
    && h.lastReset == g.lastReset && h.startedLaggingTime == g.startedLaggingTime
    && h.players.Keys <= g.players.Keys
    && forall p :: p in h.players ==> Apart(h.players[p]) == Apart(g.players[p])
  }

  lemma {:induction false} RemoveEachKeys(g: Game, c: Config, pids: seq<Pid>)
    ensures RemoveEach(g, c, pids).players.Keys == g.players.Keys - (set p | p in pids)
    ensures SameButStreams(g, RemoveEach(g, c, pids))
  {
    if pids != [] {
      var n := |pids| - 1;
      RemoveEachKeys(g, c, pids[..n]);
      RemoveKeys(RemoveEach(g, c, pids[..n]), c, pids[n]);
      hide RemovePlayer;
      assert (set p | p in pids) == (set p | p in pids[..n]) + {pids[n]};
    }
  }

  /** Everything about a player but the packets they were handed. */
  function Apart(p: Player): Player { p.(stream := []) }

  lemma {:induction false} InOrderMembers(order: seq<Pid>, chosen: set<Pid>)
    ensures forall p :: p in InOrder(order, chosen) <==> p in order && p in chosen
  {
    if order != [] {
      InOrderMembers(order[..|order| - 1], chosen);
      assert order == order[..|order| - 1] + [order[|order| - 1]];
    }
  }

  lemma {:induction false} BacklogSame(a: Players, b: Players, order: seq<Pid>)
    requires b.Keys <= a.Keys
    requires forall p :: p in b ==> b[p].checksums == a[p].checksums
    ensures Backlog(b, order) <= Backlog(a, order)
  {
    if order != [] { BacklogSame(a, b, order[..|order| - 1]); }
  }

  lemma {:induction false} BacklogPops(players: Players, order: seq<Pid>)
    requires AllPending(players)
    ensures Backlog(Popped(players), order) <= Backlog(players, order)
    ensures (exists p :: p in players && p in order) ==> Backlog(Popped(players), order) < Backlog(players, order)
  {
    if order != [] {
      var n := |order| - 1;
      BacklogPops(players, order[..n]);
      assert order == order[..n] + [order[n]];
    }
  }

  // ---- the vote ----

  /** One comparison: everybody agrees, or the vote removes its victims. */
  ghost function Compared(g: Game, c: Config, order: seq<Pid>): Game
    requires AllPending(g.players)
  {
    var heads := Heads(g.players);
    var h := g.(players := Popped(g.players), turn := g.turn + 1);
    if |heads.Values| == 1 then h else RemoveEach(h, c, InOrder(order, Victims(heads)))
  }

  lemma ComparedFrame(g: Game, c: Config, order: seq<Pid>)
    requires AllPending(g.players)
    ensures SameButStreams(g.(players := Popped(g.players), turn := g.turn + 1), Compared(g, c, order))
    ensures Compared(g, c, order).players.Keys
         == if |Heads(g.players).Values| == 1 then g.players.Keys
            else g.players.Keys - (set p | p in order && p in Victims(Heads(g.players)))
  {
    hide RemoveEach, Victims, Popped, SameButStreams;
    var h := g.(players := Popped(g.players), turn := g.turn + 1);
    PoppedKeys(g.players);
    SameAsItself(h);
    RemoveInOrder(h, c, order, Victims(Heads(g.players)));
  }

  lemma PoppedKeys(players: Players)
    requires AllPending(players)
    ensures Popped(players).Keys == players.Keys
  {}

  lemma SameAsItself(g: Game)
    ensures SameButStreams(g, g)
  {}

  lemma RemoveInOrder(g: Game, c: Config, order: seq<Pid>, chosen: set<Pid>)
    ensures SameButStreams(g, RemoveEach(g, c, InOrder(order, chosen)))
    ensures RemoveEach(g, c, InOrder(order, chosen)).players.Keys
         == g.players.Keys - (set p | p in order && p in chosen)
  {
    hide RemoveEach, InOrder, SameButStreams;
    RemoveEachKeys(g, c, InOrder(order, chosen));
    InOrderMembers(order, chosen);
    assert (set p | p in InOrder(order, chosen)) == (set p | p in order && p in chosen);
  }

  lemma ComparedShrinks(g: Game, c: Config, order: seq<Pid>)
    requires AllPending(g.players) && Lists(order, g.players)
    ensures Lists(order, Compared(g, c, order).players)
    ensures Backlog(Compared(g, c, order).players, order) < Backlog(g.players, order)
  {
    hide Compared, Victims, Backlog, Heads, Popped;
    var h := g.(players := Popped(g.players), turn := g.turn + 1);
    ComparedFrame(g, c, order);
    BacklogPops(g.players, order);
    var p :| p in g.players;
    assert p in order;
    SameBacklog(h, Compared(g, c, order), order);
  }

  lemma SameBacklog(g: Game, h: Game, order: seq<Pid>)
    requires SameButStreams(g, h)
    ensures Backlog(h.players, order) <= Backlog(g.players, order)
  {
    hide Backlog;
    var r := h.players;
    forall q | q in r ensures r[q].checksums == g.players[q].checksums { assert Apart(r[q]) == Apart(g.players[q]); }
    BacklogSame(g.players, r, order);
  }

  /** check_desync: compare rounds while everyone has one pending. Every round pops a checksum of each
      player, so the loop ends with the queues. */
  ghost function CheckDesync(g: Game, c: Config, order: seq<Pid>): Game
    requires Lists(order, g.players)
    decreases Backlog(g.players, order)
  {
    if !AllPending(g.players) then g
    else
      ComparedShrinks(g, c, order);
      CheckDesync(Compared(g, c, order), c, order)
  }

  // ---- what the vote decides ----

  lemma LargestIsUnique(heads: map<Pid, U32>, v: U32, w: U32)
    requires Largest(heads, v) && Largest(heads, w)
    ensures v == w
  {}

  /** The survivors of a vote are exactly the largest group when no other is as large, and nobody
      otherwise. */
  lemma VoteKeepsLargestGroupOnly(heads: map<Pid, U32>, p: Pid)
    requires p in heads
    ensures p !in Victims(heads) <==> Largest(heads, heads[p])
  {
    if v :| Largest(heads, v) {
      if Largest(heads, heads[p]) { LargestIsUnique(heads, v, heads[p]); }
      var u :| Largest(heads, u) && Victims(heads) == heads.Keys - Group(heads, u);
      LargestIsUnique(heads, u, v);
    }
  }

  lemma SurvivorsAgree(heads: map<Pid, U32>, p: Pid, q: Pid)
    requires p in heads && q in heads && p !in Victims(heads) && q !in Victims(heads)
    ensures heads[p] == heads[q]
  {
    VoteKeepsLargestGroupOnly(heads, p);
    VoteKeepsLargestGroupOnly(heads, q);
    LargestIsUnique(heads, heads[p], heads[q]);
  }

  // ---- events ----

  /** Every event that walks the player table names the order the table was walked in. */
  datatype Event =
    | Act(action: Action)
    | KeepAlive(pid: Pid, checksum: U32, order: seq<Pid>)
    | GameTick(now: nat, secs: nat, expired: set<Pid>, order: seq<Pid>)
    | Depart(pid: Pid)
    | DropLaggers(order: seq<Pid>)
    | GpsInit(pid: Pid)

  ghost function Step(g: Game, c: Config, ev: Event): Game {
    match ev
    case Act(a) => QueueAction(g, a)
    case KeepAlive(pid, checksum, order) =>
      var h := Heard(g, pid, checksum);
      if pid in g.players && Lists(order, h.players) then CheckDesync(h, c, order) else g
    case GameTick(now, secs, expired, order) =>
      if Lists(order, g.players) then Tick(g, c, now, secs, expired, order) else g
    case Depart(pid) => RemovePlayer(g, c, pid)
    case DropLaggers(order) => if g.lagging && Lists(order, g.players) then StopLaggers(g, c, order) else g
    case GpsInit(pid) => if c.reconnectEnabled then BehindGproxy(g, pid) else g
  }

  ghost function Run(g: Game, c: Config, evs: seq<Event>): Game {
    if evs == [] then g else Step(Run(g, c, evs[..|evs| - 1]), c, evs[|evs| - 1])
  }

  /** The moment check_loading_complete declares the game loaded: queues level, nobody lagging. */
  ghost predicate JustLoaded(g: Game) {
    && g.actions == [] && g.syncCounter == 0 && !g.lagging && g.turn == 0
    && (forall p :: p in g.players ==>
          var q := g.players[p]; q.checksums == [] && q.heard == [] && q.stream == [] && !q.lagging)
    && forall i :: 0 <= i < |g.replay| ==> g.replay[i].Leave?
  }

  // ---- every checksum is compared in its own turn ----

  /** What a player still has pending is exactly what they sent from the current turn on, and any two
      players in the game sent the same checksums for every turn compared. */
  ghost predicate InLockstep(g: Game) {
    && (forall p :: p in g.players ==>
          var q := g.players[p]; g.turn <= |q.heard| && q.checksums == q.heard[g.turn..])
    && forall p, q :: p in g.players && q in g.players ==>
          g.players[p].heard[..g.turn] == g.players[q].heard[..g.turn]
  }

  function Counters(p: Player): (nat, seq<U32>, seq<U32>) { (p.syncCounter, p.checksums, p.heard) }

  ghost predicate SameCounters(g: Game, h: Game) {
    && h.turn == g.turn && h.players.Keys <= g.players.Keys
    && forall p :: p in h.players ==> Counters(h.players[p]) == Counters(g.players[p])
  }

  /** Round k compares everyone's k-th checksum since the game loaded. */
  lemma HeadsAreThisTurn(g: Game, p: Pid)
    requires InLockstep(g) && AllPending(g.players) && p in g.players
    ensures g.turn < |g.players[p].heard| && Heads(g.players)[p] == g.players[p].heard[g.turn]
  {
    assert g.players[p].checksums != [];
  }

  lemma ComparedQueue(g: Game, c: Config, order: seq<Pid>, p: Pid)
    requires InLockstep(g) && AllPending(g.players) && p in Compared(g, c, order).players
    ensures var q := Compared(g, c, order).players[p];
            && p in g.players && g.turn < |g.players[p].heard|
            && q.heard == g.players[p].heard && q.checksums == q.heard[g.turn + 1..]
            && q.heard[g.turn] == Heads(g.players)[p]
            && Compared(g, c, order).turn == g.turn + 1
  {
    ComparedFrame(g, c, order);
    hide Compared;
    var h := g.(players := Popped(g.players), turn := g.turn + 1);
    assert Apart(Compared(g, c, order).players[p]) == Apart(h.players[p]);
    HeadsAreThisTurn(g, p);
  }

  lemma ComparedAgree(g: Game, c: Config, order: seq<Pid>, p: Pid, q: Pid)
    requires AllPending(g.players) && Lists(order, g.players)
    requires p in g.players && q in g.players
    requires p in Compared(g, c, order).players && q in Compared(g, c, order).players
    ensures Heads(g.players)[p] == Heads(g.players)[q]
  {
    ComparedFrame(g, c, order);
    hide Compared, Victims;
    var heads := Heads(g.players);
    if |heads.Values| == 1 {
      OnlyValue(heads, p, q);
    } else {
      SurvivorsAgree(heads, p, q);
    }
  }

  /** The players whose oldest checksum not yet compared is v. */
  ghost function Reporting(players: Players, v: U32): set<Pid> {
    set p | p in players && players[p].checksums != [] && players[p].checksums[0] == v
  }

  /** A player survives a comparison if and only if more players reported the same state than any other one. */
  lemma SurvivesIff(g: Game, c: Config, order: seq<Pid>, p: Pid)
    requires AllPending(g.players) && Lists(order, g.players) && p in g.players
    ensures
      p in Compared(g, c, order).players
      <==> forall q :: q in g.players && g.players[q].checksums[0] != g.players[p].checksums[0] ==>
             |Reporting(g.players, g.players[q].checksums[0])| < |Reporting(g.players, g.players[p].checksums[0])|
  {
    hide Compared, Victims, Reporting, Group, Lists, Largest, SameButStreams;
    ComparedFrame(g, c, order);
    var heads := Heads(g.players);
    forall v: U32 ensures Reporting(g.players, v) == Group(heads, v) { ReportingIsGroup(g.players, v); }
    ListsHolds(order, g.players, p);
    if |heads.Values| == 1 {
      forall q | q in g.players ensures heads[q] == heads[p] { OnlyValue(heads, p, q); }
    } else {
      VoteKeepsLargestGroupOnly(heads, p);
      LargestMeans(heads, p);
      forall q: Pid ensures q in g.players <==> q in heads {}
      forall q | q in g.players ensures heads[q] == g.players[q].checksums[0] {}
      hide Heads;
      assert p in Compared(g, c, order).players <==> Largest(heads, heads[p]);
    }
  }

  lemma ListsHolds(order: seq<Pid>, players: Players, p: Pid)
    requires Lists(order, players) && p in players
    ensures p in order
  {}

  lemma ReportingIsGroup(players: Players, v: U32)
    requires AllPending(players)
    ensures Reporting(players, v) == Group(Heads(players), v)
  {}

  lemma LargestMeans(heads: map<Pid, U32>, p: Pid)
    requires p in heads
    ensures Largest(heads, heads[p])
            <==> forall q :: q in heads && heads[q] != heads[p] ==> |Group(heads, heads[q])| < |Group(heads, heads[p])|
  {
    hide Group;
    assert forall w :: w in heads.Values ==> exists q :: q in heads && heads[q] == w;
  }

  lemma ComparedKeepsLockstep(g: Game, c: Config, order: seq<Pid>)
    requires InLockstep(g) && AllPending(g.players) && Lists(order, g.players)
    ensures InLockstep(Compared(g, c, order))
  {
    hide Compared, Heads;
    var r := Compared(g, c, order);
    forall p | p in r.players
      ensures r.turn <= |r.players[p].heard| && r.players[p].checksums == r.players[p].heard[r.turn..]
    {
      ComparedQueue(g, c, order, p);
    }
    forall p, q | p in r.players && q in r.players
      ensures r.players[p].heard[..r.turn] == r.players[q].heard[..r.turn]
    {
      ComparedQueue(g, c, order, p);
      ComparedQueue(g, c, order, q);
      ComparedAgree(g, c, order, p, q);
      var a, b := g.players[p].heard, g.players[q].heard;
      assert a[..g.turn + 1] == a[..g.turn] + [a[g.turn]] && b[..g.turn + 1] == b[..g.turn] + [b[g.turn]];
    }
  }

  lemma OnlyValue(heads: map<Pid, U32>, p: Pid, q: Pid)
    requires p in heads && q in heads && |heads.Values| == 1
    ensures heads[p] == heads[q]
  {
    var s := heads.Values - {heads[p]};
    assert |s| == 0;
    assert heads[q] !in s;
  }

  lemma {:induction false} CheckKeepsLockstep(g: Game, c: Config, order: seq<Pid>)
    requires InLockstep(g) && Lists(order, g.players)
    ensures InLockstep(CheckDesync(g, c, order))
    ensures !AllPending(CheckDesync(g, c, order).players)
    decreases Backlog(g.players, order)
  {
    if AllPending(g.players) {
      ComparedShrinks(g, c, order);
      ComparedKeepsLockstep(g, c, order);
      hide InLockstep, Compared;
      CheckKeepsLockstep(Compared(g, c, order), c, order);
    }
  }
}
