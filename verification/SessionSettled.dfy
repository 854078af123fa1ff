/**
 How long a refusal has to stand. The actor retires a player whose packet was refused right after the
 event, so a socket can only go on accepting until then; a run in which refusals stand that long never
 sees an acceptance after a refusal at all.
 */
module SessionSettled {
  import opened Bytes
  import opened Session
  import opened SessionTable
  import opened SessionDelivery

  // ---- the hypothesis ----

  /** On this connection every refusal is final, as it is once the channel behind it has closed. */
  ghost predicate FinalOn(acc: Oracle, conn: ConnId) {
    forall i: nat, j: nat :: i < j && acc(conn, j) ==> acc(conn, i)
  }

  function Outcomes(w: World, pid: Pid): seq<bool>
    requires pid in w.players
  {
    w.watch[pid].link.outcomes
  }

  ghost predicate SameSocket(w: World, v: World, pid: Pid)
    requires pid in v.players
  {
    pid in w.players && w.players[pid].connId == v.players[pid].connId
  }

  /** How many of a player's attempts were made before the event from w to v. */
  ghost function Before(w: World, v: World, pid: Pid): nat
    requires pid in v.players
  {
    if SameSocket(w, v, pid) then |Outcomes(w, pid)| else 0
  }

  /** Refusals stand within one event, and beyond it while the player waits to be retired. */
  ghost predicate StandsUntilRetired(w: World, v: World, pid: Pid)
    requires pid in v.players
  {
    var n := Before(w, v, pid);
    n <= |Outcomes(v, pid)| ==>
      && RefusalIsFinal(Outcomes(v, pid)[n..])
      && (SameSocket(w, v, pid) && pid in w.pendingDrop && false in Outcomes(w, pid) ==> true !in Outcomes(v, pid)[n..])
  }

  /** The packets a joiner is sent directly are not watched by the actor, so a refusal among those has to
      be one of a closed channel. */
  ghost predicate JoinerSafe(acc: Oracle, ev: Event) {
    match ev
    case Join(conn, _, _, slotInfo, host, infos, mapCheck, _) =>
      FinalOn(acc, conn) || forall i: nat :: i < |Welcome(slotInfo, host, infos, mapCheck)| ==> acc(conn, i)
    case _ => true
  }

  /** Of one event: refusals stand until the player is retired. */
  ghost predicate RefusalsStand(w: World, acc: Oracle, ev: Event) {
    && (forall pid :: pid in Step(w, acc, ev).players ==> StandsUntilRetired(w, Step(w, acc, ev), pid))
    && JoinerSafe(acc, ev)
  }

  ghost predicate RefusalsStandThroughout(w: World, acc: Oracle, evs: seq<Event>) {
    evs != [] ==>
      var n := |evs| - 1;
      RefusalsStandThroughout(w, acc, evs[..n]) && RefusalsStand(Run(w, acc, evs[..n]), acc, evs[n])
  }

  // ---- who was refused is waiting to be retired ----

  /** rest: players taken off the waiting list whose turn is still to come. */
  ghost predicate Listed(w: World, acc: Oracle, rest: set<Pid>, pid: Pid)
    requires pid in w.players
  {
    !w.players[pid].gproxyDisconnected && false in Outcomes(w, pid) ==>
      pid in w.pendingDrop || pid in rest || FinalOn(acc, w.players[pid].connId)
  }

  ghost predicate AllListed(w: World, acc: Oracle, rest: set<Pid>) {
    forall pid :: pid in w.players ==> Listed(w, acc, rest, pid)
  }

  lemma SentStanding(p: LobbyPlayer, loaded: bool, pkt: Packet)
    ensures var q := Counted(p, loaded, pkt); q.connId == p.connId && q.gproxyDisconnected == p.gproxyDisconnected
  {}

  lemma SendKeepsListed(w: World, acc: Oracle, rest: set<Pid>, pid: Pid, pkt: Packet)
    requires AllListed(w, acc, rest)
    ensures AllListed(SendToPid(w, acc, pid, pkt), acc, rest)
  {
    hide FinalOn, Counted;
    if pid in w.players { SentStanding(w.players[pid], w.loaded, pkt); }
  }

  lemma {:induction false} BroadcastKeepsListed(w: World, acc: Oracle, rest: set<Pid>, notices: Notices)
    requires AllListed(w, acc, rest)
    ensures AllListed(Broadcast(w, acc, notices), acc, rest)
  {
    hide AllListed, SendToPid;
    if notices != [] {
      var n := |notices| - 1;
      BroadcastKeepsListed(w, acc, rest, notices[..n]);
      SendKeepsListed(Broadcast(w, acc, notices[..n]), acc, rest, notices[n].0, notices[n].1);
    }
  }

  // ---- attempts only accumulate ----

  /** A player still on the same socket has the old outcomes and perhaps more; a disconnected one no more. */
  ghost predicate Grew(w: World, v: World, pid: Pid)
    requires pid in v.players
  {
    SameSocket(w, v, pid) ==>
      && Outcomes(w, pid) <= Outcomes(v, pid)
      && (w.players[pid].gproxyDisconnected ==>
          v.players[pid].gproxyDisconnected && Outcomes(v, pid) == Outcomes(w, pid))
  }

  ghost predicate AllGrew(w: World, v: World) {
    forall pid :: pid in v.players ==> Grew(w, v, pid)
  }

  lemma SendGrows(w: World, acc: Oracle, pid: Pid, pkt: Packet)
    ensures AllGrew(w, SendToPid(w, acc, pid, pkt))
  {
    hide Counted;
    if pid in w.players { SentStanding(w.players[pid], w.loaded, pkt); }
  }

  /** Nobody joins and nobody changes sockets. */
  ghost predicate Continues(w: World, v: World) {
    && v.players.Keys <= w.players.Keys
    && (forall pid :: pid in v.players ==> v.players[pid].connId == w.players[pid].connId)
    && AllGrew(w, v)
  }

  lemma ThenContinues(w: World, u: World, v: World)
    requires AllGrew(w, u) && Continues(u, v)
    ensures AllGrew(w, v)
    ensures Continues(w, u) ==> Continues(w, v)
  {
    forall pid | pid in v.players ensures Grew(w, v, pid) {
      assert Grew(w, u, pid) && Grew(u, v, pid);
    }
  }

  lemma StandingSockets(w: World, v: World)
    requires SameTable(w, v)
    ensures v.players.Keys == w.players.Keys
    ensures forall pid :: pid in w.players ==> v.players[pid].connId == w.players[pid].connId
  {
    forall pid | pid in w.players ensures v.players[pid].connId == w.players[pid].connId {
      assert Standing(v.players[pid]) == Standing(w.players[pid]);
    }
  }

  lemma {:induction false} BroadcastContinues(w: World, acc: Oracle, notices: Notices)
    ensures Continues(w, Broadcast(w, acc, notices))
  {
    if notices != [] {
      var n := |notices| - 1;
      var u, v := Broadcast(w, acc, notices[..n]), Broadcast(w, acc, notices);
      BroadcastContinues(w, acc, notices[..n]);
      SendGrows(u, acc, notices[n].0, notices[n].1);
      SendKeepsTable(u, acc, notices[n].0, notices[n].1);
      StandingSockets(u, v);
      hide AllGrew, SendToPid, SameTable;
      ThenContinues(w, u, v);
    }
  }

  // ---- each event ----

  /** What every event keeps: whoever was refused is listed, and attempts only accumulate. */
  ghost predicate Orderly(w: World, v: World, acc: Oracle) {
    AllListed(v, acc, {}) && AllGrew(w, v)
  }

  lemma Announced(w: World, u: World, acc: Oracle, notices: Notices)
    requires AllListed(u, acc, {}) && AllGrew(w, u)
    ensures Orderly(w, Broadcast(u, acc, notices), acc)
  {
    hide AllListed, AllGrew, Broadcast, Continues;
    BroadcastKeepsListed(u, acc, {}, notices);
    BroadcastContinues(u, acc, notices);
    ThenContinues(w, u, Broadcast(u, acc, notices));
  }

  lemma WithoutOrderly(w: World, acc: Oracle, rest: set<Pid>, pid: Pid)
    requires AllListed(w, acc, rest) && pid in w.players
    ensures AllListed(Without(w, pid), acc, rest - {pid}) && Continues(w, Without(w, pid))
  {
    hide FinalOn;
    var v := Without(w, pid);
    forall p | p in v.players ensures Listed(v, acc, rest - {pid}, p) && Grew(w, v, p) {
      assert Listed(w, acc, rest, p);
    }
  }

  lemma RemoveOrderly(w: World, acc: Oracle, pid: Pid, notices: Notices)
    requires AllListed(w, acc, {})
    ensures Orderly(w, RemovePlayer(w, acc, pid, notices), acc)
  {
    hide AllListed, Broadcast;
    if pid in w.players {
      WithoutOrderly(w, acc, {}, pid);
      assert {} - {pid} == {};
      Announced(w, Without(w, pid), acc, notices);
    }
  }

  /** Changes that leave sockets and their outcomes alone. */
  ghost predicate SameLinks(w: World, v: World) {
    && v.players.Keys == w.players.Keys && v.pendingDrop == w.pendingDrop
    && forall p :: p in w.players ==>
      && v.players[p].connId == w.players[p].connId && Outcomes(v, p) == Outcomes(w, p)
      && (w.players[p].gproxyDisconnected ==> v.players[p].gproxyDisconnected)
  }

  lemma SameLinksOrderly(w: World, v: World, acc: Oracle, rest: set<Pid>)
    requires AllListed(w, acc, rest) && SameLinks(w, v)
    ensures AllListed(v, acc, rest) && Continues(w, v)
  {
    hide FinalOn;
    forall p | p in v.players ensures Listed(v, acc, rest, p) && Grew(w, v, p) { assert Listed(w, acc, rest, p); }
  }

  lemma JoinOrderly(w: World, acc: Oracle, conn: ConnId, pid: Pid, key: U32, welcome: seq<Packet>, notices: Notices)
    requires AllListed(w, acc, {}) && pid !in w.players
    requires FinalOn(acc, conn) || forall i: nat :: i < |welcome| ==> acc(conn, i)
    ensures Orderly(w, Joined(w, acc, conn, pid, key, welcome, notices), acc)
  {
    hide FinalOn, Broadcast, OfferAll;
    var o := Onlooker(acc, conn, welcome);
    var u := Seated(w, conn, pid, Newcomer(conn, key, welcome), o);
    WelcomeOutcomes(acc, conn, |welcome|);
    forall p | p in u.players ensures Listed(u, acc, {}, p) && Grew(w, u, p) {
      assert p != pid ==> Listed(w, acc, {}, p);
    }
    hide AllListed, AllGrew;
    Announced(w, u, acc, notices);
  }

  lemma {:induction false} WelcomeOutcomes(acc: Oracle, conn: ConnId, count: nat)
    ensures var l := OfferAll(Link(0, [], []), acc, conn, count);
            |l.offered| == |l.outcomes| == count && forall i :: 0 <= i < count ==> l.outcomes[i] == acc(conn, i)
  {
    if count > 0 { WelcomeOutcomes(acc, conn, count - 1); }
  }

  lemma FrameOrderly(w: World, acc: Oracle, conn: ConnId, kind: FrameKind, notices: Notices)
    requires AllListed(w, acc, {})
    ensures Orderly(w, FrameOf(w, acc, conn, kind, notices), acc)
  {
    hide AllListed, RemovePlayer, Framed, Continues;
    if conn in w.connPid && w.connPid[conn] in w.players {
      var pid := w.connPid[conn];
      var v := w.(players := w.players[pid := Framed(w.players[pid], kind, w.reconnectEnabled)]);
      FramedStanding(w.players[pid], kind, w.reconnectEnabled);
      SameLinksOrderly(w, v, acc, {});
      ContinuesGrew(w, v);
      if kind == LeaveGame {
        RemoveOrderly(v, acc, pid, notices);
        RemoveContinues(v, acc, pid, notices);
        hide AllGrew;
        ThenContinues(w, v, RemovePlayer(v, acc, pid, notices));
      }
    } else {
      Unchanged(w);
    }
  }

  lemma ContinuesGrew(w: World, v: World)
    requires Continues(w, v)
    ensures AllGrew(w, v)
  {}

  lemma Unchanged(w: World)
    ensures Continues(w, w) && AllGrew(w, w)
  {}

  lemma RemoveContinues(w: World, acc: Oracle, pid: Pid, notices: Notices)
    ensures Continues(w, RemovePlayer(w, acc, pid, notices))
  {
    hide Broadcast, AllGrew;
    if pid in w.players {
      var u := Without(w, pid);
      WithoutContinues(w, pid);
      BroadcastContinues(u, acc, notices);
      ThenContinues(w, u, Broadcast(u, acc, notices));
    } else {
      Unchanged(w);
    }
  }

  lemma WithoutContinues(w: World, pid: Pid)
    requires pid in w.players
    ensures Continues(w, Without(w, pid))
  {}

  lemma CloseOrderly(w: World, acc: Oracle, conn: ConnId, now: nat, notices: Notices)
    requires AllListed(w, acc, {})
    ensures Orderly(w, ConnClosed(w, acc, conn, now, notices), acc)
  {
    hide AllListed, RemovePlayer, Broadcast, AllGrew, Continues;
    var v := w.(conns := w.conns - {conn}, connPid := w.connPid - {conn});
    SameLinksOrderly(w, v, acc, {});
    ContinuesGrew(w, v);
    if conn in w.connPid {
      var pid := w.connPid[conn];
      if w.loaded && w.reconnectEnabled && pid in w.players
         && w.players[pid].gproxy && !w.players[pid].gproxyDisconnected {
        var u := v.(players := w.players[pid := Held(w.players[pid], now)]);
        SameLinksOrderly(w, u, acc, {});
        ContinuesGrew(w, u);
        Announced(w, u, acc, notices);
      } else {
        RemoveOrderly(v, acc, pid, notices);
        RemoveContinues(v, acc, pid, notices);
        ThenContinues(w, v, RemovePlayer(v, acc, pid, notices));
      }
    }
  }

  lemma ReconnectOrderly(w: World, acc: Oracle, pid: Pid, key: U32, last: U32, notices: Notices)
    requires AllListed(w, acc, {}) && TableOk(w)
    ensures Orderly(w, Reconnected(w, acc, pid, key, last, notices), acc)
  {
    hide Broadcast, FinalOn, EntriesOk, ListedOk;
    if MayReconnect(w, pid, key) {
      var v := Swapped(w, acc, pid, last);
      SwappedOthers(w, acc, pid, last);
      SwappedEntries(w, acc, pid, last);
      SwappedPending(w, acc, pid, last);
      var refused := false in v.watch[pid].link.outcomes;
      var u := if refused then v.(pendingDrop := v.pendingDrop + [pid]) else v;
      hide Swapped;
      forall p | p in u.players ensures Listed(u, acc, {}, p) && Grew(w, u, p) {
        assert p != pid ==> Listed(w, acc, {}, p);
      }
      hide AllListed, AllGrew;
      if !refused { Announced(w, v, acc, notices); }
    } else {
      Unchanged(w);
    }
  }

  lemma SwappedPending(w: World, acc: Oracle, pid: Pid, last: U32)
    requires pid in w.players
    ensures Swapped(w, acc, pid, last).pendingDrop == w.pendingDrop
  {
    hide Trim, Replayed;
  }

  /** A player whose turn has come is disconnected or gone. */
  lemma RetireOrderly(w: World, acc: Oracle, rest: set<Pid>, pid: Pid, now: nat, chat: Notices, leave: Notices)
    requires AllListed(w, acc, rest)
    ensures var v := Retired(w, acc, pid, now, chat, leave);
            AllListed(v, acc, rest - {pid}) && Continues(w, v)
  {
    hide AllListed, Broadcast, AllGrew, Continues;
    if pid !in w.players || w.players[pid].gproxyDisconnected {
      Unchanged(w);
      TurnOver(w, acc, rest, pid);
    } else {
      var p := w.players[pid];
      var v := w.(conns := w.conns - {p.connId});
      if p.gproxy && w.loaded && w.reconnectEnabled {
        var u := v.(players := w.players[pid := Held(p, now)], connPid := w.connPid - {p.connId});
        SameLinksOrderly(w, u, acc, rest);
        TurnOver(u, acc, rest, pid);
        BroadcastKeepsListed(u, acc, rest - {pid}, chat);
        BroadcastContinues(u, acc, chat);
        ContinuesGrew(w, u);
        ThenContinues(w, u, Broadcast(u, acc, chat));
      } else {
        SameLinksOrderly(w, v, acc, rest);
        DroppedOrderly(w, v, acc, rest, pid, chat, leave);
      }
    }
  }

  lemma TurnOver(w: World, acc: Oracle, rest: set<Pid>, pid: Pid)
    requires AllListed(w, acc, rest) && (pid !in w.players || w.players[pid].gproxyDisconnected)
    ensures AllListed(w, acc, rest - {pid})
  {
    hide FinalOn;
    forall p | p in w.players ensures Listed(w, acc, rest - {pid}, p) { assert Listed(w, acc, rest, p); }
  }

  lemma DroppedOrderly(w: World, v: World, acc: Oracle, rest: set<Pid>, pid: Pid, chat: Notices, leave: Notices)
    requires AllListed(v, acc, rest) && Continues(w, v)
    ensures var r := RemovePlayer(Broadcast(v, acc, chat), acc, pid, leave);
            AllListed(r, acc, rest - {pid}) && Continues(w, r)
  {
    hide AllListed, Broadcast, AllGrew, Continues;
    var u := Broadcast(v, acc, chat);
    BroadcastKeepsListed(v, acc, rest, chat);
    BroadcastContinues(v, acc, chat);
    ContinuesGrew(w, v);
    ThenContinues(w, v, u);
    ContinuesGrew(w, u);
    RemoveContinues(u, acc, pid, leave);
    ThenContinues(w, u, RemovePlayer(u, acc, pid, leave));
    if pid in u.players {
      WithoutOrderly(u, acc, rest, pid);
      BroadcastKeepsListed(Without(u, pid), acc, rest - {pid}, leave);
    } else {
      TurnOver(u, acc, rest, pid);
    }
  }

  lemma {:induction false} RetireAllOrderly(w: World, acc: Oracle, pids: seq<Pid>, rest: set<Pid>, now: nat,
                                            chat: Pid -> Notices, leave: Pid -> Notices)
    requires AllListed(w, acc, rest + (set p | p in pids))
    ensures var v := RetireAll(w, acc, pids, now, chat, leave); AllListed(v, acc, rest) && Continues(w, v)
  {
    hide AllListed, Retired, AllGrew, Continues;
    if pids == [] {
      assert rest + (set p | p in pids) == rest;
      Unchanged(w);
    } else {
      var n, pid := |pids| - 1, pids[|pids| - 1];
      assert pids == pids[..n] + [pid];
      assert rest + {pid} + (set p | p in pids[..n]) == rest + set p | p in pids;
      RetireAllOrderly(w, acc, pids[..n], rest + {pid}, now, chat, leave);
      var u := RetireAll(w, acc, pids[..n], now, chat, leave);
      RetireOrderly(u, acc, rest + {pid}, pid, now, chat(pid), leave(pid));
      FewerListed(RetireAll(w, acc, pids, now, chat, leave), acc, rest + {pid} - {pid}, rest);
      ContinuesGrew(w, u);
      ThenContinues(w, u, RetireAll(w, acc, pids, now, chat, leave));
    }
  }

  lemma FewerListed(w: World, acc: Oracle, a: set<Pid>, b: set<Pid>)
    requires AllListed(w, acc, a) && a <= b
    ensures AllListed(w, acc, b)
  {
    hide FinalOn;
    forall p | p in w.players ensures Listed(w, acc, b, p) { assert Listed(w, acc, a, p); }
  }

  lemma RetireEventOrderly(w: World, acc: Oracle, now: nat, chat: Pid -> Notices, leave: Pid -> Notices)
    requires AllListed(w, acc, {})
    ensures Orderly(w, RetireAll(w.(pendingDrop := []), acc, w.pendingDrop, now, chat, leave), acc)
  {
    hide RetireAll, FinalOn;
    var u := w.(pendingDrop := []);
    forall p | p in u.players ensures Listed(u, acc, {} + (set q | q in w.pendingDrop), p) && Grew(w, u, p) {
      assert Listed(w, acc, {}, p);
    }
    hide AllListed, AllGrew, Continues;
    RetireAllOrderly(u, acc, w.pendingDrop, {}, now, chat, leave);
    ThenContinues(w, u, RetireAll(u, acc, w.pendingDrop, now, chat, leave));
  }

  lemma StepOrderly(w: World, acc: Oracle, ev: Event)
    requires WorldOk(w, acc) && AllListed(w, acc, {}) && JoinerSafe(acc, ev)
    ensures Orderly(w, Step(w, acc, ev), acc)
  {
    hide AllListed, AllGrew, Continues, FinalOn, SeatsOk, TableOk;
    hide Broadcast, Delivered, Joined, FrameOf, ConnClosed, Reconnected, RetireAll, RemovePlayer;
    match ev
    case Join(conn, pid, key, slotInfo, host, infos, mapCheck, notices) =>
      Unchanged(w);
      if !w.started && conn in w.conns && conn !in w.connPid && pid !in w.players {
        JoinOrderly(w, acc, conn, pid, key, Welcome(slotInfo, host, infos, mapCheck), notices);
      }
    case Frame(conn, kind, notices) => FrameOrderly(w, acc, conn, kind, notices);
    case Close(conn, now, notices) => CloseOrderly(w, acc, conn, now, notices);
    case Send(notices) => Unchanged(w); Announced(w, w, acc, notices);
    case Remove(pid, notices) => RemoveOrderly(w, acc, pid, notices);
    case Reconnect(pid, key, last, notices) => ReconnectOrderly(w, acc, pid, key, last, notices);
    case Retire(now, chat, leave) => RetireEventOrderly(w, acc, now, chat, leave);
    case _ =>
      QuietEvents(w, acc, ev);
      SameLinksOrderly(w, Step(w, acc, ev), acc, {});
      ContinuesGrew(w, Step(w, acc, ev));
  }

  lemma QuietEvents(w: World, acc: Oracle, ev: Event)
    requires ev.Connect? || ev.Reject? || ev.Start? || ev.Load? || ev.Deliver?
    ensures SameLinks(w, Step(w, acc, ev))
  {
    hide Kept;
  }

  // ---- so no socket ever accepts anything after a refusal ----

  lemma FinalParts(a: seq<bool>, b: seq<bool>)
    requires RefusalIsFinal(a) && RefusalIsFinal(b) && (false in a ==> true !in b)
    ensures RefusalIsFinal(a + b)
  {
    forall i, j | 0 <= i < j < |a + b| && (a + b)[j] ensures (a + b)[i] {
      assert j >= |a| ==> b[j - |a|] in b;
      assert i < |a| ==> a[i] in a;
    }
  }

  lemma StepSettled(w: World, acc: Oracle, ev: Event)
    requires WorldOk(w, acc) && LinksSettled(w) && AllListed(w, acc, {}) && RefusalsStand(w, acc, ev)
    ensures LinksSettled(Step(w, acc, ev))
  {
    var v := Step(w, acc, ev);
    hide Step, TableOk, SeatOk, Grew, StandsUntilRetired, Listed, RefusalIsFinal, JoinerSafe;
    StepOrderly(w, acc, ev);
    StepKeepsOk(w, acc, ev);
    forall pid | pid in v.players ensures RefusalIsFinal(Outcomes(v, pid)) {
      assert Grew(w, v, pid) && StandsUntilRetired(w, v, pid) && SeatOk(v.players[pid], v.watch[pid], v.loaded, acc);
      SeatFromOracle(v.players[pid], v.watch[pid], v.loaded, acc);
      assert pid in w.players ==> Listed(w, acc, {}, pid);
      PlayerSettled(w, v, acc, pid);
    }
  }

  lemma SeatFromOracle(p: LobbyPlayer, o: Observer, loaded: bool, acc: Oracle)
    requires SeatOk(p, o, loaded, acc)
    ensures FromOracle(o.link, acc, p.connId)
  {}

  lemma PlayerSettled(w: World, v: World, acc: Oracle, pid: Pid)
    requires pid in v.players && Grew(w, v, pid) && StandsUntilRetired(w, v, pid) && LinksSettled(w)
    requires pid in w.players ==> Listed(w, acc, {}, pid)
    requires FromOracle(v.watch[pid].link, acc, v.players[pid].connId)
    ensures RefusalIsFinal(Outcomes(v, pid))
  {
    var after := Outcomes(v, pid);
    if SameSocket(w, v, pid) {
      var before := Outcomes(w, pid);
      assert after == before + after[|before|..];
      if false in before && pid !in w.pendingDrop && !w.players[pid].gproxyDisconnected {
        assert FinalOn(acc, w.players[pid].connId);
      } else {
        FinalParts(before, after[|before|..]);
      }
    } else {
      assert after[0..] == after;
    }
  }

  /** Refusals that stand until the player is retired leave every socket of every reachable state settled. */
  lemma {:induction false} StandingIsEnough(acc: Oracle, evs: seq<Event>, reconnectEnabled: bool)
    requires RefusalsStandThroughout(Fresh(reconnectEnabled), acc, evs)
    ensures AlwaysSettled(Fresh(reconnectEnabled), acc, evs)
            && AllListed(Run(Fresh(reconnectEnabled), acc, evs), acc, {})
  {
    if evs != [] {
      var n := |evs| - 1;
      var w := Run(Fresh(reconnectEnabled), acc, evs[..n]);
      StandingIsEnough(acc, evs[..n], reconnectEnabled);
      EveryRunIsOk(acc, evs[..n], reconnectEnabled);
      assert JoinerSafe(acc, evs[n]);
      hide RefusalsStand, AllListed, LinksSettled, Step, JoinerSafe;
      StepOrderly(w, acc, evs[n]);
      StepSettled(w, acc, evs[n]);
    }
  }

  // ---- refusals that are final stand ----

  lemma FinalStands(w: World, v: World, acc: Oracle, pid: Pid)
    requires pid in v.players && Grew(w, v, pid) && FinalOn(acc, v.players[pid].connId)
    requires FromOracle(v.watch[pid].link, acc, v.players[pid].connId)
    ensures StandsUntilRetired(w, v, pid)
  {
    var after, n := Outcomes(v, pid), Before(w, v, pid);
    if n <= |after| {
      assert forall i :: 0 <= i < |after| - n ==> after[n..][i] == after[n + i];
      if SameSocket(w, v, pid) && false in Outcomes(w, pid) {
        var k :| 0 <= k < n && !Outcomes(w, pid)[k];
        assert after[k] == Outcomes(w, pid)[k];
      }
    }
  }

  /** Where every refusal is final, as behind a closed channel, the hypothesis holds in any run. */
  lemma {:induction false} FinalRefusalsStand(acc: Oracle, evs: seq<Event>, reconnectEnabled: bool)
    requires forall conn: ConnId :: FinalOn(acc, conn)
    ensures RefusalsStandThroughout(Fresh(reconnectEnabled), acc, evs)
  {
    if evs != [] {
      var n := |evs| - 1;
      var w := Run(Fresh(reconnectEnabled), acc, evs[..n]);
      var v := Step(w, acc, evs[n]);
      FinalRefusalsStand(acc, evs[..n], reconnectEnabled);
      EveryRunIsOk(acc, evs[..n], reconnectEnabled);
      StepKeepsOk(w, acc, evs[n]);
      hide Step, Run, FinalOn, StandsUntilRetired, TableOk, RefusalsStandThroughout;
      StepOrderly(w, acc, evs[n]);
      forall pid | pid in v.players ensures StandsUntilRetired(w, v, pid) {
        assert Grew(w, v, pid) && SeatOk(v.players[pid], v.watch[pid], v.loaded, acc);
        FinalStands(w, v, acc, pid);
      }
      Appended(Fresh(reconnectEnabled), acc, evs);
    }
  }

  lemma Appended(w: World, acc: Oracle, evs: seq<Event>)
    requires evs != []
    requires var n := |evs| - 1;
             RefusalsStandThroughout(w, acc, evs[..n])
             && RefusalsStand(Run(w, acc, evs[..n]), acc, evs[n])
    ensures RefusalsStandThroughout(w, acc, evs)
  {
    hide RefusalsStand, Run;
  }

  /** Over every run in which refusals stand until the player is retired, clients count truly and come back
      only with everything unbuffered in hand, what each client has accepted is a prefix of its log:
      nothing lost, repeated or out of order. */
  lemma EveryClientReadsAPrefix(acc: Oracle, evs: seq<Event>, reconnectEnabled: bool)
    requires RefusalsStandThroughout(Fresh(reconnectEnabled), acc, evs)
    requires TruthfulRun(Fresh(reconnectEnabled), acc, evs) && HadUnbufferedRun(Fresh(reconnectEnabled), acc, evs)
    ensures var w := Run(Fresh(reconnectEnabled), acc, evs);
            forall p :: p in w.players ==> w.watch[p].got <= w.watch[p].log
  {
    StandingIsEnough(acc, evs, reconnectEnabled);
    SettledClientsReadAPrefix(acc, evs, reconnectEnabled);
  }
}
