/**
 Who a session belongs to: a player's key never changes and only that key moves the player to another
 connection; who comes, who goes and who is held; and that every packet handed to the hub is logged.
 */
module SessionLaws {
  import opened Bytes
  import opened Session
  import opened SessionDelivery
  import opened SessionTable

  // ---- what an event means for a player ----

  /** A player whose loss of a socket the game waits out. */
  predicate Resumable(w: World, pid: Pid)
    requires pid in w.players
  {
    w.players[pid].gproxy && w.loaded && w.reconnectEnabled
  }

  predicate On(w: World, pid: Pid, conn: ConnId)
    requires pid in w.players
  {
    !w.players[pid].gproxyDisconnected && w.players[pid].connId == conn
  }

  /** The events that take a player out of the game. */
  ghost predicate Leaves(w: World, ev: Event, pid: Pid)
    requires pid in w.players
  {
    match ev
    case Frame(conn, kind, _) => kind == LeaveGame && On(w, pid, conn)
    case Close(conn, _, _) => On(w, pid, conn) && !Resumable(w, pid)
    case Remove(p, _) => p == pid
    case Retire(_, _, _) => pid in w.pendingDrop && !w.players[pid].gproxyDisconnected && !Resumable(w, pid)
    case _ => false
  }

  /** The events after which a player is waited for. */
  ghost predicate Waits(w: World, ev: Event, pid: Pid)
    requires pid in w.players
  {
    match ev
    case Close(conn, _, _) => On(w, pid, conn) && Resumable(w, pid)
    case Retire(_, _, _) => pid in w.pendingDrop && !w.players[pid].gproxyDisconnected && Resumable(w, pid)
    case _ => false
  }

  /** The one event that moves a player to a new connection: it names the player and brings the player's key. */
  ghost predicate Returns(w: World, ev: Event, pid: Pid)
    requires pid in w.players
  {
    ev.Reconnect? && ev.pid == pid && w.players[pid].gproxy && ev.key == w.players[pid].gproxyKey
  }

  ghost predicate Introduces(w: World, ev: Event, pid: Pid)
    requires pid in w.players
  {
    ev.Frame? && ev.kind == GpsInit && On(w, pid, ev.conn) && w.reconnectEnabled
  }

  /** Of what a client sends, only W3GS frames on its live connection count. */
  ghost predicate Counts(w: World, ev: Event, pid: Pid)
    requires pid in w.players
  {
    ev.Frame? && ev.kind == W3gs && On(w, pid, ev.conn)
  }

  ghost predicate Concerns(w: World, ev: Event, pid: Pid)
    requires pid in w.players
  {
    Leaves(w, ev, pid) || Waits(w, ev, pid) || Returns(w, ev, pid) || Introduces(w, ev, pid) || Counts(w, ev, pid)
  }

  ghost predicate Comes(w: World, ev: Event, pid: Pid) {
    ev.Join? && ev.pid == pid && !w.started && ev.conn in w.conns && ev.conn !in w.connPid
  }

  /** What becomes of a player. */
  ghost predicate Fate(w: World, ev: Event, v: World, pid: Pid)
    requires pid in w.players
  {
    if Leaves(w, ev, pid) then pid !in v.players
    else
      && pid in v.players
      && var p, q := w.players[pid], v.players[pid];
         && q.gproxyKey == p.gproxyKey
         && q.connId == (if Returns(w, ev, pid) then w.nextConn else p.connId)
         && (q.gproxyDisconnected <==> !Returns(w, ev, pid) && (p.gproxyDisconnected || Waits(w, ev, pid)))
         && (q.gproxy <==> p.gproxy || Introduces(w, ev, pid))
         && q.totalReceived == (if Counts(w, ev, pid) then (p.totalReceived + 1) % U32_SIZE else p.totalReceived)
         && q.disconnectTime == (if Waits(w, ev, pid) then ev.now
                                 else if Returns(w, ev, pid) then 0 else p.disconnectTime)
  }

  /** Of someone who was no player. */
  ghost predicate Arrival(w: World, ev: Event, v: World, pid: Pid)
    requires pid !in w.players
  {
    && (pid in v.players <==> Comes(w, ev, pid))
    && (pid in v.players ==>
          var q := v.players[pid];
          && q.connId == ev.conn && q.gproxyKey == ev.key && !q.gproxy && !q.gproxyDisconnected
          && q.totalReceived == 1)
  }

  ghost predicate Fates(w: World, ev: Event, v: World) {
    forall pid: Pid :: if pid in w.players then Fate(w, ev, v, pid) else Arrival(w, ev, v, pid)
  }

  // ---- the pieces ----

  /** Everyone but pid stands as before. */
  ghost predicate OthersStand(w: World, v: World, pid: Pid) {
    && (forall p :: p in v.players && p != pid ==> p in w.players)
    && (forall p :: p in w.players && p != pid ==> p in v.players && Standing(v.players[p]) == Standing(w.players[p]))
  }

  ghost predicate AllStand(w: World, v: World) {
    v.players.Keys == w.players.Keys && forall p :: p in w.players ==> Standing(v.players[p]) == Standing(w.players[p])
  }

  lemma Announced(w: World, acc: Oracle, notices: Notices)
    ensures AllStand(w, Broadcast(w, acc, notices))
  {
    BroadcastTable(w, acc, notices);
  }

  lemma Removed(w: World, acc: Oracle, pid: Pid, notices: Notices)
    ensures var v := RemovePlayer(w, acc, pid, notices); OthersStand(w, v, pid) && pid !in v.players
  {
    hide Broadcast, Standing;
    if pid in w.players { Announced(Without(w, pid), acc, notices); }
  }

  /** One player changed, then an announcement. */
  lemma OneChanged(w: World, v: World, acc: Oracle, pid: Pid, notices: Notices)
    requires v.players.Keys == w.players.Keys + {pid}
    requires forall p :: p in w.players && p != pid ==> v.players[p] == w.players[p]
    ensures var u := Broadcast(v, acc, notices);
            OthersStand(w, u, pid) && pid in u.players && Standing(u.players[pid]) == Standing(v.players[pid])
  {
    hide Broadcast, Standing;
    Announced(v, acc, notices);
  }

  lemma StandingTells(p: LobbyPlayer, q: LobbyPlayer)
    requires Standing(p) == Standing(q)
    ensures p.connId == q.connId && p.gproxy == q.gproxy && p.gproxyDisconnected == q.gproxyDisconnected
    ensures p.gproxyKey == q.gproxyKey && p.totalReceived == q.totalReceived && p.disconnectTime == q.disconnectTime
  {}

  lemma SwappedStanding(w: World, acc: Oracle, pid: Pid, last: U32)
    requires pid in w.players
    ensures var q := Swapped(w, acc, pid, last).players[pid];
            && q.connId == w.nextConn && q.gproxyKey == w.players[pid].gproxyKey
            && q.gproxy == w.players[pid].gproxy && !q.gproxyDisconnected
            && q.totalReceived == w.players[pid].totalReceived && q.disconnectTime == 0
  {
    hide Drained, TrimCount, Replayed;
  }

  lemma FramedIdentity(p: LobbyPlayer, kind: FrameKind, reconnectEnabled: bool)
    ensures var q := Framed(p, kind, reconnectEnabled);
            && q.connId == p.connId && q.gproxyKey == p.gproxyKey && q.gproxyDisconnected == p.gproxyDisconnected
            && q.gproxy == (p.gproxy || (kind == GpsInit && reconnectEnabled))
            && q.totalReceived == (if kind == W3gs || kind == LeaveGame then (p.totalReceived + 1) % U32_SIZE
                                   else p.totalReceived)
            && q.disconnectTime == p.disconnectTime
  {
    hide Drained, TrimCount;
  }

  // ---- every event ----

  lemma StandMeansFate(w: World, ev: Event, v: World, pid: Pid)
    requires pid in w.players && pid in v.players && Standing(v.players[pid]) == Standing(w.players[pid])
    requires !Concerns(w, ev, pid)
    ensures Fate(w, ev, v, pid)
  {
    StandingTells(v.players[pid], w.players[pid]);
  }

  /** The event concerns one player at most. */
  ghost predicate About(w: World, ev: Event, pid: Pid) {
    && (forall p :: p in w.players && p != pid ==>
          !Concerns(w, ev, p))
    && (forall p :: p != pid ==> !Comes(w, ev, p))
  }

  lemma OthersMeanFates(w: World, ev: Event, v: World, pid: Pid)
    requires OthersStand(w, v, pid) && About(w, ev, pid)
    requires if pid in w.players then Fate(w, ev, v, pid) else Arrival(w, ev, v, pid)
    ensures Fates(w, ev, v)
  {
    hide Standing, Concerns, Comes, Fate;
    forall p: Pid | p in w.players && p != pid ensures Fate(w, ev, v, p) { StandMeansFate(w, ev, v, p); }
  }

  lemma OnIff(w: World, pid: Pid, conn: ConnId)
    requires TableOk(w) && pid in w.players
    ensures On(w, pid, conn) <==> conn in w.connPid && w.connPid[conn] == pid
  {
    hide TableOk;
    LiveConnection(w, conn, pid);
  }

  lemma NothingHappened(w: World, ev: Event, v: World)
    requires AllStand(w, v)
    requires forall p :: p in w.players ==>
               !Concerns(w, ev, p)
    requires forall p: Pid :: p !in w.players ==> !Comes(w, ev, p)
    ensures Fates(w, ev, v)
  {
    hide Standing, Concerns, Comes, Fate;
    forall p: Pid | p in w.players ensures Fate(w, ev, v, p) { StandMeansFate(w, ev, v, p); }
  }

  lemma Quiet(w: World, ev: Event, conn: ConnId)
    requires TableOk(w) && conn !in w.connPid
    requires (ev.Frame? || ev.Close?) && ev.conn == conn
    ensures forall p :: p in w.players ==>
              !Concerns(w, ev, p)
  {
    hide TableOk;
    forall p | p in w.players ensures !On(w, p, conn) { OnIff(w, p, conn); }
  }

  lemma AboutItsPlayer(w: World, ev: Event, conn: ConnId)
    requires TableOk(w) && conn in w.connPid
    requires (ev.Frame? || ev.Close?) && ev.conn == conn
    ensures About(w, ev, w.connPid[conn]) && w.connPid[conn] in w.players && On(w, w.connPid[conn], conn)
  {
    ListedIsPlayer(w, conn);
    hide TableOk;
    forall p | p in w.players ensures On(w, p, conn) <==> w.connPid[conn] == p { OnIff(w, p, conn); }
  }

  lemma ListedIsPlayer(w: World, conn: ConnId)
    requires TableOk(w) && conn in w.connPid
    ensures w.connPid[conn] in w.players
  {}

  lemma FrameFates(w: World, acc: Oracle, conn: ConnId, kind: FrameKind, notices: Notices)
    requires TableOk(w)
    ensures Fates(w, Frame(conn, kind, notices), FrameOf(w, acc, conn, kind, notices))
  {
    hide TableOk, Framed, Standing, RemovePlayer, Fate, About, Fates, Concerns;
    var ev, v := Frame(conn, kind, notices), FrameOf(w, acc, conn, kind, notices);
    if conn !in w.connPid {
      Quiet(w, ev, conn);
      NothingHappened(w, ev, v);
    } else {
      var pid := w.connPid[conn];
      AboutItsPlayer(w, ev, conn);
      Removed(w.(players := w.players[pid := Framed(w.players[pid], kind, w.reconnectEnabled)]), acc, pid, notices);
      FramedFate(w, acc, conn, kind, notices);
      OthersMeanFates(w, ev, v, pid);
    }
  }

  lemma FramedFate(w: World, acc: Oracle, conn: ConnId, kind: FrameKind, notices: Notices)
    requires conn in w.connPid && w.connPid[conn] in w.players && On(w, w.connPid[conn], conn)
    ensures Fate(w, Frame(conn, kind, notices), FrameOf(w, acc, conn, kind, notices), w.connPid[conn])
  {
    hide Framed, Broadcast;
    var pid := w.connPid[conn];
    FramedIdentity(w.players[pid], kind, w.reconnectEnabled);
    Removed(w.(players := w.players[pid := Framed(w.players[pid], kind, w.reconnectEnabled)]), acc, pid, notices);
    hide OthersStand, Standing;
  }

  lemma CloseFates(w: World, acc: Oracle, conn: ConnId, now: nat, notices: Notices)
    requires TableOk(w)
    ensures Fates(w, Close(conn, now, notices), ConnClosed(w, acc, conn, now, notices))
  {
    hide TableOk, RemovePlayer, Broadcast, Fate, About, Fates, Concerns, Standing;
    var ev, v := Close(conn, now, notices), ConnClosed(w, acc, conn, now, notices);
    if conn !in w.connPid {
      Quiet(w, ev, conn);
      NothingHappened(w, ev, v);
    } else {
      AboutItsPlayer(w, ev, conn);
      ClosedFate(w, acc, conn, now, notices);
      OthersMeanFates(w, ev, v, w.connPid[conn]);
    }
  }

  lemma ClosedFate(w: World, acc: Oracle, conn: ConnId, now: nat, notices: Notices)
    requires conn in w.connPid && w.connPid[conn] in w.players && On(w, w.connPid[conn], conn)
    ensures
      var pid, v := w.connPid[conn], ConnClosed(w, acc, conn, now, notices);
      Fate(w, Close(conn, now, notices), v, pid) && OthersStand(w, v, pid)
  {
    hide RemovePlayer, Broadcast;
    var pid := w.connPid[conn];
    var u := w.(conns := w.conns - {conn}, connPid := w.connPid - {conn});
    if Resumable(w, pid) {
      OneChanged(w, u.(players := w.players[pid := Held(w.players[pid], now)]), acc, pid, notices);
    } else {
      Removed(u, acc, pid, notices);
    }
  }

  lemma RemoveFates(w: World, acc: Oracle, pid: Pid, notices: Notices)
    ensures Fates(w, Remove(pid, notices), RemovePlayer(w, acc, pid, notices))
  {
    hide RemovePlayer;
    Removed(w, acc, pid, notices);
    OthersMeanFates(w, Remove(pid, notices), RemovePlayer(w, acc, pid, notices), pid);
  }

  lemma ReconnectFates(w: World, acc: Oracle, pid: Pid, key: U32, last: U32, notices: Notices)
    ensures Fates(w, Reconnect(pid, key, last, notices), Reconnected(w, acc, pid, key, last, notices))
  {
    hide Fate, Arrival, About, Fates, OthersStand;
    var ev, v := Reconnect(pid, key, last, notices), Reconnected(w, acc, pid, key, last, notices);
    AboutTheNamed(w, ev);
    ReturnedFate(w, acc, pid, key, last, notices);
    OthersMeanFates(w, ev, v, pid);
  }

  lemma AboutTheNamed(w: World, ev: Event)
    requires ev.Reconnect? || ev.Join?
    ensures About(w, ev, ev.pid)
  {}

  lemma ReturnedFate(w: World, acc: Oracle, pid: Pid, key: U32, last: U32, notices: Notices)
    ensures
      var ev, v := Reconnect(pid, key, last, notices), Reconnected(w, acc, pid, key, last, notices);
      OthersStand(w, v, pid) && if pid in w.players then Fate(w, ev, v, pid) else Arrival(w, ev, v, pid)
  {
    hide Swapped, Broadcast, Standing, Fate, Arrival, OthersStand;
    var ev, v := Reconnect(pid, key, last, notices), Reconnected(w, acc, pid, key, last, notices);
    if MayReconnect(w, pid, key) {
      var u := Swapped(w, acc, pid, last);
      SwappedOthers(w, acc, pid, last);
      SwappedStanding(w, acc, pid, last);
      OneChanged(w, u, acc, pid, notices);
      StandingTells(Broadcast(u, acc, notices).players[pid], u.players[pid]);
      NoNotices(w, u, acc, pid);
      MovedFate(w, v, pid, key, last, notices);
    } else {
      UnmovedFate(w, pid, key, last, notices);
    }
  }

  lemma NoNotices(w: World, v: World, acc: Oracle, pid: Pid)
    requires v.players.Keys == w.players.Keys + {pid}
    requires forall p :: p in w.players && p != pid ==> v.players[p] == w.players[p]
    ensures forall pending :: OthersStand(w, v.(pendingDrop := pending), pid)
  {
    hide Standing;
  }

  lemma MovedFate(w: World, v: World, pid: Pid, key: U32, last: U32, notices: Notices)
    requires MayReconnect(w, pid, key) && pid in v.players
    requires
      var p, q := w.players[pid], v.players[pid];
      && q.connId == w.nextConn && q.gproxyKey == p.gproxyKey && q.gproxy == p.gproxy && !q.gproxyDisconnected
      && q.totalReceived == p.totalReceived && q.disconnectTime == 0
    ensures Fate(w, Reconnect(pid, key, last, notices), v, pid)
  {}

  lemma UnmovedFate(w: World, pid: Pid, key: U32, last: U32, notices: Notices)
    requires !MayReconnect(w, pid, key)
    ensures
      var ev := Reconnect(pid, key, last, notices);
      OthersStand(w, w, pid) && if pid in w.players then Fate(w, ev, w, pid) else Arrival(w, ev, w, pid)
  {}

  lemma JoinFates(w: World, acc: Oracle, ev: Event)
    requires ev.Join?
    ensures Fates(w, ev, Step(w, acc, ev))
  {
    hide Step, Fate, Arrival, About, Fates, OthersStand;
    AboutTheNamed(w, ev);
    JoinedFate(w, acc, ev);
    OthersMeanFates(w, ev, Step(w, acc, ev), ev.pid);
  }

  lemma JoinedFate(w: World, acc: Oracle, ev: Event)
    requires ev.Join?
    ensures
      var v := Step(w, acc, ev);
      OthersStand(w, v, ev.pid) && if ev.pid in w.players then Fate(w, ev, v, ev.pid) else Arrival(w, ev, v, ev.pid)
  {
    hide Broadcast, Welcome;
    if Comes(w, ev, ev.pid) && ev.pid !in w.players {
      var welcome := Welcome(ev.slotInfo, ev.host, ev.infos, ev.mapCheck);
      var u := Seated(w, ev.conn, ev.pid, Newcomer(ev.conn, ev.key, welcome), Onlooker(acc, ev.conn, welcome));
      OneChanged(w, u, acc, ev.pid, ev.notices);
    }
  }

  // ---- retiring ----

  /** Of the players retired, those who can resume are held and the others gone. */
  ghost predicate AfterRetiring(w: World, v: World, pids: seq<Pid>, now: nat) {
    && v.started == w.started && v.loaded == w.loaded && v.reconnectEnabled == w.reconnectEnabled
    && v.players.Keys <= w.players.Keys
    && forall p :: p in w.players ==>
         if p !in pids || w.players[p].gproxyDisconnected then
           p in v.players && Standing(v.players[p]) == Standing(w.players[p])
         else if Resumable(w, p) then
           && p in v.players && v.players[p].gproxyDisconnected && v.players[p].gproxy
           && Identity(v.players[p]) == Identity(w.players[p]) && v.players[p].disconnectTime == now
         else p !in v.players
  }

  /** What a session is known by. */
  function Identity(p: LobbyPlayer): (ConnId, U32, U32) {
    (p.connId, p.gproxyKey, p.totalReceived)
  }

  lemma RetiredOne(w: World, acc: Oracle, pid: Pid, now: nat, chat: Notices, leave: Notices)
    ensures AfterRetiring(w, Retired(w, acc, pid, now, chat, leave), [pid], now)
  {
    hide Broadcast, RemovePlayer;
    if pid in w.players && !w.players[pid].gproxyDisconnected {
      var v := w.(conns := w.conns - {w.players[pid].connId});
      if Resumable(w, pid) {
        BroadcastTable(HeldAt(w, pid, now), acc, chat);
        OneChanged(w, HeldAt(w, pid, now), acc, pid, chat);
      } else {
        BroadcastTable(v, acc, chat);
        Removed(Broadcast(v, acc, chat), acc, pid, leave);
        RemovedFlags(Broadcast(v, acc, chat), acc, pid, leave);
      }
    }
  }

  lemma RemovedFlags(w: World, acc: Oracle, pid: Pid, notices: Notices)
    ensures var v := RemovePlayer(w, acc, pid, notices);
            v.started == w.started && v.loaded == w.loaded && v.reconnectEnabled == w.reconnectEnabled
  {
    hide Broadcast;
    if pid in w.players { BroadcastTable(Without(w, pid), acc, notices); }
  }

  lemma RetiringTwice(w: World, v: World, u: World, pids: seq<Pid>, pid: Pid, now: nat)
    requires AfterRetiring(w, v, pids, now) && AfterRetiring(v, u, [pid], now)
    ensures AfterRetiring(w, u, pids + [pid], now)
  {}

  lemma {:induction false} RetireAllIs(w: World, acc: Oracle, pids: seq<Pid>, now: nat,
                                       chat: Pid -> Notices, leave: Pid -> Notices)
    ensures AfterRetiring(w, RetireAll(w, acc, pids, now, chat, leave), pids, now)
  {
    hide AfterRetiring, Retired;
    if pids == [] {
      NobodyRetired(w, now);
    } else {
      var n := |pids| - 1;
      var v := RetireAll(w, acc, pids[..n], now, chat, leave);
      RetireAllIs(w, acc, pids[..n], now, chat, leave);
      RetiredOne(v, acc, pids[n], now, chat(pids[n]), leave(pids[n]));
      RetiringTwice(w, v, RetireAll(w, acc, pids, now, chat, leave), pids[..n], pids[n], now);
      assert pids[..n] + [pids[n]] == pids;
    }
  }

  lemma NobodyRetired(w: World, now: nat)
    ensures AfterRetiring(w, w, [], now)
  {}

  lemma RetireFates(w: World, acc: Oracle, now: nat, chat: Pid -> Notices, leave: Pid -> Notices)
    ensures Fates(w, Retire(now, chat, leave), Step(w, acc, Retire(now, chat, leave)))
  {
    hide RetireAll;
    RetireAllIs(w.(pendingDrop := []), acc, w.pendingDrop, now, chat, leave);
  }

  /** Every event, to everyone: who comes, who leaves, who is waited for, who moves to a new connection, and
      that nobody's key ever changes. */
  lemma StepDecidesFates(w: World, acc: Oracle, ev: Event)
    requires TableOk(w)
    ensures Fates(w, ev, Step(w, acc, ev))
  {
    hide TableOk, Broadcast, FrameOf, ConnClosed, RemovePlayer, Reconnected, RetireAll, Standing, Delivered;
    match ev
    case Frame(conn, kind, notices) => FrameFates(w, acc, conn, kind, notices);
    case Close(conn, now, notices) => CloseFates(w, acc, conn, now, notices);
    case Remove(pid, notices) => RemoveFates(w, acc, pid, notices);
    case Reconnect(pid, key, last, notices) => ReconnectFates(w, acc, pid, key, last, notices);
    case Join(_, _, _, _, _, _, _, _) => JoinFates(w, acc, ev);
    case Retire(now, chat, leave) => RetireFates(w, acc, now, chat, leave);
    case Send(notices) =>
      Announced(w, acc, notices);
      NothingHappened(w, ev, Step(w, acc, ev));
    case _ => NothingHappened(w, ev, Step(w, acc, ev));
  }

  ghost predicate SamePhase(w: World, v: World) {
    v.started == w.started && v.loaded == w.loaded && v.reconnectEnabled == w.reconnectEnabled
  }

  lemma FramePhase(w: World, acc: Oracle, conn: ConnId, kind: FrameKind, notices: Notices)
    ensures SamePhase(w, FrameOf(w, acc, conn, kind, notices))
  {
    hide Framed, RemovePlayer;
    if conn in w.connPid && w.connPid[conn] in w.players {
      var pid := w.connPid[conn];
      RemovedFlags(w.(players := w.players[pid := Framed(w.players[pid], kind, w.reconnectEnabled)]),
                   acc, pid, notices);
    }
  }

  lemma ClosePhase(w: World, acc: Oracle, conn: ConnId, now: nat, notices: Notices)
    ensures SamePhase(w, ConnClosed(w, acc, conn, now, notices))
  {
    hide RemovePlayer, Broadcast;
    var v := w.(conns := w.conns - {conn}, connPid := w.connPid - {conn});
    if conn in w.connPid {
      var pid := w.connPid[conn];
      RemovedFlags(v, acc, pid, notices);
      if pid in w.players { BroadcastTable(v.(players := w.players[pid := Held(w.players[pid], now)]), acc, notices); }
    }
  }

  lemma ReconnectPhase(w: World, acc: Oracle, pid: Pid, key: U32, last: U32, notices: Notices)
    ensures SamePhase(w, Reconnected(w, acc, pid, key, last, notices))
  {
    hide Broadcast, Trim, Replayed;
    if MayReconnect(w, pid, key) { BroadcastTable(Swapped(w, acc, pid, last), acc, notices); }
  }

  lemma JoinPhase(w: World, acc: Oracle, ev: Event)
    requires ev.Join?
    ensures SamePhase(w, Step(w, acc, ev))
  {
    hide Broadcast, Welcome, OfferAll;
    var welcome := Welcome(ev.slotInfo, ev.host, ev.infos, ev.mapCheck);
    BroadcastTable(Seated(w, ev.conn, ev.pid, Newcomer(ev.conn, ev.key, welcome), Onlooker(acc, ev.conn, welcome)),
                   acc, ev.notices);
  }

  /** A game starts when told to and loads when told to after that, and at no other time. */
  lemma PhasesAdvance(w: World, acc: Oracle, ev: Event)
    ensures
      var v := Step(w, acc, ev);
      && (v.started <==> w.started || ev.Start?)
      && (v.loaded <==> w.loaded || (ev.Load? && w.started))
      && v.reconnectEnabled == w.reconnectEnabled
  {
    hide Broadcast, FrameOf, ConnClosed, RemovePlayer, Reconnected, RetireAll, Joined, Delivered;
    match ev
    case Join(_, _, _, _, _, _, _, _) => JoinPhase(w, acc, ev);
    case Frame(conn, kind, notices) => FramePhase(w, acc, conn, kind, notices);
    case Close(conn, now, notices) => ClosePhase(w, acc, conn, now, notices);
    case Send(notices) => BroadcastTable(w, acc, notices);
    case Remove(pid, notices) => RemovedFlags(w, acc, pid, notices);
    case Reconnect(pid, key, last, notices) => ReconnectPhase(w, acc, pid, key, last, notices);
    case Retire(now, chat, leave) => RetireAllIs(w.(pendingDrop := []), acc, w.pendingDrop, now, chat, leave);
    case _ =>
  }

  // ---- whole runs ----

  /** A player in the game before and after an event is on another connection only if the event was a
      reconnect naming the player and bringing the player's key. */
  lemma OnlyTheKeyMovesAPlayer(w: World, acc: Oracle, ev: Event, pid: Pid)
    requires WorldOk(w, acc) && pid in w.players && pid in Step(w, acc, ev).players
    requires Step(w, acc, ev).players[pid].connId != w.players[pid].connId
    ensures ev.Reconnect? && ev.pid == pid && ev.key == w.players[pid].gproxyKey && w.players[pid].gproxy
  {
    StepDecidesFates(w, acc, ev);
    hide Step, TableOk, SeatsOk;
    assert Fate(w, ev, Step(w, acc, ev), pid);
  }

  /** A reconnect for somebody who is not there, is not behind GProxy++ or has another key changes nothing;
      any other moves the player. */
  lemma ReconnectNeedsTheKey(w: World, acc: Oracle, pid: Pid, key: U32, last: U32, notices: Notices)
    requires WorldOk(w, acc)
    ensures
      var v := Step(w, acc, Reconnect(pid, key, last, notices));
      if pid in w.players && w.players[pid].gproxy && w.players[pid].gproxyKey == key then
        pid in v.players && v.players[pid].connId == w.nextConn != w.players[pid].connId
      else v == w
  {
    StepDecidesFates(w, acc, Reconnect(pid, key, last, notices));
    hide Swapped, Broadcast, SeatsOk;
    if pid in w.players {
      assert Fate(w, Reconnect(pid, key, last, notices), Step(w, acc, Reconnect(pid, key, last, notices)), pid);
    }
  }

  /** The i-th event let a player in who has stayed since. */
  ghost predicate CameIn(acc: Oracle, evs: seq<Event>, reconnectEnabled: bool, pid: Pid, i: nat) {
    && i < |evs| && evs[i].Join? && evs[i].pid == pid
    && pid !in Run(Fresh(reconnectEnabled), acc, evs[..i]).players
    && forall j :: i < j <= |evs| ==> pid in Run(Fresh(reconnectEnabled), acc, evs[..j]).players
  }

  lemma {:induction false} RunSnoc(w: World, acc: Oracle, evs: seq<Event>)
    requires evs != []
    ensures Run(w, acc, evs) == Step(Run(w, acc, evs[..|evs| - 1]), acc, evs[|evs| - 1])
  {
    hide Step;
  }

  lemma StaysIn(acc: Oracle, evs: seq<Event>, reconnectEnabled: bool, pid: Pid, i: nat)
    requires evs != [] && i < |evs|
    requires evs[i].Join? && evs[i].pid == pid && pid !in Run(Fresh(reconnectEnabled), acc, evs[..i]).players
    requires i < |evs| - 1 ==> CameIn(acc, evs[..|evs| - 1], reconnectEnabled, pid, i)
    requires pid in Run(Fresh(reconnectEnabled), acc, evs).players
    ensures CameIn(acc, evs, reconnectEnabled, pid, i)
  {
    hide Run;
    var front := evs[..|evs| - 1];
    forall j | i < j <= |evs| ensures pid in Run(Fresh(reconnectEnabled), acc, evs[..j]).players {
      if j < |evs| { assert evs[..j] == front[..j]; } else { assert evs[..j] == evs; }
    }
  }

  /** Over every run a player's key is the one their join gave them. */
  lemma {:induction false} KeyIsTheJoinKey(acc: Oracle, evs: seq<Event>, reconnectEnabled: bool, pid: Pid)
    returns (i: nat)
    requires pid in Run(Fresh(reconnectEnabled), acc, evs).players
    ensures CameIn(acc, evs, reconnectEnabled, pid, i)
    ensures Run(Fresh(reconnectEnabled), acc, evs).players[pid].gproxyKey == evs[i].key
  {
    hide Step, CameIn, Run, WorldOk;
    NobodyYet(acc, reconnectEnabled);
    var n := |evs| - 1;
    var w := Run(Fresh(reconnectEnabled), acc, evs[..n]);
    RunSnoc(Fresh(reconnectEnabled), acc, evs);
    EveryRunIsOk(acc, evs[..n], reconnectEnabled);
    InStep(w, acc, evs[n], pid);
    if pid in w.players {
      i := KeyIsTheJoinKey(acc, evs[..n], reconnectEnabled, pid);
      CameInTells(acc, evs[..n], reconnectEnabled, pid, i);
      assert evs[..n][..i] == evs[..i];
    } else {
      i := n;
    }
    StaysIn(acc, evs, reconnectEnabled, pid, i);
  }

  lemma NobodyYet(acc: Oracle, reconnectEnabled: bool)
    ensures Run(Fresh(reconnectEnabled), acc, []).players == map[]
  {}

  lemma CameInTells(acc: Oracle, evs: seq<Event>, reconnectEnabled: bool, pid: Pid, i: nat)
    requires CameIn(acc, evs, reconnectEnabled, pid, i)
    ensures i < |evs| && evs[i].Join? && evs[i].pid == pid
    ensures pid !in Run(Fresh(reconnectEnabled), acc, evs[..i]).players
  {
    hide Run;
  }

  lemma InStep(w: World, acc: Oracle, ev: Event, pid: Pid)
    requires WorldOk(w, acc) && pid in Step(w, acc, ev).players
    ensures pid in w.players ==> Step(w, acc, ev).players[pid].gproxyKey == w.players[pid].gproxyKey
    ensures pid !in w.players ==>
              ev.Join? && ev.pid == pid && Step(w, acc, ev).players[pid].gproxyKey == ev.key
  {
    StepDecidesFates(w, acc, ev);
    hide Step, TableOk, SeatsOk;
    if pid in w.players { assert Fate(w, ev, Step(w, acc, ev), pid); }
    else { assert Arrival(w, ev, Step(w, acc, ev), pid); }
  }

  // ---- every packet is logged ----

  /** The packets of a broadcast addressed to one player, in order. */
  function Addressed(notices: Notices, pid: Pid): seq<Packet> {
    if notices == [] then []
    else
      var n := |notices| - 1;
      Addressed(notices[..n], pid) + if notices[n].0 == pid then [notices[n].1] else []
  }

  /** `pkts` more were passed to the hub for a player: counted, logged, kept for one behind GProxy++ in a
      loaded game, and offered to the socket unless there is none. */
  ghost predicate Passed(w: World, v: World, pid: Pid, pkts: seq<Packet>) {
    && pid in w.players && pid in v.players && v.loaded == w.loaded
    && var p, q, o, r := w.players[pid], v.players[pid], w.watch[pid], v.watch[pid];
       && r.log == o.log + pkts && q.totalSent == (p.totalSent + |pkts|) % U32_SIZE
       && q.gproxyBuffer == p.gproxyBuffer + (if p.gproxy && w.loaded then pkts else [])
       && |r.link.offered| == |o.link.offered| + (if p.gproxyDisconnected then 0 else |pkts|)
       && r.got == o.got && r.read == o.read && Standing(q) == Standing(p)
  }

  lemma OnePassed(w: World, acc: Oracle, to: Pid, pkt: Packet, pid: Pid)
    requires pid in w.players
    ensures Passed(w, SendToPid(w, acc, to, pkt), pid, if to == pid then [pkt] else [])
  {}

  lemma PassedTwice(w: World, v: World, u: World, pid: Pid, a: seq<Packet>, b: seq<Packet>)
    requires Passed(w, v, pid, a) && Passed(v, u, pid, b)
    ensures Passed(w, u, pid, a + b)
  {
    hide Standing;
    StandingTells(w.players[pid], v.players[pid]);
    var p := w.players[pid];
    assert p.gproxyBuffer + a + b == p.gproxyBuffer + (a + b) && p.gproxyBuffer + [] + [] == p.gproxyBuffer + [];
    assert w.watch[pid].log + a + b == w.watch[pid].log + (a + b);
    WrapsTwice(p.totalSent, |a|, |b|);
  }

  lemma WrapsTwice(x: nat, a: nat, b: nat)
    ensures ((x + a) % U32_SIZE + b) % U32_SIZE == (x + (a + b)) % U32_SIZE
  {}

  /** Every packet of a broadcast reaches the log of the player it is for, in order, and nobody else's. */
  lemma {:induction false} EveryPacketIsPassed(w: World, acc: Oracle, notices: Notices, pid: Pid)
    requires pid in w.players
    ensures Passed(w, Step(w, acc, Send(notices)), pid, Addressed(notices, pid))
  {
    if notices == [] {
      NothingPassed(w, pid);
    } else {
      var n := |notices| - 1;
      EveryPacketIsPassed(w, acc, notices[..n], pid);
      hide Passed, SendToPid;
      var v := Broadcast(w, acc, notices[..n]);
      assert v == Step(w, acc, Send(notices[..n]));
      StillThere(w, v, pid, Addressed(notices[..n], pid));
      OnePassed(v, acc, notices[n].0, notices[n].1, pid);
      PassedTwice(w, v, Broadcast(w, acc, notices), pid, Addressed(notices[..n], pid),
                  if notices[n].0 == pid then [notices[n].1] else []);
    }
  }

  lemma StillThere(w: World, v: World, pid: Pid, pkts: seq<Packet>)
    requires Passed(w, v, pid, pkts)
    ensures pid in v.players
  {}

  lemma NothingPassed(w: World, pid: Pid)
    requires pid in w.players
    ensures Passed(w, w, pid, [])
  {}

  /** A reconnect whose replay was cut short is announced to nobody and queues the player to be retired; a complete
      one is announced to everyone it is to be announced to. */
  lemma ReconnectIsAnnouncedIff(w: World, acc: Oracle, pid: Pid, last: U32, notices: Notices, p: Pid)
    requires pid in w.players && w.players[pid].gproxy && p in w.players && p != pid
    ensures
      var u := Swapped(w, acc, pid, last);
      var v := Step(w, acc, Reconnect(pid, w.players[pid].gproxyKey, last, notices));
      if false in u.watch[pid].link.outcomes then
        v.players == u.players && v.watch == u.watch && v.pendingDrop == w.pendingDrop + [pid]
        && v.watch[p] == w.watch[p] && v.players[p] == w.players[p]
      else Passed(w, v, p, Addressed(notices, p))
  {
    hide Swapped, Broadcast, Passed, Addressed;
    var u := Swapped(w, acc, pid, last);
    SwappedOthers(w, acc, pid, last);
    SwappedPending(w, acc, pid, last);
    EveryPacketIsPassed(u, acc, notices, p);
    if false !in u.watch[pid].link.outcomes {
      SameSeatPassed(w, u, Broadcast(u, acc, notices), p, Addressed(notices, p));
    }
  }

  lemma SwappedPending(w: World, acc: Oracle, pid: Pid, last: U32)
    requires pid in w.players
    ensures Swapped(w, acc, pid, last).pendingDrop == w.pendingDrop
  {
    hide Trim, Replayed;
  }

  lemma SameSeatPassed(w: World, u: World, v: World, p: Pid, pkts: seq<Packet>)
    requires p in w.players && p in u.players && Passed(u, v, p, pkts)
    requires u.players[p] == w.players[p] && u.watch[p] == w.watch[p] && u.loaded == w.loaded
    ensures Passed(w, v, p, pkts)
  {
    hide Standing;
  }

  /** Acknowledging a count that the buffer reaches back to leaves in it exactly the packets after that count,
      unless a multiple of 2^32 lies between. */
  lemma AckTrims(w: World, acc: Oracle, conn: ConnId, count: nat, notices: Notices, pid: Pid)
    requires WorldOk(w, acc) && pid in w.players && On(w, pid, conn)
    requires
      var oldest := |w.watch[pid].log| - |w.players[pid].gproxyBuffer|;
      oldest <= count <= |w.watch[pid].log| && oldest / U32_SIZE == count / U32_SIZE
    ensures
      var v := Step(w, acc, Frame(conn, GpsAck(count % U32_SIZE), notices));
      pid in v.players && v.players[pid].gproxyBuffer == w.watch[pid].log[count..] && v.watch == w.watch
  {
    hide WorldOk, SeatOk, Trim, Drained, TrimCount, On;
    ParticularSeat(w, acc, pid, conn);
    TrimToCount(w.players[pid], w.watch[pid], w.loaded, acc, count);
  }

  lemma ParticularSeat(w: World, acc: Oracle, pid: Pid, conn: ConnId)
    requires WorldOk(w, acc) && pid in w.players && On(w, pid, conn)
    ensures SeatOk(w.players[pid], w.watch[pid], w.loaded, acc) && conn in w.connPid && w.connPid[conn] == pid
  {
    OnIff(w, pid, conn);
  }

  lemma TrimToCount(p: LobbyPlayer, o: Observer, loaded: bool, acc: Oracle, count: nat)
    requires SeatOk(p, o, loaded, acc)
    requires
      var oldest := |o.log| - |p.gproxyBuffer|;
      oldest <= count <= |o.log| && oldest / U32_SIZE == count / U32_SIZE
    ensures Trim(p, count % U32_SIZE).gproxyBuffer == o.log[count..]
  {
    hide LinkOk, FromOracle, Total, Drained, TrimCount;
    TrimExactIffNoWrap(|o.log|, |p.gproxyBuffer|, count);
    var oldest := |o.log| - |p.gproxyBuffer|;
    assert o.log[oldest..][count - oldest..] == o.log[count..];
  }
}
