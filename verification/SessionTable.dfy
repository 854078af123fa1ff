/**
 What every event of a session keeps, with no assumption about the network or the clients: the
 connection table names exactly the live sockets, and each GProxy++ buffer is the tail of the log.
 */
module SessionTable {
  import opened Bytes
  import opened Session

  // ---- the connection table ----

  /** Live connections have been issued, and those in the table lead to their player. */
  ghost predicate EntriesOk(w: World) {
    && (forall c :: c in w.conns ==> c < w.nextConn)
    && (forall c :: c in w.connPid ==>
          c in w.conns && w.connPid[c] in w.players && w.players[w.connPid[c]].connId == c)
  }

  /** No two players were given the same connection. */
  ghost predicate IdsOk(w: World) {
    && (forall p :: p in w.players ==> w.players[p].connId < w.nextConn)
    && (forall p, q :: p in w.players && q in w.players && p != q ==>
          w.players[p].connId != w.players[q].connId)
  }

  /** A player is in the table unless disconnected, and then the connection is gone. */
  ghost predicate ListedOk(w: World) {
    && (forall p :: p in w.players ==>
          (!w.players[p].gproxyDisconnected <==> w.players[p].connId in w.connPid))
    && (forall p :: p in w.players && w.players[p].gproxyDisconnected ==> w.players[p].connId !in w.conns)
  }

  ghost predicate TableOk(w: World) {
    EntriesOk(w) && IdsOk(w) && ListedOk(w)
  }

  // ---- one player's buffer and socket ----

  /** Attempts are made at strictly rising log positions; until one is refused they leave no gap,
      and a connected player has then been offered everything up to the end of the log. */
  ghost predicate LinkOk(l: Link, logged: nat, disconnected: bool) {
    && |l.offered| == |l.outcomes|
    && 0 <= l.start <= logged
    && (forall i :: 0 <= i < |l.offered| ==> l.start <= l.offered[i] < logged)
    && (forall i, j :: 0 <= i < j < |l.offered| ==> l.offered[i] < l.offered[j])
    && (forall i :: 0 <= i < |l.offered| && false !in l.outcomes[..i] ==> l.offered[i] == l.start + i)
    && (false !in l.outcomes && !disconnected ==> l.start + |l.offered| == logged)
  }

  ghost predicate FromOracle(l: Link, acc: Oracle, conn: ConnId) {
    forall i :: 0 <= i < |l.outcomes| ==> l.outcomes[i] == acc(conn, i)
  }

  ghost predicate BufferOk(p: LobbyPlayer, log: seq<Packet>, loaded: bool) {
    && |p.gproxyBuffer| <= |log|
    && p.gproxyBuffer == log[|log| - |p.gproxyBuffer|..]
    && p.gproxyBufferBytes == Total(p.gproxyBuffer)
    && p.totalSent == |log| % U32_SIZE
    && (!(p.gproxy && loaded) ==> p.gproxyBuffer == [])
    && (p.gproxyDisconnected ==> p.gproxy && loaded)
  }

  ghost predicate SeatOk(p: LobbyPlayer, o: Observer, loaded: bool, acc: Oracle) {
    && BufferOk(p, o.log, loaded)
    && LinkOk(o.link, |o.log|, p.gproxyDisconnected)
    && FromOracle(o.link, acc, p.connId)
  }

  ghost predicate SeatsOk(w: World, acc: Oracle) {
    forall p :: p in w.players ==> SeatOk(w.players[p], w.watch[p], w.loaded, acc)
  }

  ghost predicate WorldOk(w: World, acc: Oracle) {
    TableOk(w) && SeatsOk(w, acc) && (w.loaded ==> w.started)
  }

  // ---- sums over buffers ----

  lemma {:induction false} TotalAppend(a: seq<Packet>, b: seq<Packet>)
    ensures Total(a + b) == Total(a) + Total(b)
  {
    if a == [] {
      assert a + b == b;
    } else {
      TotalAppend(a[1..], b);
      assert (a + b)[1..] == a[1..] + b;
    }
  }

  /** Where the running count is the true sum, saturation never bites. */
  lemma {:induction false} DrainedIsRest(a: seq<Packet>, b: seq<Packet>)
    ensures Drained(Total(a + b), a) == Total(b)
  {
    if a == [] {
      assert a + b == b;
    } else {
      DrainedIsRest(a[1..], b);
      assert (a + b)[1..] == a[1..] + b;
    }
  }

  // ---- the send hub keeps both ----

  lemma OfferKeepsLink(l: Link, logged: nat, ok: bool)
    requires LinkOk(l, logged, false)
    ensures LinkOk(Offer(l, logged, ok), logged + 1, false)
  {
    var m := Offer(l, logged, ok);
    forall i | 0 <= i < |m.offered| && false !in m.outcomes[..i] ensures m.offered[i] == m.start + i {
      assert m.outcomes[..i] == l.outcomes[..i];
      if i == |l.offered| { assert l.outcomes[..i] == l.outcomes; }
    }
    if false !in m.outcomes {
      assert m.outcomes[..|l.outcomes|] == l.outcomes;
    }
  }

  lemma CountedKeepsBuffer(p: LobbyPlayer, log: seq<Packet>, loaded: bool, pkt: Packet)
    requires BufferOk(p, log, loaded)
    ensures BufferOk(Counted(p, loaded, pkt), log + [pkt], loaded)
  {
    TotalAppend(p.gproxyBuffer, [pkt]);
    assert Total([pkt]) == |pkt|;
    hide Total;
    assert (log + [pkt])[|log| - |p.gproxyBuffer|..] == p.gproxyBuffer + [pkt];
  }

  lemma SentKeepsSeat(p: LobbyPlayer, o: Observer, loaded: bool, acc: Oracle, pkt: Packet)
    requires SeatOk(p, o, loaded, acc)
    ensures SeatOk(Counted(p, loaded, pkt), Watched(p, o, loaded, acc, pkt), loaded, acc)
  {
    hide BufferOk, LinkOk;
    CountedKeepsBuffer(p, o.log, loaded, pkt);
    if p.gproxyDisconnected {
      UnofferedKeepsLink(o.link, |o.log|);
    } else {
      OfferKeepsLink(o.link, |o.log|, Accepts(p, o, acc));
    }
  }

  lemma UnofferedKeepsLink(l: Link, logged: nat)
    requires LinkOk(l, logged, true)
    ensures LinkOk(l, logged + 1, true)
  {}

  lemma SendKeepsSeats(w: World, acc: Oracle, pid: Pid, pkt: Packet)
    requires SeatsOk(w, acc)
    ensures SeatsOk(SendToPid(w, acc, pid, pkt), acc)
  {
    hide SeatOk;
    if pid in w.players { SentKeepsSeat(w.players[pid], w.watch[pid], w.loaded, acc, pkt); }
  }

  /** Everything about a player but what sending changes. */
  function Standing(p: LobbyPlayer): (ConnId, bool, bool, U32, U32, nat) {
    (p.connId, p.gproxy, p.gproxyDisconnected, p.gproxyKey, p.totalReceived, p.disconnectTime)
  }

  /** A broadcast changes no connection, and no player's standing. */
  ghost predicate SameTable(w: World, v: World) {
    && v.conns == w.conns && v.connPid == w.connPid && v.nextConn == w.nextConn
    && v.started == w.started && v.loaded == w.loaded && v.reconnectEnabled == w.reconnectEnabled
    && v.players.Keys == w.players.Keys
    && forall p :: p in w.players ==> Standing(v.players[p]) == Standing(w.players[p])
  }

  lemma SendKeepsTable(w: World, acc: Oracle, pid: Pid, pkt: Packet)
    ensures SameTable(w, SendToPid(w, acc, pid, pkt))
  {}

  /** As far as the table goes v is w. */
  ghost predicate SameShape(w: World, v: World) {
    && v.conns == w.conns && v.connPid == w.connPid && v.nextConn == w.nextConn && v.players.Keys == w.players.Keys
    && forall p :: p in w.players ==>
      v.players[p].connId == w.players[p].connId && v.players[p].gproxyDisconnected == w.players[p].gproxyDisconnected
  }

  lemma SameShapeOk(w: World, v: World)
    requires TableOk(w) && SameShape(w, v)
    ensures TableOk(v)
  {
    assert EntriesOk(v) by { hide IdsOk, ListedOk; }
    assert IdsOk(v) by { hide EntriesOk, ListedOk; }
    assert ListedOk(v) by { hide EntriesOk, IdsOk; }
    hide EntriesOk, IdsOk, ListedOk;
  }

  lemma SameTableOk(w: World, v: World)
    requires TableOk(w) && SameTable(w, v)
    ensures TableOk(v)
  {
    forall p | p in w.players
      ensures v.players[p].connId == w.players[p].connId
      ensures v.players[p].gproxyDisconnected == w.players[p].gproxyDisconnected
    {
      assert Standing(v.players[p]) == Standing(w.players[p]);
    }
    hide TableOk, Standing;
    SameShapeOk(w, v);
  }

  lemma {:induction false} BroadcastSeats(w: World, acc: Oracle, notices: Notices)
    requires SeatsOk(w, acc)
    ensures SeatsOk(Broadcast(w, acc, notices), acc)
  {
    hide SeatsOk;
    if notices != [] {
      var n := |notices| - 1;
      BroadcastSeats(w, acc, notices[..n]);
      SendKeepsSeats(Broadcast(w, acc, notices[..n]), acc, notices[n].0, notices[n].1);
    }
  }

  lemma {:induction false} BroadcastTable(w: World, acc: Oracle, notices: Notices)
    ensures SameTable(w, Broadcast(w, acc, notices))
  {
    if notices != [] {
      var n := |notices| - 1;
      BroadcastTable(w, acc, notices[..n]);
      SendKeepsTable(Broadcast(w, acc, notices[..n]), acc, notices[n].0, notices[n].1);
    }
  }

  lemma BroadcastKeeps(w: World, acc: Oracle, notices: Notices)
    requires SeatsOk(w, acc)
    ensures SeatsOk(Broadcast(w, acc, notices), acc)
    ensures SameTable(w, Broadcast(w, acc, notices))
    ensures TableOk(w) ==> TableOk(Broadcast(w, acc, notices))
  {
    BroadcastSeats(w, acc, notices);
    BroadcastTable(w, acc, notices);
    hide SeatsOk, SameTable, TableOk;
    if TableOk(w) { SameTableOk(w, Broadcast(w, acc, notices)); }
  }

  // ---- the other steps ----

  lemma TrimKeepsSeat(p: LobbyPlayer, o: Observer, loaded: bool, acc: Oracle, last: U32)
    requires SeatOk(p, o, loaded, acc)
    ensures SeatOk(Trim(p, last), o, loaded, acc)
  {
    var n := TrimCount(p.totalSent, |p.gproxyBuffer|, last);
    assert p.gproxyBuffer[..n] + p.gproxyBuffer[n..] == p.gproxyBuffer;
    DrainedIsRest(p.gproxyBuffer[..n], p.gproxyBuffer[n..]);
  }

  lemma {:induction false} ReplayedIsContiguous(from: nat, acc: Oracle, conn: ConnId, count: nat)
    ensures var l := Replayed(Link(from, [], []), acc, conn, count);
            && l.start == from && |l.offered| == |l.outcomes| <= count
            && FromOracle(l, acc, conn)
            && (forall i :: 0 <= i < |l.offered| ==> l.offered[i] == from + i)
            && (forall i :: 0 <= i < |l.outcomes| - 1 ==> l.outcomes[i])
            && (false !in l.outcomes ==> |l.offered| == count)
  {
    if count > 0 { ReplayedIsContiguous(from, acc, conn, count - 1); }
  }

  lemma {:induction false} WelcomeIsContiguous(acc: Oracle, conn: ConnId, count: nat)
    ensures var l := OfferAll(Link(0, [], []), acc, conn, count);
            && l.start == 0 && |l.offered| == |l.outcomes| == count
            && FromOracle(l, acc, conn)
            && forall i :: 0 <= i < count ==> l.offered[i] == i
  {
    if count > 0 { WelcomeIsContiguous(acc, conn, count - 1); }
  }

  /** Replacing one player by one in good order keeps all in good order. */
  lemma SeatChanged(w: World, v: World, acc: Oracle, pid: Pid)
    requires SeatsOk(w, acc) && v.loaded == w.loaded
    requires v.players.Keys <= w.players.Keys + {pid}
    requires pid in v.players ==> SeatOk(v.players[pid], v.watch[pid], v.loaded, acc)
    requires forall p :: p in v.players && p != pid ==> v.players[p] == w.players[p] && v.watch[p] == w.watch[p]
    ensures SeatsOk(v, acc)
  {
    hide SeatOk;
  }

  function Seated(w: World, conn: ConnId, pid: Pid, p: LobbyPlayer, o: Observer): World {
    w.(players := w.players[pid := p], watch := w.watch[pid := o], connPid := w.connPid[conn := pid])
  }

  lemma NewcomerSeat(acc: Oracle, conn: ConnId, key: U32, welcome: seq<Packet>)
    ensures SeatOk(Newcomer(conn, key, welcome), Onlooker(acc, conn, welcome), false, acc)
  {
    WelcomeIsContiguous(acc, conn, |welcome|);
  }

  lemma SeatedTable(w: World, conn: ConnId, pid: Pid, p: LobbyPlayer, o: Observer)
    requires TableOk(w) && conn in w.conns && conn !in w.connPid && pid !in w.players
    requires p.connId == conn && !p.gproxyDisconnected
    ensures TableOk(Seated(w, conn, pid, p, o))
  {
    NobodyHas(w, conn);
    SeatedEntries(w, conn, pid, p, o);
    SeatedIds(w, conn, pid, p, o);
    SeatedListed(w, conn, pid, p, o);
    hide EntriesOk, IdsOk, ListedOk, Seated;
  }

  lemma SeatedEntries(w: World, conn: ConnId, pid: Pid, p: LobbyPlayer, o: Observer)
    requires EntriesOk(w) && conn in w.conns && pid !in w.players && p.connId == conn
    ensures EntriesOk(Seated(w, conn, pid, p, o))
  {}

  lemma SeatedIds(w: World, conn: ConnId, pid: Pid, p: LobbyPlayer, o: Observer)
    requires IdsOk(w) && p.connId == conn < w.nextConn
    requires forall q :: q in w.players ==> w.players[q].connId != conn
    ensures IdsOk(Seated(w, conn, pid, p, o))
  {}

  lemma SeatedListed(w: World, conn: ConnId, pid: Pid, p: LobbyPlayer, o: Observer)
    requires ListedOk(w) && pid !in w.players && p.connId == conn && !p.gproxyDisconnected
    requires forall q :: q in w.players ==> w.players[q].connId != conn
    ensures ListedOk(Seated(w, conn, pid, p, o))
  {}

  lemma NobodyHas(w: World, conn: ConnId)
    requires ListedOk(w) && conn in w.conns && conn !in w.connPid
    ensures forall q :: q in w.players ==> w.players[q].connId != conn
  {
    forall q | q in w.players ensures w.players[q].connId != conn {
      assert w.players[q].gproxyDisconnected || w.players[q].connId in w.connPid;
    }
  }

  lemma JoinKeepsOk(w: World, acc: Oracle, conn: ConnId, pid: Pid, key: U32, welcome: seq<Packet>, notices: Notices)
    requires WorldOk(w, acc) && !w.started
    requires conn in w.conns && conn !in w.connPid && pid !in w.players
    ensures WorldOk(Joined(w, acc, conn, pid, key, welcome, notices), acc)
  {
    hide SeatOk, TableOk, OfferAll, Broadcast;
    var p, o := Newcomer(conn, key, welcome), Onlooker(acc, conn, welcome);
    var v := Seated(w, conn, pid, p, o);
    NewcomerSeat(acc, conn, key, welcome);
    SeatedTable(w, conn, pid, p, o);
    SeatChanged(w, v, acc, pid);
    BroadcastKeeps(v, acc, notices);
  }

  lemma RemoveKeepsOk(w: World, acc: Oracle, pid: Pid, notices: Notices)
    requires w.loaded ==> w.started
    requires SeatsOk(w, acc)
    requires pid in w.players && TableOk(Without(w, pid))
    ensures WorldOk(RemovePlayer(w, acc, pid, notices), acc)
  {
    hide SeatOk, TableOk, Broadcast;
    BroadcastKeeps(Without(w, pid), acc, notices);
  }

  /** Leaving the table in good order needs only the others to be in order: the leaver's own
      connection may already be gone. */
  lemma WithoutKeepsTable(w: World, v: World, pid: Pid)
    requires TableOk(w) && pid in w.players && v.players == w.players && v.nextConn == w.nextConn
    requires v.conns + {w.players[pid].connId} == w.conns + {w.players[pid].connId}
    requires v.connPid - {w.players[pid].connId} == w.connPid - {w.players[pid].connId}
    ensures TableOk(Without(v, pid))
  {
    hide TableOk;
    var conn := w.players[pid].connId;
    assert v.conns - {conn} == (v.conns + {conn}) - {conn} == (w.conns + {conn}) - {conn} == w.conns - {conn};
    WithoutTableParts(w, Without(v, pid), pid);
  }

  /** u is w without a player and their connection. */
  ghost predicate LeftTable(w: World, u: World, pid: Pid)
    requires pid in w.players
  {
    var conn := w.players[pid].connId;
    && u.players == w.players - {pid} && u.nextConn == w.nextConn
    && u.conns == w.conns - {conn} && u.connPid == w.connPid - {conn}
  }

  lemma WithoutTableParts(w: World, u: World, pid: Pid)
    requires TableOk(w) && pid in w.players && LeftTable(w, u, pid)
    ensures TableOk(u)
  {
    WithoutEntries(w, u, pid);
    WithoutIds(w, u, pid);
    WithoutListed(w, u, pid);
    hide EntriesOk, IdsOk, ListedOk, LeftTable;
  }

  lemma WithoutEntries(w: World, u: World, pid: Pid)
    requires EntriesOk(w) && pid in w.players && LeftTable(w, u, pid)
    ensures EntriesOk(u)
  {
    forall c | c in u.connPid ensures c in w.connPid && u.connPid[c] == w.connPid[c] && u.connPid[c] != pid {}
  }

  lemma WithoutIds(w: World, u: World, pid: Pid)
    requires IdsOk(w) && pid in w.players && LeftTable(w, u, pid)
    ensures IdsOk(u)
  {
    forall p | p in u.players ensures p in w.players && u.players[p] == w.players[p] {}
  }

  lemma WithoutListed(w: World, u: World, pid: Pid)
    requires IdsOk(w) && ListedOk(w) && pid in w.players && LeftTable(w, u, pid)
    ensures ListedOk(u)
  {
    forall p | p in u.players ensures p in w.players && u.players[p] == w.players[p] && p != pid {}
  }

  lemma HeldSeat(p: LobbyPlayer, o: Observer, loaded: bool, acc: Oracle, now: nat)
    requires SeatOk(p, o, loaded, acc) && p.gproxy && loaded
    ensures SeatOk(Held(p, now), o, loaded, acc)
  {}

  /** Holding a player takes their socket off the table. */
  function HeldAt(w: World, pid: Pid, now: nat): World
    requires pid in w.players
  {
    var conn := w.players[pid].connId;
    w.(conns := w.conns - {conn}, connPid := w.connPid - {conn},
       players := w.players[pid := Held(w.players[pid], now)])
  }

  lemma HeldTable(w: World, pid: Pid, now: nat)
    requires TableOk(w) && pid in w.players
    ensures TableOk(HeldAt(w, pid, now))
  {
    hide TableOk;
    HeldUnlisted(w, pid, now);
    HeldTableParts(w, HeldAt(w, pid, now), pid);
  }

  lemma HeldUnlisted(w: World, pid: Pid, now: nat)
    requires pid in w.players
    ensures OffTable(w, HeldAt(w, pid, now), pid)
  {
    hide TableOk;
  }

  /** v is w with one player's connection out of the table and the player marked disconnected. */
  ghost predicate OffTable(w: World, v: World, pid: Pid)
    requires pid in w.players
  {
    var conn := w.players[pid].connId;
    && v.players.Keys == w.players.Keys && v.nextConn == w.nextConn
    && v.conns == w.conns - {conn} && v.connPid == w.connPid - {conn}
    && v.players[pid].connId == conn && v.players[pid].gproxyDisconnected
    && forall p :: p in w.players && p != pid ==> v.players[p] == w.players[p]
  }

  lemma HeldTableParts(w: World, v: World, pid: Pid)
    requires TableOk(w) && pid in w.players && OffTable(w, v, pid)
    ensures TableOk(v)
  {
    HeldEntries(w, v, pid);
    HeldIds(w, v, pid);
    HeldListed(w, v, pid);
    hide EntriesOk, IdsOk, ListedOk, OffTable;
  }

  lemma HeldEntries(w: World, v: World, pid: Pid)
    requires EntriesOk(w) && pid in w.players && OffTable(w, v, pid)
    ensures EntriesOk(v)
  {
    forall c | c in v.connPid ensures c in w.connPid && v.connPid[c] == w.connPid[c] {}
  }

  lemma HeldIds(w: World, v: World, pid: Pid)
    requires IdsOk(w) && pid in w.players && OffTable(w, v, pid)
    ensures IdsOk(v)
  {
    assert forall p :: p in v.players ==> v.players[p].connId == w.players[p].connId;
  }

  lemma HeldListed(w: World, v: World, pid: Pid)
    requires IdsOk(w) && ListedOk(w) && pid in w.players && OffTable(w, v, pid)
    ensures ListedOk(v)
  {
    assert forall p :: p in v.players && p != pid ==> w.players[p].connId != w.players[pid].connId;
  }

  lemma HoldKeepsOk(w: World, acc: Oracle, pid: Pid, now: nat, notices: Notices)
    requires WorldOk(w, acc) && pid in w.players && w.players[pid].gproxy && w.loaded
    ensures WorldOk(Broadcast(HeldAt(w, pid, now), acc, notices), acc)
  {
    hide SeatOk, TableOk, Broadcast;
    HeldSeat(w.players[pid], w.watch[pid], w.loaded, acc, now);
    HeldTable(w, pid, now);
    SeatChanged(w, HeldAt(w, pid, now), acc, pid);
    BroadcastKeeps(HeldAt(w, pid, now), acc, notices);
  }

  /** A connection no player uses can go without a trace. */
  lemma UnusedConnection(w: World, conn: ConnId)
    requires TableOk(w) && conn !in w.connPid
    ensures TableOk(w.(conns := w.conns - {conn}))
  {}

  lemma CloseKeepsOk(w: World, acc: Oracle, conn: ConnId, now: nat, notices: Notices)
    requires WorldOk(w, acc)
    ensures WorldOk(ConnClosed(w, acc, conn, now, notices), acc)
  {
    hide SeatOk, Broadcast;
    var v := w.(conns := w.conns - {conn}, connPid := w.connPid - {conn});
    if conn in w.connPid {
      var pid := w.connPid[conn];
      assert conn == w.players[pid].connId;
      if w.loaded && w.reconnectEnabled && w.players[pid].gproxy {
        HoldKeepsOk(w, acc, pid, now, notices);
      } else {
        WithoutKeepsTable(w, v, pid);
        RemoveKeepsOk(v, acc, pid, notices);
      }
    } else {
      assert w.connPid - {conn} == w.connPid;
      UnusedConnection(w, conn);
    }
  }

  lemma PlayerUpdated(w: World, pid: Pid, q: LobbyPlayer)
    requires TableOk(w) && pid in w.players
    requires q.connId == w.players[pid].connId && q.gproxyDisconnected == w.players[pid].gproxyDisconnected
    ensures TableOk(w.(players := w.players[pid := q]))
  {
    hide TableOk;
    SameShapeOk(w, w.(players := w.players[pid := q]));
  }

  lemma FramedSeat(p: LobbyPlayer, o: Observer, loaded: bool, acc: Oracle, kind: FrameKind, reconnectEnabled: bool)
    requires SeatOk(p, o, loaded, acc)
    ensures SeatOk(Framed(p, kind, reconnectEnabled), o, loaded, acc)
  {
    match kind
    case GpsAck(last) => TrimKeepsSeat(p, o, loaded, acc, last);
    case _ =>
  }

  lemma LeaverKeepsOk(w: World, acc: Oracle, pid: Pid, notices: Notices)
    requires WorldOk(w, acc) && pid in w.players
    ensures WorldOk(RemovePlayer(w, acc, pid, notices), acc)
  {
    hide SeatsOk, TableOk, Broadcast;
    WithoutKeepsTable(w, w, pid);
    RemoveKeepsOk(w, acc, pid, notices);
  }

  lemma FrameKeepsOk(w: World, acc: Oracle, conn: ConnId, kind: FrameKind, notices: Notices)
    requires WorldOk(w, acc)
    ensures WorldOk(FrameOf(w, acc, conn, kind, notices), acc)
  {
    hide SeatOk, RemovePlayer, TableOk, Framed;
    if conn in w.connPid && w.connPid[conn] in w.players {
      var pid := w.connPid[conn];
      var p := w.players[pid];
      var q := Framed(p, kind, w.reconnectEnabled);
      FramedStanding(p, kind, w.reconnectEnabled);
      FramedSeat(p, w.watch[pid], w.loaded, acc, kind, w.reconnectEnabled);
      var v := w.(players := w.players[pid := q]);
      PlayerUpdated(w, pid, q);
      SeatChanged(w, v, acc, pid);
      if kind == LeaveGame { LeaverKeepsOk(v, acc, pid, notices); }
    }
  }

  lemma FramedStanding(p: LobbyPlayer, kind: FrameKind, reconnectEnabled: bool)
    ensures var q := Framed(p, kind, reconnectEnabled);
            q.connId == p.connId && q.gproxyDisconnected == p.gproxyDisconnected
  {}

  lemma FreshLinkOk(from: nat, logged: nat, acc: Oracle, conn: ConnId)
    requires from <= logged
    ensures var l := Replayed(Link(from, [], []), acc, conn, logged - from);
            LinkOk(l, logged, false) && FromOracle(l, acc, conn)
  {
    ReplayedIsContiguous(from, acc, conn, logged - from);
  }

  function OnNewConnection(p: LobbyPlayer, id: ConnId): LobbyPlayer {
    p.(connId := id, gproxyDisconnected := false, disconnectTime := 0)
  }

  lemma TrimOnNewConnection(p: LobbyPlayer, id: ConnId, last: U32)
    ensures Trim(OnNewConnection(p, id), last) == OnNewConnection(Trim(p, last), id)
  {
    hide Drained;
  }

  lemma SwappedSeat(w: World, acc: Oracle, pid: Pid, last: U32)
    requires pid in w.players && SeatOk(w.players[pid], w.watch[pid], w.loaded, acc)
    ensures var v := Swapped(w, acc, pid, last); SeatOk(v.players[pid], v.watch[pid], w.loaded, acc)
  {
    hide LinkOk, FromOracle, Replayed, Trim;
    var p, o, id := w.players[pid], w.watch[pid], w.nextConn;
    TrimKeepsSeat(p, o, w.loaded, acc, last);
    TrimOnNewConnection(p, id, last);
    FreshLinkOk(|o.log| - |Trim(p, last).gproxyBuffer|, |o.log|, acc, id);
  }

  lemma SwappedTable(w: World, acc: Oracle, pid: Pid, last: U32)
    requires TableOk(w) && pid in w.players
    ensures TableOk(Swapped(w, acc, pid, last))
  {
    SwappedOthers(w, acc, pid, last);
    SwappedEntries(w, acc, pid, last);
    hide Swapped;
    NewEntryKeepsTable(w, Swapped(w, acc, pid, last), pid);
  }

  lemma SwappedEntries(w: World, acc: Oracle, pid: Pid, last: U32)
    requires pid in w.players
    ensures
      var v, conn, id := Swapped(w, acc, pid, last), w.players[pid].connId, w.nextConn;
      && v.nextConn == id + 1 && v.conns == w.conns - {conn} + {id} && v.connPid == (w.connPid - {conn})[id := pid]
      && v.players[pid].connId == id && !v.players[pid].gproxyDisconnected
  {
    hide Replayed, Drained, TrimCount;
  }

  /** The player is on a connection nobody had before, and everyone else where they were. */
  ghost predicate NewEntry(w: World, v: World, pid: Pid) {
    && pid in w.players && v.players.Keys == w.players.Keys
    && var conn, id := w.players[pid].connId, w.nextConn;
    && v.nextConn == id + 1 && v.conns == w.conns - {conn} + {id} && v.connPid == (w.connPid - {conn})[id := pid]
    && v.players[pid].connId == id && !v.players[pid].gproxyDisconnected
    && forall p :: p in w.players && p != pid ==> v.players[p] == w.players[p]
  }

  lemma NewEntryIds(w: World, v: World, pid: Pid)
    requires IdsOk(w) && NewEntry(w, v, pid)
    ensures IdsOk(v)
  {
    forall p | p in w.players && p != pid ensures v.players[p].connId == w.players[p].connId < w.nextConn {}
  }

  lemma NewEntryConns(w: World, v: World, pid: Pid)
    requires EntriesOk(w) && NewEntry(w, v, pid)
    ensures EntriesOk(v)
  {
    forall c | c in v.connPid
      ensures c in v.conns && v.connPid[c] in v.players && v.players[v.connPid[c]].connId == c
    {
      assert c != w.nextConn ==> c in w.connPid && v.connPid[c] == w.connPid[c] && v.connPid[c] != pid;
    }
  }

  lemma NewEntryListed(w: World, v: World, pid: Pid)
    requires IdsOk(w) && ListedOk(w) && NewEntry(w, v, pid)
    ensures ListedOk(v)
  {
    var conn, id := w.players[pid].connId, w.nextConn;
    forall p | p in v.players
      ensures !v.players[p].gproxyDisconnected <==> v.players[p].connId in v.connPid
      ensures v.players[p].gproxyDisconnected ==> v.players[p].connId !in v.conns
    {
      assert p != pid ==> w.players[p].connId != conn && w.players[p].connId < id;
    }
  }

  /** Moving a player to a connection nobody had before keeps the table in order. */
  lemma NewEntryKeepsTable(w: World, v: World, pid: Pid)
    requires TableOk(w) && NewEntry(w, v, pid)
    ensures TableOk(v)
  {
    hide NewEntry, EntriesOk, IdsOk, ListedOk;
    NewEntryIds(w, v, pid);
    NewEntryConns(w, v, pid);
    NewEntryListed(w, v, pid);
  }

  /** The table does not read the phase of the game, nor who is waiting to be dropped. */
  lemma PhaseIgnored(w: World, pending: seq<Pid>, started: bool, loaded: bool)
    ensures TableOk(w) ==> TableOk(w.(pendingDrop := pending, started := started, loaded := loaded))
  {}

  lemma SwappedOthers(w: World, acc: Oracle, pid: Pid, last: U32)
    requires pid in w.players
    ensures var v := Swapped(w, acc, pid, last);
            && v.loaded == w.loaded && v.started == w.started && v.players.Keys == w.players.Keys
            && forall p :: p in w.players && p != pid ==> v.players[p] == w.players[p] && v.watch[p] == w.watch[p]
  {
    hide Trim, Replayed;
  }

  lemma ReconnectKeepsOk(w: World, acc: Oracle, pid: Pid, key: U32, last: U32, notices: Notices)
    requires WorldOk(w, acc)
    ensures WorldOk(Reconnected(w, acc, pid, key, last, notices), acc)
  {
    if MayReconnect(w, pid, key) {
      hide SeatOk, TableOk, Broadcast;
      SwappedSeat(w, acc, pid, last);
      SwappedTable(w, acc, pid, last);
      var v := Swapped(w, acc, pid, last);
      SwappedOthers(w, acc, pid, last);
      hide Swapped;
      SeatChanged(w, v, acc, pid);
      if false in v.watch[pid].link.outcomes {
        PhaseIgnored(v, v.pendingDrop + [pid], v.started, v.loaded);
      } else {
        BroadcastKeeps(v, acc, notices);
      }
    }
  }

  lemma WithoutSame(v: World, u: World, pid: Pid)
    requires SameTable(v, u) && pid in v.players && TableOk(Without(v, pid))
    ensures TableOk(Without(u, pid))
  {
    assert Standing(u.players[pid]) == Standing(v.players[pid]);
    SameTableOk(Without(v, pid), Without(u, pid));
  }

  lemma DroppedKeepsOk(w: World, acc: Oracle, pid: Pid, chat: Notices, leave: Notices)
    requires WorldOk(w, acc) && pid in w.players
    ensures
      var v := w.(conns := w.conns - {w.players[pid].connId});
      WorldOk(RemovePlayer(Broadcast(v, acc, chat), acc, pid, leave), acc)
  {
    hide SeatOk, TableOk, Broadcast, RemovePlayer;
    var v := w.(conns := w.conns - {w.players[pid].connId});
    BroadcastKeeps(v, acc, chat);
    WithoutKeepsTable(w, v, pid);
    WithoutSame(v, Broadcast(v, acc, chat), pid);
    RemoveKeepsOk(Broadcast(v, acc, chat), acc, pid, leave);
  }

  lemma RetireKeepsOk(w: World, acc: Oracle, pid: Pid, now: nat, chat: Notices, leave: Notices)
    requires WorldOk(w, acc)
    ensures WorldOk(Retired(w, acc, pid, now, chat, leave), acc)
  {
    hide WorldOk, Broadcast, RemovePlayer;
    if pid in w.players && !w.players[pid].gproxyDisconnected {
      if w.players[pid].gproxy && w.loaded && w.reconnectEnabled {
        HoldKeepsOk(w, acc, pid, now, chat);
      } else {
        DroppedKeepsOk(w, acc, pid, chat, leave);
      }
    }
  }

  lemma {:induction false} RetireAllKeepsOk(w: World, acc: Oracle, pids: seq<Pid>, now: nat,
                                            chat: Pid -> Notices, leave: Pid -> Notices)
    requires WorldOk(w, acc)
    ensures WorldOk(RetireAll(w, acc, pids, now, chat, leave), acc)
  {
    hide WorldOk, Retired;
    if pids != [] {
      var n := |pids| - 1;
      RetireAllKeepsOk(w, acc, pids[..n], now, chat, leave);
      RetireKeepsOk(RetireAll(w, acc, pids[..n], now, chat, leave), acc, pids[n], now, chat(pids[n]), leave(pids[n]));
    }
  }

  lemma LoadKeepsSeats(w: World, acc: Oracle)
    requires SeatsOk(w, acc)
    ensures SeatsOk(w.(loaded := true), acc)
  {
    forall p | p in w.players ensures SeatOk(w.players[p], w.watch[p], true, acc) {
      assert SeatOk(w.players[p], w.watch[p], w.loaded, acc);
      hide LinkOk;
    }
  }

  lemma DeliveredSeat(p: LobbyPlayer, o: Observer, loaded: bool, acc: Oracle)
    requires SeatOk(p, o, loaded, acc)
    ensures SeatOk(p, Delivered(o), loaded, acc)
  {
    hide BufferOk, LinkOk, Kept;
  }

  lemma ConnectKeepsTable(w: World)
    requires TableOk(w)
    ensures TableOk(NewConnection(w))
  {}

  function DeliveredTo(w: World, pid: Pid): World
    requires pid in w.players
  {
    w.(watch := w.watch[pid := Delivered(w.watch[pid])])
  }

  lemma DeliverKeepsOk(w: World, acc: Oracle, pid: Pid)
    requires WorldOk(w, acc) && pid in w.players
    ensures WorldOk(DeliveredTo(w, pid), acc)
  {
    hide SeatOk, Delivered, TableOk;
    DeliveredSeat(w.players[pid], w.watch[pid], w.loaded, acc);
    SeatChanged(w, DeliveredTo(w, pid), acc, pid);
    SameTableOk(w, DeliveredTo(w, pid));
  }

  lemma RemoveAnyKeepsOk(w: World, acc: Oracle, pid: Pid, notices: Notices)
    requires WorldOk(w, acc)
    ensures WorldOk(RemovePlayer(w, acc, pid, notices), acc)
  {
    hide WorldOk, Broadcast;
    if pid in w.players { LeaverKeepsOk(w, acc, pid, notices); }
  }

  /** No event of any kind, from any client, takes the session out of order. */
  lemma StepKeepsOk(w: World, acc: Oracle, ev: Event)
    requires WorldOk(w, acc)
    ensures WorldOk(Step(w, acc, ev), acc)
  {
    hide SeatOk, TableOk, Broadcast, Delivered, Joined, FrameOf, ConnClosed, Reconnected, RetireAll, RemovePlayer;
    match ev
    case Connect => ConnectKeepsTable(w);
    case Reject(conn) => if conn !in w.connPid { UnusedConnection(w, conn); }
    case Start => PhaseIgnored(w, w.pendingDrop, true, w.loaded);
    case Load =>
      PhaseIgnored(w, w.pendingDrop, w.started, true);
      LoadKeepsSeats(w, acc);
    case Join(conn, pid, key, slotInfo, host, infos, mapCheck, notices) =>
      if !w.started && conn in w.conns && conn !in w.connPid && pid !in w.players {
        JoinKeepsOk(w, acc, conn, pid, key, Welcome(slotInfo, host, infos, mapCheck), notices);
      }
    case Frame(conn, kind, notices) => FrameKeepsOk(w, acc, conn, kind, notices);
    case Close(conn, now, notices) => CloseKeepsOk(w, acc, conn, now, notices);
    case Send(notices) => BroadcastKeeps(w, acc, notices);
    case Remove(pid, notices) => RemoveAnyKeepsOk(w, acc, pid, notices);
    case Reconnect(pid, key, last, notices) => ReconnectKeepsOk(w, acc, pid, key, last, notices);
    case Retire(now, chat, leave) =>
      PhaseIgnored(w, [], w.started, w.loaded);
      RetireAllKeepsOk(w.(pendingDrop := []), acc, w.pendingDrop, now, chat, leave);
    case Deliver(pid) => if pid in w.players { DeliverKeepsOk(w, acc, pid); }
  }

  /** Over every run from a fresh lobby: the table names exactly the live sockets, and every
      GProxy++ buffer is the tail of that player's log. */
  lemma {:induction false} EveryRunIsOk(acc: Oracle, evs: seq<Event>, reconnectEnabled: bool)
    ensures WorldOk(Run(Fresh(reconnectEnabled), acc, evs), acc)
  {
    if evs != [] {
      var n := |evs| - 1;
      EveryRunIsOk(acc, evs[..n], reconnectEnabled);
      StepKeepsOk(Run(Fresh(reconnectEnabled), acc, evs[..n]), acc, evs[n]);
    }
  }

  /** Frames and the end of a socket that was replaced change nothing at all. */
  lemma StaleSocketIsInert(w: World, acc: Oracle, conn: ConnId, kind: FrameKind, now: nat, notices: Notices)
    requires WorldOk(w, acc) && conn !in w.conns
    ensures FrameOf(w, acc, conn, kind, notices) == w
    ensures ConnClosed(w, acc, conn, now, notices) == w
  {
    assert w.connPid - {conn} == w.connPid;
  }

  /** A socket that has left the table never comes back to it. */
  lemma {:induction false} BroadcastKeepsConns(w: World, acc: Oracle, notices: Notices)
    ensures Broadcast(w, acc, notices).conns == w.conns && Broadcast(w, acc, notices).nextConn == w.nextConn
  {
    BroadcastTable(w, acc, notices);
  }

  lemma {:induction false} RetireAllKeepsGone(w: World, acc: Oracle, pids: seq<Pid>, now: nat,
                                              chat: Pid -> Notices, leave: Pid -> Notices, conn: ConnId)
    requires conn !in w.conns
    ensures conn !in RetireAll(w, acc, pids, now, chat, leave).conns
    ensures RetireAll(w, acc, pids, now, chat, leave).nextConn == w.nextConn
  {
    hide Broadcast;
    if pids != [] {
      var n, pid := |pids| - 1, pids[|pids| - 1];
      RetireAllKeepsGone(w, acc, pids[..n], now, chat, leave, conn);
      var m := RetireAll(w, acc, pids[..n], now, chat, leave);
      if pid in m.players {
        var v := m.(conns := m.conns - {m.players[pid].connId});
        BroadcastKeepsConns(HeldAt(m, pid, now), acc, chat(pid));
        BroadcastKeepsConns(v, acc, chat(pid));
        var u := Broadcast(v, acc, chat(pid));
        if pid in u.players { BroadcastKeepsConns(Without(u, pid), acc, leave(pid)); }
      }
    }
  }

  lemma CloseKeepsGone(w: World, acc: Oracle, c: ConnId, now: nat, notices: Notices, conn: ConnId)
    requires conn !in w.conns
    ensures conn !in ConnClosed(w, acc, c, now, notices).conns
            && ConnClosed(w, acc, c, now, notices).nextConn == w.nextConn
  {
    hide Broadcast;
    var v := w.(conns := w.conns - {c}, connPid := w.connPid - {c});
    if c in w.connPid && w.connPid[c] in w.players {
      var pid := w.connPid[c];
      BroadcastKeepsConns(Without(v, pid), acc, notices);
      BroadcastKeepsConns(v.(players := w.players[pid := Held(w.players[pid], now)]), acc, notices);
    }
  }

  lemma FrameKeepsGone(w: World, acc: Oracle, c: ConnId, kind: FrameKind, notices: Notices, conn: ConnId)
    requires conn !in w.conns
    ensures conn !in FrameOf(w, acc, c, kind, notices).conns && FrameOf(w, acc, c, kind, notices).nextConn == w.nextConn
  {
    hide Broadcast, Framed;
    if c in w.connPid && w.connPid[c] in w.players {
      var v := w.(players := w.players[w.connPid[c] := Framed(w.players[w.connPid[c]], kind, w.reconnectEnabled)]);
      BroadcastKeepsConns(Without(v, w.connPid[c]), acc, notices);
    }
  }

  lemma GoneStaysGone(w: World, acc: Oracle, ev: Event, conn: ConnId)
    requires conn < w.nextConn && conn !in w.conns
    ensures conn < Step(w, acc, ev).nextConn && conn !in Step(w, acc, ev).conns
  {
    hide Broadcast, RetireAll, Replayed, Trim, Delivered, FrameOf, ConnClosed;
    match ev
    case Join(c, pid, key, slotInfo, host, infos, mapCheck, notices) =>
      var welcome := Welcome(slotInfo, host, infos, mapCheck);
      BroadcastKeepsConns(Seated(w, c, pid, Newcomer(c, key, welcome), Onlooker(acc, c, welcome)), acc, notices);
    case Frame(c, kind, notices) => FrameKeepsGone(w, acc, c, kind, notices, conn);
    case Close(c, now, notices) => CloseKeepsGone(w, acc, c, now, notices, conn);
    case Send(notices) => BroadcastKeepsConns(w, acc, notices);
    case Remove(pid, notices) => if pid in w.players { BroadcastKeepsConns(Without(w, pid), acc, notices); }
    case Reconnect(pid, key, last, notices) =>
      if MayReconnect(w, pid, key) { BroadcastKeepsConns(Swapped(w, acc, pid, last), acc, notices); }
    case Retire(now, chat, leave) =>
      RetireAllKeepsGone(w.(pendingDrop := []), acc, w.pendingDrop, now, chat, leave, conn);
    case _ =>
  }

  /** From a reconnect on, whatever else happens, the socket it replaced can change no player. */
  lemma {:induction false} ReplacedSocketIsInertForever(
    w: World, acc: Oracle, pid: Pid, key: U32, last: U32, notices: Notices, later: seq<Event>,
    kind: FrameKind, now: nat, more: Notices)
    requires WorldOk(w, acc) && MayReconnect(w, pid, key)
    ensures var v := Run(Reconnected(w, acc, pid, key, last, notices), acc, later);
            var conn := w.players[pid].connId;
            && WorldOk(v, acc) && conn < v.nextConn && conn !in v.conns
            && FrameOf(v, acc, conn, kind, more) == v && ConnClosed(v, acc, conn, now, more) == v
    decreases |later|
  {
    hide SeatsOk, SeatOk, Step;
    var u := Reconnected(w, acc, pid, key, last, notices);
    var conn := w.players[pid].connId;
    if later == [] {
      ReconnectKeepsOk(w, acc, pid, key, last, notices);
      BroadcastKeepsConns(Swapped(w, acc, pid, last), acc, notices);
      StaleSocketIsInert(u, acc, conn, kind, now, more);
    } else {
      var n := |later| - 1;
      ReplacedSocketIsInertForever(w, acc, pid, key, last, notices, later[..n], kind, now, more);
      var v := Run(u, acc, later[..n]);
      GoneStaysGone(v, acc, later[n], conn);
      StepKeepsOk(v, acc, later[n]);
      StaleSocketIsInert(Step(v, acc, later[n]), acc, conn, kind, now, more);
    }
  }

  /** total_received moves by one for a W3GS frame of the player's live connection, and for nothing
      else a client can send. */
  lemma OnlyLiveFramesCount(w: World, acc: Oracle, conn: ConnId, kind: FrameKind, notices: Notices, pid: Pid)
    requires WorldOk(w, acc) && pid in w.players && kind != LeaveGame
    ensures var v := FrameOf(w, acc, conn, kind, notices);
            pid in v.players &&
            v.players[pid].totalReceived ==
              if kind == W3gs && !w.players[pid].gproxyDisconnected && conn == w.players[pid].connId
              then (w.players[pid].totalReceived + 1) % U32_SIZE
              else w.players[pid].totalReceived
  {
    hide TableOk, SeatsOk, Framed;
    LiveConnection(w, conn, pid);
    if conn in w.connPid && w.connPid[conn] in w.players {
      FramedCount(w.players[w.connPid[conn]], kind, w.reconnectEnabled);
    }
  }

  /** The table leads from a connection to the player who is connected on it, and to nobody else. */
  lemma LiveConnection(w: World, conn: ConnId, pid: Pid)
    requires TableOk(w) && pid in w.players
    ensures conn in w.connPid && w.connPid[conn] == pid
            <==> !w.players[pid].gproxyDisconnected && conn == w.players[pid].connId
  {}

  lemma FramedCount(p: LobbyPlayer, kind: FrameKind, reconnectEnabled: bool)
    requires kind != LeaveGame
    ensures Framed(p, kind, reconnectEnabled).totalReceived
            == if kind == W3gs then (p.totalReceived + 1) % U32_SIZE else p.totalReceived
  {
    hide Drained, TrimCount;
  }
}
