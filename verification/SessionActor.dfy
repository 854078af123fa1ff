/** The session half of the game actor as it is written: fields updated in place, one player at a time. */
module SessionActor {
  import opened Bytes
  import S = Session

  class GameActor {
    const reconnectEnabled: bool
    /** What each try_send answers; see Session.Oracle. */
    const accepts: S.Oracle

    var started: bool
    var loaded: bool
    var conns: set<S.ConnId>
    var connPid: map<S.ConnId, S.Pid>
    var nextConn: S.ConnId
    var pendingDrop: seq<S.Pid>
    var players: map<S.Pid, S.LobbyPlayer>
    /** The model's record of what each socket was offered and each client read. */
    var watch: map<S.Pid, S.Observer>

    ghost predicate Valid() reads this { players.Keys == watch.Keys }

    ghost function State(): S.World
      reads this
      requires Valid()
    {
      S.Table(started, loaded, reconnectEnabled, conns, connPid, nextConn, pendingDrop, players, watch)
    }

    constructor (reconnectEnabled: bool, accepts: S.Oracle)
      ensures Valid() && State() == S.Fresh(reconnectEnabled) && this.accepts == accepts
    {
      this.reconnectEnabled := reconnectEnabled;
      this.accepts := accepts;
      started, loaded := false, false;
      conns, connPid, nextConn, pendingDrop := {}, map[], 1, [];
      players, watch := map[], map[];
    }

    method SendToPid(pid: S.Pid, data: S.Packet)
      requires Valid()
      modifies this
      ensures Valid() && State() == S.SendToPid(old(State()), accepts, pid, data)
    {
      if pid !in players { return; }
      var p, o := players[pid], watch[pid];
      p := p.(totalSent := (p.totalSent + 1) % U32_SIZE);
      o := o.(log := o.log + [data]);
      if p.gproxy && loaded {
        p := p.(gproxyBufferBytes := p.gproxyBufferBytes + |data|);
        p := p.(gproxyBuffer := p.gproxyBuffer + [data]);
      } else {
        o := o.(unbuffered := |o.log|);
      }
      if !p.gproxyDisconnected {
        var ok := accepts(p.connId, |o.link.offered|);
        o := o.(link := S.Offer(o.link, |o.log| - 1, ok));
        if !ok && pid !in pendingDrop {
          pendingDrop := pendingDrop + [pid];
        }
      }
      players, watch := players[pid := p], watch[pid := o];
    }

    method Broadcast(notices: S.Notices)
      requires Valid()
      modifies this
      ensures Valid() && State() == S.Broadcast(old(State()), accepts, notices)
    {
      for i := 0 to |notices|
        invariant Valid() && State() == S.Broadcast(old(State()), accepts, notices[..i])
      {
        SendToPid(notices[i].0, notices[i].1);
        assert notices[..i + 1][..i] == notices[..i];
      }
      assert notices[..|notices|] == notices;
    }

    /** trim_gproxy_buffer: pop the acknowledged packets off the front, one by one. */
    static method TrimGproxyBuffer(player: S.LobbyPlayer, last: U32) returns (p: S.LobbyPlayer)
      ensures p == S.Trim(player, last)
    {
      p := player;
      var already := (p.totalSent - |p.gproxyBuffer|) % U32_SIZE;
      if last > already {
        var n := if last - already <= |p.gproxyBuffer| then last - already else |p.gproxyBuffer|;
        var buf := player.gproxyBuffer;
        for i := 0 to n
          invariant p == player.(gproxyBuffer := buf[i..], gproxyBufferBytes := p.gproxyBufferBytes)
          invariant S.Drained(p.gproxyBufferBytes, buf[i..n]) == S.Drained(player.gproxyBufferBytes, buf[..n])
        {
          var pkt := p.gproxyBuffer[0];
          assert buf[i..n] == [pkt] + buf[i + 1..n];
          p := p.(gproxyBuffer := p.gproxyBuffer[1..],
                  gproxyBufferBytes := if |pkt| <= p.gproxyBufferBytes then p.gproxyBufferBytes - |pkt| else 0);
        }
      }
    }

    method RemovePlayer(pid: S.Pid, notices: S.Notices)
      requires Valid()
      modifies this
      ensures Valid() && State() == S.RemovePlayer(old(State()), accepts, pid, notices)
    {
      if pid !in players { return; }
      var conn := players[pid].connId;
      players, watch := players - {pid}, watch - {pid};
      connPid := connPid - {conn};
      conns := conns - {conn};
      Broadcast(notices);
    }

    method HandleConnClosed(conn: S.ConnId, now: nat, notices: S.Notices)
      requires Valid()
      modifies this
      ensures Valid() && State() == S.ConnClosed(old(State()), accepts, conn, now, notices)
    {
      conns := conns - {conn};
      if conn !in connPid {
        assert connPid - {conn} == connPid;
        return;
      }
      var pid := connPid[conn];
      connPid := connPid - {conn};
      if loaded && reconnectEnabled && pid in players {
        var p := players[pid];
        if p.gproxy && !p.gproxyDisconnected {
          players := players[pid := p.(gproxyDisconnected := true, disconnectTime := now)];
          Broadcast(notices);
          return;
        }
      }
      RemovePlayer(pid, notices);
    }

    method HandleFrame(conn: S.ConnId, kind: S.FrameKind, notices: S.Notices)
      requires Valid()
      modifies this
      ensures Valid() && State() == S.FrameOf(old(State()), accepts, conn, kind, notices)
    {
      if conn !in connPid || connPid[conn] !in players { return; }
      var pid := connPid[conn];
      var p := players[pid];
      match kind {
        case GpsInit => if reconnectEnabled { p := p.(gproxy := true); }
        case GpsAck(last) => p := TrimGproxyBuffer(p, last);
        case GpsOther =>
        case _ => p := p.(totalReceived := (p.totalReceived + 1) % U32_SIZE);
      }
      players := players[pid := p];
      if kind == S.LeaveGame { RemovePlayer(pid, notices); }
    }

    /** Swap in the new connection, trim to the client's report and replay the rest. */
    method SwapConnection(pid: S.Pid, last: U32) returns (replayed: bool)
      requires Valid() && pid in players
      modifies this
      ensures Valid() && State() == S.Swapped(old(State()), accepts, pid, last)
      ensures replayed == (false !in watch[pid].link.outcomes)
    {
      var p, o := players[pid], watch[pid];
      conns := conns - {p.connId};
      connPid := connPid - {p.connId};
      var id := nextConn;
      nextConn := nextConn + 1;
      conns := conns + {id};
      connPid := connPid[id := pid];
      p := TrimGproxyBuffer(p.(connId := id, gproxyDisconnected := false, disconnectTime := 0), last);
      hide S.Trim, S.Replayed;
      var link;
      link, replayed := ReplayBuffer(id, |o.log| - |p.gproxyBuffer|, p.gproxyBuffer);
      players, watch := players[pid := p], watch[pid := o.(link := link, read := 0)];
    }

    method HandleGproxyReconnect(pid: S.Pid, key: U32, last: U32, notices: S.Notices)
      requires Valid()
      modifies this
      ensures Valid() && State() == S.Reconnected(old(State()), accepts, pid, key, last, notices)
    {
      hide S.Swapped, S.Broadcast;
      if pid !in players || !players[pid].gproxy || players[pid].gproxyKey != key { return; }
      var replayed := SwapConnection(pid, last);
      if replayed {
        Broadcast(notices);
      } else {
        pendingDrop := pendingDrop + [pid];
      }
    }

    /** Push the whole buffer into the new socket, giving up at the first refusal. */
    method ReplayBuffer(id: S.ConnId, from: int, pending: seq<S.Packet>) returns (link: S.Link, replayed: bool)
      ensures link == S.Replayed(S.Link(from, [], []), accepts, id, |pending|)
      ensures replayed == (false !in link.outcomes)
    {
      link := S.Link(from, [], []);
      replayed := true;
      for i := 0 to |pending|
        invariant replayed && false !in link.outcomes && |link.offered| == i
        invariant link == S.Replayed(S.Link(from, [], []), accepts, id, i)
      {
        var ok := accepts(id, |link.offered|);
        link := S.Offer(link, link.start + |link.offered|, ok);
        if !ok {
          replayed := false;
          assert link.outcomes[|link.outcomes| - 1] == false;
          StoppedReplay(S.Link(from, [], []), accepts, id, i + 1, |pending|);
          return;
        }
      }
    }

    method ProcessPendingDrops(now: nat, chat: S.Pid -> S.Notices, leave: S.Pid -> S.Notices)
      requires Valid()
      modifies this
      ensures Valid() && State() == S.RetireAll(old(State()).(pendingDrop := []), accepts,
                                      old(pendingDrop), now, chat, leave)
    {
      hide S.Retired;
      var taken := pendingDrop;
      pendingDrop := [];
      ghost var w := State();
      for i := 0 to |taken|
        invariant Valid() && State() == S.RetireAll(w, accepts, taken[..i], now, chat, leave)
      {
        assert taken[..i + 1][..i] == taken[..i];
        Retire(taken[i], now, chat(taken[i]), leave(taken[i]));
      }
      assert taken[..|taken|] == taken;
    }

    method Retire(pid: S.Pid, now: nat, chat: S.Notices, leave: S.Notices)
      requires Valid()
      modifies this
      ensures Valid() && State() == S.Retired(old(State()), accepts, pid, now, chat, leave)
    {
      if pid !in players || players[pid].gproxyDisconnected { return; }
      var p := players[pid];
      var hold := p.gproxy && loaded && reconnectEnabled;
      if hold {
        players := players[pid := p.(gproxyDisconnected := true, disconnectTime := now)];
      }
      conns := conns - {p.connId};
      if hold {
        connPid := connPid - {p.connId};
        Broadcast(chat);
      } else {
        Broadcast(chat);
        RemovePlayer(pid, leave);
      }
    }

    /** The session part of handle_join: the direct sends before the player record exists are counted
        by formula, not one by one. */
    method HandleJoin(conn: S.ConnId, pid: S.Pid, key: U32, slotInfo: S.Packet, host: seq<S.Packet>,
                      infos: seq<S.Packet>, mapCheck: S.Packet, notices: S.Notices)
      requires Valid() && !started && conn in conns && conn !in connPid && pid !in players
      requires |host| <= 1 && |infos| == |players| && |players| <= 12
      modifies this
      ensures Valid()
      ensures State() == S.Joined(old(State()), accepts, conn, pid, key,
                                  S.Welcome(slotInfo, host, infos, mapCheck), notices)
    {
      hide S.Broadcast;
      var preSent := (if host != [] then 3 else 2) + |players|;
      var welcome := [slotInfo] + host + infos + [mapCheck];
      var link := S.Link(0, [], []);
      for i := 0 to |welcome|
        invariant link == S.OfferAll(S.Link(0, [], []), accepts, conn, i) && link.start == 0
      {
        link := S.Offer(link, i, accepts(conn, |link.offered|));
      }
      players := players[pid := S.LobbyPlayer(conn, false, false, key, [], 0, preSent, 1, 0)];
      watch := watch[pid := S.Observer(welcome, preSent, link, [], 0)];
      connPid := connPid[conn := pid];
      Broadcast(notices);
    }
  }

  /** A replay that met a refusal stays where it stopped. */
  lemma {:induction false} StoppedReplay(l: S.Link, acc: S.Oracle, conn: S.ConnId, i: nat, n: nat)
    requires i <= n && (i < n ==> false in S.Replayed(l, acc, conn, i).outcomes)
    ensures S.Replayed(l, acc, conn, n) == S.Replayed(l, acc, conn, i)
  {
    if i < n {
      StoppedReplay(l, acc, conn, i, n - 1);
    }
  }
}
