/**
 Reliable delivery: what a client accepts over any run of sends, acks, lost sockets, holds and
 reconnects is a prefix of the log the server kept for it. The conditions this needs are exact, and
 each has a lemma about what happens outside it.
 */
module SessionDelivery {
  import opened Bytes
  import opened Session
  import opened SessionTable

  // ---- one socket: no gap exactly while a refusal is final ----

  /** Once an attempt is refused, no later attempt on that socket is accepted. */
  ghost predicate RefusalIsFinal(outcomes: seq<bool>) {
    forall i, j :: 0 <= i < j < |outcomes| && outcomes[j] ==> outcomes[i]
  }

  /** The socket carries consecutive log positions from its start. */
  ghost predicate Gapless(l: Link)
    requires |l.offered| == |l.outcomes|
  {
    var kept := Kept(l.offered, l.outcomes);
    forall i :: 0 <= i < |kept| ==> kept[i] == l.start + i
  }

  lemma {:induction false} KeptAll(offered: seq<int>, outcomes: seq<bool>)
    requires |offered| == |outcomes| && false !in outcomes
    ensures Kept(offered, outcomes) == offered
  {
    if offered != [] {
      var n := |offered| - 1;
      assert outcomes[n];
      forall x | x in outcomes[..n] ensures x { assert x in outcomes; }
      KeptAll(offered[..n], outcomes[..n]);
    }
  }

  lemma {:induction false} KeptSplit(a: seq<int>, b: seq<int>, x: seq<bool>, y: seq<bool>)
    requires |a| == |x| && |b| == |y|
    ensures Kept(a + b, x + y) == Kept(a, x) + Kept(b, y)
  {
    if b == [] {
      assert a + b == a && x + y == x;
    } else {
      var n := |b| - 1;
      KeptSplit(a, b[..n], x, y[..n]);
      assert (a + b)[..|a| + n] == a + b[..n] && (x + y)[..|a| + n] == x + y[..n];
    }
  }

  lemma {:induction false} KeptNone(offered: seq<int>, outcomes: seq<bool>)
    requires |offered| == |outcomes| && true !in outcomes
    ensures Kept(offered, outcomes) == []
  {
    if offered != [] {
      var n := |offered| - 1;
      assert !outcomes[n];
      forall x | x in outcomes[..n] ensures !x { assert x in outcomes; }
      KeptNone(offered[..n], outcomes[..n]);
    }
  }

  /** Whatever survives was offered, so it lies beyond any bound all offers lie beyond. */
  lemma {:induction false} KeptAbove(offered: seq<int>, outcomes: seq<bool>, bound: int)
    requires |offered| == |outcomes|
    requires forall i :: 0 <= i < |offered| ==> bound < offered[i]
    requires true in outcomes
    ensures Kept(offered, outcomes) != [] && bound < Kept(offered, outcomes)[0]
  {
    var n := |offered| - 1;
    if true in outcomes[..n] {
      KeptAbove(offered[..n], outcomes[..n], bound);
    } else {
      KeptNone(offered[..n], outcomes[..n]);
      assert outcomes == outcomes[..n] + [outcomes[n]];
    }
  }

  /** The length of the run of acceptances a socket starts with. */
  function Accepted(outcomes: seq<bool>): (n: nat)
    ensures n <= |outcomes| && false !in outcomes[..n] && (n < |outcomes| ==> !outcomes[n])
  {
    if outcomes == [] || !outcomes[0] then 0
    else
      var n := 1 + Accepted(outcomes[1..]);
      assert outcomes[..n] == [true] + outcomes[1..][..n - 1];
      n
  }

  lemma SplitAtRefusal(l: Link, logged: nat, disconnected: bool, n: nat)
    requires LinkOk(l, logged, disconnected) && n == Accepted(l.outcomes)
    ensures Kept(l.offered, l.outcomes) == l.offered[..n] + Kept(l.offered[n..], l.outcomes[n..])
    ensures forall i :: 0 <= i < n ==> l.offered[i] == l.start + i
  {
    AcceptedSoFar(l.outcomes, n);
    assert forall i :: 0 <= i < n ==> l.offered[i] == l.start + i;
    hide LinkOk, Kept, Accepted;
    assert l.offered == l.offered[..n] + l.offered[n..] && l.outcomes == l.outcomes[..n] + l.outcomes[n..];
    KeptSplit(l.offered[..n], l.offered[n..], l.outcomes[..n], l.outcomes[n..]);
    KeptAll(l.offered[..n], l.outcomes[..n]);
  }

  lemma AcceptedSoFar(outcomes: seq<bool>, n: nat)
    requires n <= |outcomes| && false !in outcomes[..n]
    ensures forall i :: 0 <= i <= n ==> false !in outcomes[..i]
  {
    forall i, k | 0 <= i <= n && 0 <= k < i ensures outcomes[..i][k] { assert outcomes[..n][k]; }
  }

  /** An acceptance after a refusal leaves a hole at the refused position. */
  lemma LateAcceptanceLeavesGap(l: Link, logged: nat, disconnected: bool, j: nat)
    requires LinkOk(l, logged, disconnected)
    requires Accepted(l.outcomes) < j < |l.outcomes| && l.outcomes[j]
    ensures !Gapless(l)
  {
    var n := Accepted(l.outcomes);
    SplitAtRefusal(l, logged, disconnected, n);
    var b, y := l.offered[n..], l.outcomes[n..];
    assert false !in l.outcomes[..n];
    assert b[0] == l.start + n;
    assert forall k :: 0 < k < |b| ==> b[0] < b[k];
    hide LinkOk;
    RestAfterRefusal(b, y, j - n);
    assert Kept(l.offered, l.outcomes)[n] == Kept(b, y)[0];
  }

  lemma RestAfterRefusal(b: seq<int>, y: seq<bool>, j: nat)
    requires |b| == |y| && 0 < j < |y| && !y[0] && y[j]
    requires forall k :: 0 < k < |b| ==> b[0] < b[k]
    ensures Kept(b, y) != [] && b[0] < Kept(b, y)[0]
  {
    assert b == [b[0]] + b[1..] && y == [false] + y[1..] && y[1..][j - 1];
    KeptSplit([b[0]], b[1..], [false], y[1..]);
    KeptNone([b[0]], [false]);
    KeptAbove(b[1..], y[1..], b[0]);
  }

  lemma FinalRefusalLeavesNoGap(l: Link, logged: nat, disconnected: bool)
    requires LinkOk(l, logged, disconnected) && RefusalIsFinal(l.outcomes)
    ensures Gapless(l)
  {
    var n := Accepted(l.outcomes);
    SplitAtRefusal(l, logged, disconnected, n);
    hide LinkOk;
    KeptNone(l.offered[n..], l.outcomes[n..]);
  }

  /** A socket carries a gapless stretch of the log if and only if no attempt on it succeeds after
      one was refused. */
  lemma GaplessIffRefusalIsFinal(l: Link, logged: nat, disconnected: bool)
    requires LinkOk(l, logged, disconnected)
    ensures Gapless(l) <==> RefusalIsFinal(l.outcomes)
  {
    if RefusalIsFinal(l.outcomes) {
      FinalRefusalLeavesNoGap(l, logged, disconnected);
    } else {
      var i, j :| 0 <= i < j < |l.outcomes| && l.outcomes[j] && !l.outcomes[i];
      var n := Accepted(l.outcomes);
      assert forall k :: 0 <= k < n ==> l.outcomes[..n][k];
      hide LinkOk;
      LateAcceptanceLeavesGap(l, logged, disconnected, j);
    }
  }

  // ---- trimming to the client's report ----

  /** Trimming to a true report leaves exactly what the client lacks if and only if the count did not
      cross a multiple of 2^32 since the oldest buffered packet. */
  lemma TrimExactIffNoWrap(logged: nat, len: nat, got: nat)
    requires len <= logged && logged - len <= got <= logged
    ensures TrimCount(logged % U32_SIZE, len, got % U32_SIZE) == got - (logged - len)
       <==> got / U32_SIZE == (logged - len) / U32_SIZE
  {
    OldestIs(logged, len);
  }

  /** A report of `count`, cut to 32 bits, that does not trim past it: no multiple of 2^32 was crossed from
      the count to the oldest packet kept, or what is left of the count is not beyond that packet. */
  predicate StaysBehind(oldest: int, count: nat) {
    oldest / U32_SIZE <= count / U32_SIZE || count % U32_SIZE <= oldest % U32_SIZE
  }

  /** Trimming to a report of some count, however old, drops nothing past that count exactly then. */
  lemma TrimStaysBehindIff(logged: nat, len: nat, count: nat)
    requires 0 < len <= logged
    ensures
      var oldest := logged - len;
      oldest + TrimCount(logged % U32_SIZE, len, count % U32_SIZE) <= (if count > oldest then count else oldest)
      <==> StaysBehind(oldest, count)
  {
    OldestIs(logged, len);
  }

  lemma OldestIs(logged: nat, len: nat)
    requires len <= logged
    ensures (logged % U32_SIZE - len) % U32_SIZE == (logged - len) % U32_SIZE
  {
    var s := logged - len;
    assert logged % U32_SIZE - len == s - logged / U32_SIZE * U32_SIZE;
    ModShift(s, -(logged / U32_SIZE));
  }

  lemma ModShift(x: int, k: int)
    ensures (x + k * U32_SIZE) % U32_SIZE == x % U32_SIZE
  {}

  // ---- the stream ----

  /** The log position of the oldest packet a player's buffer keeps. */
  function Oldest(p: LobbyPlayer, o: Observer): int {
    |o.log| - |p.gproxyBuffer|
  }

  /** The client has read a prefix of the log, up to where it stands on its current socket, and the
      buffer reaches back that far, or to the first packet ever buffered. */
  ghost predicate StreamOk(p: LobbyPlayer, o: Observer) {
    && |o.link.offered| == |o.link.outcomes|
    && o.got <= o.log
    && |o.got| == o.link.start + o.read
    && o.read <= |Kept(o.link.offered, o.link.outcomes)|
    && o.unbuffered <= Oldest(p, o) <= (if o.unbuffered < |o.got| then |o.got| else o.unbuffered)
  }

  ghost predicate StreamsOk(w: World) {
    forall p :: p in w.players ==> StreamOk(w.players[p], w.watch[p])
  }

  /** A report, cut to 32 bits, of a count the client has had, and not one overtaken by a wrap. */
  ghost predicate TrueReport(p: LobbyPlayer, o: Observer, last: U32) {
    exists count: nat :: count <= |o.got| && last == count % U32_SIZE && StaysBehind(Oldest(p, o), count)
  }

  /** The clients count truly. Reports are of 32 bits: one a client comes back with must not be a multiple
      of 2^32 away from the oldest packet kept for it. */
  ghost predicate Truthful(w: World, ev: Event) {
    match ev
    case Frame(conn, GpsAck(last), _) =>
      conn in w.connPid && w.connPid[conn] in w.players ==>
        TrueReport(w.players[w.connPid[conn]], w.watch[w.connPid[conn]], last)
    case Reconnect(pid, key, last, _) =>
      MayReconnect(w, pid, key) ==>
        var p, o := w.players[pid], w.watch[pid];
        last == |o.got| % U32_SIZE && |o.got| / U32_SIZE == Oldest(p, o) / U32_SIZE
    case _ => true
  }

  ghost predicate TruthfulRun(w: World, acc: Oracle, evs: seq<Event>) {
    evs != [] ==>
      var n := |evs| - 1;
      TruthfulRun(w, acc, evs[..n]) && Truthful(Run(w, acc, evs[..n]), evs[n])
  }

  /** A client that comes back had read everything sent before buffering began: that much is kept nowhere. */
  ghost predicate HadUnbuffered(w: World, ev: Event) {
    match ev
    case Reconnect(pid, key, _, _) => MayReconnect(w, pid, key) ==> w.watch[pid].unbuffered <= |w.watch[pid].got|
    case _ => true
  }

  ghost predicate HadUnbufferedRun(w: World, acc: Oracle, evs: seq<Event>) {
    evs != [] ==>
      var n := |evs| - 1;
      HadUnbufferedRun(w, acc, evs[..n]) && HadUnbuffered(Run(w, acc, evs[..n]), evs[n])
  }

  /** So far no socket accepted anything after a refusal. */
  ghost predicate LinksSettled(w: World) {
    forall p :: p in w.players ==> RefusalIsFinal(w.watch[p].link.outcomes)
  }

  ghost predicate AlwaysSettled(w: World, acc: Oracle, evs: seq<Event>) {
    && LinksSettled(Run(w, acc, evs))
    && (evs != [] ==> AlwaysSettled(w, acc, evs[..|evs| - 1]))
  }

  lemma LinkIsGapless(p: LobbyPlayer, o: Observer, loaded: bool, acc: Oracle)
    requires SeatOk(p, o, loaded, acc) && RefusalIsFinal(o.link.outcomes)
    ensures Gapless(o.link)
  {
    hide BufferOk;
    GaplessIffRefusalIsFinal(o.link, |o.log|, p.gproxyDisconnected);
  }

  lemma {:induction false} KeptWithin(offered: seq<int>, outcomes: seq<bool>, bound: int)
    requires |offered| == |outcomes| && forall i :: 0 <= i < |offered| ==> 0 <= offered[i] < bound
    ensures forall i :: 0 <= i < |Kept(offered, outcomes)| ==> 0 <= Kept(offered, outcomes)[i] < bound
  {
    if offered != [] {
      var n := |offered| - 1;
      KeptWithin(offered[..n], outcomes[..n], bound);
    }
  }

  /** Reading the next packet extends the prefix by exactly one. */
  lemma DeliverKeepsStream(p: LobbyPlayer, o: Observer, loaded: bool, acc: Oracle)
    requires SeatOk(p, o, loaded, acc) && RefusalIsFinal(o.link.outcomes) && StreamOk(p, o)
    ensures StreamOk(p, Delivered(o))
    ensures o.read < |Kept(o.link.offered, o.link.outcomes)| ==>
              |o.got| < |o.log| && Delivered(o).got == o.log[..|o.got| + 1]
  {
    LinkIsGapless(p, o, loaded, acc);
    KeptWithin(o.link.offered, o.link.outcomes, |o.log|);
    hide BufferOk, FromOracle;
    var kept := Kept(o.link.offered, o.link.outcomes);
    if o.read < |kept| {
      assert kept[o.read] == |o.got|;
      assert o.log[..|o.got| + 1] == o.log[..|o.got|] + [o.log[|o.got|]];
    }
  }

  lemma SendKeepsStream(w: World, acc: Oracle, pid: Pid, pkt: Packet)
    requires StreamsOk(w) && SeatsOk(w, acc)
    ensures StreamsOk(SendToPid(w, acc, pid, pkt))
  {
    if pid in w.players {
      var p, o := w.players[pid], w.watch[pid];
      assert SeatOk(p, o, w.loaded, acc) && StreamOk(p, o);
      SentKeepsStream(p, o, w.loaded, acc, pkt);
      hide StreamOk, SeatOk;
    }
  }

  lemma SentKeepsStream(p: LobbyPlayer, o: Observer, loaded: bool, acc: Oracle, pkt: Packet)
    requires StreamOk(p, o) && SeatOk(p, o, loaded, acc)
    ensures StreamOk(Counted(p, loaded, pkt), Watched(p, o, loaded, acc, pkt))
  {
    hide LinkOk, FromOracle, Total;
    var v := Watched(p, o, loaded, acc, pkt);
    if !p.gproxyDisconnected {
      var l := o.link;
      assert v.link.offered[..|l.offered|] == l.offered && v.link.outcomes[..|l.offered|] == l.outcomes;
    }
  }

  lemma {:induction false} BroadcastKeepsStreams(w: World, acc: Oracle, notices: Notices)
    requires StreamsOk(w) && SeatsOk(w, acc)
    ensures StreamsOk(Broadcast(w, acc, notices))
  {
    hide StreamsOk, SeatsOk;
    if notices != [] {
      var n := |notices| - 1;
      BroadcastKeepsStreams(w, acc, notices[..n]);
      BroadcastSeats(w, acc, notices[..n]);
      SendKeepsStream(Broadcast(w, acc, notices[..n]), acc, notices[n].0, notices[n].1);
    }
  }

  lemma TrimKeepsStream(p: LobbyPlayer, o: Observer, loaded: bool, acc: Oracle, last: U32)
    requires StreamOk(p, o) && SeatOk(p, o, loaded, acc) && TrueReport(p, o, last)
    ensures StreamOk(Trim(p, last), o)
  {
    hide LinkOk, FromOracle, Total, Drained, Kept, StaysBehind;
    var oldest := Oldest(p, o);
    var count: nat :| count <= |o.got| && last == count % U32_SIZE && StaysBehind(oldest, count);
    if p.gproxyBuffer != [] { TrimStaysBehindIff(|o.log|, |p.gproxyBuffer|, count); }
  }

  /** A client that comes back and had everything unbuffered finds just what it lacks. */
  lemma TrimMeetsClient(p: LobbyPlayer, o: Observer, loaded: bool, acc: Oracle)
    requires StreamOk(p, o) && SeatOk(p, o, loaded, acc) && o.unbuffered <= |o.got|
    requires |o.got| / U32_SIZE == Oldest(p, o) / U32_SIZE
    ensures |Trim(p, |o.got| % U32_SIZE).gproxyBuffer| == |o.log| - |o.got|
    ensures StreamOk(Trim(p, |o.got| % U32_SIZE), o)
  {
    hide LinkOk, FromOracle, Total, Drained, Kept;
    TrimExactIffNoWrap(|o.log|, |p.gproxyBuffer|, |o.got|);
    hide TrimCount;
  }

  lemma OthersKeepStreams(w: World, v: World, pid: Pid)
    requires StreamsOk(w) && v.players.Keys <= w.players.Keys + {pid}
    requires pid in v.players ==> StreamOk(v.players[pid], v.watch[pid])
    requires forall p :: p in v.players && p != pid ==> v.players[p] == w.players[p] && v.watch[p] == w.watch[p]
    ensures StreamsOk(v)
  {
    hide StreamOk;
  }

  lemma JoinKeepsStreams(w: World, acc: Oracle, conn: ConnId, pid: Pid, key: U32,
                         welcome: seq<Packet>, notices: Notices)
    requires StreamsOk(w) && WorldOk(w, acc) && !w.started
    ensures StreamsOk(Joined(w, acc, conn, pid, key, welcome, notices))
  {
    hide SeatOk, StreamOk, TableOk, Broadcast;
    var p, o := Newcomer(conn, key, welcome), Onlooker(acc, conn, welcome);
    NewcomerSeat(acc, conn, key, welcome);
    NewcomerStream(acc, conn, key, welcome);
    var v := Seated(w, conn, pid, p, o);
    SeatChanged(w, v, acc, pid);
    OthersKeepStreams(w, v, pid);
    BroadcastKeepsStreams(v, acc, notices);
  }

  lemma NewcomerStream(acc: Oracle, conn: ConnId, key: U32, welcome: seq<Packet>)
    ensures StreamOk(Newcomer(conn, key, welcome), Onlooker(acc, conn, welcome))
  {
    hide Kept;
    WelcomeIsContiguous(acc, conn, |welcome|);
  }

  lemma LeaveKeepsStreams(w: World, acc: Oracle, pid: Pid, notices: Notices)
    requires StreamsOk(w) && SeatsOk(w, acc)
    ensures StreamsOk(RemovePlayer(w, acc, pid, notices))
    ensures SeatsOk(RemovePlayer(w, acc, pid, notices), acc)
  {
    hide SeatOk, StreamOk, Broadcast;
    if pid in w.players {
      var v := Without(w, pid);
      OthersKeepStreams(w, v, pid);
      SeatChanged(w, v, acc, pid);
      BroadcastKeepsStreams(v, acc, notices);
      BroadcastSeats(v, acc, notices);
    }
  }

  lemma HoldKeepsStreams(w: World, acc: Oracle, pid: Pid, now: nat, notices: Notices)
    requires StreamsOk(w) && SeatsOk(w, acc) && pid in w.players && w.players[pid].gproxy && w.loaded
    ensures StreamsOk(Broadcast(HeldAt(w, pid, now), acc, notices))
  {
    hide SeatOk, Broadcast, Kept;
    var v := HeldAt(w, pid, now);
    HeldSeat(w.players[pid], w.watch[pid], w.loaded, acc, now);
    SeatChanged(w, v, acc, pid);
    assert StreamOk(v.players[pid], v.watch[pid]);
    OthersKeepStreams(w, v, pid);
    BroadcastKeepsStreams(v, acc, notices);
  }

  lemma CloseKeepsStreams(w: World, acc: Oracle, conn: ConnId, now: nat, notices: Notices)
    requires StreamsOk(w) && WorldOk(w, acc)
    ensures StreamsOk(ConnClosed(w, acc, conn, now, notices))
  {
    hide SeatOk, StreamOk, Broadcast, RemovePlayer;
    if conn in w.connPid {
      var pid := w.connPid[conn];
      assert conn == w.players[pid].connId;
      hide TableOk;
      if w.loaded && w.reconnectEnabled && w.players[pid].gproxy && !w.players[pid].gproxyDisconnected {
        HoldKeepsStreams(w, acc, pid, now, notices);
      } else {
        LeaveKeepsStreams(w.(conns := w.conns - {conn}, connPid := w.connPid - {conn}), acc, pid, notices);
      }
    }
  }

  lemma FrameKeepsStreams(w: World, acc: Oracle, conn: ConnId, kind: FrameKind, notices: Notices)
    requires StreamsOk(w) && SeatsOk(w, acc) && Truthful(w, Frame(conn, kind, notices))
    ensures StreamsOk(FrameOf(w, acc, conn, kind, notices))
  {
    hide SeatOk, RemovePlayer, Kept;
    if conn in w.connPid && w.connPid[conn] in w.players {
      var pid := w.connPid[conn];
      var p, o := w.players[pid], w.watch[pid];
      var q := Framed(p, kind, w.reconnectEnabled);
      if kind.GpsAck? { TrimKeepsStream(p, o, w.loaded, acc, kind.last); }
      hide Trim;
      assert StreamOk(p, o);
      assert StreamOk(q, o);
      FramedSeat(p, o, w.loaded, acc, kind, w.reconnectEnabled);
      hide Framed, StreamOk;
      var v := w.(players := w.players[pid := q]);
      OthersKeepStreams(w, v, pid);
      SeatChanged(w, v, acc, pid);
      if kind == LeaveGame { LeaveKeepsStreams(v, acc, pid, notices); }
    }
  }

  lemma SwappedKeepsStream(w: World, acc: Oracle, pid: Pid, key: U32, last: U32, notices: Notices)
    requires StreamsOk(w) && SeatsOk(w, acc)
    requires MayReconnect(w, pid, key)
    requires Truthful(w, Reconnect(pid, key, last, notices)) && HadUnbuffered(w, Reconnect(pid, key, last, notices))
    ensures var v := Swapped(w, acc, pid, last);
            StreamOk(v.players[pid], v.watch[pid]) && SeatOk(v.players[pid], v.watch[pid], w.loaded, acc)
  {
    hide SeatOk, Replayed, Trim, Kept;
    var p, o, id := w.players[pid], w.watch[pid], w.nextConn;
    SwappedSeat(w, acc, pid, last);
    TrimMeetsClient(p, o, w.loaded, acc);
    TrimOnNewConnection(p, id, last);
    ReplayedIsContiguous(|o.got|, acc, id, |o.log| - |o.got|);
  }

  lemma ReconnectKeepsStreams(w: World, acc: Oracle, pid: Pid, key: U32, last: U32, notices: Notices)
    requires StreamsOk(w) && SeatsOk(w, acc)
    requires Truthful(w, Reconnect(pid, key, last, notices)) && HadUnbuffered(w, Reconnect(pid, key, last, notices))
    ensures StreamsOk(Reconnected(w, acc, pid, key, last, notices))
  {
    hide SeatOk, StreamOk, Broadcast;
    if MayReconnect(w, pid, key) {
      SwappedKeepsStream(w, acc, pid, key, last, notices);
      SwappedOthers(w, acc, pid, last);
      hide Swapped;
      var v := Swapped(w, acc, pid, last);
      OthersKeepStreams(w, v, pid);
      SeatChanged(w, v, acc, pid);
      if false !in v.watch[pid].link.outcomes { BroadcastKeepsStreams(v, acc, notices); }
    }
  }

  lemma RetireKeepsStreams(w: World, acc: Oracle, pid: Pid, now: nat, chat: Notices, leave: Notices)
    requires StreamsOk(w) && SeatsOk(w, acc)
    ensures StreamsOk(Retired(w, acc, pid, now, chat, leave))
  {
    hide SeatOk, StreamOk, Broadcast, RemovePlayer;
    if pid in w.players && !w.players[pid].gproxyDisconnected {
      var p := w.players[pid];
      var v := w.(conns := w.conns - {p.connId});
      if p.gproxy && w.loaded && w.reconnectEnabled {
        HoldKeepsStreams(w, acc, pid, now, chat);
      } else {
        BroadcastKeepsStreams(v, acc, chat);
        BroadcastSeats(v, acc, chat);
        LeaveKeepsStreams(Broadcast(v, acc, chat), acc, pid, leave);
      }
    }
  }

  lemma {:induction false} RetireAllKeepsStreams(w: World, acc: Oracle, pids: seq<Pid>, now: nat,
                                                 chat: Pid -> Notices, leave: Pid -> Notices)
    requires StreamsOk(w) && WorldOk(w, acc)
    ensures StreamsOk(RetireAll(w, acc, pids, now, chat, leave))
  {
    hide StreamsOk, SeatsOk, TableOk, Retired;
    if pids != [] {
      var n := |pids| - 1;
      RetireAllKeepsStreams(w, acc, pids[..n], now, chat, leave);
      RetireAllKeepsOk(w, acc, pids[..n], now, chat, leave);
      RetireKeepsStreams(RetireAll(w, acc, pids[..n], now, chat, leave), acc, pids[n], now,
                         chat(pids[n]), leave(pids[n]));
    }
  }

  lemma StepKeepsStreams(w: World, acc: Oracle, ev: Event)
    requires LinksSettled(w) && WorldOk(w, acc) && StreamsOk(w) && Truthful(w, ev) && HadUnbuffered(w, ev)
    ensures StreamsOk(Step(w, acc, ev))
  {
    hide SeatOk, StreamOk, TableOk, Broadcast, Delivered, Joined, FrameOf, ConnClosed,
         Reconnected, RetireAll, RemovePlayer;
    match ev
    case Join(conn, pid, key, slotInfo, host, infos, mapCheck, notices) =>
      if !w.started { JoinKeepsStreams(w, acc, conn, pid, key, Welcome(slotInfo, host, infos, mapCheck), notices); }
    case Frame(conn, kind, notices) => FrameKeepsStreams(w, acc, conn, kind, notices);
    case Close(conn, now, notices) => CloseKeepsStreams(w, acc, conn, now, notices);
    case Send(notices) => BroadcastKeepsStreams(w, acc, notices);
    case Remove(pid, notices) => LeaveKeepsStreams(w, acc, pid, notices);
    case Reconnect(pid, key, last, notices) => ReconnectKeepsStreams(w, acc, pid, key, last, notices);
    case Retire(now, chat, leave) =>
      PhaseIgnored(w, [], w.started, w.loaded);
      RetireAllKeepsStreams(w.(pendingDrop := []), acc, w.pendingDrop, now, chat, leave);
    case Deliver(pid) =>
      if pid in w.players {
        DeliverKeepsStream(w.players[pid], w.watch[pid], w.loaded, acc);
        OthersKeepStreams(w, Step(w, acc, ev), pid);
      }
    case _ =>
  }

  /** Over every run in which no socket accepts anything after a refusal, clients count truly and come back
      only with everything unbuffered in hand, what each client has accepted is a prefix of its log:
      nothing lost, repeated or out of order. */
  lemma {:induction false} SettledClientsReadAPrefix(acc: Oracle, evs: seq<Event>, reconnectEnabled: bool)
    requires AlwaysSettled(Fresh(reconnectEnabled), acc, evs)
    requires TruthfulRun(Fresh(reconnectEnabled), acc, evs) && HadUnbufferedRun(Fresh(reconnectEnabled), acc, evs)
    ensures var w := Run(Fresh(reconnectEnabled), acc, evs);
            forall p :: p in w.players ==> w.watch[p].got <= w.watch[p].log
    ensures StreamsOk(Run(Fresh(reconnectEnabled), acc, evs))
  {
    if evs != [] {
      var n := |evs| - 1;
      var w := Run(Fresh(reconnectEnabled), acc, evs[..n]);
      SettledClientsReadAPrefix(acc, evs[..n], reconnectEnabled);
      EveryRunIsOk(acc, evs[..n], reconnectEnabled);
      StepKeepsStreams(w, acc, evs[n]);
    }
  }

  /** The socket carries exactly the log positions from..to. */
  ghost predicate Carries(l: Link, from: int, to: int) {
    && |l.offered| == |l.outcomes|
    && var kept := Kept(l.offered, l.outcomes);
       |kept| == to - from && forall i :: 0 <= i < |kept| ==> kept[i] == from + i
  }

  lemma CompletedReplayCarries(from: nat, to: nat, acc: Oracle, id: ConnId)
    requires from <= to && false !in Replayed(Link(from, [], []), acc, id, to - from).outcomes
    ensures Carries(Replayed(Link(from, [], []), acc, id, to - from), from, to)
  {
    var l := Replayed(Link(from, [], []), acc, id, to - from);
    ReplayedIsContiguous(from, acc, id, to - from);
    KeptAll(l.offered, l.outcomes);
  }

  /** Where a reconnect starts: at the oldest buffered packet, or as far past it as the trim went. */
  lemma ReplayStarts(w: World, acc: Oracle, pid: Pid, last: U32)
    requires pid in w.players && BufferOk(w.players[pid], w.watch[pid].log, w.loaded)
    ensures
      var p, l := w.players[pid], Swapped(w, acc, pid, last).watch[pid].link;
      var n := TrimCount(p.totalSent, |p.gproxyBuffer|, last);
      && n <= |p.gproxyBuffer| && l.start == |w.watch[pid].log| - |p.gproxyBuffer| + n
      && (false !in l.outcomes ==> Carries(l, l.start, |w.watch[pid].log|))
  {
    hide Carries, Replayed, Total, Drained;
    var p, o, id := w.players[pid], w.watch[pid], w.nextConn;
    var q := Trim(OnNewConnection(p, id), last);
    var from := |o.log| - |q.gproxyBuffer|;
    ReplayedIsContiguous(from, acc, id, |q.gproxyBuffer|);
    if false !in Swapped(w, acc, pid, last).watch[pid].link.outcomes { CompletedReplayCarries(from, |o.log|, acc, id); }
  }

  /** A completed reconnect offers a client that holds `got` packets exactly those it lacks if and only if
      the buffer reaches back that far and no multiple of 2^32 lies between. */
  lemma ReconnectOffersMissingSuffix(w: World, acc: Oracle, pid: Pid, got: nat)
    requires pid in w.players && BufferOk(w.players[pid], w.watch[pid].log, w.loaded)
    requires got <= |w.watch[pid].log|
    requires false !in Swapped(w, acc, pid, got % U32_SIZE).watch[pid].link.outcomes
    ensures
      var oldest := |w.watch[pid].log| - |w.players[pid].gproxyBuffer|;
      Carries(Swapped(w, acc, pid, got % U32_SIZE).watch[pid].link, got, |w.watch[pid].log|)
      <==> oldest <= got && got / U32_SIZE == oldest / U32_SIZE
  {
    var p, logged := w.players[pid], |w.watch[pid].log|;
    var l := Swapped(w, acc, pid, got % U32_SIZE).watch[pid].link;
    hide Swapped, Carries, TrimCount;
    ReplayStarts(w, acc, pid, got % U32_SIZE);
    if logged - |p.gproxyBuffer| <= got { TrimExactIffNoWrap(logged, |p.gproxyBuffer|, got); }
    if l.start != got { NotBoth(l, got, l.start, logged); }
  }

  /** So after any run as in SettledClientsReadAPrefix, a client that counts truly and completes its
      reconnect finds just what it lacks if and only if it had everything sent before buffering began, and
      no multiple of 2^32 lies between its count and the oldest packet kept. */
  lemma RejoinsInStepIff(acc: Oracle, evs: seq<Event>, reconnectEnabled: bool, pid: Pid)
    requires AlwaysSettled(Fresh(reconnectEnabled), acc, evs)
    requires TruthfulRun(Fresh(reconnectEnabled), acc, evs) && HadUnbufferedRun(Fresh(reconnectEnabled), acc, evs)
    requires
      var w := Run(Fresh(reconnectEnabled), acc, evs);
      pid in w.players && false !in Swapped(w, acc, pid, |w.watch[pid].got| % U32_SIZE).watch[pid].link.outcomes
    ensures
      var w := Run(Fresh(reconnectEnabled), acc, evs);
      var p, o := w.players[pid], w.watch[pid];
      Carries(Swapped(w, acc, pid, |o.got| % U32_SIZE).watch[pid].link, |o.got|, |o.log|)
      <==> o.unbuffered <= |o.got| && |o.got| / U32_SIZE == Oldest(p, o) / U32_SIZE
  {
    hide Run, AlwaysSettled, TruthfulRun, HadUnbufferedRun, TableOk, SeatOk, StreamOk, Swapped, Carries;
    SettledClientsReadAPrefix(acc, evs, reconnectEnabled);
    EveryRunIsOk(acc, evs, reconnectEnabled);
    SeatRejoinsIff(Run(Fresh(reconnectEnabled), acc, evs), acc, pid);
  }

  lemma SeatRejoinsIff(w: World, acc: Oracle, pid: Pid)
    requires pid in w.players && SeatOk(w.players[pid], w.watch[pid], w.loaded, acc)
             && StreamOk(w.players[pid], w.watch[pid])
    requires false !in Swapped(w, acc, pid, |w.watch[pid].got| % U32_SIZE).watch[pid].link.outcomes
    ensures
      var p, o := w.players[pid], w.watch[pid];
      Carries(Swapped(w, acc, pid, |o.got| % U32_SIZE).watch[pid].link, |o.got|, |o.log|)
      <==> o.unbuffered <= |o.got| && |o.got| / U32_SIZE == Oldest(p, o) / U32_SIZE
  {
    hide Swapped, Carries, Kept, LinkOk, FromOracle, Total;
    ReconnectOffersMissingSuffix(w, acc, pid, |w.watch[pid].got|);
  }

  /** A client holding exactly 2^32 packets of 2^32 + 1 reports 0. Nothing is trimmed, and a completed
      reconnect sends the packet before last, which it has, again. */
  lemma WrappedReportResends(w: World, acc: Oracle, pid: Pid)
    requires pid in w.players && BufferOk(w.players[pid], w.watch[pid].log, w.loaded)
    requires |w.watch[pid].log| == U32_SIZE + 1 && |w.players[pid].gproxyBuffer| == 2
    requires false !in Swapped(w, acc, pid, 0).watch[pid].link.outcomes
    ensures
      var l := Swapped(w, acc, pid, 0).watch[pid].link;
      Carries(l, U32_SIZE - 1, U32_SIZE + 1) && !Carries(l, U32_SIZE, U32_SIZE + 1)
  {
    var l := Swapped(w, acc, pid, 0).watch[pid].link;
    ReplayStarts(w, acc, pid, 0);
    hide Swapped, Carries;
    NotBoth(l, U32_SIZE, U32_SIZE - 1, U32_SIZE + 1);
  }

  lemma NotBoth(l: Link, a: int, b: int, to: int)
    requires Carries(l, b, to) && a != b
    ensures !Carries(l, a, to)
  {}

  /** A connected player none of whose packets was refused holds the whole log once it has read all
      that got through. */
  lemma CaughtUpHoldsWholeLog(p: LobbyPlayer, o: Observer, loaded: bool, acc: Oracle)
    requires SeatOk(p, o, loaded, acc) && StreamOk(p, o)
    requires !p.gproxyDisconnected && false !in o.link.outcomes
    requires o.read == |Kept(o.link.offered, o.link.outcomes)|
    ensures o.got == o.log
  {
    KeptAll(o.link.offered, o.link.outcomes);
  }
}
