/**
 The player sessions of a hosted game: the connection table, the hub every W3GS packet leaves
 through, and the GProxy++ buffer that carries a player over the loss of a socket.

 The functions over World say what each event does to the actor's fields and, beside them, what an
 observer of each player sees: the packets passed to the hub, what the current socket was offered,
 and what the client has read. SessionActor.dfy holds the imperative form proved against them.
 */
module Session {
  import opened Bytes

  type Pid = nat
  type ConnId = nat
  type Packet = seq<Byte>

  /** Whether try_send accepts the k-th packet offered to a connection. Leaving it arbitrary covers
      every way the write task can drain, stall or die beside the actor. */
  type Oracle = (ConnId, nat) -> bool

  /** The packets of one broadcast, per recipient, in whatever order the player table yields them. */
  type Notices = seq<(Pid, Packet)>

  datatype LobbyPlayer = LobbyPlayer(
    connId: ConnId,
    gproxy: bool,
    gproxyDisconnected: bool,
    gproxyKey: U32,
    gproxyBuffer: seq<Packet>,
    gproxyBufferBytes: nat,
    totalSent: U32,
    totalReceived: U32,
    disconnectTime: nat)

  /** What the player's current socket was offered: `start` is the log position a reader of this
      socket begins at, and attempt k offered log position `offered[k]` with the given outcome. */
  datatype Link = Link(start: int, offered: seq<int>, outcomes: seq<bool>)

  /** `log` holds every packet counted by total_sent, `unbuffered` how many of them were sent before
      buffering began; the client has accepted `got`, the last `read` packets of it over `link`. */
  datatype Observer = Observer(log: seq<Packet>, unbuffered: nat, link: Link, got: seq<Packet>, read: nat)

  datatype Table = Table(
    started: bool,
    loaded: bool,
    reconnectEnabled: bool,
    conns: set<ConnId>,
    connPid: map<ConnId, Pid>,
    nextConn: ConnId,
    pendingDrop: seq<Pid>,
    players: map<Pid, LobbyPlayer>,
    watch: map<Pid, Observer>)

  type World = w: Table | w.players.Keys == w.watch.Keys
    witness Table(false, false, false, {}, map[], 1, [], map[], map[])

  // ---- the send hub ----

  function Offer(l: Link, pos: int, ok: bool): Link {
    Link(l.start, l.offered + [pos], l.outcomes + [ok])
  }

  function Counted(p: LobbyPlayer, loaded: bool, pkt: Packet): LobbyPlayer {
    var q := p.(totalSent := (p.totalSent + 1) % U32_SIZE);
    if p.gproxy && loaded then
      q.(gproxyBufferBytes := p.gproxyBufferBytes + |pkt|, gproxyBuffer := p.gproxyBuffer + [pkt])
    else q
  }

  predicate Accepts(p: LobbyPlayer, o: Observer, acc: Oracle) {
    acc(p.connId, |o.link.offered|)
  }

  function Watched(p: LobbyPlayer, o: Observer, loaded: bool, acc: Oracle, pkt: Packet): Observer {
    o.(log := o.log + [pkt],
       unbuffered := if p.gproxy && loaded then o.unbuffered else |o.log| + 1,
       link := if p.gproxyDisconnected then o.link else Offer(o.link, |o.log|, Accepts(p, o, acc)))
  }

  function SendToPid(w: World, acc: Oracle, pid: Pid, pkt: Packet): World {
    if pid !in w.players then w
    else
      var p, o := w.players[pid], w.watch[pid];
      var refused := !p.gproxyDisconnected && !Accepts(p, o, acc);
      w.(players := w.players[pid := Counted(p, w.loaded, pkt)],
         watch := w.watch[pid := Watched(p, o, w.loaded, acc, pkt)],
         pendingDrop := if refused && pid !in w.pendingDrop then w.pendingDrop + [pid] else w.pendingDrop)
  }

  function Broadcast(w: World, acc: Oracle, notices: Notices): World {
    if notices == [] then w
    else
      var n := |notices| - 1;
      SendToPid(Broadcast(w, acc, notices[..n]), acc, notices[n].0, notices[n].1)
  }

  // ---- trimming ----

  function Total(pkts: seq<Packet>): nat {
    if pkts == [] then 0 else |pkts[0]| + Total(pkts[1..])
  }

  /** The byte count left after dropping packets one at a time with a saturating subtraction. */
  function Drained(bytes: nat, pkts: seq<Packet>): nat {
    if pkts == [] then bytes
    else Drained(if |pkts[0]| <= bytes then bytes - |pkts[0]| else 0, pkts[1..])
  }

  /** How many packets leave the front of a buffer of `len` packets when the client reports `last`. */
  function TrimCount(totalSent: U32, len: nat, last: U32): nat {
    var already := (totalSent - len) % U32_SIZE;
    if last > already then (if last - already <= len then last - already else len) else 0
  }

  function Trim(p: LobbyPlayer, last: U32): LobbyPlayer {
    var n := TrimCount(p.totalSent, |p.gproxyBuffer|, last);
    if n > |p.gproxyBuffer| then p
    else p.(gproxyBuffer := p.gproxyBuffer[n..],
            gproxyBufferBytes := Drained(p.gproxyBufferBytes, p.gproxyBuffer[..n]))
  }

  // ---- connections ----

  function NewConnection(w: World): World {
    w.(conns := w.conns + {w.nextConn}, nextConn := w.nextConn + 1)
  }

  /** The packets a joiner is sent directly, before the player record exists. */
  function Welcome(slotInfo: Packet, host: seq<Packet>, infos: seq<Packet>, mapCheck: Packet): seq<Packet> {
    [slotInfo] + host + infos + [mapCheck]
  }

  /** Direct sends: the outcome of every attempt is ignored. */
  function OfferAll(l: Link, acc: Oracle, conn: ConnId, count: nat): Link {
    if count == 0 then l
    else
      var m := OfferAll(l, acc, conn, count - 1);
      Offer(m, m.start + count - 1, acc(conn, |m.offered|))
  }

  function Newcomer(conn: ConnId, key: U32, welcome: seq<Packet>): LobbyPlayer {
    LobbyPlayer(conn, false, false, key, [], 0, |welcome| % U32_SIZE, 1, 0)
  }

  function Onlooker(acc: Oracle, conn: ConnId, welcome: seq<Packet>): Observer {
    Observer(welcome, |welcome|, OfferAll(Link(0, [], []), acc, conn, |welcome|), [], 0)
  }

  function Joined(w: World, acc: Oracle, conn: ConnId, pid: Pid, key: U32, welcome: seq<Packet>,
                  notices: Notices): World
  {
    Broadcast(w.(players := w.players[pid := Newcomer(conn, key, welcome)],
                 watch := w.watch[pid := Onlooker(acc, conn, welcome)],
                 connPid := w.connPid[conn := pid]), acc, notices)
  }

  function Without(w: World, pid: Pid): World
    requires pid in w.players
  {
    var conn := w.players[pid].connId;
    w.(players := w.players - {pid}, watch := w.watch - {pid},
       connPid := w.connPid - {conn}, conns := w.conns - {conn})
  }

  function RemovePlayer(w: World, acc: Oracle, pid: Pid, notices: Notices): World {
    if pid !in w.players then w else Broadcast(Without(w, pid), acc, notices)
  }

  function Held(p: LobbyPlayer, now: nat): LobbyPlayer {
    p.(gproxyDisconnected := true, disconnectTime := now)
  }

  function ConnClosed(w: World, acc: Oracle, conn: ConnId, now: nat, notices: Notices): World {
    var v := w.(conns := w.conns - {conn}, connPid := w.connPid - {conn});
    if conn !in w.connPid then v
    else
      var pid := w.connPid[conn];
      if w.loaded && w.reconnectEnabled && pid in w.players
         && w.players[pid].gproxy && !w.players[pid].gproxyDisconnected
      then Broadcast(v.(players := w.players[pid := Held(w.players[pid], now)]), acc, notices)
      else RemovePlayer(v, acc, pid, notices)
  }

  datatype FrameKind = W3gs | LeaveGame | GpsInit | GpsAck(last: U32) | GpsOther

  /** W3GS frames are counted, GPS frames are not. */
  function Framed(p: LobbyPlayer, kind: FrameKind, reconnectEnabled: bool): LobbyPlayer {
    match kind
    case GpsInit => p.(gproxy := p.gproxy || reconnectEnabled)
    case GpsAck(last) => Trim(p, last)
    case GpsOther => p
    case _ => p.(totalReceived := (p.totalReceived + 1) % U32_SIZE)
  }

  /** A frame of a connection that belongs to no player only ever matters when it asks to join. */
  function FrameOf(w: World, acc: Oracle, conn: ConnId, kind: FrameKind, notices: Notices): World {
    if conn !in w.connPid || w.connPid[conn] !in w.players then w
    else
      var pid := w.connPid[conn];
      var v := w.(players := w.players[pid := Framed(w.players[pid], kind, w.reconnectEnabled)]);
      if kind == LeaveGame then RemovePlayer(v, acc, pid, notices) else v
  }

  /** Replay `count` buffered packets, stopping at the first refusal. */
  function Replayed(l: Link, acc: Oracle, conn: ConnId, count: nat): Link
    decreases count
  {
    if count == 0 then l
    else
      var m := Replayed(l, acc, conn, count - 1);
      if false in m.outcomes then m
      else Offer(m, m.start + |m.offered|, acc(conn, |m.offered|))
  }

  predicate MayReconnect(w: World, pid: Pid, key: U32) {
    pid in w.players && w.players[pid].gproxy && w.players[pid].gproxyKey == key
  }

  /** The player on their new connection, trimmed to what the client reports and offered the rest. */
  function Swapped(w: World, acc: Oracle, pid: Pid, last: U32): World
    requires pid in w.players
  {
    var p, o, id := w.players[pid], w.watch[pid], w.nextConn;
    var q := Trim(p.(connId := id, gproxyDisconnected := false, disconnectTime := 0), last);
    var link := Replayed(Link(|o.log| - |q.gproxyBuffer|, [], []), acc, id, |q.gproxyBuffer|);
    w.(conns := w.conns - {p.connId} + {id}, connPid := (w.connPid - {p.connId})[id := pid],
       nextConn := id + 1, players := w.players[pid := q], watch := w.watch[pid := o.(link := link, read := 0)])
  }

  function Reconnected(w: World, acc: Oracle, pid: Pid, key: U32, last: U32, notices: Notices): World {
    if !MayReconnect(w, pid, key) then w
    else
      var v := Swapped(w, acc, pid, last);
      if false in v.watch[pid].link.outcomes then v.(pendingDrop := v.pendingDrop + [pid])
      else Broadcast(v, acc, notices)
  }

  // ---- players whose write queue overflowed ----

  function Retired(w: World, acc: Oracle, pid: Pid, now: nat, chat: Notices, leave: Notices): World {
    if pid !in w.players || w.players[pid].gproxyDisconnected then w
    else
      var p := w.players[pid];
      var v := w.(conns := w.conns - {p.connId});
      if p.gproxy && w.loaded && w.reconnectEnabled then
        Broadcast(v.(players := w.players[pid := Held(p, now)], connPid := w.connPid - {p.connId}), acc, chat)
      else RemovePlayer(Broadcast(v, acc, chat), acc, pid, leave)
  }

  function RetireAll(w: World, acc: Oracle, pids: seq<Pid>, now: nat,
                     chat: Pid -> Notices, leave: Pid -> Notices): World {
    if pids == [] then w
    else
      var n := |pids| - 1;
      Retired(RetireAll(w, acc, pids[..n], now, chat, leave), acc, pids[n], now, chat(pids[n]), leave(pids[n]))
  }

  // ---- the client's side ----

  /** The log positions that got through, in order. */
  function Kept(offered: seq<int>, outcomes: seq<bool>): seq<int>
    requires |offered| == |outcomes|
  {
    if offered == [] then []
    else
      var n := |offered| - 1;
      Kept(offered[..n], outcomes[..n]) + if outcomes[n] then [offered[n]] else []
  }

  /** The client reads the next packet that got through on its current connection. */
  function Delivered(o: Observer): Observer {
    if |o.link.offered| != |o.link.outcomes| then o
    else
      var kept := Kept(o.link.offered, o.link.outcomes);
      if o.read < |kept| && 0 <= kept[o.read] < |o.log| then
        o.(got := o.got + [o.log[kept[o.read]]], read := o.read + 1)
      else o
  }

  // ---- runs ----

  datatype Event =
    | Connect
    | Join(conn: ConnId, pid: Pid, key: U32, slotInfo: Packet, host: seq<Packet>, infos: seq<Packet>,
           mapCheck: Packet, notices: Notices)
    | Reject(conn: ConnId)
    | Start
    | Load
    | Frame(conn: ConnId, kind: FrameKind, notices: Notices)
    | Close(conn: ConnId, now: nat, notices: Notices)
    | Send(notices: Notices)
    | Remove(pid: Pid, notices: Notices)
    | Reconnect(pid: Pid, key: U32, last: U32, notices: Notices)
    | Retire(now: nat, chat: Pid -> Notices, leave: Pid -> Notices)
    | Deliver(pid: Pid)

  function Step(w: World, acc: Oracle, ev: Event): World {
    match ev
    case Connect => NewConnection(w)
    case Join(conn, pid, key, slotInfo, host, infos, mapCheck, notices) =>
      if w.started || conn !in w.conns || conn in w.connPid || pid in w.players then w
      else Joined(w, acc, conn, pid, key, Welcome(slotInfo, host, infos, mapCheck), notices)
    case Reject(conn) => if conn in w.connPid then w else w.(conns := w.conns - {conn})
    case Start => w.(started := true)
    case Load => if w.started then w.(loaded := true) else w
    case Frame(conn, kind, notices) => FrameOf(w, acc, conn, kind, notices)
    case Close(conn, now, notices) => ConnClosed(w, acc, conn, now, notices)
    case Send(notices) => Broadcast(w, acc, notices)
    case Remove(pid, notices) => RemovePlayer(w, acc, pid, notices)
    case Reconnect(pid, key, last, notices) => Reconnected(w, acc, pid, key, last, notices)
    case Retire(now, chat, leave) =>
      RetireAll(w.(pendingDrop := []), acc, w.pendingDrop, now, chat, leave)
    case Deliver(pid) =>
      if pid in w.watch then w.(watch := w.watch[pid := Delivered(w.watch[pid])]) else w
  }

  function Run(w: World, acc: Oracle, evs: seq<Event>): World {
    if evs == [] then w else Step(Run(w, acc, evs[..|evs| - 1]), acc, evs[|evs| - 1])
  }

  /** A freshly created lobby (GameActor::new). */
  function Fresh(reconnectEnabled: bool): World {
    Table(false, false, reconnectEnabled, {}, map[], 1, [], map[], map[])
  }
}
