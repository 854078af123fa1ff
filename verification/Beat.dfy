/**
 The game in progress: the beat that sends everyone's actions, the lag screen, the desync vote and
 departures. Each player carries `stream`, every packet handed to them since the game loaded, and
 `heard`, every checksum they sent since then.
 */
module Beat {
  import opened Bytes
  import opened Batching

  /** Lag packets name their players as a map: the wire order is the player table's own. */
  datatype Msg =
    | Actions(acts: seq<Action>, interval: nat)
    | Actions2(acts: seq<Action>)
    | StartLag(laggers: map<Pid, nat>)
    | StopLag(pid: Pid, ms: nat)
    | PlayerLeave(pid: Pid)

  /** A packet, and whether the player was behind GProxy++ when it was sent. */
  datatype Sent = Sent(msg: Msg, gproxy: bool)

  datatype Player = Player(
    gproxy: bool,
    syncCounter: nat,
    checksums: seq<U32>,
    lagging: bool,
    startedLagging: nat,
    stream: seq<Sent>,
    heard: seq<U32>)

  type Players = map<Pid, Player>

  datatype Block = TimeSlot(acts: seq<Action>, interval: nat) | TimeSlot2(acts: seq<Action>) | Leave(pid: Pid)

  datatype Config = Config(latency: nat, window: nat, emptyActions: nat, reconnectEnabled: bool, recording: bool)

  datatype Game = Game(
    players: Players,
    actions: seq<Action>,
    syncCounter: nat,
    lagging: bool,
    lastReset: nat,
    startedLaggingTime: nat,
    turn: nat,
    replay: seq<Block>)

  // ---- sending ----

  function Tagged(msgs: seq<Msg>, gproxy: bool): seq<Sent> {
    seq(|msgs|, i requires 0 <= i < |msgs| => Sent(msgs[i], gproxy))
  }

  function Given(p: Player, msgs: seq<Msg>): Player {
    p.(stream := p.stream + Tagged(msgs, p.gproxy))
  }

  /** Hand `direct` to every player without GProxy++ and `via` to every player behind it. */
  function GiveEach(players: Players, direct: seq<Msg>, via: seq<Msg>): (r: Players)
    ensures r.Keys == players.Keys
  {
    map p | p in players :: Given(players[p], if players[p].gproxy then via else direct)
  }

  function SendAll(g: Game, msg: Msg): Game {
    g.(players := GiveEach(g.players, [msg], [msg]))
  }

  function Recorded(g: Game, c: Config, blocks: seq<Block>): Game {
    if c.recording then g.(replay := g.replay + blocks) else g
  }

  // ---- departures ----

  /** The queue keeps its order but loses everything the leaver had not yet been heard to say. */
  function Purged(actions: seq<Action>, pid: Pid): seq<Action> {
    if actions == [] then []
    else
      var n := |actions| - 1;
      Purged(actions[..n], pid) + if actions[n].pid == pid then [] else [actions[n]]
  }

  function RemovePlayer(g: Game, c: Config, pid: Pid): Game {
    if pid !in g.players then g
    else
      var h := g.(players := g.players - {pid}, actions := Purged(g.actions, pid));
      SendAll(Recorded(h, c, [Leave(pid)]), PlayerLeave(pid))
  }

  function RemoveEach(g: Game, c: Config, pids: seq<Pid>): Game {
    if pids == [] then g
    else RemovePlayer(RemoveEach(g, c, pids[..|pids| - 1]), c, pids[|pids| - 1])
  }

  /** Some of the players, in the order the player table yields them. */
  function InOrder(order: seq<Pid>, chosen: set<Pid>): seq<Pid> {
    if order == [] then []
    else
      var n := |order| - 1;
      InOrder(order[..n], chosen) + if order[n] in chosen then [order[n]] else []
  }

  ghost predicate Lists(order: seq<Pid>, players: Players) {
    && (forall p :: p in players ==> p in order)
    && (forall i, j :: 0 <= i < j < |order| ==> order[i] != order[j])
  }

  // ---- the lag screen ----

  /** The window as a number of batches, at least one. */
  function SyncLimit(c: Config): nat {
    if c.latency == 0 || c.window / c.latency < 1 then 1 else c.window / c.latency
  }

  function RecoverLimit(c: Config): nat {
    if SyncLimit(c) / 2 < 1 then 1 else SyncLimit(c) / 2
  }

  function Behind(g: Game, p: Player): nat {
    if p.syncCounter <= g.syncCounter then g.syncCounter - p.syncCounter else 0
  }

  function Laggers(players: Players): set<Pid> {
    set p | p in players && players[p].lagging
  }

  function LagMs(p: Player, now: nat): nat {
    (now - p.startedLagging) % U32_SIZE
  }

  predicate UsingGproxy(players: Players) {
    exists p :: p in players && players[p].gproxy
  }

  function OpenScreen(g: Game, c: Config, now: nat, secs: nat): Game {
    var late := set p | p in g.players && Behind(g, g.players[p]) > SyncLimit(c);
    if late == {} then g
    else
      var flagged := map p | p in g.players ::
        if p in late then g.players[p].(lagging := true, startedLagging := now) else g.players[p];
      SendAll(g.(lagging := true, lastReset := now, startedLaggingTime := secs, players := flagged),
              StartLag(map p | p in late :: 0))
  }

  predicate LagScreenExpired(started: nat, secs: nat, usingGproxy: bool, emptyActions: nat) {
    var wait := if usingGproxy then (emptyActions + 1) * 60 else 60;
    (if started <= secs then secs - started else 0) >= wait
  }

  function StopLaggers(g: Game, c: Config, order: seq<Pid>): Game {
    var late := Laggers(g.players);
    if late == {} then g
    else
      var h := RemoveEach(g, c, InOrder(order, late));
      if Laggers(h.players) == {} then h.(lagging := false) else h
  }

  function ClearOne(g: Game, pid: Pid, now: nat): Game {
    if pid !in g.players then g
    else
      var p := g.players[pid];
      SendAll(g.(players := g.players[pid := p.(lagging := false)]), StopLag(pid, LagMs(p, now)))
  }

  function ClearEach(g: Game, pids: seq<Pid>, now: nat): Game {
    if pids == [] then g else ClearOne(ClearEach(g, pids[..|pids| - 1], now), pids[|pids| - 1], now)
  }

  function Recovered(g: Game, c: Config): set<Pid> {
    set p | p in g.players && g.players[p].lagging && Behind(g, g.players[p]) < RecoverLimit(c)
  }

  function Empties(n: nat): seq<Msg> { seq(n, _ => Actions([], 0)) }

  function EmptySlots(n: nat): seq<Block> { seq(n, _ => TimeSlot([], 0)) }

  /** What a recipient sees when the screen is re-shown: down, time moves on, up again. */
  function ResetMsgs(players: Players, order: seq<Pid>, empties: nat, now: nat): seq<Msg> {
    var pids := InOrder(order, Laggers(players));
    StopMsgs(players, pids, now) + Empties(empties) + [Actions([], 0)]
      + [StartLag(map p | p in Laggers(players) && p in players :: LagMs(players[p], now))]
  }

  function StopMsgs(players: Players, pids: seq<Pid>, now: nat): seq<Msg> {
    seq(|pids|, i requires 0 <= i < |pids| =>
      StopLag(pids[i], if pids[i] in players then LagMs(players[pids[i]], now) else 0))
  }

  function ResetScreen(g: Game, c: Config, now: nat, order: seq<Pid>): Game {
    var using := UsingGproxy(g.players);
    var owed := if using then c.emptyActions else 0;
    var h := g.(lastReset := now,
                players := GiveEach(g.players, ResetMsgs(g.players, order, owed, now),
                                    ResetMsgs(g.players, order, 0, now)));
    Recorded(h, c, EmptySlots(owed) + [TimeSlot([], 0)])
  }

  /** Laggers who have had their full wait are dropped for good. */
  function Waited(g: Game, c: Config, secs: nat, order: seq<Pid>): Game {
    if LagScreenExpired(g.startedLaggingTime, secs, UsingGproxy(g.players), c.emptyActions)
    then StopLaggers(g, c, order)
    else g
  }

  function Cleared(g: Game, c: Config, now: nat, order: seq<Pid>): Game {
    ClearEach(g, InOrder(order, Recovered(g, c)), now)
  }

  function CloseOrReset(g: Game, c: Config, now: nat, order: seq<Pid>): Game {
    if Laggers(g.players) == {} then g.(lagging := false)
    else if now - g.lastReset >= 60_000 then ResetScreen(g, c, now, order)
    else g
  }

  function KeepScreen(g: Game, c: Config, now: nat, secs: nat, order: seq<Pid>): Game {
    CloseOrReset(Cleared(Waited(g, c, secs, order), c, now, order), c, now, order)
  }

  // ---- the beat ----

  function ChunkMsgs(chunks: seq<seq<Action>>, interval: nat): seq<Msg> {
    seq(|chunks|, i requires 0 <= i < |chunks| =>
      if i == |chunks| - 1 then Actions(chunks[i], interval) else Actions2(chunks[i]))
  }

  function ChunkSlots(chunks: seq<seq<Action>>, interval: nat): seq<Block> {
    seq(|chunks|, i requires 0 <= i < |chunks| =>
      if i == |chunks| - 1 then TimeSlot(chunks[i], interval) else TimeSlot2(chunks[i]))
  }

  /** Everyone without GProxy++ is owed the empty actions it inserts for the others. */
  function SendAllActions(g: Game, c: Config): Game {
    var owed := if UsingGproxy(g.players) then c.emptyActions else 0;
    var chunks := Chunks(g.actions);
    var msgs := ChunkMsgs(chunks, c.latency);
    var h := g.(syncCounter := g.syncCounter + 1, actions := [],
                players := GiveEach(g.players, Empties(owed) + msgs, msgs));
    Recorded(h, c, EmptySlots(owed) + ChunkSlots(chunks, c.latency))
  }

  /** game_tick: `expired` are the players held too long or over their buffer cap. */
  function Tick(g: Game, c: Config, now: nat, secs: nat, expired: set<Pid>, order: seq<Pid>): Game {
    var h := if c.reconnectEnabled then RemoveEach(g, c, InOrder(order, expired)) else g;
    var k := if h.lagging then KeepScreen(h, c, now, secs, order) else OpenScreen(h, c, now, secs);
    if k.lagging then k else SendAllActions(k, c)
  }

  // ---- the desync vote ----

  predicate AllPending(players: Players) {
    players != map[] && forall p :: p in players ==> players[p].checksums != []
  }

  function Heads(players: Players): map<Pid, U32>
    requires AllPending(players)
  {
    map p | p in players :: players[p].checksums[0]
  }

  function Popped(players: Players): Players
    requires AllPending(players)
  {
    map p | p in players :: players[p].(checksums := players[p].checksums[1..])
  }

  /** Everyone who reported `v`. */
  function Group(heads: map<Pid, U32>, v: U32): set<Pid> {
    set p | p in heads && heads[p] == v
  }

  /** The players a vote drops: all outside the one largest group, or everyone on a tie. */
  ghost predicate Largest(heads: map<Pid, U32>, v: U32) {
    v in heads.Values && forall w :: w in heads.Values && w != v ==> |Group(heads, w)| < |Group(heads, v)|
  }

  ghost function Victims(heads: map<Pid, U32>): set<Pid> {
    if v :| Largest(heads, v) then heads.Keys - Group(heads, v) else heads.Keys
  }

  function Backlog(players: Players, order: seq<Pid>): nat {
    if order == [] then 0
    else
      var n := |order| - 1;
      Backlog(players, order[..n]) + if order[n] in players then |players[order[n]].checksums| else 0
  }

  function QueueAction(g: Game, a: Action): Game {
    if a.pid in g.players then g.(actions := g.actions + [a]) else g
  }

  function Heard(g: Game, pid: Pid, checksum: U32): Game {
    if pid !in g.players then g
    else
      var p := g.players[pid];
      g.(players := g.players[pid := p.(syncCounter := p.syncCounter + 1,
                                        checksums := p.checksums + [checksum],
                                        heard := p.heard + [checksum])])
  }

  function BehindGproxy(g: Game, pid: Pid): Game {
    if pid in g.players then g.(players := g.players[pid := g.players[pid].(gproxy := true)]) else g
  }
}
