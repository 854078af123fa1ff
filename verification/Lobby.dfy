/** The lobby as functions on a value: slots, players by PID, and the virtual host. */
module Lobby {
  import opened Bytes

  const OPEN: Byte := 0
  const CLOSED: Byte := 1
  const OCCUPIED: Byte := 2
  const MAX_SLOTS := 12
  const NO_HOST: Byte := 255

  datatype Slot = Slot(pid: Byte, download: Byte, status: Byte, computer: Byte, team: Byte, colour: Byte,
                       race: Byte, computerType: Byte, handicap: Byte)
  {
    predicate Human() {
      status == OCCUPIED && computer == 0
    }

    predicate Free() {
      status == OPEN && computer == 0
    }
  }

  /** The map's settings that lobby operations consult. */
  datatype Rules = Rules(fixedSettings: bool, customForces: bool, numPlayers: Byte, observers: bool)

  datatype State = State(slots: seq<Slot>, players: map<Byte, string>, host: Byte, started: bool)

  // ---- lookups ----

  /** The first free slot from i on, or |slots|. */
  function FreeSlot(slots: seq<Slot>, i: nat): (k: nat)
    requires i <= |slots|
    ensures i <= k <= |slots|
    ensures k < |slots| ==> slots[k].Free()
    ensures forall j :: i <= j < k ==> !slots[j].Free()
    decreases |slots| - i
  {
    if i == |slots| || slots[i].Free() then i else FreeSlot(slots, i + 1)
  }

  /** The first slot from i on that carries a PID, or |slots|. */
  function SlotOf(slots: seq<Slot>, pid: Byte, i: nat): (k: nat)
    requires i <= |slots|
    ensures i <= k <= |slots|
    ensures k < |slots| ==> slots[k].pid == pid
    ensures forall j :: i <= j < k ==> slots[j].pid != pid
    decreases |slots| - i
  {
    if i == |slots| || slots[i].pid == pid then i else SlotOf(slots, pid, i + 1)
  }

  /** The first slot from i on of a colour, or |slots|. */
  function SlotOfColour(slots: seq<Slot>, colour: Byte, i: nat): (k: nat)
    requires i <= |slots|
    ensures i <= k <= |slots|
    ensures k < |slots| ==> slots[k].colour == colour
    ensures forall j :: i <= j < k ==> slots[j].colour != colour
    decreases |slots| - i
  {
    if i == |slots| || slots[i].colour == colour then i else SlotOfColour(slots, colour, i + 1)
  }

  /** The smallest colour from c on that no slot has, or 12. */
  function NewColour(slots: seq<Slot>, c: nat): (colour: Byte)
    requires c <= MAX_SLOTS
    ensures c <= colour <= MAX_SLOTS
    ensures colour < MAX_SLOTS ==> forall i :: 0 <= i < |slots| ==> slots[i].colour != colour
    ensures forall d: Byte :: c <= d < colour ==> SlotOfColour(slots, d, 0) < |slots|
    decreases MAX_SLOTS - c
  {
    if c == MAX_SLOTS || SlotOfColour(slots, c, 0) == |slots| then c else NewColour(slots, c + 1)
  }

  /** The smallest PID from p to 12 that neither a player nor the virtual host has, or 13. */
  function NewPid(players: map<Byte, string>, host: Byte, p: nat): (pid: Byte)
    requires 1 <= p <= 13
    ensures p <= pid <= 13
    ensures pid <= 12 ==> pid !in players && pid != host
    ensures forall q: Byte :: p <= q < pid ==> q in players || q == host
    decreases 13 - p
  {
    if p == 13 || (p !in players && p != host) then p else NewPid(players, host, p + 1)
  }

  function LowerChar(c: char): char {
    if 'A' <= c <= 'Z' then c + 32 as char else c
  }

  /** Equal up to ASCII letter case. */
  predicate SameName(a: string, b: string) {
    |a| == |b| && forall i :: 0 <= i < |a| ==> LowerChar(a[i]) == LowerChar(b[i])
  }

  predicate NameTaken(players: map<Byte, string>, name: string) {
    exists p :: p in players && SameName(players[p], name)
  }

  // ---- operations ----

  function HostRestored(s: State): State {
    if s.host != NO_HOST || s.started then s
    else
      var pid := NewPid(s.players, s.host, 1);
      if pid == 13 then s else s.(host := pid)
  }

  function Emptied(slot: Slot, status: Byte): Slot {
    slot.(pid := 0, status := status, computer := 0, download := 255)
  }

  /** `remove_player`: free the slot and, in the lobby, bring the virtual host back. */
  function Removed(s: State, pid: Byte): State {
    if pid !in s.players then s
    else
      var sid := SlotOf(s.slots, pid, 0);
      var slots := if sid < |s.slots| then s.slots[sid := Emptied(s.slots[sid], OPEN)] else s.slots;
      HostRestored(s.(slots := slots, players := s.players - {pid}))
  }

  datatype Answer = Rejected | Seated(pid: Byte, sid: nat)

  function JoinAnswer(s: State, name: string, banned: bool): Answer {
    if s.started || NameTaken(s.players, name) || banned then Rejected
    else
      var sid := FreeSlot(s.slots, 0);
      var host := if |s.players| >= 11 then NO_HOST else s.host;
      if sid == |s.slots| || NewPid(s.players, host, 1) == 13 then Rejected
      else Seated(NewPid(s.players, host, 1), sid)
  }

  /** `handle_join`: with eleven players seated the virtual host gives up its PID first. */
  function Joined(s: State, name: string, banned: bool): State {
    if s.started || NameTaken(s.players, name) || banned then s
    else
      var sid := FreeSlot(s.slots, 0);
      if sid == |s.slots| then s
      else
        var host := if |s.players| >= 11 then NO_HOST else s.host;
        var pid := NewPid(s.players, host, 1);
        if pid == 13 then s.(host := host)
        else
          State(s.slots[sid := s.slots[sid].(pid := pid, status := OCCUPIED, computer := 0, download := 255)],
                s.players[pid := name], host, s.started)
  }

  /** `set_slot_open`: kicks the player out first. */
  function SlotSet(s: State, sid: nat, open: bool): State {
    if sid >= |s.slots| || s.started then s
    else
      var t := if s.slots[sid].Human() then Removed(s, s.slots[sid].pid) else s;
      if sid >= |t.slots| then t
      else t.(slots := t.slots[sid := Emptied(t.slots[sid], if open then OPEN else CLOSED)])
  }

  /** What slot a holds after it trades places with slot b. */
  function Traded(rules: Rules, a: Slot, b: Slot): Slot {
    if rules.fixedSettings then b.(team := a.team, colour := a.colour, race := a.race, handicap := a.handicap)
    else if rules.customForces then b.(team := a.team)
    else b
  }

  function Swapped(rules: Rules, s: State, i: nat, j: nat): State {
    if i >= |s.slots| || j >= |s.slots| || i == j || s.started then s
    else
      var a, b := s.slots[i], s.slots[j];
      s.(slots := s.slots[i := Traded(rules, a, b)][j := Traded(rules, b, a)])
  }

  /** The first open slot of a team, from start round to start again, k steps done; |slots| if none. */
  function OpenOnTeam(slots: seq<Slot>, team: Byte, start: nat, k: nat): (i: nat)
    requires k <= |slots|
    ensures i <= |slots|
    ensures i < |slots| ==> slots[i].status == OPEN && slots[i].team == team
    decreases |slots| - k
  {
    if k == |slots| then |slots|
    else
      var i := (start + k) % |slots|;
      if slots[i].status == OPEN && slots[i].team == team then i else OpenOnTeam(slots, team, start, k + 1)
  }

  function SlotOnTeam(slots: seq<Slot>, team: Byte, pid: Byte): nat {
    var sid := SlotOf(slots, pid, 0);
    OpenOnTeam(slots, team, if sid < |slots| && slots[sid].team == team then sid else 0, 0)
  }

  /** Occupied slots outside the observer team, one PID not counted. */
  function Others(slots: seq<Slot>, pid: Byte): (n: nat) {
    if slots == [] then 0
    else
      var last := slots[|slots| - 1];
      Others(slots[..|slots| - 1], pid)
      + if last.status == OCCUPIED && last.team != MAX_SLOTS && last.pid != pid then 1 else 0
  }

  predicate TeamAllowed(rules: Rules, slots: seq<Slot>, pid: Byte, team: Byte) {
    if team > MAX_SLOTS then false
    else if team == MAX_SLOTS then rules.observers
    else team < rules.numPlayers && Others(slots, pid) < rules.numPlayers
  }

  /** `change_team`. */
  function TeamChanged(rules: Rules, s: State, pid: Byte, team: Byte): State {
    var sid := SlotOf(s.slots, pid, 0);
    if s.started || sid == |s.slots| then s
    else if rules.customForces then
      var target := SlotOnTeam(s.slots, team, pid);
      if target == |s.slots| then s else Swapped(rules, s, sid, target)
    else if !TeamAllowed(rules, s.slots, pid, team) then s
    else
      var seat := s.slots[sid];
      var colour := if team == MAX_SLOTS then MAX_SLOTS
                    else if seat.colour == MAX_SLOTS then NewColour(s.slots, 0)
                    else seat.colour;
      s.(slots := s.slots[sid := seat.(team := team, colour := colour)])
  }

  /** `change_colour`: a colour held by a slot nobody occupies is traded for the old one. */
  function ColourChanged(rules: Rules, s: State, pid: Byte, colour: Byte): State {
    var sid := SlotOf(s.slots, pid, 0);
    if s.started || rules.fixedSettings || colour >= MAX_SLOTS || sid == |s.slots|
       || s.slots[sid].team == MAX_SLOTS then s
    else
      var holder := SlotOfColour(s.slots, colour, 0);
      if holder == |s.slots| then s.(slots := s.slots[sid := s.slots[sid].(colour := colour)])
      else if s.slots[holder].status == OCCUPIED then s
      else
        var was := s.slots[sid].colour;
        s.(slots := s.slots[holder := s.slots[holder].(colour := was)][sid := s.slots[sid].(colour := colour)])
  }

  /** `event_game_started`, as far as the virtual host goes. */
  function Started(s: State): State {
    s.(started := true, host := NO_HOST)
  }
}
