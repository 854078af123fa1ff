/** What each lobby operation leaves behind: who sits where, what stays with a slot, and what nothing touches. */
module LobbyLaws {
  import opened Bytes
  import opened Lobby
  import opened LobbyKeeps
  import opened LobbyMoves
  import opened LobbyShuffle
  import opened LobbyDeal

  // ---- swaps ----

  /** What a slot keeps when its occupant changes, depending on the map. */
  predicate StaysPut(rules: Rules, was: Slot, now: Slot) {
    if rules.fixedSettings then
      now.team == was.team && now.colour == was.colour && now.race == was.race && now.handicap == was.handicap
    else if rules.customForces then now.team == was.team
    else true
  }

  /** What an occupant brings along. */
  predicate Brought(rules: Rules, from: Slot, now: Slot) {
    && now.pid == from.pid && now.download == from.download && now.status == from.status
    && now.computer == from.computer && now.computerType == from.computerType
    && (!rules.fixedSettings ==> now.colour == from.colour && now.race == from.race && now.handicap == from.handicap)
    && (!rules.fixedSettings && !rules.customForces ==> now.team == from.team)
  }

  /** With fixed settings a slot keeps team, colour, race and handicap, with custom forces its team, otherwise
      nothing; all else changes places. Other slots, players and host stay as they are. */
  lemma SwapMoves(rules: Rules, s: State, i: nat, j: nat)
    ensures
      var t := Swapped(rules, s, i, j);
      if i < |s.slots| && j < |s.slots| && i != j && !s.started then
        && |t.slots| == |s.slots| && t.players == s.players && t.host == s.host && t.started == s.started
        && StaysPut(rules, s.slots[i], t.slots[i]) && Brought(rules, s.slots[j], t.slots[i])
        && StaysPut(rules, s.slots[j], t.slots[j]) && Brought(rules, s.slots[i], t.slots[j])
        && forall k :: 0 <= k < |s.slots| && k != i && k != j ==> t.slots[k] == s.slots[k]
      else t == s
  {}

  // ---- teams ----

  predicate OpenOn(slots: seq<Slot>, team: Byte, i: nat) {
    i < |slots| && slots[i].status == OPEN && slots[i].team == team
  }

  /** The k-th slot going round from start. */
  function Round(slots: seq<Slot>, start: nat, k: nat): nat
    requires slots != []
  {
    (start + k) % |slots|
  }

  lemma RoundIsASlot(slots: seq<Slot>, start: nat, k: nat)
    requires slots != []
    ensures Round(slots, start, k) < |slots|
  {}

  /** The search goes round once and stops at the first open slot of the team. */
  lemma {:induction false} SearchGoesRound(slots: seq<Slot>, team: Byte, start: nat, k: nat) returns (m: nat)
    requires slots != [] && k <= |slots|
    ensures k <= m <= |slots| && forall l: nat :: k <= l < m ==> !OpenOn(slots, team, Round(slots, start, l))
    ensures
      var i := OpenOnTeam(slots, team, start, k);
      if m < |slots| then i == Round(slots, start, m) && OpenOn(slots, team, i) else i == |slots|
    decreases |slots| - k
  {
    if k == |slots| {
      m := k;
    } else {
      RoundIsASlot(slots, start, k);
      if OpenOn(slots, team, Round(slots, start, k)) {
        m := k;
      } else {
        m := SearchGoesRound(slots, team, start, k + 1);
      }
    }
  }

  lemma GoingRoundMeetsAll(slots: seq<Slot>, start: nat, i: nat) returns (k: nat)
    requires start < |slots| && i < |slots|
    ensures k < |slots| && Round(slots, start, k) == i
  {
    k := if start <= i then i - start else i + |slots| - start;
  }

  /** The slot found for a team change is open and of that team, the first such from the player's own slot on
      when that is of the team, from the first slot otherwise; and none is found only if there is none. */
  lemma SlotOnTeamIsNext(slots: seq<Slot>, team: Byte, pid: Byte)
    requires SlotOf(slots, pid, 0) < |slots|
    ensures
      var sid, i := SlotOf(slots, pid, 0), SlotOnTeam(slots, team, pid);
      var start := if slots[sid].team == team then sid else 0;
      if i < |slots| then
        && OpenOn(slots, team, i)
        && exists m: nat :: m < |slots| && i == Round(slots, start, m)
             && forall l: nat :: l < m ==> !OpenOn(slots, team, Round(slots, start, l))
      else forall k: nat :: !OpenOn(slots, team, k)
  {
    hide OpenOnTeam;
    var sid, i := SlotOf(slots, pid, 0), SlotOnTeam(slots, team, pid);
    var start := if slots[sid].team == team then sid else 0;
    var m := SearchGoesRound(slots, team, start, 0);
    if m == |slots| {
      forall k: nat | k < |slots| ensures !OpenOn(slots, team, k) {
        var l := GoingRoundMeetsAll(slots, start, k);
      }
    }
  }

  /** Where a player sits. */
  predicate SitsAt(s: State, pid: Byte, k: nat) {
    k < |s.slots| && s.slots[k].Human() && s.slots[k].pid == pid
  }

  lemma OnlySeat(s: State, pid: Byte, k: nat)
    requires LobbyOk(s) && pid in s.players && SitsAt(s, pid, k)
    ensures SlotOf(s.slots, pid, 0) == k
  {
    SeatOfPlayer(s, pid);
  }

  /** With custom forces a team change seats the player in a slot of the team asked for, if one is open, and
      leaves the lobby alone if none is. */
  lemma TeamChangeMoves(rules: Rules, s: State, pid: Byte, team: Byte)
    requires LobbyOk(s) && pid in s.players && !s.started && rules.customForces
    ensures
      var t := TeamChanged(rules, s, pid, team);
      if exists k: nat :: OpenOn(s.slots, team, k) then
        exists k: nat :: OpenOn(s.slots, team, k) && SitsAt(t, pid, k) && t.slots[k].team == team
      else t == s
  {
    SeatOfPlayer(s, pid);
    SlotOnTeamIsNext(s.slots, team, pid);
    hide SlotOnTeam, LobbyOk;
    var sid, i := SlotOf(s.slots, pid, 0), SlotOnTeam(s.slots, team, pid);
    if i < |s.slots| {
      SwapMoves(rules, s, sid, i);
      hide Swapped;
      assert OpenOn(s.slots, team, i) && SitsAt(TeamChanged(rules, s, pid, team), pid, i);
    }
  }

  /** The others who count against a team's cap. */
  ghost function OtherPlayers(slots: seq<Slot>, pid: Byte): set<nat> {
    set k: nat | k < |slots| && slots[k].status == OCCUPIED && slots[k].team != MAX_SLOTS && slots[k].pid != pid
  }

  lemma {:induction false} OthersCounted(slots: seq<Slot>, pid: Byte)
    ensures Others(slots, pid) == |OtherPlayers(slots, pid)|
  {
    if slots == [] {
      assert OtherPlayers(slots, pid) == {};
    } else {
      var n := |slots| - 1;
      OthersCounted(slots[..n], pid);
      var one := if n in OtherPlayers(slots, pid) then {n} else {};
      assert OtherPlayers(slots, pid) == OtherPlayers(slots[..n], pid) + one;
      assert n !in OtherPlayers(slots[..n], pid);
    }
  }

  /** Whether a player may change to a team in place. */
  ghost predicate MayChange(rules: Rules, slots: seq<Slot>, pid: Byte, team: Byte) {
    if team == MAX_SLOTS then rules.observers
    else team < MAX_SLOTS && team < rules.numPlayers && |OtherPlayers(slots, pid)| < rules.numPlayers
  }

  /** Without custom forces an admitted change gives the player's slot the team, an observer the observers'
      colour, a former observer a colour nobody has, and changes nothing else; any other changes nothing. */
  lemma TeamChangesInPlace(rules: Rules, s: State, pid: Byte, team: Byte)
    requires LobbyOk(s) && pid in s.players && !s.started && !rules.customForces
    ensures
      var sid := SlotOf(s.slots, pid, 0);
      var t := TeamChanged(rules, s, pid, team);
      if !MayChange(rules, s.slots, pid, team) then t == s
      else
        && SitsAt(t, pid, sid) && t.slots[sid].team == team
        && t == s.(slots := s.slots[sid := s.slots[sid].(team := team, colour := t.slots[sid].colour)])
        && var was, now := s.slots[sid].colour, t.slots[sid].colour;
           if team == MAX_SLOTS then now == MAX_SLOTS
           else if was < MAX_SLOTS then now == was
           else now < MAX_SLOTS && forall k :: 0 <= k < |s.slots| ==> s.slots[k].colour != now
  {
    SeatOfPlayer(s, pid);
    OthersCounted(s.slots, pid);
    hide Others, OtherPlayers, SeatsMatch, NamesDiffer, PidsOk;
    var sid := SlotOf(s.slots, pid, 0);
    if s.slots[sid].colour == MAX_SLOTS { ColourIsFree(s.slots, sid); }
    hide NewColour;
  }

  // ---- joining, leaving, opening and closing ----

  /** Somebody let in sits in the first free slot under the PID answered, which nobody had; everyone and
      everything else stays. Somebody turned away changes neither slots nor players. */
  lemma JoinSeats(s: State, name: string, banned: bool)
    requires LobbyOk(s)
    ensures
      var t := Joined(s, name, banned);
      && t.started == s.started
      && match JoinAnswer(s, name, banned)
         case Rejected => t.slots == s.slots && t.players == s.players
         case Seated(pid, sid) =>
           && sid < |s.slots| && s.slots[sid].Free() && (forall k :: 0 <= k < sid ==> !s.slots[k].Free())
           && pid !in s.players && SitsAt(t, pid, sid) && t.players == s.players[pid := name]
           && |t.slots| == |s.slots| && (forall k :: 0 <= k < |s.slots| && k != sid ==> t.slots[k] == s.slots[k])
           && t.slots[sid] == s.slots[sid].(pid := pid, status := OCCUPIED, download := 255)
           && t.host == if |t.players| == 12 then NO_HOST else s.host
  {
    if JoinAnswer(s, name, banned).Seated? { FreeSlotMeansPid(s, name); }
  }

  /** A player who leaves frees their own slot, open and as it was but for the occupant; nobody else moves. */
  lemma LeavingFrees(s: State, pid: Byte)
    requires LobbyOk(s)
    ensures
      var t := Removed(s, pid);
      if pid !in s.players then t == s
      else
        && t.players == s.players - {pid} && t.started == s.started
        && exists sid :: SitsAt(s, pid, sid) && VacatedAt(s.slots, t.slots, sid, OPEN)
  {
    if pid in s.players {
      SeatOfPlayer(s, pid);
      hide LobbyOk, HostRestored, SlotOf;
      var sid := SlotOf(s.slots, pid, 0);
      HostLeavesSlots(s.(slots := s.slots[sid := Emptied(s.slots[sid], OPEN)], players := s.players - {pid}));
      assert SitsAt(s, pid, sid) && VacatedAt(s.slots, Removed(s, pid).slots, sid, OPEN);
    }
  }

  lemma HostLeavesSlots(s: State)
    ensures var t := HostRestored(s); t.slots == s.slots && t.players == s.players && t.started == s.started
  {}

  /** Only slot sid differs: nobody is in it, it has the status given, and team, colour, race and handicap are kept. */
  ghost predicate VacatedAt(slots: seq<Slot>, next: seq<Slot>, sid: nat, status: Byte) {
    && sid < |slots| == |next|
    && (forall k :: 0 <= k < |slots| && k != sid ==> next[k] == slots[k])
    && var was, now := slots[sid], next[sid];
       && now.status == status && now.pid == 0 && now.computer == 0 && now.download == 255
       && now.team == was.team && now.colour == was.colour && now.race == was.race
       && now.computerType == was.computerType && now.handicap == was.handicap
  }

  /** Opening leaves a slot open and closing leaves it closed, empty either way; whoever sat there is out of the
      game, and nobody else is touched. */
  lemma SlotIsSet(s: State, sid: nat, open: bool)
    requires LobbyOk(s)
    ensures
      var t := SlotSet(s, sid, open);
      if sid >= |s.slots| || s.started then t == s
      else
        && VacatedAt(s.slots, t.slots, sid, if open then OPEN else CLOSED)
        && t.players == if s.slots[sid].Human() then s.players - {s.slots[sid].pid} else s.players
  {
    if sid < |s.slots| && !s.started && s.slots[sid].Human() {
      var pid := s.slots[sid].pid;
      SeatOfPlayer(s, pid);
      hide HostRestored;
      HostLeavesSlots(s.(slots := s.slots[sid := Emptied(s.slots[sid], OPEN)], players := s.players - {pid}));
    }
  }

  // ---- colours ----

  /** A colour change gives the player the colour asked for, unless an occupied slot has it, the player observes
      or the map fixes colours; a slot nobody occupies takes the player's old colour for it.
      Nothing but colours changes. */
  lemma ColourChanges(rules: Rules, s: State, pid: Byte, colour: Byte)
    requires LobbyOk(s) && pid in s.players && !s.started
    ensures
      var sid := SlotOf(s.slots, pid, 0);
      var t := ColourChanged(rules, s, pid, colour);
      var held := exists k :: 0 <= k < |s.slots| && s.slots[k].colour == colour && s.slots[k].status == OCCUPIED;
      if rules.fixedSettings || colour >= MAX_SLOTS || s.slots[sid].team == MAX_SLOTS || held then t == s
      else
        && SitsAt(t, pid, sid) && t.slots[sid].colour == colour && t == s.(slots := t.slots) && |t.slots| == |s.slots|
        && forall k :: 0 <= k < |s.slots| && k != sid ==>
             t.slots[k] == if s.slots[k].colour == colour then s.slots[k].(colour := s.slots[sid].colour)
                           else s.slots[k]
  {
    hide LobbyOk, SlotOf, SlotOfColour, SeatsMatch, PidsOk, NamesDiffer, ColoursDiffer;
    InOrder(s);
    SeatOfPlayer(s, pid);
    OneHolder(s.slots, colour);
  }

  lemma InOrder(s: State)
    requires LobbyOk(s)
    ensures SeatsMatch(s.slots, s.players.Keys) && PidsOk(s) && ColoursDiffer(s.slots)
  {}

  /** A colour below twelve is one slot's at most, the one that is found. */
  lemma OneHolder(slots: seq<Slot>, colour: Byte)
    requires ColoursDiffer(slots)
    ensures colour < MAX_SLOTS ==>
              forall k :: 0 <= k < |slots| ==> (slots[k].colour == colour <==> k == SlotOfColour(slots, colour, 0))
  {}

  // ---- the shuffle ----

  /** Seats dealt out are the seats found afterwards. */
  lemma {:induction false} DealtSeats(slots: seq<Slot>, seats: seq<Seat>)
    requires HumanCount(slots) <= |seats|
    ensures HumanCount(Dealt(slots, seats)) == HumanCount(slots)
    ensures SeatsOf(Dealt(slots, seats)) == seats[..HumanCount(slots)]
  {
    if slots != [] {
      var n := |slots| - 1;
      DealtSeats(slots[..n], seats);
      var next := Dealt(slots, seats);
      assert next[..n] == Dealt(slots[..n], seats);
      var k := HumanCount(slots[..n]);
      if slots[n].Human() { assert seats[..k + 1] == seats[..k] + [seats[k]]; }
    }
  }

  /** The shuffle can give the players seated every order, and gives them no other. */
  lemma ShuffleReachesEveryOrder(s: State, order: seq<Seat>) returns (draws: seq<nat>)
    requires !s.started && multiset(order) == multiset(SeatsOf(s.slots))
    ensures |draws| == HumanCount(s.slots) && SeatsOf(Shuffled(s, draws).slots) == order
  {
    var seats := SeatsOf(s.slots);
    var n := |seats|;
    assert |multiset(order)| == |order| && |multiset(seats)| == n;
    assert seats[..n] == seats && order[..n] == order;
    draws := EveryOrderIsDrawn(seats, order, n);
    DealtSeats(s.slots, order);
  }

  lemma ShuffleDeals(s: State, draws: seq<nat>)
    requires HumanCount(s.slots) <= |draws|
    ensures
      var t := Shuffled(s, draws);
      && multiset(SeatsOf(t.slots)) == multiset(SeatsOf(s.slots)) && t == s.(slots := t.slots) && (s.started ==> t == s)
      && |t.slots| == |s.slots|
      && forall k: nat :: k < |s.slots| ==>
           t.slots[k] == if s.slots[k].Human() then s.slots[k].(pid := t.slots[k].pid, download := t.slots[k].download)
                         else s.slots[k]
  {
    if !s.started {
      var seats := SeatsOf(s.slots);
      MixedKeeps(seats, draws, |seats|);
      var mixed := Mixed(seats, draws, |seats|);
      DealtSeats(s.slots, mixed);
      assert mixed[..|seats|] == mixed;
      hide Mixed, Dealt, SeatsOf, HumanCount;
      forall k: nat | k < |s.slots|
        ensures Dealt(s.slots, mixed)[k].Human() == s.slots[k].Human()
        ensures Dealt(s.slots, mixed)[k] == if s.slots[k].Human() then
          s.slots[k].(pid := Dealt(s.slots, mixed)[k].pid, download := Dealt(s.slots, mixed)[k].download)
          else s.slots[k]
      {
        DealtAt(s.slots, mixed, k);
      }
    }
  }
}
