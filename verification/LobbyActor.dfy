/** `GameActor`'s lobby fields and the methods that change them. */
module LobbyActor {
  import opened Bytes
  import L = Lobby
  import opened LobbyDeal
  import opened LobbyKeeps
  import opened LobbyShuffle

  class GameActor {
    var slots: seq<L.Slot>
    var players: map<Byte, string>
    var virtualHost: Byte
    var started: bool
    const rules: L.Rules

    function State(): L.State
      reads this
    {
      L.State(slots, players, virtualHost, started)
    }

    /** A new lobby: the virtual host has PID 1 and takes no slot. */
    constructor (mapSlots: seq<L.Slot>, mapRules: L.Rules)
      ensures State() == L.State(mapSlots, map[], 1, false) && rules == mapRules
    {
      slots, players, virtualHost, started, rules := mapSlots, map[], 1, false, mapRules;
    }

    method EmptySlot() returns (sid: nat)
      ensures sid == L.FreeSlot(slots, 0)
    {
      sid := 0;
      while sid < |slots| && !slots[sid].Free()
        invariant sid <= |slots| && L.FreeSlot(slots, 0) == L.FreeSlot(slots, sid)
      {
        sid := sid + 1;
      }
    }

    method SlotIndexOfPid(pid: Byte) returns (sid: nat)
      ensures sid == L.SlotOf(slots, pid, 0)
    {
      sid := 0;
      while sid < |slots| && slots[sid].pid != pid
        invariant sid <= |slots| && L.SlotOf(slots, pid, 0) == L.SlotOf(slots, pid, sid)
      {
        sid := sid + 1;
      }
    }

    method SlotIndexOfColour(colour: Byte) returns (sid: nat)
      ensures sid == L.SlotOfColour(slots, colour, 0)
    {
      sid := 0;
      while sid < |slots| && slots[sid].colour != colour
        invariant sid <= |slots| && L.SlotOfColour(slots, colour, 0) == L.SlotOfColour(slots, colour, sid)
      {
        sid := sid + 1;
      }
    }

    /** The smallest free PID; 13 when all twelve are taken. */
    method NewPid() returns (pid: Byte)
      ensures pid == L.NewPid(players, virtualHost, 1)
    {
      pid := 1;
      while pid <= 12 && (pid == virtualHost || pid in players)
        invariant 1 <= pid <= 13 && L.NewPid(players, virtualHost, 1) == L.NewPid(players, virtualHost, pid)
      {
        pid := pid + 1;
      }
    }

    method GetNewColour() returns (colour: Byte)
      ensures colour == L.NewColour(slots, 0)
    {
      colour := 0;
      while colour < L.MAX_SLOTS
        invariant colour <= L.MAX_SLOTS && L.NewColour(slots, 0) == L.NewColour(slots, colour)
      {
        var sid := SlotIndexOfColour(colour);
        if sid == |slots| { return; }
        colour := colour + 1;
      }
    }

    method GetEmptySlotOnTeam(team: Byte, pid: Byte) returns (i: nat)
      ensures i == L.SlotOnTeam(slots, team, pid)
    {
      var sid := SlotIndexOfPid(pid);
      var start := if sid < |slots| && slots[sid].team == team then sid else 0;
      for k := 0 to |slots|
        invariant L.OpenOnTeam(slots, team, start, 0) == L.OpenOnTeam(slots, team, start, k)
      {
        i := (start + k) % |slots|;
        if slots[i].status == L.OPEN && slots[i].team == team { return; }
      }
      i := |slots|;
    }

    method DeleteVirtualHost()
      modifies this`virtualHost
      ensures virtualHost == L.NO_HOST
    {
      if virtualHost != L.NO_HOST { virtualHost := L.NO_HOST; }
    }

    method CreateVirtualHost()
      modifies this`virtualHost
      ensures State() == L.HostRestored(old(State()))
    {
      if virtualHost != L.NO_HOST || started { return; }
      var pid := NewPid();
      if pid <= 12 { virtualHost := pid; }
    }

    /** `handle_join`, from the started check to the player record. */
    method HandleJoin(name: string, banned: bool) returns (answer: L.Answer)
      modifies this
      ensures State() == L.Joined(old(State()), name, banned)
      ensures answer == L.JoinAnswer(old(State()), name, banned)
    {
      if started || L.NameTaken(players, name) || banned { return L.Rejected; }
      var sid := EmptySlot();
      if sid == |slots| { return L.Rejected; }
      if |players| >= 11 { DeleteVirtualHost(); }
      var pid := NewPid();
      if pid == 13 { return L.Rejected; }
      slots := slots[sid := slots[sid].(pid := pid, status := L.OCCUPIED, computer := 0, download := 255)];
      players := players[pid := name];
      return L.Seated(pid, sid);
    }

    method RemovePlayer(pid: Byte)
      modifies this
      ensures State() == L.Removed(old(State()), pid)
    {
      if pid !in players { return; }
      players := players - {pid};
      var sid := SlotIndexOfPid(pid);
      if sid < |slots| {
        slots := slots[sid := slots[sid].(pid := 0, status := L.OPEN, computer := 0, download := 255)];
      }
      if !started { CreateVirtualHost(); }
    }

    method SetSlotOpen(sid: nat, open: bool)
      modifies this
      ensures State() == L.SlotSet(old(State()), sid, open)
    {
      if sid >= |slots| || started { return; }
      if slots[sid].Human() { RemovePlayer(slots[sid].pid); }
      slots := slots[sid := slots[sid].(status := if open then L.OPEN else L.CLOSED, pid := 0, computer := 0,
                                        download := 255)];
    }

    method SwapSlots(i: nat, j: nat)
      modifies this`slots
      ensures State() == L.Swapped(rules, old(State()), i, j)
    {
      if i >= |slots| || j >= |slots| || i == j || started { return; }
      var a, b := slots[i], slots[j];
      if rules.fixedSettings {
        var n1 := b.(team := a.team, colour := a.colour, race := a.race, handicap := a.handicap);
        var n2 := a.(team := b.team, colour := b.colour, race := b.race, handicap := b.handicap);
        slots := slots[i := n1];
        slots := slots[j := n2];
      } else if rules.customForces {
        slots := slots[i := b.(team := a.team)];
        slots := slots[j := a.(team := b.team)];
      } else {
        slots := slots[i := b];
        slots := slots[j := a];
      }
    }

    /** How many occupied slots outside the observer team belong to someone else. */
    method CountOthers(pid: Byte) returns (n: nat)
      ensures n == L.Others(slots, pid)
    {
      n := 0;
      for i := 0 to |slots|
        invariant n == L.Others(slots[..i], pid)
      {
        assert slots[..i + 1][..i] == slots[..i];
        if slots[i].status == L.OCCUPIED && slots[i].team != L.MAX_SLOTS && slots[i].pid != pid { n := n + 1; }
      }
      assert slots[..|slots|] == slots;
    }

    method ChangeTeam(pid: Byte, team: Byte)
      modifies this`slots
      ensures State() == L.TeamChanged(rules, old(State()), pid, team)
    {
      if started { return; }
      var sid := SlotIndexOfPid(pid);
      if rules.customForces {
        if sid == |slots| { return; }
        var target := GetEmptySlotOnTeam(team, pid);
        if target < |slots| { SwapSlots(sid, target); }
        return;
      }
      if team > L.MAX_SLOTS { return; }
      if team == L.MAX_SLOTS {
        if !rules.observers { return; }
      } else {
        if team >= rules.numPlayers { return; }
        var others := CountOthers(pid);
        if others >= rules.numPlayers { return; }
      }
      if sid < |slots| {
        if team == L.MAX_SLOTS {
          slots := slots[sid := slots[sid].(team := team, colour := L.MAX_SLOTS)];
        } else if slots[sid].colour == L.MAX_SLOTS {
          var colour := GetNewColour();
          slots := slots[sid := slots[sid].(team := team, colour := colour)];
        } else {
          slots := slots[sid := slots[sid].(team := team)];
        }
      }
    }

    method ChangeColour(pid: Byte, colour: Byte)
      modifies this`slots
      ensures State() == L.ColourChanged(rules, old(State()), pid, colour)
    {
      if started || rules.fixedSettings || colour >= L.MAX_SLOTS { return; }
      var sid := SlotIndexOfPid(pid);
      if sid == |slots| || slots[sid].team == L.MAX_SLOTS { return; }
      var holder := SlotIndexOfColour(colour);
      if holder == |slots| {
        slots := slots[sid := slots[sid].(colour := colour)];
      } else if slots[holder].status != L.OCCUPIED {
        var was, seat := slots[sid].colour, slots[sid];
        slots := slots[holder := slots[holder].(colour := was)];
        slots := slots[sid := seat.(colour := colour)];
      }
    }

    /** `shuffle_players`; draws stand for the random numbers. */
    method ShufflePlayers(draws: seq<nat>)
      requires HumanCount(slots) <= |draws|
      modifies this`slots
      ensures State() == Shuffled(old(State()), draws)
    {
      if started { return; }
      var movable := Collect();
      ghost var seats := movable;
      var i := |movable|;
      while i > 1
        invariant 0 <= i <= |movable| == |seats|
        invariant Mixed(movable, draws, i) == Mixed(seats, draws, |seats|)
      {
        var j := draws[i - 1] % i;
        movable := movable[i - 1 := movable[j]][j := movable[i - 1]];
        i := i - 1;
      }
      DealOut(movable);
    }

    /** The PIDs and download states of the human-occupied slots, in order. */
    method Collect() returns (movable: seq<Seat>)
      ensures movable == SeatsOf(slots)
    {
      movable := [];
      for i := 0 to |slots|
        invariant movable == SeatsOf(slots[..i])
      {
        assert slots[..i + 1][..i] == slots[..i];
        if slots[i].Human() { movable := movable + [(slots[i].pid, slots[i].download)]; }
      }
      assert slots[..|slots|] == slots;
    }

    method DealOut(movable: seq<Seat>)
      requires |movable| == HumanCount(slots)
      modifies this`slots
      ensures slots == Dealt(old(slots), movable)
    {
      ghost var was := slots;
      var k := 0;
      for i := 0 to |slots|
        invariant |slots| == |was| && slots[i..] == was[i..]
        invariant k == HumanCount(was[..i]) <= |movable|
        invariant slots[..i] == Dealt(was[..i], movable)
      {
        assert was[..i + 1][..i] == was[..i] && slots[i] == was[i];
        CountGrows(was, i + 1);
        ghost var front := slots[..i];
        if slots[i].Human() {
          slots := slots[i := slots[i].(pid := movable[k].0, download := movable[k].1)];
          k := k + 1;
        }
        assert slots[..i + 1] == front + [slots[i]];
      }
      assert was[..|was|] == was && slots[..|slots|] == slots;
    }

    lemma {:induction false} CountGrows(s: seq<L.Slot>, n: nat)
      requires n <= |s|
      ensures HumanCount(s[..n]) <= HumanCount(s)
      decreases |s|
    {
      if n < |s| {
        CountGrows(s[..|s| - 1], n);
        assert s[..|s| - 1][..n] == s[..n];
      } else {
        assert s[..n] == s;
      }
    }

    /** `event_game_started`: no PID is needed for the virtual host any more. */
    method EventGameStarted()
      modifies this
      ensures State() == if old(started) then old(State()) else L.Started(old(State()))
    {
      if started { return; }
      started := true;
      DeleteVirtualHost();
    }
  }
}
