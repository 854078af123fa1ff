/** Swaps, team and colour changes keep the lobby's invariant; a swap undoes itself. */
module LobbyMoves {
  import opened Bytes
  import opened Lobby
  import opened LobbyKeeps

  // ---- swaps ----

  /** Swapping the same two slots again restores the lobby, in each of the three map modes. */
  lemma SwapUndoesItself(rules: Rules, s: State, i: nat, j: nat)
    ensures Swapped(rules, Swapped(rules, s, i, j), i, j) == s
  {
    if i < |s.slots| && j < |s.slots| && i != j && !s.started {
      var t := Swapped(rules, s, i, j);
      assert Swapped(rules, t, i, j).slots == s.slots;
    }
  }

  /** Which slot a player ends up in: k's occupant moves to Other(i, j, k). */
  function Other(i: nat, j: nat, k: nat): nat {
    if k == i then j else if k == j then i else k
  }

  lemma TradedSeats(rules: Rules, slots: seq<Slot>, i: nat, j: nat)
    requires i < |slots| && j < |slots| && i != j
    ensures
      var next := slots[i := Traded(rules, slots[i], slots[j])][j := Traded(rules, slots[j], slots[i])];
      forall k :: 0 <= k < |slots| ==>
        next[k].pid == slots[Other(i, j, k)].pid && next[k].Human() == slots[Other(i, j, k)].Human()
  {}

  lemma SwapMovesPlayers(rules: Rules, slots: seq<Slot>, pids: set<Byte>, i: nat, j: nat)
    requires SeatsMatch(slots, pids) && i < |slots| && j < |slots| && i != j
    ensures SeatsMatch(slots[i := Traded(rules, slots[i], slots[j])][j := Traded(rules, slots[j], slots[i])], pids)
  {
    hide Traded;
    var next := slots[i := Traded(rules, slots[i], slots[j])][j := Traded(rules, slots[j], slots[i])];
    TradedSeats(rules, slots, i, j);
    forall p | p in pids ensures p in PidsSeated(next) {
      var k :| 0 <= k < |slots| && slots[k].Human() && slots[k].pid == p;
      assert next[Other(i, j, k)].Human();
    }
  }

  lemma SwapKeepsColours(rules: Rules, slots: seq<Slot>, i: nat, j: nat)
    requires ColoursDiffer(slots) && i < |slots| && j < |slots| && i != j
    ensures ColoursDiffer(slots[i := Traded(rules, slots[i], slots[j])][j := Traded(rules, slots[j], slots[i])])
  {
    var next := slots[i := Traded(rules, slots[i], slots[j])][j := Traded(rules, slots[j], slots[i])];
    if rules.fixedSettings {
      assert forall k :: 0 <= k < |slots| ==> next[k].colour == slots[k].colour;
    } else {
      assert forall k :: 0 <= k < |slots| ==> next[k].colour == slots[Other(i, j, k)].colour;
    }
  }

  lemma SwapKeepsOk(rules: Rules, s: State, i: nat, j: nat)
    requires LobbyOk(s)
    ensures LobbyOk(Swapped(rules, s, i, j))
  {
    hide SeatsMatch, ColoursDiffer, Traded;
    if i < |s.slots| && j < |s.slots| && i != j && !s.started {
      SwapMovesPlayers(rules, s.slots, s.players.Keys, i, j);
      SwapKeepsColours(rules, s.slots, i, j);
    }
  }

  // ---- colours ----

  ghost function ColoursUsed(slots: seq<Slot>): set<Byte> {
    set i | 0 <= i < |slots| && slots[i].colour < MAX_SLOTS :: slots[i].colour
  }

  lemma {:induction false} ColourCount(slots: seq<Slot>)
    ensures |ColoursUsed(slots)| <= |slots|
  {
    if slots == [] {
      assert ColoursUsed(slots) == {};
    } else {
      var front, c := slots[..|slots| - 1], slots[|slots| - 1].colour;
      ColourCount(front);
      assert ColoursUsed(slots) <= ColoursUsed(front) + {c};
      SubsetSize(ColoursUsed(slots), ColoursUsed(front) + {c});
    }
  }

  ghost function ColoursTo(n: nat): (r: set<Byte>)
    requires n < 0x100
    ensures |r| == n && forall c :: c in r <==> 0 <= c < n
  {
    if n == 0 then {} else ColoursTo(n - 1) + {n - 1}
  }

  lemma UsedElsewhere(slots: seq<Slot>, sid: nat, c: Byte)
    requires sid < |slots| && slots[sid].colour != c && c < MAX_SLOTS && SlotOfColour(slots, c, 0) < |slots|
    ensures c in ColoursUsed(slots[..sid] + slots[sid + 1..])
  {
    var k := SlotOfColour(slots, c, 0);
    var rest := slots[..sid] + slots[sid + 1..];
    assert rest[if k < sid then k else k - 1].colour == c;
  }

  /** A slot without a colour always finds one: at most eleven others have theirs. */
  lemma ColourIsFree(slots: seq<Slot>, sid: nat)
    requires |slots| <= MAX_SLOTS && sid < |slots| && slots[sid].colour == MAX_SLOTS
    ensures NewColour(slots, 0) < MAX_SLOTS
  {
    hide ColoursUsed, ColoursTo;
    var rest := slots[..sid] + slots[sid + 1..];
    ColourCount(rest);
    if NewColour(slots, 0) == MAX_SLOTS {
      forall c: Byte | c < MAX_SLOTS ensures c in ColoursUsed(rest) {
        UsedElsewhere(slots, sid, c);
      }
      SubsetSize(ColoursTo(MAX_SLOTS), ColoursUsed(rest));
    }
  }

  lemma Recoloured(slots: seq<Slot>, sid: nat, seat: Slot)
    requires ColoursDiffer(slots) && sid < |slots| && seat.colour <= MAX_SLOTS
    requires seat.colour < MAX_SLOTS ==> forall i :: 0 <= i < |slots| && i != sid ==> slots[i].colour != seat.colour
    ensures ColoursDiffer(slots[sid := seat])
  {}

  lemma TeamKeepsOk(rules: Rules, s: State, pid: Byte, team: Byte)
    requires LobbyOk(s)
    ensures LobbyOk(TeamChanged(rules, s, pid, team))
  {
    hide SeatsMatch, Traded, SlotOnTeam, TeamAllowed, NamesDiffer;
    var sid := SlotOf(s.slots, pid, 0);
    if !s.started && sid < |s.slots| {
      if rules.customForces {
        SwapKeepsOk(rules, s, sid, SlotOnTeam(s.slots, team, pid));
      } else if TeamAllowed(rules, s.slots, pid, team) {
        var seat := TeamChanged(rules, s, pid, team).slots[sid];
        Recoloured(s.slots, sid, seat);
        hide ColoursDiffer;
        SeatKept(s.slots, s.players.Keys, sid, seat);
        assert LobbyOk(s.(slots := s.slots[sid := seat]));
      }
    }
  }

  lemma ColourTraded(slots: seq<Slot>, i: nat, j: nat, a: Slot, b: Slot)
    requires ColoursDiffer(slots) && i < |slots| && j < |slots| && i != j
    requires a.colour == slots[j].colour && b.colour == slots[i].colour
    ensures ColoursDiffer(slots[i := a][j := b])
  {
    var next := slots[i := a][j := b];
    assert forall k :: 0 <= k < |slots| ==> next[k].colour == slots[Other(i, j, k)].colour;
  }

  lemma ColourKeepsOk(rules: Rules, s: State, pid: Byte, colour: Byte)
    requires LobbyOk(s)
    ensures LobbyOk(ColourChanged(rules, s, pid, colour))
  {
    hide SeatsMatch, NamesDiffer;
    var sid, holder := SlotOf(s.slots, pid, 0), SlotOfColour(s.slots, colour, 0);
    var t := ColourChanged(rules, s, pid, colour);
    if t != s {
      if holder == |s.slots| {
        Recoloured(s.slots, sid, t.slots[sid]);
        hide ColoursDiffer;
        SeatKept(s.slots, s.players.Keys, sid, t.slots[sid]);
      } else {
        ColourMoved(s, sid, holder, t);
      }
    }
  }

  lemma ColourMoved(s: State, sid: nat, holder: nat, t: State)
    requires LobbyOk(s) && sid < |s.slots| && holder < |s.slots| && s.slots[holder].status != OCCUPIED
    requires t == s.(slots := s.slots[holder := s.slots[holder].(colour := s.slots[sid].colour)]
                                     [sid := s.slots[sid].(colour := s.slots[holder].colour)])
    ensures LobbyOk(t)
  {
    hide NamesDiffer, ColoursDiffer, SeatsMatch;
    if sid != holder {
      ColourTraded(s.slots, holder, sid, t.slots[holder], t.slots[sid]);
      var mid := s.slots[holder := t.slots[holder]];
      SeatKept(s.slots, s.players.Keys, holder, t.slots[holder]);
      SeatKept(mid, s.players.Keys, sid, t.slots[sid]);
    } else {
      assert t.slots == s.slots;
    }
  }

  /** After a change the player has the colour asked for, and its holder, if nobody sat there, the old one. */
  lemma ColourChangeGrants(rules: Rules, s: State, pid: Byte, colour: Byte)
    requires LobbyOk(s) && pid in s.players && colour < MAX_SLOTS && !s.started && !rules.fixedSettings
    ensures
      var sid := SlotOf(s.slots, pid, 0);
      var t := ColourChanged(rules, s, pid, colour);
      sid < |s.slots| && s.slots[sid].team != MAX_SLOTS ==>
        (t.slots[sid].colour == colour
         <==> s.slots[sid].colour == colour
              || forall k :: 0 <= k < |s.slots| && s.slots[k].colour == colour ==> s.slots[k].status != OCCUPIED)
  {
    hide SeatsMatch, PidsOk, NamesDiffer;
    var sid, holder := SlotOf(s.slots, pid, 0), SlotOfColour(s.slots, colour, 0);
  }

  // ---- starting ----

  lemma StartKeepsOk(s: State)
    requires LobbyOk(s)
    ensures LobbyOk(Started(s))
  {}
}
