/** Shuffled seats dealt back into the lobby, and the lobby's invariant over whole runs. */
module LobbyDeal {
  import opened Bytes
  import opened Lobby
  import opened LobbyKeeps
  import opened LobbyMoves
  import opened LobbyShuffle

  /** The PID and download state of each human-occupied slot, in slot order. */
  function SeatsOf(slots: seq<Slot>): (seats: seq<Seat>)
    ensures |seats| == HumanCount(slots)
  {
    if slots == [] then []
    else
      var last := slots[|slots| - 1];
      SeatsOf(slots[..|slots| - 1]) + if last.Human() then [(last.pid, last.download)] else []
  }

  /** slots with the k-th human-occupied one given the k-th seat. */
  function Dealt(slots: seq<Slot>, seats: seq<Seat>): (r: seq<Slot>)
    requires HumanCount(slots) <= |seats|
    ensures |r| == |slots|
  {
    if slots == [] then []
    else
      var front, last := slots[..|slots| - 1], slots[|slots| - 1];
      var k := HumanCount(front);
      Dealt(front, seats) + [if last.Human() then last.(pid := seats[k].0, download := seats[k].1) else last]
  }

  /** `shuffle_players`. */
  function Shuffled(s: State, draws: seq<nat>): State
    requires HumanCount(s.slots) <= |draws|
  {
    if s.started then s
    else
      var seats := SeatsOf(s.slots);
      MixedKeeps(seats, draws, |seats|);
      s.(slots := Dealt(s.slots, Mixed(seats, draws, |seats|)))
  }

  /** How many human-occupied slots precede slot i: which seat it gets. */
  function Rank(slots: seq<Slot>, i: nat): nat
    requires i <= |slots|
  {
    HumanCount(slots[..i])
  }

  lemma {:induction false} RankBelow(slots: seq<Slot>, i: nat)
    requires i < |slots| && slots[i].Human()
    ensures Rank(slots, i) < HumanCount(slots)
    ensures SeatsOf(slots)[Rank(slots, i)] == (slots[i].pid, slots[i].download)
  {
    var front := slots[..|slots| - 1];
    if i < |slots| - 1 {
      RankBelow(front, i);
      assert front[..i] == slots[..i];
    }
  }

  lemma {:induction false} RankGrows(slots: seq<Slot>, i: nat, j: nat)
    requires i < j <= |slots| && slots[i].Human()
    ensures Rank(slots, i) < Rank(slots, j)
    decreases j
  {
    assert slots[..j][..j - 1] == slots[..j - 1];
    if i < j - 1 { RankGrows(slots, i, j - 1); }
  }

  /** Every rank is some slot's. */
  lemma {:induction false} SlotOfRank(slots: seq<Slot>, k: nat) returns (i: nat)
    requires k < HumanCount(slots)
    ensures i < |slots| && slots[i].Human() && Rank(slots, i) == k
  {
    var front := slots[..|slots| - 1];
    if k < HumanCount(front) {
      i := SlotOfRank(front, k);
      assert front[..i] == slots[..i];
    } else {
      i := |slots| - 1;
    }
  }

  /** Only PID and download state move, and only between human-occupied slots. */
  lemma {:induction false} DealtAt(slots: seq<Slot>, seats: seq<Seat>, i: nat)
    requires HumanCount(slots) <= |seats| && i < |slots|
    ensures Rank(slots, i) <= HumanCount(slots)
    ensures slots[i].Human() ==> Rank(slots, i) < HumanCount(slots)
    ensures Dealt(slots, seats)[i]
            == if slots[i].Human() then slots[i].(pid := seats[Rank(slots, i)].0, download := seats[Rank(slots, i)].1)
               else slots[i]
  {
    var front := slots[..|slots| - 1];
    if i < |slots| - 1 {
      DealtAt(front, seats, i);
      assert front[..i] == slots[..i];
    }
  }

  ghost predicate PidsDistinct(seats: seq<Seat>) {
    forall i, j :: 0 <= i < j < |seats| ==> seats[i].0 != seats[j].0
  }

  lemma SeatsDistinct(slots: seq<Slot>, pids: set<Byte>)
    requires SeatsMatch(slots, pids)
    ensures PidsDistinct(SeatsOf(slots))
    ensures forall k :: 0 <= k < |SeatsOf(slots)| ==> SeatsOf(slots)[k].0 in pids
  {
    hide HumanCount, SeatsOf, Rank;
    var seats := SeatsOf(slots);
    forall k | 0 <= k < |seats| ensures seats[k].0 in pids {
      var i := SlotOfRank(slots, k);
      RankBelow(slots, i);
    }
    forall k, l | 0 <= k < l < |seats| ensures seats[k].0 != seats[l].0 {
      var i := SlotOfRank(slots, k);
      var j := SlotOfRank(slots, l);
      RankBelow(slots, i);
      RankBelow(slots, j);
      assert i != j;
    }
  }

  /** A permutation of distinct PIDs has distinct PIDs, and the same ones. */
  lemma PermutedSeats(seats: seq<Seat>, mixed: seq<Seat>)
    requires multiset(seats) == multiset(mixed) && PidsDistinct(seats)
    ensures |mixed| == |seats| && PidsDistinct(mixed)
    ensures forall x :: x in seats <==> x in mixed
  {
    assert |seats| == |multiset(seats)| == |multiset(mixed)| == |mixed|;
    forall x ensures x in seats <==> x in mixed {
      assert x in seats <==> x in multiset(seats);
    }
    forall i, j | 0 <= i < j < |mixed| ensures mixed[i].0 != mixed[j].0 {
      assert mixed[i] in seats && mixed[j] in seats;
      var k := SeatIndex(seats, mixed[i]);
      var l := SeatIndex(seats, mixed[j]);
      if k == l {
        TwiceIn(mixed, i, j);
        OnceIn(seats, k);
      }
    }
  }

  lemma SeatIndex(seats: seq<Seat>, x: Seat) returns (k: nat)
    requires x in seats
    ensures k < |seats| && seats[k] == x
  {
    k :| 0 <= k < |seats| && seats[k] == x;
  }

  lemma TwiceIn(s: seq<Seat>, i: nat, j: nat)
    requires i < j < |s| && s[i] == s[j]
    ensures multiset(s)[s[i]] >= 2
  {
    assert s == s[..i] + [s[i]] + s[i + 1..j] + [s[j]] + s[j + 1..];
  }

  lemma OnceIn(s: seq<Seat>, k: nat)
    requires PidsDistinct(s) && k < |s|
    ensures multiset(s)[s[k]] == 1
  {
    assert s == s[..k] + [s[k]] + s[k + 1..];
    assert s[k] !in s[..k] && s[k] !in s[k + 1..];
  }

  /** Dealing out any order of the seats keeps players and human-occupied slots one to one. */
  lemma DealKeepsSeats(slots: seq<Slot>, pids: set<Byte>, mixed: seq<Seat>)
    requires SeatsMatch(slots, pids) && multiset(mixed) == multiset(SeatsOf(slots)) && |mixed| == HumanCount(slots)
    ensures SeatsMatch(Dealt(slots, mixed), pids)
  {
    var seats, next := SeatsOf(slots), Dealt(slots, mixed);
    SeatsDistinct(slots, pids);
    PermutedSeats(seats, mixed);
    hide Dealt, Rank, HumanCount, SeatsOf, SeatsMatch;
    forall i: nat | i < |slots|
      ensures if next[i].Human() then next[i].pid in pids else next[i].pid == 0
    {
      DealtOwn(slots, pids, mixed, i);
    }
    forall i: nat, j: nat | i < j < |slots| && next[i].Human() && next[j].Human() ensures next[i].pid != next[j].pid {
      DealtApart(slots, mixed, i, j);
    }
    forall p | p in pids ensures p in PidsSeated(next) {
      AllSeated(slots, pids, p);
      DealtFinds(slots, mixed, p);
    }
    AssembleSeats(next, pids);
  }

  lemma AllSeated(slots: seq<Slot>, pids: set<Byte>, p: Byte)
    requires SeatsMatch(slots, pids) && p in pids
    ensures p in PidsSeated(slots)
  {}

  lemma AssembleSeats(next: seq<Slot>, pids: set<Byte>)
    requires forall i: nat :: i < |next| ==> if next[i].Human() then next[i].pid in pids else next[i].pid == 0
    requires forall i: nat, j: nat :: i < j < |next| && next[i].Human() && next[j].Human() ==>
               next[i].pid != next[j].pid
    requires forall p :: p in pids ==> p in PidsSeated(next)
    ensures SeatsMatch(next, pids)
  {}

  lemma DealtOwn(slots: seq<Slot>, pids: set<Byte>, mixed: seq<Seat>, i: nat)
    requires SeatsMatch(slots, pids) && |mixed| == HumanCount(slots) && i < |slots|
    requires forall x :: x in SeatsOf(slots) <==> x in mixed
    requires forall k :: 0 <= k < |SeatsOf(slots)| ==> SeatsOf(slots)[k].0 in pids
    ensures var next := Dealt(slots, mixed)[i]; if next.Human() then next.pid in pids else next.pid == 0
  {
    hide Dealt, Rank, HumanCount, SeatsOf;
    DealtAt(slots, mixed, i);
    if slots[i].Human() {
      var x := mixed[Rank(slots, i)];
      assert x in SeatsOf(slots);
    }
  }

  lemma DealtApart(slots: seq<Slot>, mixed: seq<Seat>, i: nat, j: nat)
    requires PidsDistinct(mixed) && |mixed| == HumanCount(slots) && i < j < |slots|
    requires Dealt(slots, mixed)[i].Human() && Dealt(slots, mixed)[j].Human()
    ensures Dealt(slots, mixed)[i].pid != Dealt(slots, mixed)[j].pid
  {
    hide Dealt, Rank, HumanCount;
    DealtAt(slots, mixed, i);
    DealtAt(slots, mixed, j);
    RankGrows(slots, i, j);
  }

  lemma DealtFinds(slots: seq<Slot>, mixed: seq<Seat>, p: Byte)
    requires |mixed| == HumanCount(slots) && p in PidsSeated(slots)
    requires forall x :: x in SeatsOf(slots) <==> x in mixed
    ensures p in PidsSeated(Dealt(slots, mixed))
  {
    hide Dealt, Rank, HumanCount, SeatsOf;
    var i :| 0 <= i < |slots| && slots[i].Human() && slots[i].pid == p;
    RankBelow(slots, i);
    var k := SeatIndex(mixed, (p, slots[i].download));
    var j := SlotOfRank(slots, k);
    DealtAt(slots, mixed, j);
    assert Dealt(slots, mixed)[j].Human();
  }

  lemma ShuffleKeepsOk(s: State, draws: seq<nat>)
    requires LobbyOk(s) && HumanCount(s.slots) <= |draws|
    ensures LobbyOk(Shuffled(s, draws))
  {
    if !s.started {
      var seats := SeatsOf(s.slots);
      MixedKeeps(seats, draws, |seats|);
      var mixed := Mixed(seats, draws, |seats|);
      DealKeepsSeats(s.slots, s.players.Keys, mixed);
      hide SeatsMatch, Mixed, Dealt, HumanCount;
      forall i: nat | i < |s.slots| ensures Dealt(s.slots, mixed)[i].colour == s.slots[i].colour {
        DealtAt(s.slots, mixed, i);
      }
    }
  }

  // ---- whole runs ----

  datatype Event =
    | Join(name: string, banned: bool)
    | Leave(pid: Byte)
    | SetOpen(sid: nat, open: bool)
    | Swap(i: nat, j: nat)
    | ChangeTeam(pid: Byte, team: Byte)
    | ChangeColour(pid: Byte, colour: Byte)
    | Shuffle(draws: seq<nat>)
    | Start

  function Step(rules: Rules, s: State, e: Event): State {
    match e
    case Join(name, banned) => Joined(s, name, banned)
    case Leave(pid) => Removed(s, pid)
    case SetOpen(sid, open) => SlotSet(s, sid, open)
    case Swap(i, j) => Swapped(rules, s, i, j)
    case ChangeTeam(pid, team) => TeamChanged(rules, s, pid, team)
    case ChangeColour(pid, colour) => ColourChanged(rules, s, pid, colour)
    case Shuffle(draws) => if HumanCount(s.slots) <= |draws| then Shuffled(s, draws) else s
    case Start => Started(s)
  }

  function Run(rules: Rules, s: State, es: seq<Event>): State {
    if es == [] then s else Step(rules, Run(rules, s, es[..|es| - 1]), es[|es| - 1])
  }

  /** A new lobby: the map's slots, nobody in them, the virtual host on PID 1. */
  ghost predicate Fresh(s: State) {
    && |s.slots| <= MAX_SLOTS && s.players == map[] && s.host == 1 && !s.started
    && (forall i :: 0 <= i < |s.slots| ==> s.slots[i].pid == 0 && !s.slots[i].Human())
    && ColoursDiffer(s.slots)
  }

  lemma StepKeepsOk(rules: Rules, s: State, e: Event)
    requires LobbyOk(s)
    ensures LobbyOk(Step(rules, s, e))
  {
    hide LobbyOk;
    match e
    case Join(name, banned) => JoinKeepsOk(s, name, banned);
    case Leave(pid) => RemoveKeepsOk(s, pid);
    case SetOpen(sid, open) => SlotSetKeepsOk(s, sid, open);
    case Swap(i, j) => SwapKeepsOk(rules, s, i, j);
    case ChangeTeam(pid, team) => TeamKeepsOk(rules, s, pid, team);
    case ChangeColour(pid, colour) => ColourKeepsOk(rules, s, pid, colour);
    case Shuffle(draws) => if HumanCount(s.slots) <= |draws| { ShuffleKeepsOk(s, draws); }
    case Start => StartKeepsOk(s);
  }

  /** Every lobby reachable from a new one is in order. */
  lemma {:induction false} EveryLobbyIsOk(rules: Rules, s: State, es: seq<Event>)
    requires Fresh(s)
    ensures LobbyOk(Run(rules, s, es))
  {
    hide LobbyOk, Step;
    if es == [] {
      FreshIsOk(s);
    } else {
      EveryLobbyIsOk(rules, s, es[..|es| - 1]);
      StepKeepsOk(rules, Run(rules, s, es[..|es| - 1]), es[|es| - 1]);
    }
  }

  lemma FreshIsOk(s: State)
    requires Fresh(s)
    ensures LobbyOk(s)
  {
    assert s.players.Keys == {};
  }
}
