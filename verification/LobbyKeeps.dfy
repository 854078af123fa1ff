/** What every lobby operation but the shuffle keeps: seats, PIDs, names and colours. */
module LobbyKeeps {
  import opened Bytes
  import opened Lobby

  // ---- the invariant ----

  /** Players and human-occupied slots correspond one to one; every other slot carries PID 0. */
  ghost predicate SeatsMatch(slots: seq<Slot>, pids: set<Byte>) {
    && (forall i :: 0 <= i < |slots| ==> if slots[i].Human() then slots[i].pid in pids else slots[i].pid == 0)
    && (forall i, j :: 0 <= i < j < |slots| && slots[i].Human() && slots[j].Human() ==> slots[i].pid != slots[j].pid)
    && (forall p :: p in pids ==> p in PidsSeated(slots))
  }

  ghost function PidsSeated(slots: seq<Slot>): set<Byte> {
    set i | 0 <= i < |slots| && slots[i].Human() :: slots[i].pid
  }

  /** PIDs lie in 1 to 12 and differ from the host's, who is there exactly while 11 players or fewer are. */
  ghost predicate PidsOk(s: State) {
    && (forall p :: p in s.players ==> 1 <= p <= 12 && p != s.host)
    && (s.host == NO_HOST || 1 <= s.host <= 12)
    && (s.host != NO_HOST <==> |s.players| <= 11 && !s.started)
  }

  ghost predicate NamesDiffer(players: map<Byte, string>) {
    forall p, q :: p in players && q in players && p != q ==> !SameName(players[p], players[q])
  }

  ghost predicate ColoursDiffer(slots: seq<Slot>) {
    && (forall i :: 0 <= i < |slots| ==> slots[i].colour <= MAX_SLOTS)
    && (forall i, j :: 0 <= i < j < |slots| && slots[i].colour < MAX_SLOTS ==> slots[i].colour != slots[j].colour)
  }

  ghost predicate LobbyOk(s: State) {
    && |s.slots| <= MAX_SLOTS
    && SeatsMatch(s.slots, s.players.Keys)
    && PidsOk(s)
    && NamesDiffer(s.players)
    && ColoursDiffer(s.slots)
  }

  // ---- counting ----

  function HumanCount(slots: seq<Slot>): (n: nat)
    ensures n <= |slots|
  {
    if slots == [] then 0
    else HumanCount(slots[..|slots| - 1]) + if slots[|slots| - 1].Human() then 1 else 0
  }

  lemma {:induction false} SeatedCount(slots: seq<Slot>)
    ensures |PidsSeated(slots)| <= HumanCount(slots)
  {
    if slots == [] {
      assert PidsSeated(slots) == {};
    } else {
      var front, last := slots[..|slots| - 1], slots[|slots| - 1];
      SeatedCount(front);
      assert PidsSeated(slots) <= PidsSeated(front) + if last.Human() then {last.pid} else {};
      SubsetSize(PidsSeated(slots), PidsSeated(front) + if last.Human() then {last.pid} else {});
    }
  }

  lemma {:induction false} SubsetSize<T>(a: set<T>, b: set<T>)
    requires a <= b
    ensures |a| <= |b|
  {
    if a != {} {
      var x :| x in a;
      SubsetSize(a - {x}, b - {x});
    }
  }

  lemma {:induction false} EmptySeatCount(slots: seq<Slot>, i: nat)
    requires i < |slots| && !slots[i].Human()
    ensures HumanCount(slots) < |slots|
  {
    if i < |slots| - 1 { EmptySeatCount(slots[..|slots| - 1], i); }
  }

  /** There are at least as many seats as players. */
  lemma PlayersFit(s: State)
    requires SeatsMatch(s.slots, s.players.Keys)
    ensures |s.players| <= HumanCount(s.slots)
  {
    SeatedCount(s.slots);
    SubsetSize(s.players.Keys, PidsSeated(s.slots));
    assert |s.players.Keys| == |s.players|;
  }

  /** The PIDs 1 to n. */
  ghost function PidsTo(n: nat): (r: set<Byte>)
    requires n < 0x100
    ensures |r| == n && forall p :: p in r <==> 1 <= p <= n
  {
    if n == 0 then {} else PidsTo(n - 1) + {n}
  }

  /** While fewer than twelve PIDs are taken there is a free one. */
  lemma PidIsFree(players: map<Byte, string>, host: Byte)
    requires |players| + (if 1 <= host <= 12 then 1 else 0) < 12
    ensures NewPid(players, host, 1) <= 12
  {
    if NewPid(players, host, 1) == 13 {
      var used := players.Keys + if 1 <= host <= 12 then {host} else {};
      assert |players.Keys| == |players|;
      SubsetSize(PidsTo(12), used);
    }
  }

  /** A join that finds a free slot always gets a PID, and its number stays in 1 to 12. */
  lemma FreeSlotMeansPid(s: State, name: string)
    requires LobbyOk(s) && !s.started && !NameTaken(s.players, name) && FreeSlot(s.slots, 0) < |s.slots|
    ensures JoinAnswer(s, name, false).Seated?
    ensures var a := JoinAnswer(s, name, false); 1 <= a.pid <= 12 && a.pid !in s.players
                                                 && a.sid < |s.slots| && s.slots[a.sid].Free()
  {
    hide SeatsMatch, NamesDiffer, ColoursDiffer, SameName, HumanCount, NameTaken;
    PlayersFit(s);
    EmptySeatCount(s.slots, FreeSlot(s.slots, 0));
    PidIsFree(s.players, if |s.players| >= 11 then NO_HOST else s.host);
  }

  /** Who is let in: everyone not banned whose name is new, while a slot is free and the game has not begun. */
  lemma JoinSucceedsIff(s: State, name: string, banned: bool)
    requires LobbyOk(s)
    ensures JoinAnswer(s, name, banned).Seated?
            <==> !s.started && !banned && !NameTaken(s.players, name)
                 && exists i :: 0 <= i < |s.slots| && s.slots[i].Free()
  {
    if !s.started && !NameTaken(s.players, name) && FreeSlot(s.slots, 0) < |s.slots| {
      FreeSlotMeansPid(s, name);
    }
  }

  // ---- each operation ----

  lemma SeatTaken(slots: seq<Slot>, pids: set<Byte>, sid: nat, pid: Byte, seat: Slot)
    requires SeatsMatch(slots, pids) && sid < |slots| && !slots[sid].Human() && pid !in pids
    requires seat.Human() && seat.pid == pid
    ensures SeatsMatch(slots[sid := seat], pids + {pid})
  {
    var next := slots[sid := seat];
    assert next[sid].Human();
    forall p | p in pids ensures p in PidsSeated(next) {
      var i :| 0 <= i < |slots| && slots[i].Human() && slots[i].pid == p;
      assert next[i].Human();
    }
  }

  lemma SeatFreed(slots: seq<Slot>, pids: set<Byte>, sid: nat, seat: Slot)
    requires SeatsMatch(slots, pids) && sid < |slots| && slots[sid].Human()
    requires !seat.Human() && seat.pid == 0
    ensures SeatsMatch(slots[sid := seat], pids - {slots[sid].pid})
  {
    var next := slots[sid := seat];
    forall p | p in pids - {slots[sid].pid} ensures p in PidsSeated(next) {
      var i :| 0 <= i < |slots| && slots[i].Human() && slots[i].pid == p;
      assert next[i].Human();
    }
  }

  lemma SeatKept(slots: seq<Slot>, pids: set<Byte>, sid: nat, seat: Slot)
    requires SeatsMatch(slots, pids) && sid < |slots|
    requires seat.Human() == slots[sid].Human() && seat.pid == slots[sid].pid
    ensures SeatsMatch(slots[sid := seat], pids)
  {
    var next := slots[sid := seat];
    forall p | p in pids ensures p in PidsSeated(next) {
      var i :| 0 <= i < |slots| && slots[i].Human() && slots[i].pid == p;
      assert next[i].Human() && next[i].pid == p;
    }
  }

  lemma JoinKeepsOk(s: State, name: string, banned: bool)
    requires LobbyOk(s)
    ensures LobbyOk(Joined(s, name, banned))
  {
    var sid := FreeSlot(s.slots, 0);
    if !s.started && !NameTaken(s.players, name) && !banned && sid < |s.slots| {
      hide SeatsMatch, SameName, NameTaken, FreeSlot, NewPid, PidsOk, NamesDiffer, ColoursDiffer;
      FreeSlotMeansPid(s, name);
      PlayersFit(s);
      EmptySeatCount(s.slots, sid);
      SeatedJoinOk(s, Joined(s, name, banned), JoinAnswer(s, name, banned).pid, sid, name);
    }
  }

  lemma SeatedJoinOk(s: State, t: State, pid: Byte, sid: nat, name: string)
    requires LobbyOk(s) && !s.started && sid < |s.slots| && !s.slots[sid].Human() && |s.players| <= 11
    requires 1 <= pid <= 12 && pid !in s.players && pid != t.host && !NameTaken(s.players, name)
    requires t.host == if |s.players| >= 11 then NO_HOST else s.host
    requires !t.started && t.players == s.players[pid := name]
    requires t.slots == s.slots[sid := s.slots[sid].(pid := pid, status := OCCUPIED, computer := 0, download := 255)]
    ensures LobbyOk(t)
  {
    hide SeatsMatch, NameTaken, NamesDiffer, ColoursDiffer;
    SeatTaken(s.slots, s.players.Keys, sid, pid, t.slots[sid]);
    ColoursKept(s.slots, sid, t.slots[sid]);
    NameAdded(s.players, pid, name);
    assert t.players.Keys == s.players.Keys + {pid};
    assert |t.players| == |t.players.Keys| == |s.players| + 1;
  }

  lemma NameAdded(players: map<Byte, string>, pid: Byte, name: string)
    requires NamesDiffer(players) && pid !in players && !NameTaken(players, name)
    ensures NamesDiffer(players[pid := name])
  {
    forall p | p in players ensures !SameName(players[p], name) && !SameName(name, players[p]) {
      hide SameName;
      assert !SameName(players[p], name);
      SameNameSymmetric(players[p], name);
    }
  }

  lemma SameNameSymmetric(a: string, b: string)
    ensures SameName(a, b) == SameName(b, a)
  {}

  lemma HostRestoredKeeps(s: State)
    requires |s.slots| <= MAX_SLOTS && SeatsMatch(s.slots, s.players.Keys) && NamesDiffer(s.players)
    requires ColoursDiffer(s.slots) && |s.players| <= 11
    requires forall p :: p in s.players ==> 1 <= p <= 12 && p != s.host
    requires s.host == NO_HOST || (1 <= s.host <= 12 && !s.started)
    ensures LobbyOk(HostRestored(s))
  {
    hide SeatsMatch, NamesDiffer, ColoursDiffer;
    if s.host == NO_HOST { PidIsFree(s.players, s.host); }
  }

  lemma RemoveKeepsOk(s: State, pid: Byte)
    requires LobbyOk(s)
    ensures LobbyOk(Removed(s, pid))
  {
    hide SameName, HumanCount, HostRestored;
    if pid in s.players {
      SeatOfPlayer(s, pid);
      var sid := SlotOf(s.slots, pid, 0);
      SeatFreed(s.slots, s.players.Keys, sid, Emptied(s.slots[sid], OPEN));
      var t := s.(slots := s.slots[sid := Emptied(s.slots[sid], OPEN)], players := s.players - {pid});
      assert t.players.Keys == s.players.Keys - {pid};
      PlayersFit(s);
      assert |t.players| == |t.players.Keys| == |s.players| - 1;
      ColoursKept(s.slots, sid, t.slots[sid]);
      hide SeatsMatch, ColoursDiffer;
      HostRestoredKeeps(t);
    }
  }

  /** A player's slot is found, and a human sits in it. */
  lemma SeatOfPlayer(s: State, pid: Byte)
    requires SeatsMatch(s.slots, s.players.Keys) && PidsOk(s) && pid in s.players
    ensures var sid := SlotOf(s.slots, pid, 0); sid < |s.slots| && s.slots[sid].Human() && s.slots[sid].pid == pid
  {
    assert pid in PidsSeated(s.slots);
  }

  lemma ColoursKept(slots: seq<Slot>, sid: nat, seat: Slot)
    requires ColoursDiffer(slots) && sid < |slots| && seat.colour == slots[sid].colour
    ensures ColoursDiffer(slots[sid := seat])
  {}

  lemma SlotSetKeepsOk(s: State, sid: nat, open: bool)
    requires LobbyOk(s)
    ensures LobbyOk(SlotSet(s, sid, open))
  {
    if sid < |s.slots| && !s.started {
      var human := s.slots[sid].Human();
      var t := if human then Removed(s, s.slots[sid].pid) else s;
      RemoveKeepsOk(s, s.slots[sid].pid);
      if human { RemovedSeat(s, sid); }
      var seat := Emptied(t.slots[sid], if open then OPEN else CLOSED);
      SeatKept(t.slots, t.players.Keys, sid, seat);
      ColoursKept(t.slots, sid, seat);
    }
  }

  lemma RemovedSeat(s: State, sid: nat)
    requires LobbyOk(s) && sid < |s.slots| && s.slots[sid].Human()
    ensures var t := Removed(s, s.slots[sid].pid);
            |t.slots| == |s.slots| && !t.slots[sid].Human() && t.slots[sid].pid == 0
  {
    SeatOfPlayer(s, s.slots[sid].pid);
  }
}
