/**
 Two readings of the packets a player is handed: the action stream their game runs on, and the lag
 screen they are shown.
 */
module BeatStreams {
  import opened Bytes
  import opened Batching
  import opened Beat

  // ---- the action stream ----

  predicate IsAction(m: Msg) { m.Actions? || m.Actions2? }

  /** What the game behind a connection is fed: a GProxy++ client inserts `n` empty actions of its own
      before the first packet of every beat. The flag says whether a new beat is due. */
  function Shown(s: seq<Sent>, due: bool, n: nat): (seq<Msg>, bool) {
    if s == [] then ([], due)
    else
      var k := |s| - 1;
      var (seen, now) := Shown(s[..k], due, n);
      if !IsAction(s[k].msg) then (seen, now)
      else (seen + (if s[k].gproxy && now then Empties(n) else []) + [s[k].msg], s[k].msg.Actions?)
  }

  lemma {:induction false} ShownAppend(s: seq<Sent>, t: seq<Sent>, due: bool, n: nat)
    ensures var a := Shown(s, due, n);
            var b := Shown(t, a.1, n);
            Shown(s + t, due, n) == (a.0 + b.0, b.1)
  {
    if t == [] {
      assert s + t == s && Shown(s, due, n).0 + [] == Shown(s, due, n).0;
    } else {
      var k := |t| - 1;
      ShownAppend(s, t[..k], due, n);
      assert (s + t)[..|s| + k] == s + t[..k] && (s + t)[|s| + k] == t[k];
      var a := Shown(s, due, n);
      var b := Shown(t[..k], a.1, n);
      var extra := if t[k].gproxy && b.1 then Empties(n) else [];
      assert a.0 + b.0 + extra + [t[k].msg] == a.0 + (b.0 + extra + [t[k].msg]);
    }
  }

  lemma TaggedPrefix(msgs: seq<Msg>, gproxy: bool, k: nat)
    requires k <= |msgs|
    ensures Tagged(msgs, gproxy)[..k] == Tagged(msgs[..k], gproxy)
  {}

  /** Lag packets and departures are no part of the action stream. */
  lemma {:induction false} QuietShown(msgs: seq<Msg>, gproxy: bool, due: bool, n: nat)
    requires forall i :: 0 <= i < |msgs| ==> !IsAction(msgs[i])
    ensures Shown(Tagged(msgs, gproxy), due, n) == ([], due)
  {
    if msgs != [] {
      TaggedPrefix(msgs, gproxy, |msgs| - 1);
      QuietShown(msgs[..|msgs| - 1], gproxy, due, n);
    }
  }

  /** A direct player is fed exactly what they are sent. */
  lemma {:induction false} DirectShown(msgs: seq<Msg>, due: bool, n: nat)
    requires forall i :: 0 <= i < |msgs| ==> IsAction(msgs[i])
    ensures Shown(Tagged(msgs, false), due, n)
         == (msgs, if msgs == [] then due else msgs[|msgs| - 1].Actions?)
  {
    if msgs != [] {
      var k := |msgs| - 1;
      TaggedPrefix(msgs, false, k);
      DirectShown(msgs[..k], due, n);
      assert Tagged(msgs, false)[k] == Sent(msgs[k], false);
      assert msgs[..k] + [] + [msgs[k]] == msgs;
    }
  }

  /** One beat: any number of Actions2, then Actions. */
  predicate IsBeat(msgs: seq<Msg>) {
    && msgs != [] && msgs[|msgs| - 1].Actions?
    && forall i :: 0 <= i < |msgs| - 1 ==> msgs[i].Actions2?
  }

  lemma {:induction false} ViaShown(msgs: seq<Msg>, n: nat)
    requires msgs != [] && (forall i :: 0 <= i < |msgs| - 1 ==> msgs[i].Actions2?) && IsAction(msgs[|msgs| - 1])
    ensures Shown(Tagged(msgs, true), true, n) == (Empties(n) + msgs, msgs[|msgs| - 1].Actions?)
  {
    var k := |msgs| - 1;
    TaggedPrefix(msgs, true, k);
    assert Tagged(msgs, true)[k] == Sent(msgs[k], true);
    if k == 0 {
      assert Tagged(msgs[..0], true) == [] && msgs == [msgs[0]];
      assert [] + Empties(n) + [msgs[0]] == Empties(n) + msgs;
    } else {
      assert msgs[..k][k - 1].Actions2?;
      ViaShown(msgs[..k], n);
      assert msgs == msgs[..k] + [msgs[k]];
      assert Empties(n) + msgs[..k] + [] + [msgs[k]] == Empties(n) + msgs;
    }
  }

  /** The same beat reaches a direct player, who is sent the empty actions, and a GProxy++ player,
      whose client inserts them. */
  lemma BeatIsTheSame(msgs: seq<Msg>, n: nat)
    requires IsBeat(msgs)
    ensures Shown(Tagged(Empties(n) + msgs, false), true, n) == (Empties(n) + msgs, true)
    ensures Shown(Tagged(msgs, true), true, n) == (Empties(n) + msgs, true)
  {
    DirectShown(Empties(n) + msgs, true, n);
    ViaShown(msgs, n);
  }

  // ---- what a stream carries ----

  /** The actions in a stream of packets, in order. */
  function ActsOf(msgs: seq<Msg>): seq<Action> {
    if msgs == [] then []
    else
      var k := |msgs| - 1;
      ActsOf(msgs[..k]) + if IsAction(msgs[k]) then msgs[k].acts else []
  }

  /** The milliseconds by which a stream moves a game on. */
  function TimeOf(msgs: seq<Msg>): nat {
    if msgs == [] then 0
    else
      var k := |msgs| - 1;
      TimeOf(msgs[..k]) + if msgs[k].Actions? then msgs[k].interval else 0
  }

  lemma {:induction false} CarriedAppend(a: seq<Msg>, b: seq<Msg>)
    ensures ActsOf(a + b) == ActsOf(a) + ActsOf(b) && TimeOf(a + b) == TimeOf(a) + TimeOf(b)
  {
    hide ActsOf, TimeOf;
    if b == [] {
      assert a + b == a;
      CarriedLast([]);
      assert ActsOf(a) + [] == ActsOf(a);
    } else {
      var k := |b| - 1;
      CarriedAppend(a, b[..k]);
      assert (a + b)[..|a| + k] == a + b[..k];
      CarriedLast(b);
      CarriedLast(a + b);
    }
  }

  lemma CarriedLast(b: seq<Msg>)
    ensures b == [] ==> ActsOf(b) == [] && TimeOf(b) == 0
    ensures b != [] ==>
              var k := |b| - 1;
              && ActsOf(b) == ActsOf(b[..k]) + (if IsAction(b[k]) then b[k].acts else [])
              && TimeOf(b) == TimeOf(b[..k]) + if b[k].Actions? then b[k].interval else 0
  {}

  lemma {:induction false} EmptiesCarryNothing(n: nat)
    ensures ActsOf(Empties(n)) == [] && TimeOf(Empties(n)) == 0
  {
    if n > 0 {
      EmptiesCarryNothing(n - 1);
      assert Empties(n)[..n - 1] == Empties(n - 1);
    }
  }

  /** Of a beat's chunks: their actions, and the interval once. */
  lemma {:induction false} ChunksCarry(chunks: seq<seq<Action>>, interval: nat, k: nat)
    requires k <= |chunks|
    ensures ActsOf(ChunkMsgs(chunks, interval)[..k]) == Concat(chunks[..k])
    ensures TimeOf(ChunkMsgs(chunks, interval)[..k]) == if k == |chunks| && k > 0 then interval else 0
  {
    if k > 0 {
      ChunksCarry(chunks, interval, k - 1);
      var msgs := ChunkMsgs(chunks, interval);
      assert msgs[..k][..k - 1] == msgs[..k - 1] && chunks[..k][..k - 1] == chunks[..k - 1];
    }
  }

  // ---- the replay as one more viewer ----

  function Slots(blocks: seq<Block>): seq<Msg> {
    if blocks == [] then []
    else
      var k := |blocks| - 1;
      Slots(blocks[..k]) +
        match blocks[k]
        case TimeSlot(acts, interval) => [Actions(acts, interval)]
        case TimeSlot2(acts) => [Actions2(acts)]
        case Leave(_) => []
  }

  lemma {:induction false} SlotsAppend(a: seq<Block>, b: seq<Block>)
    ensures Slots(a + b) == Slots(a) + Slots(b)
  {
    if b == [] {
      assert a + b == a;
    } else {
      var k := |b| - 1;
      SlotsAppend(a, b[..k]);
      assert (a + b)[..|a| + k] == a + b[..k];
    }
  }

  lemma {:induction false} EmptySlotsShown(n: nat)
    ensures Slots(EmptySlots(n)) == Empties(n)
  {
    if n > 0 {
      assert EmptySlots(n)[..n - 1] == EmptySlots(n - 1);
      EmptySlotsShown(n - 1);
    }
  }

  lemma {:induction false} ChunkSlotsShown(chunks: seq<seq<Action>>, interval: nat, k: nat)
    requires k <= |chunks|
    ensures Slots(ChunkSlots(chunks, interval)[..k]) == ChunkMsgs(chunks, interval)[..k]
  {
    if k > 0 {
      ChunkSlotsShown(chunks, interval, k - 1);
      assert ChunkSlots(chunks, interval)[..k][..k - 1] == ChunkSlots(chunks, interval)[..k - 1];
    }
  }

  // ---- the lag screen ----

  /** Who is on the screen, whose departure was announced, and whether every packet so far came at a
      time it could: actions only with the screen empty and never from someone gone, START_LAG only
      on an empty screen, STOP_LAG only for someone on it, one departure each. */
  datatype Screen = Screen(shown: set<Pid>, left: set<Pid>, ok: bool)

  predicate NoneFrom(acts: seq<Action>, left: set<Pid>) {
    forall i :: 0 <= i < |acts| ==> acts[i].pid !in left
  }

  function Seen(t: Screen, m: Msg): Screen {
    match m
    case Actions(acts, _) => t.(ok := t.ok && t.shown == {} && NoneFrom(acts, t.left))
    case Actions2(acts) => t.(ok := t.ok && t.shown == {} && NoneFrom(acts, t.left))
    case StartLag(laggers) =>
      Screen(t.shown + laggers.Keys, t.left, t.ok && t.shown == {} && laggers.Keys !! t.left)
    case StopLag(pid, _) => Screen(t.shown - {pid}, t.left, t.ok && pid in t.shown)
    case PlayerLeave(pid) => Screen(t.shown - {pid}, t.left + {pid}, t.ok && pid !in t.left)
  }

  function Watch(t: Screen, msgs: seq<Msg>): Screen {
    if msgs == [] then t else Seen(Watch(t, msgs[..|msgs| - 1]), msgs[|msgs| - 1])
  }

  function Msgs(s: seq<Sent>): seq<Msg> {
    seq(|s|, i requires 0 <= i < |s| => s[i].msg)
  }

  function ScreenOf(p: Player): Screen { Watch(Screen({}, {}, true), Msgs(p.stream)) }

  lemma {:induction false} WatchAppend(t: Screen, a: seq<Msg>, b: seq<Msg>)
    ensures Watch(t, a + b) == Watch(Watch(t, a), b)
  {
    if b == [] {
      assert a + b == a;
    } else {
      var k := |b| - 1;
      WatchAppend(t, a, b[..k]);
      assert (a + b)[..|a| + k] == a + b[..k];
    }
  }

  lemma ScreenGiven(p: Player, msgs: seq<Msg>)
    ensures ScreenOf(Given(p, msgs)) == Watch(ScreenOf(p), msgs)
  {
    WatchAppend(Screen({}, {}, true), Msgs(p.stream), msgs);
    assert Msgs(Given(p, msgs).stream) == Msgs(p.stream) + msgs;
  }

  lemma WatchOne(t: Screen, m: Msg)
    ensures Watch(t, [m]) == Seen(t, m)
  {
    assert [m][..0] == [];
  }

  /** Actions of players who are still there leave an empty screen as it was. */
  lemma {:induction false} WatchActions(t: Screen, msgs: seq<Msg>)
    requires t.shown == {}
    requires forall i :: 0 <= i < |msgs| ==> IsAction(msgs[i]) && NoneFrom(msgs[i].acts, t.left)
    ensures Watch(t, msgs) == t
  {
    if msgs != [] { WatchActions(t, msgs[..|msgs| - 1]); }
  }

  lemma {:induction false} WatchStops(t: Screen, players: Players, pids: seq<Pid>, now: nat)
    requires forall i, j :: 0 <= i < j < |pids| ==> pids[i] != pids[j]
    requires forall i :: 0 <= i < |pids| ==> pids[i] in t.shown
    ensures Watch(t, StopMsgs(players, pids, now)) == t.(shown := t.shown - (set p | p in pids))
  {
    if pids != [] {
      var k := |pids| - 1;
      WatchStops(t, players, pids[..k], now);
      assert StopMsgs(players, pids, now)[..k] == StopMsgs(players, pids[..k], now);
      assert pids == pids[..k] + [pids[k]];
      assert pids[k] !in pids[..k];
    }
  }
}
