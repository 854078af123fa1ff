/**
 Two runs, step by step, in which a client skips packets: one through a refusal that did not stand, one
 through a socket lost with packets unread that were never buffered.
 */
module SessionSkip {
  import opened Bytes
  import opened Session
  import opened SessionDelivery
  import opened SessionSettled
  import WriteQueue

  lemma {:induction false} RunSnoc(w: World, acc: Oracle, evs: seq<Event>, ev: Event)
    ensures Run(w, acc, evs + [ev]) == Step(Run(w, acc, evs), acc, ev)
  {
    hide Step;
    assert (evs + [ev])[..|evs|] == evs;
  }

  lemma {:induction false} QuietRunIsTruthful(w: World, acc: Oracle, evs: seq<Event>)
    requires forall i :: 0 <= i < |evs| ==> !evs[i].Frame? && !evs[i].Reconnect?
    ensures TruthfulRun(w, acc, evs) && HadUnbufferedRun(w, acc, evs)
  {
    hide Run;
    if evs != [] { QuietRunIsTruthful(w, acc, evs[..|evs| - 1]); }
  }

  // ---- a player in the lobby, offered everything on one socket ----

  function Positions(n: nat): seq<int> {
    seq(n, i requires i >= 0 => i)
  }

  function Outcomes(acc: Oracle, n: nat): seq<bool> {
    seq(n, i requires i >= 0 => acc(1, i))
  }

  function OnSocket(log: seq<Packet>, acc: Oracle): Link {
    Link(0, Positions(|log|), Outcomes(acc, |log|))
  }

  /** Player 3 on connection 1, without GProxy++, has read `got`. */
  ghost predicate InLobby(w: World, acc: Oracle, log: seq<Packet>, got: seq<Packet>) {
    && 3 in w.players && w.players[3].connId == 1 && !w.players[3].gproxy && !w.players[3].gproxyDisconnected
    && w.watch[3].log == log && w.watch[3].link == OnSocket(log, acc)
    && w.watch[3].got == got && w.watch[3].read == |got|
  }

  lemma {:induction false} WelcomeOffered(acc: Oracle, n: nat)
    ensures OfferAll(Link(0, [], []), acc, 1, n) == Link(0, Positions(n), Outcomes(acc, n))
  {
    if n == 0 {
      assert Positions(0) == [] && Outcomes(acc, 0) == [];
    } else {
      WelcomeOffered(acc, n - 1);
      assert Positions(n) == Positions(n - 1) + [n - 1] && Outcomes(acc, n) == Outcomes(acc, n - 1) + [acc(1, n - 1)];
    }
  }

  function Joining(slotInfo: Packet, host: seq<Packet>, infos: seq<Packet>, mapCheck: Packet): Event {
    Join(1, 3, 7, slotInfo, host, infos, mapCheck, [])
  }

  lemma JoinedLobby(acc: Oracle, slotInfo: Packet, host: seq<Packet>, infos: seq<Packet>, mapCheck: Packet)
    ensures
      InLobby(Run(Fresh(true), acc, [Connect, Joining(slotInfo, host, infos, mapCheck)]), acc,
              Welcome(slotInfo, host, infos, mapCheck), [])
  {
    var join := Joining(slotInfo, host, infos, mapCheck);
    assert [Connect] == [] + [Connect] && [Connect, join] == [Connect] + [join];
    assert Run(Fresh(true), acc, []) == Fresh(true);
    RunSnoc(Fresh(true), acc, [], Connect);
    RunSnoc(Fresh(true), acc, [Connect], join);
    hide Run, OfferAll, Welcome;
    WelcomeOffered(acc, |Welcome(slotInfo, host, infos, mapCheck)|);
  }

  function Notified(pkts: seq<Packet>): Notices {
    seq(|pkts|, i requires 0 <= i < |pkts| => (3, pkts[i]))
  }

  lemma {:induction false} SentInLobby(w: World, acc: Oracle, log: seq<Packet>, pkts: seq<Packet>)
    requires InLobby(w, acc, log, [])
    ensures InLobby(Broadcast(w, acc, Notified(pkts)), acc, log + pkts, [])
  {
    if pkts == [] {
      assert log + pkts == log;
    } else {
      var n := |pkts| - 1;
      SentInLobby(w, acc, log, pkts[..n]);
      assert Notified(pkts)[..n] == Notified(pkts[..n]);
      OneSentInLobby(Broadcast(w, acc, Notified(pkts[..n])), acc, log + pkts[..n], pkts[n]);
      assert log + pkts[..n] + [pkts[n]] == log + pkts;
    }
  }

  lemma OneSentInLobby(w: World, acc: Oracle, log: seq<Packet>, pkt: Packet)
    requires InLobby(w, acc, log, [])
    ensures InLobby(SendToPid(w, acc, 3, pkt), acc, log + [pkt], [])
  {
    var n := |log|;
    assert Positions(n + 1) == Positions(n) + [n] && Outcomes(acc, n + 1) == Outcomes(acc, n) + [acc(1, n)];
  }

  // ---- a packet refused for want of budget, and a smaller one taken after it ----

  function Deliveries(n: nat): seq<Event> {
    seq(n, i => Deliver(3))
  }

  /** The packets a socket with these outcomes carries are those of `kept`. */
  ghost predicate CarriesPackets(acc: Oracle, log: seq<Packet>, kept: seq<Packet>) {
    var positions := Kept(Positions(|log|), Outcomes(acc, |log|));
    |positions| == |kept| && forall i :: 0 <= i < |kept| ==> 0 <= positions[i] < |log| && log[positions[i]] == kept[i]
  }

  lemma OneReadInLobby(w: World, acc: Oracle, log: seq<Packet>, kept: seq<Packet>, n: nat)
    requires n < |kept| && InLobby(w, acc, log, kept[..n]) && CarriesPackets(acc, log, kept)
    ensures InLobby(Step(w, acc, Deliver(3)), acc, log, kept[..n + 1])
  {
    hide Kept;
    assert kept[..n + 1] == kept[..n] + [kept[n]];
  }

  lemma {:induction false} ReadInLobby(w: World, acc: Oracle, evs: seq<Event>, log: seq<Packet>,
                                       kept: seq<Packet>, n: nat)
    requires InLobby(Run(w, acc, evs), acc, log, []) && CarriesPackets(acc, log, kept) && n <= |kept|
    ensures InLobby(Run(w, acc, evs + Deliveries(n)), acc, log, kept[..n])
  {
    hide Run, Step, InLobby, CarriesPackets;
    if n == 0 {
      assert evs + Deliveries(0) == evs && kept[..0] == [];
    } else {
      ReadInLobby(w, acc, evs, log, kept, n - 1);
      assert evs + Deliveries(n) == evs + Deliveries(n - 1) + [Deliver(3)];
      RunSnoc(w, acc, evs + Deliveries(n - 1), Deliver(3));
      OneReadInLobby(Run(w, acc, evs + Deliveries(n - 1)), acc, log, kept, n - 1);
    }
  }

  lemma AllButOneKept(acc: Oracle, sent: seq<Packet>, large: Packet, small: Packet)
    requires Outcomes(acc, |sent| + 2) == seq(|sent|, i => true) + [false, true]
    ensures CarriesPackets(acc, sent + [large, small], sent + [small])
  {
    var n := |sent|;
    assert Positions(n + 2) == Positions(n) + ([n] + [n + 1]) && [false, true] == [false] + [true];
    KeptSplit(Positions(n), [n] + [n + 1], seq(n, i => true), [false] + [true]);
    KeptSplit([n], [n + 1], [false], [true]);
    KeptAll(Positions(n), seq(n, i => true));
    KeptNone([n], [false]);
    KeptAll([n + 1], [true]);
    hide Kept;
  }

  /** The answers of a write queue whose write task never gets to run, given these packets. */
  function Stalling(pkts: seq<Packet>): Oracle {
    var answers := WriteQueue.Run(WriteQueue.FRESH, WriteQueue.Stalled(WriteQueue.Lengths(pkts))).answers;
    (c: ConnId, k: nat) => k < |answers| && answers[k]
  }

  lemma StallingOutcomes(sent: seq<Packet>, large: Packet, small: Packet)
    requires Total(sent) + |small| <= WriteQueue.WRITE_QUEUE_MAX_BYTES < Total(sent) + |large|
    ensures Outcomes(Stalling(sent + [large, small]), |sent| + 2) == seq(|sent|, i => true) + [false, true]
  {
    hide WriteQueue.Run, WriteQueue.Stalled, WriteQueue.Sum, Total;
    WriteQueue.TotalIsSum(sent);
    assert WriteQueue.Lengths(sent + [large, small]) == WriteQueue.Lengths(sent) + [|large|, |small|];
    WriteQueue.SmallerPacketIsTakenAfterRefusal(WriteQueue.Lengths(sent), |large|, |small|);
  }

  /** The run: join, send everything, read what came through. */
  function Skipping(join: Event, fill: seq<Packet>, large: Packet, small: Packet, count: nat): seq<Event> {
    [Connect, join] + [Send(Notified(fill + [large, small]))] + Deliveries(count)
  }

  /** Only the last packet but one was refused; the client read the others, and that is no prefix of the log. */
  ghost predicate SkippedOne(w: World, sent: seq<Packet>, large: Packet, small: Packet) {
    && 3 in w.players && w.watch[3].link.outcomes == seq(|sent|, i => true) + [false, true]
    && w.watch[3].log == sent + [large, small] && w.watch[3].got == sent + [small]
    && !(w.watch[3].got <= w.watch[3].log)
  }

  lemma SkippedInLobby(w: World, acc: Oracle, sent: seq<Packet>, large: Packet, small: Packet)
    requires InLobby(w, acc, sent + [large, small], sent + [small]) && small != large
    requires Outcomes(acc, |sent| + 2) == seq(|sent|, i => true) + [false, true]
    ensures SkippedOne(w, sent, large, small)
  {
    assert (sent + [small])[|sent|] != (sent + [large, small])[|sent|];
  }

  /**
   A player joins, packets go out until the next would exceed the write queue's budget, and in the same
   event a smaller one follows it that does not. Whatever the packets are, the client reads all but the
   one refused in between: its stream is no prefix of its log.
   */
  lemma LateAcceptanceSkipsAPacket(slotInfo: Packet, host: seq<Packet>, infos: seq<Packet>, mapCheck: Packet,
                                   fill: seq<Packet>, large: Packet, small: Packet)
    requires
      var sent := Welcome(slotInfo, host, infos, mapCheck) + fill;
      Total(sent) + |small| <= WriteQueue.WRITE_QUEUE_MAX_BYTES < Total(sent) + |large|
    ensures
      var sent := Welcome(slotInfo, host, infos, mapCheck) + fill;
      var acc := Stalling(sent + [large, small]);
      var evs := Skipping(Joining(slotInfo, host, infos, mapCheck), fill, large, small, |sent| + 1);
      && TruthfulRun(Fresh(true), acc, evs) && HadUnbufferedRun(Fresh(true), acc, evs)
      && SkippedOne(Run(Fresh(true), acc, evs), sent, large, small)
  {
    hide Welcome, Run, Step, InLobby, Kept, Stalling, CarriesPackets, Broadcast, TruthfulRun,
         HadUnbufferedRun, Total, SkippedOne;
    var welcome := Welcome(slotInfo, host, infos, mapCheck);
    var sent := welcome + fill;
    var acc := Stalling(sent + [large, small]);
    var join := Joining(slotInfo, host, infos, mapCheck);
    var evs := Skipping(join, fill, large, small, |sent| + 1);
    QuietRunIsTruthful(Fresh(true), acc, evs);
    JoinedLobby(acc, slotInfo, host, infos, mapCheck);
    SentByEvent(acc, [Connect, join], welcome, fill + [large, small]);
    assert welcome + (fill + [large, small]) == sent + [large, small];
    StallingOutcomes(sent, large, small);
    AllButOneKept(acc, sent, large, small);
    ReadInLobby(Fresh(true), acc, [Connect, join] + [Send(Notified(fill + [large, small]))],
                sent + [large, small], sent + [small], |sent| + 1);
    assert (sent + [small])[..|sent| + 1] == sent + [small];
    SkippedInLobby(Run(Fresh(true), acc, evs), acc, sent, large, small);
  }

  lemma SentByEvent(acc: Oracle, evs: seq<Event>, log: seq<Packet>, pkts: seq<Packet>)
    requires InLobby(Run(Fresh(true), acc, evs), acc, log, [])
    ensures InLobby(Run(Fresh(true), acc, evs + [Send(Notified(pkts))]), acc, log + pkts, [])
  {
    hide Run, InLobby, Broadcast;
    RunSnoc(Fresh(true), acc, evs, Send(Notified(pkts)));
    SentInLobby(Run(Fresh(true), acc, evs), acc, log, pkts);
  }

  // ---- packets sent before buffering began, unread when the socket is lost ----

  const OPEN: Oracle := (c, k) => true

  const LOSING: seq<Event> := [
    Connect, Join(1, 3, 7, [0], [], [], [9], []), Frame(1, GpsInit, []), Start, Load, Close(1, 0, []),
    Send([(3, [4])]), Reconnect(3, 7, 0, []), Deliver(3)
  ]

  /** The game has loaded and the player, with GProxy++, is alone in it. */
  function Loaded(conns: set<ConnId>, connPid: map<ConnId, Pid>, next: ConnId, p: LobbyPlayer, o: Observer): World {
    Table(true, true, true, conns, connPid, next, [], map[3 := p], map[3 := o])
  }

  const WELCOMED := Observer([[0], [9]], 2, Link(0, [0, 1], [true, true]), [], 0)
  const MISSED := Observer([[0], [9], [4]], 2, Link(0, [0, 1], [true, true]), [], 0)
  const AWAY := LobbyPlayer(1, true, true, 7, [[4]], 1, 3, 1, 0)
  const BACK := LobbyPlayer(2, true, false, 7, [[4]], 1, 3, 1, 0)
  const RESUMED := MISSED.(link := Link(2, [2], [true]))

  lemma JoinedAlone()
    ensures
      Step(Step(Fresh(true), OPEN, Connect), OPEN, LOSING[1])
      == Table(false, false, true, {1}, map[1 := 3], 2, [], map[3 := LobbyPlayer(1, false, false, 7, [], 0, 2, 1, 0)],
               map[3 := WELCOMED])
  {
    var welcome: seq<Packet> := Welcome([0], [], [], [9]);
    assert welcome == [[0], [9]];
    WelcomeOffered(OPEN, 2);
    assert Positions(2) == [0, 1] && Outcomes(OPEN, 2) == [true, true];
    hide OfferAll, Welcome;
    assert Onlooker(OPEN, 1, welcome) == WELCOMED;
    assert Step(Fresh(true), OPEN, Connect) == Table(false, false, true, {1}, map[], 2, [], map[], map[]);
  }

  lemma LobbyThenLoaded()
    ensures Run(Fresh(true), OPEN, LOSING[..5])
            == Loaded({1}, map[1 := 3], 2, LobbyPlayer(1, true, false, 7, [], 0, 2, 1, 0), WELCOMED)
  {
    hide Run;
    var w := Fresh(true);
    Prefixes();
    assert Run(w, OPEN, []) == w by { NothingRun(w, OPEN); }
    RunSnoc(w, OPEN, [], LOSING[0]);
    RunSnoc(w, OPEN, LOSING[..1], LOSING[1]);
    JoinedAlone();
    RunSnoc(w, OPEN, LOSING[..2], LOSING[2]);
    RunSnoc(w, OPEN, LOSING[..3], LOSING[3]);
    RunSnoc(w, OPEN, LOSING[..4], LOSING[4]);
  }

  lemma NothingRun(w: World, acc: Oracle)
    ensures Run(w, acc, []) == w
  {}

  lemma Prefixes()
    ensures LOSING[..0] == [] && LOSING[..9] == LOSING
    ensures forall i :: 0 <= i < 9 ==> LOSING[..i + 1] == LOSING[..i] + [LOSING[i]]
  {}

  /** The socket goes, a packet is sent meanwhile, and the client comes back and reads it. */
  lemma LostAndBack()
    ensures
      Run(Fresh(true), OPEN, LOSING[..7])
      == Loaded({}, map[], 2, AWAY, MISSED)
    ensures
      Run(Fresh(true), OPEN, LOSING) == Loaded({2}, map[2 := 3], 3, BACK, RESUMED.(got := [[4]], read := 1))
  {
    LobbyThenLoaded();
    Prefixes();
    hide Run;
    var w := Fresh(true);
    RunSnoc(w, OPEN, LOSING[..5], LOSING[5]);
    RunSnoc(w, OPEN, LOSING[..6], LOSING[6]);
    RunSnoc(w, OPEN, LOSING[..7], LOSING[7]);
    RunSnoc(w, OPEN, LOSING[..8], LOSING[8]);
    ClosedAndSent();
    CameBack();
    hide Step, Loaded;
  }

  lemma ClosedAndSent()
    ensures
      var w := Loaded({1}, map[1 := 3], 2, LobbyPlayer(1, true, false, 7, [], 0, 2, 1, 0), WELCOMED);
      Step(Step(w, OPEN, LOSING[5]), OPEN, LOSING[6]) == Loaded({}, map[], 2, AWAY, MISSED)
  {
    var w := Loaded({1}, map[1 := 3], 2, LobbyPlayer(1, true, false, 7, [], 0, 2, 1, 0), WELCOMED);
    var v := Loaded({}, map[], 2, LobbyPlayer(1, true, true, 7, [], 0, 2, 1, 0), WELCOMED);
    assert Step(w, OPEN, LOSING[5]) == v;
    var notices: Notices := [(3, [4])];
    assert LOSING[6] == Send(notices) && notices[..0] == [];
    SentAway();
    assert Step(v, OPEN, LOSING[6]) == Loaded({}, map[], 2, AWAY, MISSED);
  }

  lemma SentAway()
    ensures SendToPid(Loaded({}, map[], 2, LobbyPlayer(1, true, true, 7, [], 0, 2, 1, 0), WELCOMED), OPEN, 3, [4])
            == Loaded({}, map[], 2, AWAY, MISSED)
  {
    var p := LobbyPlayer(1, true, true, 7, [], 0, 2, 1, 0);
    assert Counted(p, true, [4]) == AWAY;
    assert Watched(p, WELCOMED, true, OPEN, [4]) == MISSED;
    hide Counted, Watched;
  }

  lemma SwappedBack()
    ensures Swapped(Loaded({}, map[], 2, AWAY, MISSED), OPEN, 3, 0) == Loaded({2}, map[2 := 3], 3, BACK, RESUMED)
  {
    NothingTrimmed();
    assert Replayed(Link(2, [], []), OPEN, 2, 1) == Link(2, [2], [true]);
    hide Trim, Replayed;
  }

  lemma NothingTrimmed()
    ensures Trim(BACK, 0) == BACK
  {}

  lemma ReadBack()
    ensures Delivered(RESUMED) == RESUMED.(got := [[4]], read := 1)
  {
    KeptAll([2], [true]);
    hide Kept;
  }

  lemma CameBack()
    ensures
      Step(Step(Loaded({}, map[], 2, AWAY, MISSED), OPEN, LOSING[7]), OPEN, LOSING[8])
      == Loaded({2}, map[2 := 3], 3, BACK, RESUMED.(got := [[4]], read := 1))
  {
    hide Swapped, Delivered;
    var v := Loaded({}, map[], 2, AWAY, MISSED);
    var u := Loaded({2}, map[2 := 3], 3, BACK, RESUMED);
    SwappedBack();
    ReadBack();
    assert Step(v, OPEN, LOSING[7]) == u;
  }

  lemma {:induction false} LosingIsTruthful(n: nat)
    requires n <= 9
    ensures TruthfulRun(Fresh(true), OPEN, LOSING[..n])
  {
    if n > 0 {
      LosingIsTruthful(n - 1);
      assert LOSING[..n][..n - 1] == LOSING[..n - 1] && LOSING[..n][n - 1] == LOSING[n - 1];
      if n == 8 { LostAndBack(); }
      hide Run;
    }
  }

  /** Every report is true and no packet is ever refused, yet the stream of a client that comes back without
      having read all that was sent before buffering began is no prefix of its log. */
  lemma UnreadWelcomeIsSkipped()
    ensures RefusalsStandThroughout(Fresh(true), OPEN, LOSING) && TruthfulRun(Fresh(true), OPEN, LOSING)
    ensures !HadUnbuffered(Run(Fresh(true), OPEN, LOSING[..7]), LOSING[7])
    ensures
      var w := Run(Fresh(true), OPEN, LOSING);
      && 3 in w.players && w.watch[3].log == [[0], [9], [4]] && w.watch[3].got == [[4]]
      && !(w.watch[3].got <= w.watch[3].log)
  {
    FinalRefusalsStand(OPEN, LOSING, true);
    LosingIsTruthful(9);
    Prefixes();
    LostAndBack();
    hide Run, TruthfulRun, RefusalsStandThroughout;
    assert [[4]][0] != [[0], [9], [4]][0];
  }
}
