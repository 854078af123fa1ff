/** The uncompressed replay: host, game, players, slots and recorded blocks, written and read back. */
module ReplayData {
  import opened Bytes
  import opened Lobby
  import opened Replay
  import StatString

  type Text = seq<Byte>

  datatype Player = Player(pid: Byte, name: Text)

  /** What a recorder is created with. */
  datatype Setup = Setup(hostPid: Byte, hostName: Text, players: seq<Player>, slots: seq<Slot>, seed: U32,
                         selectMode: Byte, spots: Byte, gameType: U32, gameName: Text, stat: Text)

  /** What a viewer reads: the players other than the host, the loading leaves, the game. */
  datatype Contents = Contents(hostPid: Byte, hostName: Text, others: seq<Player>, slots: seq<Slot>, seed: U32,
                               selectMode: Byte, spots: Byte, gameType: U32, gameName: Text, stat: Text,
                               leaves: seq<Record>, records: seq<Record>)

  const PLAYER_RECORD: Byte := 22
  const GAME_START: Byte := 25
  const LANGUAGE: U32 := 0x0012_F8B0

  // ---- writing ----

  function Others(players: seq<Player>, host: Byte): seq<Player> {
    if players == [] then []
    else Others(players[..|players| - 1], host)
         + if players[|players| - 1].pid == host then [] else [players[|players| - 1]]
  }

  function PlayerRecord(p: Player): seq<Byte> {
    [PLAYER_RECORD, p.pid] + p.name + [0, 1, 0] + Le32(0)
  }

  function PlayerList(players: seq<Player>): seq<Byte> {
    if players == [] then [] else PlayerRecord(players[0]) + PlayerList(players[1..])
  }

  function SlotBytes(s: Slot): (r: seq<Byte>)
    ensures |r| == 9
  {
    [s.pid, s.download, s.status, s.computer, s.team, s.colour, s.race, s.computerType, s.handicap]
  }

  function SlotList(slots: seq<Slot>): (r: seq<Byte>)
    ensures |r| == 9 * |slots|
  {
    if slots == [] then [] else SlotBytes(slots[0]) + SlotList(slots[1..])
  }

  function Head(s: Setup): seq<Byte> {
    [16, 1, 0, 0, 0, s.hostPid] + s.hostName + [0, 1, 0]
  }

  function Counts(s: Setup): seq<Byte> {
    Le32(|s.slots| % U32_SIZE) + Le32(s.gameType) + Le32(LANGUAGE)
  }

  function StartWith(s: Setup, slots: seq<Byte>): seq<Byte> {
    [GAME_START] + Le16((7 + |s.slots| * 9) % 0x1_0000) + [|s.slots| % 0x100] + slots
    + Le32(s.seed) + [s.selectMode, s.spots]
  }

  function Start(s: Setup): seq<Byte> {
    StartWith(s, SlotList(s.slots))
  }

  function Marker(id: Byte): seq<Byte> {
    [id] + Le32(1)
  }

  function Data(leaves: seq<Byte>, records: seq<Byte>): seq<Byte> {
    Marker(FIRST_START) + (Marker(SECOND_START) + (leaves + (Marker(THIRD_START) + records)))
  }

  /** `build`. */
  function Built(s: Setup, leaves: seq<Byte>, records: seq<Byte>): seq<Byte> {
    Head(s) + (s.gameName + [0, 0] + (s.stat + [0] + (Counts(s) + (PlayerList(Others(s.players, s.hostPid))
    + (Start(s) + Data(leaves, records))))))
  }

  // ---- reading ----

  function ReadText(s: seq<Byte>): (r: Read<Text>)
    ensures r.Got? ==> |r.rest| < |s|
  {
    if s == [] then Fail
    else if s[0] == 0 then Got([], s[1..])
    else match ReadText(s[1..])
         case Fail => Fail
         case Got(t, rest) => Got([s[0]] + t, rest)
  }

  function ReadPlayer(s: seq<Byte>): (r: Read<Player>)
    ensures r.Got? ==> |r.rest| < |s|
  {
    if |s| < 2 || s[0] != 22 then Fail
    else match ReadText(s[2..])
         case Fail => Fail
         case Got(name, rest) =>
           if |rest| < 6 || rest[..6] != [1, 0, 0, 0, 0, 0] then Fail else Got(Player(s[1], name), rest[6..])
  }

  function ReadPlayers(s: seq<Byte>): Read<seq<Player>>
    decreases |s|
  {
    if s == [] || s[0] != PLAYER_RECORD then Got([], s)
    else match ReadPlayer(s)
         case Fail => Fail
         case Got(p, rest) =>
           match ReadPlayers(rest)
           case Fail => Fail
           case Got(more, after) => Got([p] + more, after)
  }

  function ReadSlots(s: seq<Byte>, n: nat): Read<seq<Slot>>
    decreases n
  {
    if n == 0 then Got([], s)
    else if |s| < 9 then Fail
    else match ReadSlots(s[9..], n - 1)
         case Fail => Fail
         case Got(more, rest) => Got([Slot(s[0], s[1], s[2], s[3], s[4], s[5], s[6], s[7], s[8])] + more, rest)
  }

  /** Leave records up to the third start block. */
  function ReadLeaves(s: seq<Byte>): Read<seq<Record>>
    decreases |s|
  {
    if s == [] || s[0] != LEAVE_GAME then Got([], s)
    else match ReadRecord(s)
         case Fail => Fail
         case Got(r, rest) =>
           match ReadLeaves(rest)
           case Fail => Fail
           case Got(more, after) => Got([r] + more, after)
  }

  function ReadData(s: seq<Byte>): Read<(seq<Record>, seq<Record>)> {
    if |s| < 10 || s[..10] != [0x1A, 1, 0, 0, 0, 0x1B, 1, 0, 0, 0] then Fail
    else match ReadLeaves(s[10..])
         case Fail => Fail
         case Got(leaves, rest) =>
           if |rest| < 5 || rest[..5] != [0x1C, 1, 0, 0, 0] then Fail
           else
             var (ok, records) := ReadRecords(rest[5..]);
             if ok then Got((leaves, records), []) else Fail
  }

  datatype StartInfo = StartInfo(slots: seq<Slot>, seed: U32, selectMode: Byte, spots: Byte)

  function ReadStart(s: seq<Byte>): Read<StartInfo> {
    if |s| < 4 || s[0] != 25 || FromLe16(s[1..3]) != 7 + 9 * s[3] as int then Fail
    else match ReadSlots(s[4..], s[3])
         case Fail => Fail
         case Got(slots, rest) =>
           if |rest| < 6 then Fail else Got(StartInfo(slots, FromLe32(rest[..4]), rest[4], rest[5]), rest[6..])
  }

  datatype Names = Names(hostPid: Byte, hostName: Text, gameName: Text, stat: Text)

  function ReadNames(s: seq<Byte>): Read<Names> {
    if |s| < 6 || s[..5] != [16, 1, 0, 0, 0] then Fail
    else match ReadText(s[6..])
         case Fail => Fail
         case Got(hostName, rest) =>
           if |rest| < 2 || rest[..2] != [1, 0] then Fail
           else match ReadText(rest[2..])
                case Fail => Fail
                case Got(gameName, after) =>
                  if |after| < 1 || after[0] != 0 then Fail
                  else match ReadText(after[1..])
                       case Fail => Fail
                       case Got(stat, end) => Got(Names(s[5], hostName, gameName, stat), end)
  }

  function ReadReplay(s: seq<Byte>): Read<Contents> {
    match ReadNames(s)
    case Fail => Fail
    case Got(names, rest) =>
      if |rest| < 12 || FromLe32(rest[8..12]) != 0x0012_F8B0 then Fail
      else match ReadPlayers(rest[12..])
           case Fail => Fail
           case Got(others, after) =>
             match ReadStart(after)
             case Fail => Fail
             case Got(start, data) =>
               if FromLe32(rest[..4]) != |start.slots| then Fail
               else match ReadData(data)
                    case Fail => Fail
                    case Got(blocks, end) =>
                      Got(Contents(names.hostPid, names.hostName, others, start.slots, start.seed, start.selectMode,
                                   start.spots, FromLe32(rest[4..8]), names.gameName, names.stat, blocks.0, blocks.1),
                          end)
  }

  // ---- each part is read back ----

  lemma {:induction false} TextRoundTrip(t: Text, tail: seq<Byte>)
    requires 0 !in t
    ensures ReadText(t + [0] + tail) == Got(t, tail)
  {
    var s := t + [0] + tail;
    if t == [] {
      assert s[1..] == tail;
    } else {
      assert s[1..] == t[1..] + [0] + tail;
      assert t[0] in t && t == [t[0]] + t[1..];
      TextRoundTrip(t[1..], tail);
    }
  }

  lemma PlayerRoundTrip(p: Player, tail: seq<Byte>)
    requires 0 !in p.name
    ensures ReadPlayer(PlayerRecord(p) + tail) == Got(p, tail)
  {
    hide Le32, ReadText;
    var s := PlayerRecord(p) + tail;
    var rest := [1, 0] + Le32(0) + tail;
    assert s[2..] == p.name + [0] + rest;
    TextRoundTrip(p.name, rest);
    assert rest[6..] == tail;
  }

  lemma {:induction false} PlayersRoundTrip(players: seq<Player>, tail: seq<Byte>)
    requires forall p :: p in players ==> 0 !in p.name
    requires tail != [] && tail[0] != PLAYER_RECORD
    ensures ReadPlayers(PlayerList(players) + tail) == Got(players, tail)
  {
    hide ReadPlayer, PlayerRecord;
    if players == [] {
      assert PlayerList(players) + tail == tail;
    } else {
      var more := PlayerList(players[1..]) + tail;
      assert PlayerList(players) + tail == PlayerRecord(players[0]) + more;
      FirstIsRecord(players[0], more);
      PlayerRoundTrip(players[0], more);
      PlayersRoundTrip(players[1..], tail);
      assert players == [players[0]] + players[1..];
    }
  }

  lemma FirstIsRecord(p: Player, tail: seq<Byte>)
    ensures PlayerRecord(p) + tail != [] && (PlayerRecord(p) + tail)[0] == PLAYER_RECORD
  {
    hide Le32;
  }

  lemma {:induction false} SlotsRoundTrip(slots: seq<Slot>, tail: seq<Byte>)
    ensures ReadSlots(SlotList(slots) + tail, |slots|) == Got(slots, tail)
  {
    if slots == [] {
      assert SlotList(slots) + tail == tail;
    } else {
      var s, more := SlotList(slots) + tail, SlotList(slots[1..]) + tail;
      assert s == SlotBytes(slots[0]) + more;
      assert s[9..] == more;
      SlotsRoundTrip(slots[1..], tail);
      assert slots == [slots[0]] + slots[1..];
    }
  }

  lemma StartFields(s: Setup, tail: seq<Byte>)
    requires |s.slots| < 0x100
    ensures
      var b := Start(s) + tail;
      && |b| >= 4 && b[0] == 25 && FromLe16(b[1..3]) == 7 + 9 * |s.slots| && b[3] == |s.slots|
      && b[4..] == SlotList(s.slots) + (Le32(s.seed) + [s.selectMode, s.spots] + tail)
  {
    hide Le16, Le32, FromLe16, SlotList;
    assert (Start(s) + tail)[1..3] == Le16(7 + |s.slots| * 9);
  }

  lemma StartRoundTrip(s: Setup, tail: seq<Byte>)
    requires |s.slots| < 0x100
    ensures ReadStart(Start(s) + tail) == Got(StartInfo(s.slots, s.seed, s.selectMode, s.spots), tail)
  {
    hide Start, Le32, FromLe16, FromLe32, SlotList, ReadSlots;
    var rest := Le32(s.seed) + [s.selectMode, s.spots] + tail;
    StartFields(s, tail);
    SlotsRoundTrip(s.slots, rest);
    assert rest[..4] == Le32(s.seed) && rest[6..] == tail;
  }

  lemma {:induction false} LeavesRoundTrip(leaves: seq<Record>, tail: seq<Byte>)
    requires forall r :: r in leaves ==> r.Leave?
    requires tail != [] && tail[0] != LEAVE_GAME
    ensures ReadLeaves(Blocks(leaves) + tail) == Got(leaves, tail)
  {
    hide Block, ReadRecord, Blocks, ReadLeaves;
    if leaves == [] {
      NoLeaves(tail);
    } else {
      var rest := Blocks(leaves[1..]) + tail;
      BlocksFront(leaves);
      var s := Block(leaves[0]) + rest;
      assert Blocks(leaves) + tail == s;
      OneLeave(leaves[0], rest);
      LeavesRoundTrip(leaves[1..], tail);
      LeavesStep(s, leaves[0], rest, leaves[1..], tail);
      assert leaves == [leaves[0]] + leaves[1..];
    }
  }

  lemma NoLeaves(tail: seq<Byte>)
    requires tail != [] && tail[0] != LEAVE_GAME
    ensures ReadLeaves(Blocks([]) + tail) == Got([], tail)
  {
    assert Blocks([]) + tail == tail;
  }

  lemma LeavesStep(s: seq<Byte>, r: Record, rest: seq<Byte>, more: seq<Record>, after: seq<Byte>)
    requires s != [] && s[0] == LEAVE_GAME && ReadRecord(s) == Got(r, rest) && ReadLeaves(rest) == Got(more, after)
    ensures ReadLeaves(s) == Got([r] + more, after)
  {
    hide ReadRecord;
  }

  lemma OneLeave(r: Record, tail: seq<Byte>)
    requires r.Leave?
    ensures var s := Block(r) + tail; s != [] && s[0] == LEAVE_GAME && ReadRecord(s) == Got(r, tail)
  {
    hide Le32, ReadRecord;
    RecordRoundTripIff(r, tail);
  }

  lemma DataRoundTrip(leaves: seq<Record>, records: seq<Record>)
    requires forall r :: r in leaves ==> r.Leave?
    requires forall r :: r in records ==> Fits(r)
    ensures ReadData(Data(Blocks(leaves), Blocks(records))) == Got((leaves, records), [])
  {
    hide Le32, Blocks, ReadLeaves, ReadRecords, Fits;
    var s := Data(Blocks(leaves), Blocks(records));
    var rest := Marker(THIRD_START) + Blocks(records);
    assert s[10..] == Blocks(leaves) + rest;
    LeavesRoundTrip(leaves, rest);
    assert rest[5..] == Blocks(records);
    RecordsRoundTripIff(records);
  }

  lemma NamesRoundTrip(s: Setup, tail: seq<Byte>)
    requires 0 !in s.hostName && 0 !in s.gameName && 0 !in s.stat
    ensures ReadNames(Head(s) + (s.gameName + [0, 0] + (s.stat + [0] + tail)))
            == Got(Names(s.hostPid, s.hostName, s.gameName, s.stat), tail)
  {
    hide ReadText;
    var third := s.stat + [0] + tail;
    var second := s.gameName + [0, 0] + third;
    var b := Head(s) + second;
    var rest, after := [1, 0] + second, [0] + third;
    assert b[6..] == s.hostName + [0] + rest;
    TextRoundTrip(s.hostName, rest);
    assert rest[2..] == s.gameName + [0] + after;
    TextRoundTrip(s.gameName, after);
    assert after[1..] == third;
    TextRoundTrip(s.stat, tail);
  }

  lemma {:induction false} OthersNamed(players: seq<Player>, host: Byte)
    ensures forall p :: p in Others(players, host) ==> p in players && p.pid != host
    ensures forall p :: p in players && p.pid != host ==> p in Others(players, host)
  {
    if players != [] {
      OthersNamed(players[..|players| - 1], host);
      assert players == players[..|players| - 1] + [players[|players| - 1]];
    }
  }

  lemma {:induction false} OthersJoin(a: seq<Player>, b: seq<Player>, host: Byte)
    ensures Others(a + b, host) == Others(a, host) + Others(b, host)
  {
    hide Others;
    if b == [] {
      assert a + b == a;
      OthersEnd(b, host);
      assert Others(a, host) + [] == Others(a, host);
    } else {
      var n := |b| - 1;
      OthersJoin(a, b[..n], host);
      OthersEnd(b, host);
      OthersEnd(a + b, host);
      assert (a + b)[..|a| + n] == a + b[..n];
    }
  }

  lemma OthersEnd(s: seq<Player>, host: Byte)
    ensures s == [] ==> Others(s, host) == []
    ensures s != [] ==>
              var n := |s| - 1; Others(s, host) == Others(s[..n], host) + if s[n].pid == host then [] else [s[n]]
  {}

  /** The others are the players without the host, in order: a player is among them, in place, or is the host. */
  lemma OthersAre(before: seq<Player>, p: Player, after: seq<Player>, host: Byte)
    ensures Others(before + [p] + after, host)
            == Others(before, host) + (if p.pid == host then [] else [p]) + Others(after, host)
    ensures Others([], host) == []
  {
    OthersJoin(before + [p], after, host);
    OthersJoin(before, [p], host);
    assert [p][..0] == [];
  }

  /** A viewer recovers everything that was recorded, as long as no text holds a zero byte. */
  lemma ReplayRoundTrip(s: Setup, leaves: seq<Record>, records: seq<Record>)
    requires |s.slots| < 0x100 && 0 !in s.hostName && 0 !in s.gameName && 0 !in s.stat
    requires forall p :: p in s.players ==> 0 !in p.name
    requires forall r :: r in leaves ==> r.Leave?
    requires forall r :: r in records ==> Fits(r)
    ensures
      ReadReplay(Built(s, Blocks(leaves), Blocks(records)))
      == Got(Contents(s.hostPid, s.hostName, Others(s.players, s.hostPid), s.slots, s.seed, s.selectMode, s.spots,
                      s.gameType, s.gameName, s.stat, leaves, records), [])
  {
    hide ReadNames, ReadPlayers, ReadStart, ReadData, Head, Start, Data, PlayerList, Others,
         Le32, FromLe32, Fits, Blocks;
    var data := Data(Blocks(leaves), Blocks(records));
    var others := Others(s.players, s.hostPid);
    var after := Start(s) + data;
    var rest := Counts(s) + (PlayerList(others) + after);
    NamesRoundTrip(s, rest);
    CountsRead(s, PlayerList(others) + after);
    OthersNamed(s.players, s.hostPid);
    StartsWithStart(s, data);
    PlayersRoundTrip(others, after);
    StartRoundTrip(s, data);
    DataRoundTrip(leaves, records);
  }

  /** With a stat string made by the encoder nothing is asked of the game settings it carries: a viewer
      decodes them as they were. */
  lemma SettingsRoundTrip(s: Setup, settings: seq<Byte>, leaves: seq<Record>, records: seq<Record>)
    requires s.stat == StatString.Encoded(settings)
    requires |s.slots| < 0x100 && 0 !in s.hostName && 0 !in s.gameName
    requires forall p :: p in s.players ==> 0 !in p.name
    requires forall r :: r in leaves ==> r.Leave?
    requires forall r :: r in records ==> Fits(r)
    ensures var r := ReadReplay(Built(s, Blocks(leaves), Blocks(records)));
            r.Got? && StatString.Decoded(r.value.stat) == settings && r.value.records == records
  {
    StatString.EncodedIsOdd(settings);
    StatString.RoundTrip(settings);
    ReplayRoundTrip(s, leaves, records);
    hide ReadReplay, Built, Blocks, Fits, StatString.Encoded, StatString.Decoded;
  }

  lemma CountsRead(s: Setup, tail: seq<Byte>)
    requires |s.slots| < U32_SIZE
    ensures
      var rest := Counts(s) + tail;
      && |rest| >= 12 && rest[12..] == tail && FromLe32(rest[..4]) == |s.slots|
      && FromLe32(rest[4..8]) == s.gameType && FromLe32(rest[8..12]) == 0x0012_F8B0
  {
    hide Le32, FromLe32;
    var rest := Counts(s) + tail;
    assert rest[..4] == Le32(|s.slots|) && rest[4..8] == Le32(s.gameType) && rest[8..12] == Le32(LANGUAGE);
  }

  lemma StartsWithStart(s: Setup, tail: seq<Byte>)
    ensures Start(s) + tail != [] && (Start(s) + tail)[0] == GAME_START
  {
    hide Le16, Le32, SlotList;
  }

  /** A zero byte in the stat string, or in any text, would end it early: only the part before it is read. */
  lemma ZeroEndsText(t: Text, k: nat, tail: seq<Byte>)
    requires k < |t| && t[k] == 0 && 0 !in t[..k]
    ensures ReadText(t + [0] + tail) == Got(t[..k], t[k + 1..] + [0] + tail)
  {
    TextRoundTrip(t[..k], t[k + 1..] + [0] + tail);
    assert t + [0] + tail == t[..k] + [0] + (t[k + 1..] + [0] + tail);
  }

  // ---- the loops of `build` ----

  lemma {:induction false} PlayerListSnoc(players: seq<Player>, p: Player)
    ensures PlayerList(players + [p]) == PlayerList(players) + PlayerRecord(p)
  {
    hide PlayerRecord;
    if players == [] {
      assert players + [p] == [p] && [p][1..] == [];
    } else {
      PlayerListSnoc(players[1..], p);
      assert (players + [p])[1..] == players[1..] + [p];
    }
  }

  lemma {:induction false} SlotListSnoc(slots: seq<Slot>, s: Slot)
    ensures SlotList(slots + [s]) == SlotList(slots) + SlotBytes(s)
  {
    hide SlotBytes;
    if slots == [] {
      assert slots + [s] == [s] && [s][1..] == [];
    } else {
      SlotListSnoc(slots[1..], s);
      assert (slots + [s])[1..] == slots[1..] + [s];
    }
  }

  /** The player list, the host left out. */
  method ListPlayers(players: seq<Player>, host: Byte) returns (r: seq<Byte>)
    ensures r == PlayerList(Others(players, host))
  {
    hide Le32;
    r := [];
    for i := 0 to |players|
      invariant r == PlayerList(Others(players[..i], host))
    {
      assert players[..i + 1][..i] == players[..i];
      var p := players[i];
      if p.pid != host {
        PlayerListSnoc(Others(players[..i], host), p);
        r := r + ([PLAYER_RECORD, p.pid] + p.name + [0, 1, 0] + Le32(0));
      } else {
        assert Others(players[..i], host) + [] == Others(players[..i], host);
      }
    }
    assert players[..|players|] == players;
  }

  method ListSlots(slots: seq<Slot>) returns (r: seq<Byte>)
    ensures r == SlotList(slots)
  {
    r := [];
    for i := 0 to |slots|
      invariant r == SlotList(slots[..i])
    {
      assert slots[..i + 1] == slots[..i] + [slots[i]];
      SlotListSnoc(slots[..i], slots[i]);
      r := r + SlotBytes(slots[i]);
    }
    assert slots[..|slots|] == slots;
  }

  /** `build`: what a viewer can read back from a recorder's blocks. */
  method Build(s: Setup, recorder: ReplayRecorder) returns (r: seq<Byte>)
    requires recorder.Valid()
    ensures r == Built(s, Blocks(recorder.leaves), Blocks(recorder.records))
  {
    hide Head, Counts, StartWith, PlayerList, Others, SlotList, Marker;
    r := Head(s) + s.gameName + [0, 0] + s.stat + [0] + Counts(s);
    var players := ListPlayers(s.players, s.hostPid);
    r := r + players;
    var slots := ListSlots(s.slots);
    r := r + StartWith(s, slots);
    Assembled(s, recorder.loadingBlocks, recorder.compiledBlocks);
    r := r + Marker(FIRST_START) + Marker(SECOND_START) + recorder.loadingBlocks + Marker(THIRD_START)
         + recorder.compiledBlocks;
  }

  lemma Assembled(s: Setup, leaves: seq<Byte>, records: seq<Byte>)
    ensures Built(s, leaves, records)
            == Head(s) + s.gameName + [0, 0] + s.stat + [0] + Counts(s) + PlayerList(Others(s.players, s.hostPid))
               + Start(s) + Marker(FIRST_START) + Marker(SECOND_START) + leaves + Marker(THIRD_START) + records
  {
    hide Head, Counts, Start, PlayerList, Others, Marker;
  }
}
