# ghostpp-rs in Dafny

ghostpp-rs hosts Warcraft III games. Almost everything a player depends on happens in one single-threaded
actor, `GameActor`, and in a handful of byte and bit codecs around it. This project models the parts where a
mistake would not show at once, and proves what they are there to promise. `dafny verify dfyconfig.toml`
checks all of it.

**A. The reliable session** (`Session*.dfy`, `WriteQueue.dfy`). Every W3GS packet leaves through `send_to_pid`,
which counts it and, once the game has loaded, keeps it for players behind GProxy++. `Session` gives each event
(joins, frames, socket losses, holds, reconnects, retirements, sends) as a function on the actor's fields and,
beside them, an observer per player: the log of packets passed to the hub, what the current socket was offered
with what outcome, and what the client has accepted. Whether `try_send` accepts is an arbitrary oracle, so every
behaviour of the write task is covered. `SessionTable` proves the connection table and buffer invariant over every
run; `SessionLaws` who comes, leaves, is waited for and comes back, that only a player's own key moves the player to
another connection, and that every packet handed to the hub is logged; `SessionDelivery` and `SessionSettled` that
each client reads a prefix of its log; `SessionActor` that the actor's methods do what the functions say. `WriteQueue` goes one level down and interleaves the atomic operations of
one sender and the write task.

Four hypotheses of the prefix theorem are stated openly:

- a client reports what it really accepted (`Truthful`);
- reports carry 32 bits, and no multiple of 2^32 lies between the count a client comes back with and the oldest packet
  kept for it, nor has one overtaken an acknowledgement that is still on its way (also in `Truthful`;
  `TrimExactIffNoWrap` and `TrimStaysBehindIff` show this exact, `WrappedReportResends` what happens otherwise). Logs
  may be of any length;
- a client that comes back had read everything it was sent before buffering began, which is when the game has loaded
  and the client is behind GProxy++ (`HadUnbuffered`); `RejoinsInStepIff` shows this exact,
  `SessionSkip.UnreadWelcomeIsSkipped` is a run without it;
- refusals stand within the event that met them, and until the refused player is retired, which the actor does after
  each event (`RefusalsStandThroughout`). Packets a joiner is sent before the actor watches for refusals need more:
  none is refused, or every refusal on that socket is final. `FinalRefusalsStand` shows that a closed channel, whose
  refusals are final (`WriteQueue.ClosedRefusesForever`), always meets this; `WriteQueue.SmallerPacketIsTakenAfterRefusal`
  and `SessionSkip.LateAcceptanceSkipsAPacket` that a refusal for want of budget need not.

**B. The in-game beat** (`Beat*.dfy`, `Batching.dfy`). `Beat` gives the beat, the lag screen, the desync vote and
departures; `BeatSafety` proves that over every run any two remaining players' games are fed the same actions, the
ones the replay records, although GProxy++ clients insert empty actions of their own, and that these are exactly the
actions accepted, in order, of players who stayed until they were sent, one interval of time to a beat; `BeatLag` that
everyone's lag screen is the true one, that no action of a departed player is ever shown, and that players who remain
never disagreed on a compared turn; `BeatTiming` in milliseconds and seconds how far behind anyone can fall, who is put
on the screen, comes off it or is dropped; `BeatDepartures` that everyone who remains and the replay are told of each
departure once; `BeatReports` that only a player's own reports move that player on. `BeatActor` has the loops.
`Batching` cuts the action queue into packets and reads them back.

**C. The lobby** (`Lobby*.dfy`). Slots, players by PID, and the virtual host that gives up its PID to the twelfth
player. Every operation keeps players and human-occupied slots one to one, PIDs in 1 to 12, names and colours
distinct; a join that finds a free slot always finds a PID; swaps undo themselves; the shuffle reaches every order
by exactly one choice of positions. `LobbyLaws` says what each operation leaves where.

**D. Codecs that must invert** (`Replay.dfy`, `ReplayData.dfy`, `ReplayFile.dfy`, `StatString.dfy`, `Hcl.dfy`,
`Framing.dfy`, `MapDownload.dfy`).

**E. Bits and integers** (`Digits.dfy`, `KeyTables.dfy`, `KeyWords.dfy`, `KeyScramble.dfy`, `KeyNumber.dfy`,
`KeyDecoder.dfy`, `KeyLaws.dfy`, `CdKey.dfy`, `Civil.dfy`, `CheckRevision.dfy`). The key decoder's nibble network and
bit permutation as a bijection on four words and round by round, with exactly when its arithmetic loses a carry; dates from seconds against a calendar
counted out year by year; the checkRevision machine on 32-bit words against the 64-bit machine it stands for.
`StatusBoard.dfy` adds the status endpoint's cache tags.

Where the code keeps something in a hash map, its iteration order is a parameter (`order`, `notices`). Time,
random draws, checksums, compression, ban lookups and the outcome of `try_send` are parameters too.

Properties the code does not have are stated with the exact condition under which it has them:

- `trim_gproxy_buffer` is not wrap-aware (`SessionDelivery.TrimExactIffNoWrap`, `SessionDelivery.TrimStaysBehindIff`).
- A GProxy++ client whose socket is lost while packets from before buffering are still unread never gets those: it is
  resumed at the oldest buffered packet, and its stream skips (`SessionSkip.UnreadWelcomeIsSkipped`). A completed
  reconnect carries what the client lacks if and only if the buffer reaches back to its report and no multiple of 2^32
  lies between (`SessionDelivery.ReconnectOffersMissingSuffix`), which over a run means having read everything
  unbuffered (`SessionDelivery.RejoinsInStepIff`).
- A send accepted after a refusal in the same event reaches the client out of step
  (`SessionDelivery.GaplessIffRefusalIsFinal`, `SessionSkip.LateAcceptanceSkipsAPacket`).
- The packets of a beat read back to the queue unless it holds an action of 65525 to 65527 bytes, which goes out in a
  packet without a length (`Batching.BatchRoundTripIff`, `Batching.OversizeActionIsUnreadable`).
- `mult` drops the carry of its addition although its comment says it mirrors a full multiply-accumulate
  (`KeyNumber.MultIsExactIff`), so two different keys can decode alike (`KeyDecoder.DroppedCarryMakesKeysCollide`).
- 32-bit registers are not enough for a formula that divides. They hold the low halves of 64-bit ones throughout a run
  if and only if every division in it is one whose halves divide as the words do (`CheckRevision.InStepIff`,
  `CheckRevision.DivisionAgreesIff`); `CheckRevision.DivisionDiffers` is a formula and a file with different hashes.
- A replay reads back if and only if every record fits its two-byte length field (`Replay.RecordsRoundTripIff`). Time
  slots always do; in-game chat need not, because each undecodable byte becomes three before it is recorded
  (`Replay.UndecodableChatIsUnreadable`).
- HCL encoding indexes past its map and panics if and only if a full stop is to go into a slot with a handicap of 210
  or more (`Hcl.FoldPanicsIff`, `Hcl.DotPanicsAt210`); a handicap no player can choose does not survive it
  (`Hcl.SlotRoundTripIff`).

## Model

| member | source | states |
|---|---|---|
| SessionTable.StepKeepsOk | src/game/actor.rs:1156-1190 | every event keeps connections and players linked both ways, each buffer the true tail of its log with its true byte sum, and each socket's offers gapless until a refusal |
| SessionTable.EveryRunIsOk | src/game/actor.rs:3045-3074 | that holds after any sequence of events from a fresh lobby, whatever `try_send` answers |
| SessionTable.StaleSocketIsInert | src/game/actor.rs:1931-1970 | a frame or Closed event of a connection not in the table changes nothing at all |
| SessionTable.GoneStaysGone | src/game/actor.rs:2046-2075 | a connection once removed never comes back, because ids are not reused |
| SessionTable.ReplacedSocketIsInertForever | src/game/actor.rs:2046-2075 | after a reconnect the old socket's frames and close change no player in any continuation of the run |
| SessionTable.OnlyLiveFramesCount | src/game/actor.rs:1156-1190 | `total_received` moves only for W3GS frames of the player's own live connection |
| SessionTable.TrimKeepsSeat | src/game/actor.rs:3495-3506 | whatever a client reports, trimming leaves the buffer a tail of the log with its byte count exact |
| SessionTable.RetireKeepsOk | src/game/actor.rs:3080-3130 | retiring an overflowed player keeps the invariant, whether held or removed |
| SessionTable.ReconnectKeepsOk | src/game/actor.rs:2017-2114 | a reconnect, complete or cut short, keeps the invariant |
| SessionTable.JoinKeepsOk | src/game/actor.rs:2215-2300 | a joiner starts with the count of exactly what it was sent directly |
| SessionTable.ReplayedIsContiguous | src/game/actor.rs:2077-2107 | a replay offers the buffer from its start on, gapless, and nothing after the first refusal |
| SessionLaws.StepDecidesFates | src/game/actor.rs:1931-1970 | every event, for every player: exactly who comes, who leaves, who is waited for and since when, who moves to a new connection, whose frame is counted; keys never change |
| SessionLaws.OnlyTheKeyMovesAPlayer | src/game/actor.rs:2026-2045 | a player in the game before and after an event is on another connection only if the event was a reconnect naming the player and bringing the player's key |
| SessionLaws.ReconnectNeedsTheKey | src/game/actor.rs:2026-2045 | a reconnect with any other key, or for nobody behind GProxy++, changes nothing at all; one with the key moves the player |
| SessionLaws.KeyIsTheJoinKey | src/game/actor.rs:2215-2300 | over every run a player's key is the one given at the join that let the player in |
| SessionLaws.ReconnectIsAnnouncedIff | src/game/actor.rs:2085-2113 | a reconnect is announced if and only if its replay got through; otherwise the player is queued to be retired |
| SessionLaws.PhasesAdvance | src/game/actor.rs:2554-2563 | a game starts when told to, loads only after that, and at no other time |
| SessionLaws.EveryPacketIsPassed | src/game/actor.rs:3045-3074 | every packet of a broadcast is counted and logged for the player it is for, in order, buffered for one behind GProxy++ in a loaded game, offered unless there is no socket, and reaches nobody else |
| SessionLaws.AckTrims | src/game/actor.rs:3495-3506 | acknowledging a count leaves in the buffer exactly the packets after it, unless a multiple of 2^32 lies between |
| SessionDelivery.GaplessIffRefusalIsFinal | src/game/actor.rs:3045-3074 | what got through on a socket is a gapless stretch of the log if and only if nothing was accepted after a refusal |
| SessionDelivery.TrimExactIffNoWrap | src/game/actor.rs:3495-3506 | trimming to a true report leaves exactly what the client lacks if and only if no multiple of 2^32 was crossed |
| SessionDelivery.TrimStaysBehindIff | src/game/actor.rs:3495-3506 | trimming to a report of any count, however old, drops nothing past that count if and only if no multiple of 2^32 has overtaken it, or its low 32 bits do not reach beyond the oldest packet |
| SessionDelivery.WrappedReportResends | src/game/actor.rs:3495-3506 | a client holding 2^32 packets is, on a completed reconnect, sent its last one again |
| SessionDelivery.SettledClientsReadAPrefix | src/game/actor.rs:2017-2114 | over every run in which no socket accepts after a refusal, reports are true and no multiple of 2^32 falsifies them, and clients come back with everything unbuffered read, what a client accepted is a prefix of its log |
| SessionSettled.StandingIsEnough | src/game/actor.rs:480-484 | refusals that stand until the refused player is retired leave no socket of any run with an acceptance after a refusal; whoever was refused and is still connected is queued for retirement, or refused for good |
| SessionSettled.FinalRefusalsStand | src/net/conn.rs:92-103 | where every refusal is final they stand that long in every run |
| SessionSettled.EveryClientReadsAPrefix | src/game/actor.rs:2017-2114 | over every run in which refusals stand until the player is retired, reports are true and no multiple of 2^32 falsifies them, and clients come back with everything unbuffered read, what a client accepted is a prefix of its log |
| SessionDelivery.ReconnectOffersMissingSuffix | src/game/actor.rs:2077-2107 | a completed reconnect carries exactly what the client lacks, if anything, if and only if the buffer reaches back to the report and no multiple of 2^32 lies between |
| SessionDelivery.RejoinsInStepIff | src/game/actor.rs:2077-2107 | after any such run it does so if and only if the client had read everything sent before buffering began and no multiple of 2^32 lies between |
| SessionDelivery.CaughtUpHoldsWholeLog | src/game/actor.rs:3045-3074 | a connected player with no refusal holds the whole log once it has read all that got through |
| SessionSkip.LateAcceptanceSkipsAPacket | src/game/actor.rs:3045-3074 | for any packets sent to a joiner until the next exceeds the write queue's budget and a smaller one after it does not, the queue's own answers make a run from a fresh lobby in which the client reads all but the refused one, no prefix of its log |
| SessionSkip.UnreadWelcomeIsSkipped | src/game/actor.rs:2077-2107 | a run with true reports and no refusal in which a client that had not read its pre-load packets comes back and skips them |
| SessionActor.GameActor.SendToPid | src/game/actor.rs:3045-3074 | count, buffer, offer and, on refusal, queue for dropping once |
| SessionActor.GameActor.HandleConnClosed | src/game/actor.rs:1931-1970 | hold a loaded GProxy++ player, remove anyone else, ignore a stale socket |
| SessionActor.GameActor.HandleFrame | src/game/actor.rs:1156-1190 | count W3GS frames, trim on GPS_ACK, remove on LEAVEGAME |
| SessionActor.GameActor.SwapConnection | src/game/actor.rs:2046-2107 | the player on the new connection, trimmed and offered the rest up to the first refusal |
| SessionActor.GameActor.HandleGproxyReconnect | src/game/actor.rs:2017-2114 | the whole reconnect, with the key check and the interrupted replay |
| SessionActor.GameActor.ProcessPendingDrops | src/game/actor.rs:3080-3130 | every queued player retired in order, the queue emptied first |
| SessionActor.GameActor.RemovePlayer | src/game/actor.rs:2934-2940 | the player and both table entries gone, the others told |
| SessionActor.GameActor.HandleJoin | src/game/actor.rs:2215-2300 | the new record, its table entry and the announcements |
| WriteQueue.StepKeepsAccounts | src/net/conn.rs:92-103 | every atomic step keeps the counter equal to the bytes in the channel, in flight and owed, within the budget |
| WriteQueue.CounterIsOutstandingBytes | src/net/conn.rs:150-174 | under every interleaving the counter never underflows and never exceeds the budget |
| WriteQueue.FalseOnlyOverBudgetOrClosed | src/net/conn.rs:92-103 | under every interleaving `try_send` answers false only over budget or on a closed channel |
| WriteQueue.SmoothStaysOpen | src/net/conn.rs:150-174 | while no write fails and nobody tears the connection down the channel stays open |
| WriteQueue.SureToFitIffWithinBudget | src/net/conn.rs:92-103 | a series of packets on a fresh handle is answered true in every interleaving without failing writes or teardown if and only if its bytes fit the budget |
| WriteQueue.ClosedRefusesForever | src/net/conn.rs:92-103 | a closed channel stays closed and answers every later send false |
| WriteQueue.SmallerPacketIsTakenAfterRefusal | src/net/conn.rs:92-103 | whatever is queued, a packet beyond the budget is refused and one within it sent next is taken |
| WriteQueue.CappedReplayIsNeverRefused | src/game/actor.rs:58-65 | handshake plus a buffer within its cap is answered true throughout on a fresh handle unless the channel closes meanwhile |
| Batching.ChunksAreWellCut | src/game/actor.rs:1896-1928 | chunks concatenate to the queue, none empty unless the queue was, over the limit only if a single action, and cut no sooner than needed |
| Batching.FramedIffFits | src/util.rs:294-304 | an action packet carries its own length if and only if its actions weigh at most 65527 bytes |
| Batching.PacketRoundTrip | src/core/gameprotocol.rs:481-492 | a client parsing the packet gets the interval and the actions |
| Batching.ChunkReadIff | src/core/gameprotocol.rs:903-961 | the packet of a chunk is read back if no action exceeds 65524 bytes, and is malformed otherwise |
| Batching.BatchRoundTripIff | src/core/gameprotocol.rs:903-961 | for actions as long as a frame can hold, the packets of a beat parse back to the queue if and only if none exceeds 65524 bytes; the last alone is INCOMING_ACTION |
| Batching.SmallActionsSmallPackets | src/game/actor.rs:1896-1928 | no packet of a beat exceeds 1460 bytes when no action exceeds 1449 |
| Batching.PacketsAreFull | src/game/actor.rs:1896-1928 | a packet is followed by another only when the next action would have taken it beyond 1460 bytes |
| Batching.OversizeActionIsUnreadable | src/util.rs:294-304 | a lone action of up to 65527 bytes is unreadable if and only if it has 65525 or more |
| Batching.CutIntoChunks | src/game/actor.rs:1896-1928 | the draining loop produces exactly such a cut |
| Batching.BuildSubpacket | src/core/gameprotocol.rs:936-945 | the entries of all actions in order |
| BeatRuns.LargestIsUnique | src/game/actor.rs:1420-1559 | at most one checksum has the strictly largest group |
| BeatRuns.VoteKeepsLargestGroupOnly | src/game/actor.rs:1420-1559 | a player survives a vote if and only if its checksum's group is the strictly largest |
| BeatRuns.SurvivorsAgree | src/game/actor.rs:1420-1559 | any two survivors reported the same checksum |
| BeatRuns.SurvivesIff | src/game/actor.rs:1420-1559 | a player survives a comparison if and only if more players reported the same state than any other one |
| BeatRuns.ComparedShrinks | src/game/actor.rs:1420-1559 | a round shrinks the sum of the queues, so comparing ends |
| BeatRuns.HeadsAreThisTurn | src/game/actor.rs:1284-1305 | in round k every head is the k-th checksum its player sent |
| BeatRuns.CheckKeepsLockstep | src/game/actor.rs:1420-1559 | after any number of rounds everyone left has been compared equally often and agreed each time |
| BeatStreams.BeatIsTheSame | src/game/actor.rs:1857-1929 | a direct player, sent the empty actions, and a GProxy++ player, whose client inserts them, are fed the same beat |
| BeatSafety.EveryoneIsSentTheQueue | src/game/actor.rs:1857-1929 | a beat hands each player packets carrying the queue as it stood, in order, and one interval, after the empty actions owed to whoever is not behind GProxy++; the queue is then empty |
| BeatSafety.SameGameForEveryone | src/game/actor.rs:1857-1929 | over every run there is one action stream that every remaining player's game was fed and the replay recorded; it carries exactly the actions accepted, in order, of players who stayed until they were sent, and one interval per beat |
| BeatSafety.AnyTwoPlayersSeeTheSame | src/game/actor.rs:1689-1737 | any two remaining players' expanded streams are equal, and equal to the replay's time slots |
| BeatLag.ScreensAreTrue | src/game/actor.rs:1580-1746 | over every run the START_LAG, STOP_LAG and PLAYERLEAVE a player was sent fold to the players lagging now, well bracketed; actions only go out while that is empty and never carry a departed PID |
| BeatLag.StepKeepsScreen | src/game/actor.rs:2942-2952 | each event keeps that, departures purging the leaver's queued actions |
| BeatTiming.LimitIsTheWindow | src/game/actor.rs:1575-1577 | the limit is the window in whole beats, at least one |
| BeatTiming.NobodyFallsFurtherBehind | src/game/actor.rs:1580-1746 | over every run with fixed settings one beat less than anyone is behind is within the window, or one; while the screen is up so is everyone who is not on it |
| BeatTiming.TickDecides | src/game/actor.rs:1580-1746 | with the screen down a tick puts up exactly those more than the window behind; with it up it drops those on it after the sixty-second waits, takes off those less than half behind, shows it again after a minute, and closes it with the last; a beat goes out if and only if nobody is on it |
| BeatTiming.OpeningIsTold | src/game/actor.rs:1602-1640 | everyone is told who is put on the screen |
| BeatTiming.RecoveryIsTold | src/game/actor.rs:1670-1686 | everyone is told who comes off, with the milliseconds since |
| BeatTiming.ScreenIsShownAgain | src/game/actor.rs:1689-1737 | after sixty seconds everyone is handed each lagger off the screen, an action, and the laggers back with their milliseconds |
| BeatTiming.DroppingDrops | src/game/actor.rs:1750-1767 | dropping the laggers drops exactly those on the screen and closes it |
| BeatDepartures.EveryDepartureIsTold | src/game/actor.rs:2934-3017 | over every run the departures form one sequence, each departed player in it once, that everyone who remains was told and the replay recorded |
| BeatReports.OnlyReportsCount | src/game/actor.rs:1284-1305 | a player's count and checksums grow by that player's reports and by nothing else |
| BeatReports.InitPutsBehindGproxy | src/game/actor.rs:1976-1990 | announcing GProxy++ is remembered where reconnecting is on |
| BeatLag.SurvivorsNeverDisagreed | src/game/actor.rs:1420-1559 | over every run two players still in the game sent equal checksums for every compared turn |
| BeatActor.GameActor.GameTick | src/game/actor.rs:1580-1746 | drop the expired, open or keep the lag screen, send the beat unless it is up |
| BeatActor.GameActor.SendAllActions | src/game/actor.rs:1857-1929 | empties for direct players, chunks for all, the same into the replay |
| BeatActor.GameActor.SendChunks | src/game/actor.rs:1896-1928 | every chunk to everyone, only the last with the interval |
| BeatActor.GameActor.OpenScreen | src/game/actor.rs:1602-1640 | everyone beyond the limit flagged and announced at once |
| BeatActor.GameActor.KeepScreen | src/game/actor.rs:1641-1737 | expire, clear the recovered, close or re-show the screen |
| BeatActor.GameActor.ResetScreen | src/game/actor.rs:1689-1737 | down, empty beats, up again, recorded |
| BeatActor.GameActor.StopLaggers | src/game/actor.rs:1750-1767 | every lagging player removed; the screen closes with the last |
| BeatActor.GameActor.RemovePlayer | src/game/actor.rs:2934-3017 | the player gone, their queued actions purged, the leave recorded and announced |
| BeatActor.GameActor.CheckDesync | src/game/actor.rs:1420-1559 | rounds are compared while every player has a checksum queued |
| BeatActor.GameActor.CompareRound | src/game/actor.rs:1420-1559 | binning and sorting by size drops exactly the players outside the one largest group, or everyone on a tie |
| LobbyKeeps.PidIsFree | src/game/actor.rs:3389-3394 | while fewer than twelve PIDs are taken the search finds one |
| LobbyKeeps.FreeSlotMeansPid | src/game/actor.rs:2188-2213 | a join that finds a free slot always gets a PID from 1 to 12 |
| LobbyKeeps.JoinSucceedsIff | src/game/actor.rs:2117-2213 | a join is admitted if and only if the game has not started, the name is new and not banned, and a slot is free |
| LobbyKeeps.JoinKeepsOk | src/game/actor.rs:2188-2225 | a join keeps seats, PIDs, names and colours in order, the virtual host leaving for the twelfth player |
| LobbyKeeps.RemoveKeepsOk | src/game/actor.rs:2934-2966 | a departure keeps them, the virtual host coming back |
| LobbyKeeps.SlotSetKeepsOk | src/game/actor.rs:2691-2704 | opening or closing a slot, its player kicked first, keeps them |
| LobbyMoves.SwapUndoesItself | src/game/actor.rs:2707-2743 | swapping the same two slots again restores the lobby, in all three map modes |
| LobbyMoves.SwapKeepsOk | src/game/actor.rs:2707-2743 | a swap keeps the invariant in all three modes |
| LobbyMoves.ColourIsFree | src/game/actor.rs:2892-2899 | a slot without a colour always finds one below 12 |
| LobbyMoves.TeamKeepsOk | src/game/actor.rs:2746-2802 | a team change, by moving or in place, keeps the invariant |
| LobbyMoves.ColourKeepsOk | src/game/actor.rs:2805-2836 | a colour change keeps colours below 12 distinct, an unused holder taking the old colour |
| LobbyMoves.ColourChangeGrants | src/game/actor.rs:2805-2836 | a player gets the colour asked for if and only if no occupied slot holds it, or already has it |
| LobbyShuffle.MixedKeeps | src/game/actor.rs:1144-1147 | the shuffle loses and repeats nothing |
| LobbyShuffle.OrderDeterminesDraws | src/game/actor.rs:1144-1147 | for distinct seats two sequences of draws give the same order only if they draw the same positions |
| LobbyShuffle.EveryOrderIsDrawn | src/game/actor.rs:1144-1147 | every order comes from some draws |
| LobbyDeal.DealtAt | src/game/actor.rs:1148-1151 | only PID and download state move, and only between human-occupied slots |
| LobbyLaws.ShuffleReachesEveryOrder | src/game/actor.rs:1134-1153 | the shuffle can seat the players in every order |
| LobbyLaws.ShuffleDeals | src/game/actor.rs:1134-1153 | whatever is drawn, the seats afterwards are the seats before in some order, and nothing else changes |
| LobbyLaws.SwapMoves | src/game/actor.rs:2707-2743 | with fixed settings a slot keeps team, colour, race and handicap, with custom forces its team, otherwise nothing; all else changes places |
| LobbyLaws.SlotOnTeamIsNext | src/game/actor.rs:2876-2889 | the slot found is the first open one of the team going round, and none is found only if there is none |
| LobbyLaws.TeamChangeMoves | src/game/actor.rs:2746-2766 | with custom forces the player ends in a slot of the team asked for if one is open, and nothing happens if none is |
| LobbyLaws.TeamChangesInPlace | src/game/actor.rs:2768-2802 | otherwise an admitted change gives the player's slot the team and the colour that goes with it, and nothing else; any other changes nothing |
| LobbyLaws.ColourChanges | src/game/actor.rs:2805-2836 | the colour asked for unless an occupied slot holds it, the old one to an unoccupied holder, and nothing else |
| LobbyLaws.JoinSeats | src/game/actor.rs:2188-2225 | whoever is let in sits in the first free slot under the PID answered; everyone and everything else stays |
| LobbyLaws.LeavingFrees | src/game/actor.rs:2934-2966 | a leaver's slot opens, as it was but for the occupant; nobody else moves |
| LobbyLaws.SlotIsSet | src/game/actor.rs:2691-2704 | opening opens and closing closes the slot, and puts out nobody but its player |
| LobbyDeal.ShuffleKeepsOk | src/game/actor.rs:1134-1153 | a shuffle keeps the invariant for any draws |
| LobbyDeal.EveryLobbyIsOk | src/game/actor.rs:3385-3431 | every lobby reachable from a new one is in order |
| LobbyActor.GameActor.constructor | src/game/actor.rs:320-336 | nobody seated, the virtual host on PID 1 |
| LobbyActor.GameActor.HandleJoin | src/game/actor.rs:2117-2300 | admitted or refused, and the new slots, players and host |
| LobbyActor.GameActor.RemovePlayer | src/game/actor.rs:2934-3018 | the slot freed and the host restored in the lobby |
| LobbyActor.GameActor.SetSlotOpen | src/game/actor.rs:2691-2704 | the slot emptied and opened or closed, its player kicked |
| LobbyActor.GameActor.SwapSlots | src/game/actor.rs:2707-2743 | the fields that trade places in each mode |
| LobbyActor.GameActor.ChangeTeam | src/game/actor.rs:2746-2802 | move to the team's next open slot, or change team and, for observers, colour |
| LobbyActor.GameActor.ChangeColour | src/game/actor.rs:2805-2836 | take a colour, trading with an unoccupied holder |
| LobbyActor.GameActor.GetEmptySlotOnTeam | src/game/actor.rs:2876-2889 | the first open slot of the team going round from the player's own |
| LobbyActor.GameActor.ShufflePlayers | src/game/actor.rs:1134-1153 | collect, mix and deal as the specification says |
| LobbyActor.GameActor.NewPid | src/game/actor.rs:3392-3394 | the smallest PID neither a player nor the host has |
| LobbyActor.GameActor.CreateVirtualHost | src/game/actor.rs:3414-3431 | the host restored when absent and a PID is free |
| LobbyActor.GameActor.EventGameStarted | src/game/actor.rs:2554-2563 | started, and the host deleted |
| Replay.RecordRoundTripIff | src/core/replay.rs:85-133 | a record is read back with the rest untouched if and only if its length fits the length field; one that does not is not even read as itself |
| Replay.RecordsRoundTripIff | src/core/replay.rs:85-133 | the recorded stream reads back whole and in order if and only if every record fits |
| Replay.UndecodableChatIsUnreadable | src/util.rs:15-17 | a chat message of 21844 undecodable bytes or more makes the replay unreadable, whatever surrounds it |
| Replay.RecordedChunksFit | src/game/actor.rs:1896-1928 | every chunk of a beat is recorded readably when no action exceeds 65530 bytes |
| Replay.ReplayRecorder.AddTimeSlot | src/core/replay.rs:85-88 | one more time slot recorded, the length longer by its interval |
| Replay.ReplayRecorder.AddTimeSlot2 | src/core/replay.rs:91-93 | one more slot of the other kind, the length unchanged |
| Replay.ReplayRecorder.PushTimeSlot | src/core/replay.rs:95-107 | the block with its length patched in |
| Replay.ReplayRecorder.AddChat | src/core/replay.rs:110-119 | one more chat message recorded |
| Replay.ReplayRecorder.AddLeave | src/core/replay.rs:122-133 | a departure among the loading leaves or the game's records |
| ReplayData.ReplayRoundTrip | src/core/replay.rs:136-202 | a viewer recovers host, other players, slots, settings, loading leaves and records, when no text holds a zero byte |
| ReplayData.OthersAre | src/core/replay.rs:158-170 | the players listed are those without the host, in order |
| ReplayData.SettingsRoundTrip | src/game/actor.rs:2620-2635 | with an encoded stat string the game settings need no such condition and decode as they were |
| ReplayData.ZeroEndsText | src/core/replay.rs:136-202 | a text with a zero byte is read only up to it |
| ReplayData.Build | src/core/replay.rs:136-202 | the loops write exactly that layout from a recorder's blocks |
| ReplayFile.FileRoundTrip | src/core/replay.rs:206-261 | the file reads back to its data, with true size fields and checksums, for any compressor that inflates back |
| ReplayFile.HeaderTells | src/core/replay.rs:211-242 | version, build, length and flags stand in their places; one piece is counted for every 8192 bytes begun, one more when none is left over |
| ReplayFile.BlockCrcFolds | src/core/replay.rs:247-258 | each half of a block's checksum is a checksum folded onto sixteen bits, the head's low and the data's high |
| ReplayFile.CutJoins | src/core/replay.rs:211-216 | the pieces join to the padded data |
| ReplayFile.CompressPieces | src/core/replay.rs:211-224 | each piece compressed, the sizes summed |
| ReplayFile.BuildAndCompress | src/core/replay.rs:206-261 | header, checksum and block headers as laid out |
| StatString.RoundTrip | src/util.rs:271-291 | the mask-driven decoder undoes the encoder for every input |
| StatString.EncodedLength | src/util.rs:271-291 | one mask byte per seven bytes or part of seven |
| StatString.EncodedIsOdd | src/util.rs:271-291 | every output byte is odd, so none is zero |
| StatString.Encode | src/util.rs:271-291 | inserting each mask in place gives the encoding |
| Hcl.EntryOfCode | src/game/actor.rs:2588-2599 | the encoding map passes over 0, 50, 60, 70, 80, 90 and 100 and can be inverted |
| Hcl.IndexInMapIff | src/game/actor.rs:2605-2608 | the lookup stays within the 256 entries unless the character is a full stop and the handicap 210 or more |
| Hcl.FoldPanicsIff | src/game/actor.rs:2600-2610 | encoding panics if and only if some full stop is to go into a slot with a handicap of 210 or more |
| Hcl.DotPanicsAt210 | src/game/actor.rs:2600-2610 | the string "." and one seat with handicap 210 panic |
| Hcl.SlotRoundTripIff | src/game/actor.rs:2605-2608 | of the byte stored, the character survives if and only if the handicap is below 110, both if and only if a player could have chosen it |
| Hcl.RoundTrip | src/game/actor.rs:2569-2618 | decoding recovers the string and every slot, for choosable handicaps |
| Hcl.BuildEncodingMap | src/game/actor.rs:2588-2599 | the loop fills in the codes in order |
| Hcl.NextOccupied | src/game/actor.rs:2602-2604 | the scan finds the next occupied slot and stays in bounds, for any handicaps |
| Hcl.EncodeHcl | src/game/actor.rs:2569-2618 | a string that fits is folded in, or panics; any other leaves the slots alone |
| Framing.VerdictStands | src/net/codec.rs:77-106 | more bytes never change a frame or error already decided |
| Framing.SplitDoesNotMatter | src/net/codec.rs:77-106 | frames, leftover and error are the same for every way of splitting the bytes into reads |
| Framing.PacketsComeOut | src/net/codec.rs:77-106 | well-framed packets come out as they went in, however they arrive |
| Framing.BadHeaderStops | src/net/codec.rs:77-106 | packets before a bad first byte or length come out whole, then reading stops with that error |
| Framing.PartialIsAwaited | src/net/codec.rs:77-106 | a packet that has begun but not ended is waited for |
| Framing.FrameCodec.Decode | src/net/codec.rs:77-106 | one frame split off, or the buffer left alone |
| Framing.FrameCodec.Read | src/net/codec.rs:77-106 | everything complete is taken off after a read |
| MapDownload.FillKeepsOk | src/game/actor.rs:2474-2508 | filling sends the next stretch of the map, no part starting outside the window, and stops only at its end or the map's |
| MapDownload.PartsSpellTheFile | src/game/actor.rs:2369-2450 | over any run of reports, acknowledgements, approvals and pumps the parts since the last restart spell the map up to `last_part_sent` |
| MapDownload.KickedIff | src/game/actor.rs:2369-2395 | a report kicks if and only if the map is not whole and downloads are off or there is no file |
| MapDownload.FlagsAdvance | src/game/actor.rs:2369-2450 | exactly which events allow, start and finish a download |
| MapDownload.NothingWithoutApproval | src/game/actor.rs:2397-2406 | in mode 2, over every run without an approval, nothing is sent |
| MapDownload.NothingAfterTheEnd | src/game/actor.rs:2474-2508 | nothing is sent to a player who has finished |
| MapDownload.WindowIsAHundredParts | src/game/actor.rs:2474-2508 | a window is a hundred parts of 1442 bytes, one after another |
| MapDownload.RoundsAdvance | src/game/actor.rs:2492-2501 | with a truthful client each round trip sends another 144200 bytes until the map is out |
| MapDownload.DownloadCompletes | src/game/actor.rs:2474-2508 | a download needs no more round trips than the map has windows |
| MapDownload.AcksAdvance | src/game/actor.rs:2492-2501 | whatever part of what it was sent a client acknowledges each time, a full window is out behind it or the whole map |
| MapDownload.PartialAcksComplete | src/game/actor.rs:2474-2508 | so the map is out once the acknowledgements come within a window of its end, and until then there is a whole window left to acknowledge |
| MapDownload.PartRoundTrip | src/core/gameprotocol.rs:824-871 | every part fits 1460 bytes and is read back with its place and contents |
| MapDownload.LobbyPlayer.SendMapParts | src/game/actor.rs:2474-2508 | the saturating loop fills the window and returns one packet per part |
| MapDownload.LobbyPlayer.HandleMapSize | src/game/actor.rs:2369-2450 | start, continue, finish or kick, and one packet for each part sent |
| MapDownload.LobbyPlayer.HandleMapPartOk | src/game/actor.rs:1246-1254 | acknowledgements only go up, then the window is filled, one packet for each new part |
| KeyTables.RowsInvert | src/bncsutil/keytables.rs:28-69 | each of the thirty rows of the translate map is a permutation |
| KeyScramble.NibbleIsPermuted | src/bncsutil/cdkey.rs:121-168 | under any keys a nibble is passed through a permutation |
| KeyScramble.KeysIgnoreOwnNibble | src/bncsutil/cdkey.rs:121-168 | a nibble is keyed by the other twenty-nine only |
| KeyScramble.PassOneUndone | src/bncsutil/cdkey.rs:121-168 | pass one is a bijection |
| KeyLaws.PassOneComesThrough | src/bncsutil/cdkey.rs:121-168 | each nibble goes through twenty-nine rounds of its row, keyed by nibbles 29 down to 0 without itself, those above it already changed, and one more look-up |
| KeyLaws.MixedBits | src/bncsutil/cdkey.rs:130-159 | keying is bit by bit |
| KeyScramble.PassTwoReads | src/bncsutil/cdkey.rs:170-194 | pass two moves bit 11k modulo 120 to bit k and leaves bits 120 to 127 |
| KeyScramble.PassTwoTwice | src/bncsutil/cdkey.rs:170-194 | pass two is its own inverse |
| KeyScramble.KeyTableIsPermuted | src/bncsutil/cdkey.rs:121-195 | `decode_key_table` is a bijection on four words |
| KeyNumber.MultFallsShort | src/bncsutil/cdkey.rs:110-118 | the result plus the dropped carries is value * x + digit |
| KeyNumber.MultIsExactIff | src/bncsutil/cdkey.rs:110-118 | `mult` is right modulo 2^128 if and only if no addition in the low three words carries out |
| KeyNumber.MultDropsACarry | src/bncsutil/cdkey.rs:110-118 | 0x33333333 * 5 + 1 comes out as 0 |
| KeyNumber.SpellingIsUnique | src/bncsutil/cdkey.rs:52-55 | 52 base-5 digits spell different numbers for different tables |
| KeyNumber.AccumulatedIsSpelledIff | src/bncsutil/cdkey.rs:52-55 | the words hold the number spelled if and only if no round drops a carry |
| KeyDecoder.PlacesAreAPermutation | src/bncsutil/cdkey.rs:39-49 | the 52 table positions are each written once |
| KeyDecoder.EveryTableHasAKey | src/bncsutil/cdkey.rs:39-49 | every table of base-5 digits is some key's |
| KeyDecoder.ExtractedDetermines | src/bncsutil/cdkey.rs:59-79 | product, value1 and value2 together determine the 128 bits |
| KeyLaws.ExtractedReassembles | src/bncsutil/cdkey.rs:59-79 | the words can be put together again from product, value1 and value2, byte by byte |
| KeyLaws.KeyMapIsTheAlphabet | src/bncsutil/keytables.rs:1-27 | an upper-case character stands for its place in "246789BCDEFGHJKMNPRTVWXYZ" |
| KeyDecoder.DecodedAlikeIffSameWords | src/bncsutil/cdkey.rs:52-79 | any two keys decode alike if and only if their accumulated words are equal |
| KeyDecoder.DecodedAlikeIffSameKey | src/bncsutil/cdkey.rs:28-80 | where no carry is dropped two keys decode alike if and only if they are one key up to case |
| KeyDecoder.DroppedCarryMakesKeysCollide | src/bncsutil/cdkey.rs:28-80 | two different keys that decode alike |
| CdKey.MultiplyAdd | src/bncsutil/cdkey.rs:110-118 | the carry loop, in place |
| CdKey.KeyedByOthers | src/bncsutil/cdkey.rs:130-159 | the two inner loops key a nibble by the others in order |
| CdKey.ScrambleNibbles | src/bncsutil/cdkey.rs:121-168 | pass one, in place |
| CdKey.SpreadBits | src/bncsutil/cdkey.rs:170-194 | pass two, in place |
| CdKey.DecodeKeyTable | src/bncsutil/cdkey.rs:121-195 | the words permuted, in place |
| CdKey.FillTable | src/bncsutil/cdkey.rs:39-50 | all 52 digits in their places, or a character without an entry |
| CdKey.Accumulate | src/bncsutil/cdkey.rs:52-55 | the digits multiplied in from the highest |
| CdKey.Decode | src/bncsutil/cdkey.rs:28-80 | the decoded values, or a rejection |
| Civil.YearOfEraIsRight | src/bncsutil/checkrevision.rs:246-251 | the year found contains the day, whose 366th exists only before a leap February |
| Civil.YearStartIs | src/bncsutil/checkrevision.rs:244-251 | the closed form of the day count agrees with counting years out |
| Civil.FromUnixIsRight | src/bncsutil/checkrevision.rs:238-258 | every second count gives a valid date and time standing for it |
| Civil.LaterSecondsLaterDate | src/bncsutil/checkrevision.rs:238-258 | later seconds give later dates, and the other way round |
| Civil.OnlyDate | src/bncsutil/checkrevision.rs:238-258 | the date found is the only valid one for the count |
| CheckRevision.ApplyRefines | src/bncsutil/checkrevision.rs:131-144 | without division each operation on low halves gives the low half |
| CheckRevision.FailsIff | src/bncsutil/checkrevision.rs:131-144 | an operation fails if and only if it is unknown or divides by zero |
| CheckRevision.SumIsRight | src/bncsutil/checkrevision.rs:133 | plus is the sum, wrapped |
| CheckRevision.DifferenceIsRight | src/bncsutil/checkrevision.rs:134 | minus is what has to be added to the second operand to get the first |
| CheckRevision.CaretIsBitwise | src/bncsutil/checkrevision.rs:135 | every bit is the sum of the bits modulo 2 |
| CheckRevision.ProductIsRight | src/bncsutil/checkrevision.rs:136 | times falls short of the true product by a multiple of the modulus |
| CheckRevision.QuotientIsRight | src/bncsutil/checkrevision.rs:137-142 | a quotient is the number of whole divisors in the dividend |
| CheckRevision.WordsRefine | src/bncsutil/checkrevision.rs:126-147 | over any words, where every division agrees 32-bit registers end as the low halves of 64-bit ones |
| CheckRevision.InStepIff | src/bncsutil/checkrevision.rs:126-147 | they are so after every operation if and only if every division the run comes to agrees; without division always |
| CheckRevision.HashRefines | src/bncsutil/checkrevision.rs:101-150 | where every division agrees so is the hash, for any files, failing in the same cases |
| CheckRevision.DivisionAgreesIff | src/bncsutil/checkrevision.rs:137-142 | for any two words, when the 32-bit quotient is the low half of the 64-bit one, division by zero included |
| CheckRevision.DivisionDiffers | src/bncsutil/checkrevision.rs:101-150 | A=S*S C=A/B with B=2, on a file of 1024 bytes whose words are all 0x10000, hashes to 0 instead of 2147483648 under any seed |
| CheckRevision.HashSumsTheWords | src/bncsutil/checkrevision.rs:101-150 | C=C+S hashes to the initial C plus every word of every file |
| CheckRevision.HashShowsTheSeed | src/bncsutil/checkrevision.rs:106-109 | C=A+B hashes to B plus the initial A, exclusive or the seed chosen |
| CheckRevision.WordsAreLittleEndian | src/bncsutil/checkrevision.rs:126-127 | a word is four bytes, the lowest first |
| CheckRevision.PaddingCountsDown | src/bncsutil/checkrevision.rs:113-123 | padding starts at 0xFF and each byte is one less, to the next multiple of 1024 |
| CheckRevision.NoPartialWord | src/bncsutil/checkrevision.rs:114-126 | a padded file has no word left over |
| CheckRevision.PadFile | src/bncsutil/checkrevision.rs:113-123 | 0xFF counting down to the next multiple of 1024, nothing for a file that fills its blocks |
| CheckRevision.Check | src/bncsutil/checkrevision.rs:101-150 | the loops compute the hash, failing as soon as an operation does |
| StatusBoard.EtagIsInjective | src/bot/status.rs:128-131 | different revisions have different tags |
| StatusBoard.ListingIsUnique | src/bot/status.rs:141-147 | sorting gives one list however the table is iterated |
| StatusBoard.RevisionsOnlyGrow | src/bot/status.rs:106-118 | revisions never go back, and while one stands so does the board |
| StatusBoard.LastWordStands | src/bot/status.rs:106-118 | over every run the board shows of a game what was last put for it, unless it was removed since |
| StatusBoard.EqualTagsEqualBodies | src/bot/status.rs:141-178 | two answers with equal tags, taken at any moments of a run, list the same games |
| StatusBoard.NotModifiedIffUnchanged | src/bot/status.rs:473-480 | a client repeating its tag is told "not modified" if and only if the board is the one it was shown, whatever happened between the two looks |
| StatusBoard.StatusBoard.PutSnapshot | src/bot/status.rs:106-111 | the game inserted or replaced, the revision one up |
| StatusBoard.StatusBoard.RemoveGame | src/bot/status.rs:113-118 | removing an absent game changes no revision |

## Left out

- Sockets, tokio tasks and timers, HTTP parsing, gzip, database, logging, language files and the console: plumbing. Time is a step parameter.
- `BnetActor`'s login flow, `BotCore`'s commands and the advert queue: long but shallow branching.
- SHA-1, CRC-32, zlib and the key hash built from SHA-1: parameters, zlib with an inverse; they relate to nothing but themselves.
- MPQ and map reading: at most 12 slots, nobody seated, colours below 12 distinct and `map_data` as long as `map_size` are what a new lobby or download starts from.
- The superseded modules under `src/core` (`bnet.rs`, `gamebase.rs`, `gamehost.rs`, `gameplayer.rs`, `gamesocket.rs`).
- Chat relay and commands, mutes, ping averages, drop-vote counting, the game-over timer, race and handicap changes: one branch each.
- Changing latency or the synchronisation window in mid-game: the lag bound is stated for fixed values.
- Counters that would take 2^32 beats or milliseconds to overflow (`sync_counter`, `replay_length_ms`) are unbounded; `total_sent`, `total_received` and the 32-bit words of the key decoder and of checkRevision wrap as in the code.
- `parse_formula`: the operations come as a list; no text is parsed.
- Which map mode a swap or colour change sees is fixed for a lobby.
- SessionActor.GameActor.HandleJoin: the PID is a parameter there; choosing it is LobbyActor.GameActor.HandleJoin's part, and bans arrive as a flag.
- BeatActor.GameActor.CompareRound: victims leave in the order in which the player table lists them; the messages naming the suspects are not modelled.
- BeatTiming.TickDecides: who is held too long or over the buffer cap arrives as the set `expired`.
- BeatLag.ScreensAreTrue: START_LAG names its players as a map, so their order inside one packet is not modelled.
- ReplayFile.FileRoundTrip: files and compressed pieces whose sizes do not fit their 32-bit and 16-bit fields are excluded.
- StatusBoard.NotModifiedIffUnchanged: entries of If-None-Match come already split and trimmed, and the part of a tag that tells two bot instances apart is one fixed string.
- `StatusPublisher::update`: publishing only on a changed hash is right only as far as the hash tells contents apart; the board takes any sequence of changes.
