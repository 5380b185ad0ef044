# Verified model of the Texecom alarm bridge

The add-on keeps one TCP session to a Texecom panel, speaks the Connect protocol on it, and shares the
house's alarm state with Home Assistant through retained MQTT topics. Two tasks share that session: one
listens for the panel's unsolicited frames, sends check-ins and polls; the other turns arm and disarm taps
into panel commands. This project models that core in Dafny and proves what its comments and design notes
rely on, for every input and every run.

Four layers:

1. **Wire** - `Crc`, `Frames`, `Streams`. The bit-serial check octet, the frame codec and the cutting of a
   byte stream into frames and faults. `Streams.Cut` is the reference that sees the whole stream at once.
2. **Client** - `CommandLog`, `Client`. `PanelClient` with its buffer, counter, login flag and queue. The
   network is a script of what each wait meets (a chunk, silence, a passed deadline, an error), so a result
   holds for every finite behaviour of the network. Ghost histories record bytes read, items consumed,
   frames handed out and transmissions made. `PanelClient.Valid()` is kept by every operation and says:
   consumed items and buffer are what the stream cuts into; frames handed out followed by the queue are the
   unsolicited frames read; the transmission history is lawful.
3. **Trust** - `Trust`, `Watchdog`, `Schedule`. `PanelTrust` and its clocks over real time; the watchdog and
   patience verdicts characterised on the run of signals itself; the check-in schedule of the listen loop.
4. **Bridge** - `Settings`, `AreaState`, `FlagsGuard`, `TriggerSnapshot`, `ZoneState`, `Bridge`,
   `BridgeRuns`, `BridgeReads`, `BridgeGate`, `BridgeCollision`, `BridgeSnapshots`, `BridgeClock`,
   `AlarmBridge`, `Reconnect`.
   `Bridge` is a state machine whose steps run from one await of the panel to the next, so the two tasks
   interleave at every such await. `AlarmBridge` is the code with its objects, each piece proved to be one
   step, and each await proved to be a call of `PanelClient`. `BridgeRuns` proves what all runs keep;
   `BridgeReads` exactly when a payload lasts, given what polls, refreshes and reconnects remember and read;
   `BridgeGate` which taps are sent; `BridgeCollision` which lost sessions are taken as collisions;
   `BridgeSnapshots` what the attributes topic tells; `BridgeClock` when the link topic shows OFF in time.
   `Reconnect` is the reconnect loop, proved to take the machine's steps.

The contracts of the client and of `AlarmBridge` are stated on what goes over the wire: the octets of each
transmission and of the reply that settled it, what the network did, the octets of a frame body. `AlarmBridge`
also keeps the signals its tracker has been told of, so that its verdicts are those proved in `Watchdog`.

`dafny verify dfyconfig.toml` checks everything.

## Findings

Places where the code does less, or other, than a comment or the natural reading says. The model follows the
code; the member named states the exact behaviour.

- The patience default is described as roughly three missed check-ins. With the default 15 and 45 seconds, and
  jitter and reply times within the bounds stated, the third refusal in a row never ends the session and the fifth
  does; the fourth does exactly when 45 seconds have passed since the first was noted, which a slow first refusal
  prevents
  (`Watchdog.DefaultsEndOnFourthOrFifth`, `Watchdog.SlowFirstRefusalSurvivesFourth`).
- The refresh after a disarm can overwrite what the panel has pushed since the ACK, an exit delay just begun or an
  alarm just raised included: it compares with the payload it had peeked at the ACK, and never looks again. It takes
  no poll and no reconnect, and a block that still reads armed does it too (`BridgeReads.RefreshCanOverwritePush`;
  `BridgeReads.RefreshOverwritesIff` is exact, and `BridgeReads.DelayLastsIff` and `BridgeReads.PushLastsIff` say
  exactly when a delay, or any pushed payload, lasts).
- An arm tap on an unset house can be withheld. A re-login that reads unset does not clear the gate, by design, as it
  may lag; if the house really was unset meanwhile, that mode cannot be armed by a tap, and a disarm tap or a poll that
  reads unset does not help, until the panel reports something else or an arm of another mode is acknowledged
  (`BridgeGate.ReconnectKeepsGate`; `BridgeGate.UnsetHouseArmsIff` and
  `BridgeGate.UnsetButRememberedIff` are exact).
- A reconnect can undo a disarm. One acknowledged during the re-login may find the snapshot ahead of its refresh:
  the refresh publishes disarmed, then the reconnect hands back the armed payload it remembered. Topic and shared
  payload disagree with nothing left to apply, and the next arm tap of that mode is ignored
  (`BridgeReads.ReconnectCanUndoDisarm`; `BridgeReads.DisarmLastsIff` says exactly when a disarm lasts).
- A payload returned by a reconnect can differ from the retained topic without any command too: the remembered
  payload is not refreshed after a failed attempt that published (`Reconnect.ReturnedCanDifferFromTopic`;
  `BridgeReads.ReconnectAgreesIff` is the exact condition, commands and failed attempts included).
- A reconciliation poll that begins while the refresh of a disarm is under way compares with the payload from
  before. If the refresh raises an alarm and the poll's block reads another armed state, that state is put over
  the alarm (`BridgeReads.PollCanHideAlarm`; `BridgeReads.ArmedOverAlarmIff` and `BridgeReads.AlarmStandsIff`
  are exact).
- The look into the queue after an acknowledged command misses a frame that the listen task already holds while
  it waits for the I/O lock (`BridgeRuns.PeekMissesFrameInHand`; `BridgeRuns.PeekIsDrain` is exact).
- Freshness of replies rests on a one-octet number: a reply 256 numbers late is accepted
  (`CommandLog.NoStaleReply` gives the exact window).
- Above 336 zones the zone snapshot cannot succeed, although the area map lists a 640-zone panel
  (`ZoneState.FetchZoneStates`).

## Model

| member | source | states |
|---|---|---|
| Crc.Crc8 | texecom_alarm/src/texecom_alarm/protocol/crc.py:6-16 | the nested bit loops compute the checksum of the whole input, for any length, against a byte-at-a-time reference |
| Crc.RegisterIsLinear | texecom_alarm/src/texecom_alarm/protocol/crc.py:8-16 | the check is affine over GF(2): flipping bits of the message changes the register by the register of the flipped bits alone, whatever the message |
| Crc.KnownChecksum | texecom_alarm/src/texecom_alarm/protocol/crc.py:6-16 | the check octet of the empty message and of a login frame, as numbers |
| Crc.SealedIffRegisterClears | texecom_alarm/src/texecom_alarm/protocol/crc.py:8-16 | octets that end in their own checksum are exactly those that clear the register |
| Crc.UndetectedIffErrorClears | texecom_alarm/src/texecom_alarm/protocol/frame.py:105-109 | corruption passes the check if and only if the error pattern alone clears a zeroed register |
| Crc.RegisterKeepsParity | texecom_alarm/src/texecom_alarm/protocol/crc.py:11-15 | a shift keeps bit parity, so the register carries the parity of everything fed to it |
| Crc.BurstNeverClears | texecom_alarm/src/texecom_alarm/protocol/crc.py:11-15 | no non-empty set of flipped bits within eight consecutive ones, at any offset in a message of any length, clears the register |
| Crc.NineBitBurstCanClear | texecom_alarm/src/texecom_alarm/protocol/crc.py:7-15 | the eight-bit bound is tight: a nine-bit burst of even weight goes unseen |
| Crc.ReturnsIffMultiple | texecom_alarm/src/texecom_alarm/protocol/crc.py:11-15 | the shift register's cycle through 1 has length exactly 127 |
| Crc.DoubleErrorClearsIff | texecom_alarm/src/texecom_alarm/protocol/crc.py:11-15 | two flipped bits cancel if and only if their distance is a multiple of 127 |
| Frames.Encoded | texecom_alarm/src/texecom_alarm/protocol/frame.py:52-61 | an encoded frame has the header fields in place, its own length as third octet, the body before the last octet, and is sealed by its checksum |
| Frames.CommandsAreCarried | texecom_alarm/src/texecom_alarm/protocol/frame.py:52-66 | octet for octet, every command that fits is written as the protocol has it: 0x74, 0x43, its length, its number, the command, the check octet |
| Frames.KnownLoginFrame | texecom_alarm/src/texecom_alarm/protocol/frame.py:52-66 | the whole login frame for the password 1234, as numbers |
| Frames.KindsOnTheWire | texecom_alarm/src/texecom_alarm/protocol/frame.py:9-12 | a command, a response and an event are told apart by 0x43, 0x52 and 0x4D |
| Frames.InspectLeading | texecom_alarm/src/texecom_alarm/protocol/frame.py:73-114 | the decoder never consumes more than it was given and consumes nothing exactly when it asks for more bytes |
| Frames.DecodesExactlyItsEncoding | texecom_alarm/src/texecom_alarm/protocol/frame.py:105-114 | a frame is reported if and only if the buffer starts with its encoding, and then exactly that encoding is consumed |
| Frames.InspectStable | texecom_alarm/src/texecom_alarm/protocol/frame.py:80-114 | once the decoder consumes anything, no later bytes can change its answer |
| Frames.TornFrameWaits | texecom_alarm/src/texecom_alarm/protocol/frame.py:89-103 | every proper prefix of an encoded frame is waited on: never faulted, never accepted |
| Frames.WaitsIff | texecom_alarm/src/texecom_alarm/protocol/frame.py:80-112 | short of the marker, more is asked for exactly until there is a length octet and then until there are as many octets as it says; a fault costs one octet |
| Frames.MarkerIsPrompt | texecom_alarm/src/texecom_alarm/protocol/frame.py:80-87 | the end-of-session marker is recognised exactly when the buffer starts with three plus signs, with or without more, and never at the start of an encoded frame |
| Frames.CorruptionAcceptedIff | texecom_alarm/src/texecom_alarm/protocol/frame.py:92-112 | with the length octet intact, a corrupted frame is still reported exactly when the error clears the check, the header octet is untouched and the type is a known one |
| Frames.OddCorruptionFaults | texecom_alarm/src/texecom_alarm/protocol/frame.py:105-112 | any odd number of flipped bits ends in a fault, at any frame length and whatever follows |
| Frames.BurstCorruptionFaults | texecom_alarm/src/texecom_alarm/protocol/frame.py:105-112 | so does any burst of at most eight bits |
| Frames.DoubleCorruptionFaults | texecom_alarm/src/texecom_alarm/protocol/frame.py:105-112 | so do any two flipped bits not a multiple of 127 apart, hence any two at all in a frame of at most 15 octets |
| Streams.CutAppend | texecom_alarm/src/texecom_alarm/protocol/frame.py:73-114 | decoding is a left-to-right pass: what is left over from one stretch is all that the next one needs |
| Streams.ChunkingIndependence | texecom_alarm/src/texecom_alarm/protocol/client.py:563-621 | for any stream and any split into reads, the frames, hang-ups and faults that come out are those of decoding the whole stream at once, faults included |
| Streams.CutConservesBytes | texecom_alarm/src/texecom_alarm/protocol/client.py:564-588 | consumed items and unread tail put back together are the stream: nothing skipped, repeated or altered |
| Streams.StreamRoundTrip | texecom_alarm/src/texecom_alarm/protocol/frame.py:52-61 | any list of sendable frames, encoded back to back, decodes to that list with an empty buffer |
| Streams.CutsCleanlyIff | texecom_alarm/src/texecom_alarm/protocol/frame.py:105-114 | a stream decodes to a list of frames with nothing left if and only if it is their encodings |
| Streams.EncodeAllIsInjective | texecom_alarm/src/texecom_alarm/protocol/frame.py:52-61 | two different lists of frames never share an encoding |
| CommandLog.LawfulExtends | texecom_alarm/src/texecom_alarm/protocol/client.py:436-493 | one more transmission that follows the rules keeps the whole history lawful, and keeps the session logged in |
| CommandLog.StopsLater | texecom_alarm/src/texecom_alarm/protocol/client.py:507-621 | why a wait stopped, a whole reply, its deadline, a hang-up, noise, a failed read or a closed peer, has its one cause on the network or in the stream however many reads went before |
| CommandLog.NumbersOnlyGrow | texecom_alarm/src/texecom_alarm/protocol/client.py:496-499 | over the client's life sequence numbers are handed out in order, and two transmissions under one number belong to one call of one session |
| CommandLog.LoginBeforeAnythingElse | texecom_alarm/src/texecom_alarm/protocol/client.py:420-424 | no command but LOGIN is written before that session's LOGIN was acknowledged |
| CommandLog.RetriesRenumberOnlyWhenBusy | texecom_alarm/src/texecom_alarm/protocol/client.py:461-482 | within a call, the numbers used up equal the number of waits of an arm (6) or a disarm (8) that heard an unsolicited frame and timed out; every other retry reuses its number |
| CommandLog.NoStaleReply | texecom_alarm/src/texecom_alarm/protocol/client.py:530-543 | given a panel that only echoes what it was sent, an accepted reply answers the number waited for if and only if fewer than 256 numbers were taken since the transmission it answers, and then it is the same call's; beyond that it is another call's, unless one call made more than 256 transmissions |
| CommandLog.PromptPanelNeverMisleads | texecom_alarm/src/texecom_alarm/protocol/client.py:417-543 | over the whole life of the client, with a panel whose replies are fewer than 256 numbers late, no call takes another call's reply for its own and the mismatch error is never raised |
| CommandLog.MismatchMeansVeryLate | texecom_alarm/src/texecom_alarm/protocol/client.py:538-542 | the command-mismatch error is unreachable inside that window |
| CommandLog.StaleReplyAcceptedAfter256 | texecom_alarm/src/texecom_alarm/protocol/client.py:536-543 | the window is tight: a session with one transmission for every number, each frame the command's own, in which the reply that check-in 1 never got answers check-in 257 |
| Client.ConsumingKeepsCut | texecom_alarm/src/texecom_alarm/protocol/client.py:564-588 | deleting what was decoded from the buffer keeps items, buffer and stream in agreement |
| Client.ReadingKeepsCut | texecom_alarm/src/texecom_alarm/protocol/client.py:621 | so does appending a chunk, wherever it falls in a frame |
| Client.JudgementMeans | texecom_alarm/src/texecom_alarm/protocol/client.py:455-492 | a wait leads to another attempt exactly when it timed out or its reply fails the caller's test; a budget used up on replies still returns the last reply, one used up on silence raises a plain timeout |
| Client.PanelClient.constructor | texecom_alarm/src/texecom_alarm/protocol/client.py:82-112 | a new client is disconnected, unauthenticated, with nothing queued or sent |
| Client.PanelClient.Connect | texecom_alarm/src/texecom_alarm/protocol/client.py:177-195 | a connection starts unauthenticated with an empty queue and buffer; a failed one changes nothing |
| Client.PanelClient.Close | texecom_alarm/src/texecom_alarm/protocol/client.py:197-225 | closing drops the connection, the login and the buffer, and keeps the queue |
| Client.PanelClient.TakeQueuedMessages | texecom_alarm/src/texecom_alarm/protocol/client.py:114-122 | returns the whole queue in order and leaves it empty |
| Client.PanelClient.EnqueueUnsolicited | texecom_alarm/src/texecom_alarm/protocol/client.py:124-126 | puts a frame at the back |
| Client.PanelClient.RecvFrame | texecom_alarm/src/texecom_alarm/protocol/client.py:545-621 | what it consumes is the next item of the stream, the buffer is decoded before the network is waited for, and each way of ending has its own cause: hang-up, noise, failed read, closed peer, session gone, deadline, or a frame |
| Client.PanelClient.HearOne | texecom_alarm/src/texecom_alarm/protocol/client.py:516-529 | one read of a command wait: an unsolicited frame goes to the back of the queue and nothing else does |
| Client.PanelClient.AwaitResponse | texecom_alarm/src/texecom_alarm/protocol/client.py:507-543 | ends on the first response with the awaited number, or for the one cause its fault names; the unsolicited frames met on the way are queued in wire order, and a timeout is busy exactly when there were some |
| Client.PanelClient.NextSeq | texecom_alarm/src/texecom_alarm/protocol/client.py:496-499 | counts modulo 256 in step with the numbers taken |
| Client.PanelClient.Attempt | texecom_alarm/src/texecom_alarm/protocol/client.py:430-454 | one write and its wait add one lawful entry to the history; a failing write ends the session without waiting |
| Client.PanelClient.Turn | texecom_alarm/src/texecom_alarm/protocol/client.py:430-492 | another attempt is asked for exactly when the wait timed out or its reply fails the test, and under a new number exactly after a busy timeout of an arm or a disarm; otherwise the call ends for what this wait met |
| Client.PanelClient.RetryLoop | texecom_alarm/src/texecom_alarm/protocol/client.py:425-492 | at least one and at most retries+1 transmissions, each of the same command under its own number |
| Client.PanelClient.RefusedIff | texecom_alarm/src/texecom_alarm/protocol/client.py:418-424 | nothing is written exactly when there is no connection, no login (unless to log in) or no length octet for the body; a connection once had is reported as lost, one never made as a protocol error |
| Client.PanelClient.SendCommand | texecom_alarm/src/texecom_alarm/protocol/client.py:395-494 | sends nothing exactly when refused, and then says why; at most retries+1 transmissions, exactly that many when it times out; a result is the body of a matching reply; the unsolicited frames heard are appended to the queue, and the network is used up by these transmissions alone |
| Client.PanelClient.Login | texecom_alarm/src/texecom_alarm/protocol/client.py:227-238 | succeeds, and authenticates, if and only if the settling reply is exactly ACK; any other outcome is the one its last transmission met |
| Client.PanelClient.Query | texecom_alarm/src/texecom_alarm/protocol/client.py:281-292 | succeeds if and only if the settling reply has exactly the length asked for, and then returns its payload, so a NAK octet inside a full-length reply is data; a lone NAK is a rejection, any other length a wrong shape |
| Client.PanelClient.Keepalive | texecom_alarm/src/texecom_alarm/protocol/client.py:240-262 | one transmission at most; it returns the six octets of its reply if and only if that has six |
| Client.PanelClient.GetZoneState | texecom_alarm/src/texecom_alarm/protocol/client.py:264-292 | a bad start or count, and nothing else, is refused as such and unsent; otherwise the payload of the settling reply if and only if it has the count asked for |
| Client.PanelClient.GetAreaFlags | texecom_alarm/src/texecom_alarm/protocol/client.py:294-323 | bad arguments are refused unsent; otherwise it returns the payload of the settling reply if and only if that has count times area-size octets |
| Client.PanelClient.Order | texecom_alarm/src/texecom_alarm/protocol/client.py:338-359 | succeeds if and only if it was answered by a reply that does not start with NAK, is rejected if and only if it was answered by one that does, and otherwise fails for what its last transmission met |
| Client.PanelClient.SetAreaArm | texecom_alarm/src/texecom_alarm/protocol/client.py:338-348 | an order whose every transmission is the arm command with the mode octet and area 1 |
| Client.PanelClient.SetAreaDisarm | texecom_alarm/src/texecom_alarm/protocol/client.py:350-359 | an order whose every transmission is the disarm command for area 1 |
| Client.PanelClient.SetEventMessages | texecom_alarm/src/texecom_alarm/protocol/client.py:325-336 | an order that subscribes to all six event kinds |
| Client.PanelClient.RecvMessage | texecom_alarm/src/texecom_alarm/protocol/client.py:361-393 | hands out the front of the queue, else the next unsolicited frame from the wire; it says nothing came only after silence or another kind of frame, times out only when its deadline passes, and lets every lost session out with its cause; across every operation, frames handed out followed by the queue are exactly the unsolicited frames read, in wire order |
| Settings.ValidateUniquePartArmModes | texecom_alarm/src/texecom_alarm/config.py:321-334 | accepts exactly the assignments without a repeated mode, and otherwise names the first repeat and the slot that had it |
| Settings.ArmModesRoundTripIffUnique | texecom_alarm/src/texecom_alarm/config.py:118-141 | every slot's mode arms that same slot if and only if no mode is assigned twice; the other direction always holds |
| Settings.ModeOctets | texecom_alarm/src/texecom_alarm/config.py:118-141 | away arms with octet 0, any other mode with the number of the first slot labelled with it, and a slot without a label, or with the legacy away, has no mode |
| Settings.TimingBounds | texecom_alarm/src/texecom_alarm/config.py:219-246 | the check-in timings accepted, in seconds |
| AreaState.AreaSizeForZones | texecom_alarm/src/texecom_alarm/area_state.py:71-76 | the least number of octets with a bit for every area; one octet exactly for the listed panels of up to 88 zones |
| AreaState.LiveDecode | texecom_alarm/src/texecom_alarm/area_state.py:43-57 | every live AREA octet: 0 disarmed, 1 and 4 arming, 2 pending, 3 armed away, 5 triggered, 6 and 7 armed in the mode of slot 1 and 2, and nothing above 7 |
| AreaState.PushDecode | texecom_alarm/src/texecom_alarm/area_state.py:230-256 | a frame body carries a payload if and only if it is an AREA push for area 1 with a known octet, and then the one that octet says |
| AreaState.LittleEndianBit | texecom_alarm/src/texecom_alarm/area_state.py:85-86 | bit n of the little-endian value is bit n mod 8 of octet n div 8 |
| AreaState.FlagBitLayout | texecom_alarm/src/texecom_alarm/area_state.py:79-86 | for any bitmap width and any area in it, a flag is one bit of one octet of the block, and a short block reads as clear |
| AreaState.FlagsAreSettled | texecom_alarm/src/texecom_alarm/area_state.py:110-140 | a flag block never decodes to arming or pending |
| AreaState.DecodedByLayout | texecom_alarm/src/texecom_alarm/area_state.py:110-140 | on the panel's bit layout: triggered exactly when the alarm bit is set, disarmed exactly when it and the four armed bits are clear, otherwise the mode of the lowest part-arm slot, or away |
| FlagsGuard.SettledGuard | texecom_alarm/src/texecom_alarm/alarm_flags_guard.py:9-68 | what the three guards amount to for settled payloads: in passing, news gets through unless a delay (then only an alarm) or an alarm (then only disarmed) stands; after a disarm, never an armed state, and whatever the coercion leaves if it is news; after an arm, no read at all |
| FlagsGuard.RefreshIsTold | texecom_alarm/src/texecom_alarm/arm_commands.py:177-179 | what a refresh after a disarm takes from a block is the alarm bit alone: triggered if it is set, else disarmed |
| AreaState.SnapshotAgreesWithLive | texecom_alarm/src/texecom_alarm/area_state.py:89-140 | a block laid out as part-armed in slot 1 or 2 decodes to the payload of live AREA octet 6 or 7, and, with unique modes, to the mode whose arm command selects that slot |
| Trust.PanelTrust.constructor | texecom_alarm/src/texecom_alarm/panel_trust.py:78-119 | starts live with no memory |
| Trust.PanelTrust.MaybeRecover | texecom_alarm/src/texecom_alarm/panel_trust.py:411-427 | publishes ON exactly when it turns live, which needs the recover window since the last command failure to have passed |
| Trust.PanelTrust.NoteKeepaliveOk | texecom_alarm/src/texecom_alarm/panel_trust.py:133-143 | clears the check-in streak, then recovery; the link topic keeps agreeing with the tracker |
| Trust.PanelTrust.NotePanelTraffic | texecom_alarm/src/texecom_alarm/panel_trust.py:145-161 | drives recovery and leaves the check-in streak alone |
| Trust.PanelTrust.NoteCheckinFailed | texecom_alarm/src/texecom_alarm/panel_trust.py:166-177 | only the first refusal of a streak sets its clock |
| Trust.PanelTrust.RecordCommandFailure | texecom_alarm/src/texecom_alarm/panel_trust.py:261-283 | degrades at once, keeps the first degrade time, publishes OFF |
| Trust.PanelTrust.NotePollAttempt | texecom_alarm/src/texecom_alarm/panel_trust.py:360-361 | moves the poll clock only |
| Trust.PanelTrust.ResetAfterReconnect | texecom_alarm/src/texecom_alarm/panel_trust.py:207-230 | forgets everything and always publishes ON |
| Trust.PanelTrust.ConsumeSessionCollision | texecom_alarm/src/texecom_alarm/panel_trust.py:201-205 | returns and clears the flag |
| Watchdog.ReloginIff | texecom_alarm/src/texecom_alarm/panel_trust.py:313-317 | on any ordered run, re-login is requested if and only if some command failure at least the fail window ago was never cleared: each sign of life since came less than the recover window after a failure |
| Watchdog.DownIff | texecom_alarm/src/texecom_alarm/panel_trust.py:411-427 | the tracker thinks the link dead if and only if some command failure was never cleared |
| Watchdog.ClearedIff | texecom_alarm/src/texecom_alarm/panel_trust.py:411-427 | a sign of life finds the failed commands cleared if and only if the recover window has passed since each of them that no reconnect wiped out |
| Watchdog.HealthyPanelNeverRelogs | texecom_alarm/src/texecom_alarm/panel_trust.py:411-427 | signs of life every G and failures more than recover window plus G apart: it never fires |
| Watchdog.RelentlessFailuresRelog | texecom_alarm/src/texecom_alarm/panel_trust.py:237-240 | failures less than a recover window apart for a whole fail window always make it fire, whatever traffic arrives |
| Watchdog.PatienceExceededIff | texecom_alarm/src/texecom_alarm/panel_trust.py:166-183 | patience is exceeded if and only if some refused check-in at least that old has had no valid reply and no reconnect since |
| Watchdog.FirstRefusalNeverEnds | texecom_alarm/src/texecom_alarm/app.py:618-634 | the first refusal of a streak never ends the session |
| Watchdog.EndsOnNthRefusal | texecom_alarm/src/texecom_alarm/app.py:618-634 | at exact spacing I the session ends on refusal n and no earlier if and only if n-1 is the least number of intervals covering patience |
| Watchdog.AcceptedPatienceRidesOut | texecom_alarm/src/texecom_alarm/config.py:337-343 | at exact spacing, accepted timings ride out one refusal, and a second unless interval equals patience; the defaults end on the fourth |
| Watchdog.SpreadOfStarts | texecom_alarm/src/texecom_alarm/app.py:672-715 | check-ins spaced as the listen loop spaces them: n of them span between n intervals and n intervals plus n jitters |
| Watchdog.PatienceUnderJitter | texecom_alarm/src/texecom_alarm/app.py:618-634 | for any spacing and any reply latency within bounds: ended once n-1 intervals cover patience plus one latency, not ended while n-1 widest gaps plus one latency stay under patience |
| Watchdog.DefaultsEndOnFourthOrFifth | texecom_alarm/src/texecom_alarm/panel_trust.py:37-39 | with 15 and 45 seconds never on the third refusal, always by the fifth, and on the fourth exactly when 45 seconds have passed since the first was noted |
| Watchdog.SlowFirstRefusalSurvivesFourth | texecom_alarm/src/texecom_alarm/panel_trust.py:166-183 | a first check-in that times out after two seconds makes the fourth refusal come too early |
| Watchdog.PollDueIff | texecom_alarm/src/texecom_alarm/panel_trust.py:302-305 | a poll is due exactly when neither an attempt nor a reconnect fell within the interval |
| Watchdog.LinkIgnoresPollsAndRefusals | texecom_alarm/src/texecom_alarm/panel_trust.py:344-409 | deleting all polls and refused check-ins from a run changes nothing about the link |
| Watchdog.PatienceIgnoresEverythingElse | texecom_alarm/src/texecom_alarm/panel_trust.py:145-161 | deleting all traffic, polls and command failures changes nothing about the patience clock |
| Watchdog.VerdictsAreIndependent | texecom_alarm/src/texecom_alarm/panel_trust.py:115-119 | so the two verdicts can be read off the two erased runs |
| Schedule.CheckinStarts | texecom_alarm/src/texecom_alarm/app.py:672-715 | for any arrivals, consecutive check-ins are at least the interval apart and at most the interval plus one pass's own lag and work, and none is ever overdue by more |
| TriggerSnapshot.InitiatingZoneIsLatestRecent | texecom_alarm/src/texecom_alarm/trigger_snapshot.py:84-89 | the zone named is that of the latest non-Secure zone event in the whole history, if it is among the last 32 events |
| TriggerSnapshot.TriggerActivityBuffer.Record | texecom_alarm/src/texecom_alarm/trigger_snapshot.py:64-82 | the bounded buffer is always the last 32 events of everything recorded |
| TriggerSnapshot.TriggerActivityBuffer.LatestOpen | texecom_alarm/src/texecom_alarm/trigger_snapshot.py:84-89 | the backward search finds the zone of the specification |
| ZoneState.FetchZoneStates | texecom_alarm/src/texecom_alarm/zone_state.py:73-83 | on the client: a result comes from requests that tile zones 1..n in batches of at most 168 and, if the panel answers each with the statuses asked for, is theirs, once each and in order; a request is refused unsent if and only if n exceeds 336 and the first two were answered, and it starts at 337; with such a panel any other failure is of a request that could not be sent or whose last transmission got no reply |
| ZoneState.PublishZoneStateSnapshot | texecom_alarm/src/texecom_alarm/zone_state.py:96-117 | exactly the zones in use that the reply covers are published, once, in order, open exactly when one of the two low bits of the status is set |
| BridgeRuns.StepKeepsInStep | texecom_alarm/src/texecom_alarm/app.py:789-818 | no step of a session lets the topic leave the payload except behind an AREA push still to be applied |
| BridgeRuns.TopicFollowsPayload | texecom_alarm/src/texecom_alarm/arm_commands.py:306-310 | in every run of one session the retained topic equals the shared payload unless a disarm was acknowledged and an AREA push still waits; with none waiting they agree |
| BridgeRuns.FoldIsLatest | texecom_alarm/src/texecom_alarm/arm_commands.py:103-109 | applying queued frames in order leaves the payload the peek reports |
| BridgeRuns.PeekIsDrain | texecom_alarm/src/texecom_alarm/arm_commands.py:115-123 | however the listen task comes back to its loop with the queue as it was, and applies all it holds, it arrives at the payload peeked after the ACK if and only if an AREA push is queued, or the frame in hand and the read under way leave the payload alone; and then on the topic too |
| BridgeRuns.PeekMissesFrameInHand | texecom_alarm/src/texecom_alarm/arm_commands.py:289-300 | the case it misses: an unset push in hand, an empty queue; the peek says armed, the flags are asked for, and applying the push says disarmed |
| BridgeRuns.StepKeepsDelayKnown | texecom_alarm/src/texecom_alarm/alarm_flags_guard.py:56-68 | whatever a suspended poll or reconnect remembers of a running delay is still current |
| BridgeRuns.RefreshOnlyDisarmsOrTriggers | texecom_alarm/src/texecom_alarm/arm_commands.py:177-196 | the refresh after a disarm yields disarmed or triggered, never an armed state, or changes nothing |
| BridgeRuns.StepKeepsAckedGated | texecom_alarm/src/texecom_alarm/app.py:58-69 | the tracker's last acknowledged arm is always none or the gate's |
| BridgeRuns.EverSound | texecom_alarm/src/texecom_alarm/app.py:506-585 | from start-up on these invariants hold at every point of every run |
| BridgeRuns.StartIsSound | texecom_alarm/src/texecom_alarm/app.py:219-276 | start-up establishes the invariants and the agreement of topic and payload |
| BridgeRuns.LinkFollowsTrust | texecom_alarm/src/texecom_alarm/panel_trust.py:207-230 | at every point of every run the link topic shows ON exactly when the tracker thinks it live, and during a reconnect only while a collision's first attempt has not failed |
| BridgeRuns.LinkStaysOff | texecom_alarm/src/texecom_alarm/panel_trust.py:411-427 | in every run, once the link is shown OFF it comes back only by a sign of life that finds the last command failure cleared, or by a completed reconnect |
| BridgeClock.LiveIsReplayed | texecom_alarm/src/texecom_alarm/panel_trust.py:232-240 | in every timed run the link state is that of the tracker fed with the run's own failures, signs of life and reconnects at their times |
| BridgeClock.LinkOffIff | texecom_alarm/src/texecom_alarm/panel_trust.py:411-427 | at any moment of any timed run the link topic shows OFF if and only if some failed command was never cleared, every sign of life since having come within the recover window of a failed one, or a reconnect is under way and not still quiet |
| BridgeRuns.UnacknowledgedTapsAreErasable | texecom_alarm/src/texecom_alarm/arm_commands.py:255-442 | taps that are ignored, blocked, refused, unanswered or lost teach the bridge nothing: with every command step deleted from a run without acknowledgement, what is left is a run to the same payload, queue, memories and snapshots |
| BridgeRuns.GateHolds | texecom_alarm/src/texecom_alarm/arm_commands.py:66-79 | while the gate remembers a mode no arm of it is sent, and it stops remembering exactly on the events listed |
| BridgeRuns.AckHolds | texecom_alarm/src/texecom_alarm/panel_trust.py:185-191 | what the tracker remembers of an acknowledged arm lasts exactly as long as the gate does, or until a reconnect completes |
| BridgeRuns.NoDuplicateArm | texecom_alarm/src/texecom_alarm/arm_commands.py:353-367 | between an acknowledged arm and the next arm of that mode to reach the panel there is always an acknowledged disarm, an acknowledged arm of another mode, or a payload seen that shows otherwise; a reconnect snapshot reading disarmed is not one |
| BridgeGate.GateRemembersIff | texecom_alarm/src/texecom_alarm/arm_commands.py:444-447 | in every run the gate remembers a mode if and only if an arm of it was acknowledged and none of the forgetting events has come since |
| BridgeGate.UnsetButRememberedIff | texecom_alarm/src/texecom_alarm/app.py:570-574 | the house is unset while an acknowledged arm is remembered if and only if nothing has written the payload since and it was unset then, or the latest write was a reconnect that saw no delay on entry and whose block read unset |
| BridgeGate.UnsetHouseArmsIff | texecom_alarm/src/texecom_alarm/arm_commands.py:353-369 | on an unset house the tap for a mode that the panel has and that is ready is sent if and only if no acknowledged arm of that mode still stands |
| BridgeGate.DisarmIsSentIff | texecom_alarm/src/texecom_alarm/arm_commands.py:255-262 | in any state, whatever the payload, a disarm tap is sent if and only if that is not disarmed: during a delay and an alarm too |
| BridgeGate.ArmIsSentIff | texecom_alarm/src/texecom_alarm/arm_commands.py:312-371 | in any state an arm tap is sent if and only if the panel has the mode, it is ready, the house is not armed in it and the gate does not remember it |
| BridgeGate.DisarmTapIsSentIff | texecom_alarm/src/texecom_alarm/arm_commands.py:255-262 | at any point of any run from start-up, a disarm tap is sent if and only if the last payload shared was not disarmed |
| BridgeGate.ArmTapIsSentIff | texecom_alarm/src/texecom_alarm/arm_commands.py:312-371 | and an arm tap if and only if the panel has the mode, its latest ready switch was not off, the last payload shared was not that armed state, and no acknowledged arm of it still stands |
| BridgeGate.ReadyIsLastSwitch | texecom_alarm/src/texecom_alarm/app.py:484-497 | a mode is ready exactly when its latest switch said so, or none came yet |
| BridgeGate.RefreshIsAskedIff | texecom_alarm/src/texecom_alarm/arm_commands.py:289-305 | flags are asked for after a disarm if and only if it was acknowledged and the peek does not say disarmed |
| BridgeGate.ReconnectKeepsGate | texecom_alarm/src/texecom_alarm/app.py:571-574 | a run after which arm tap, disarm tap and a poll reading unset all change nothing |
| BridgeCollision.CollisionIff | texecom_alarm/src/texecom_alarm/panel_trust.py:193-205 | in every run the collision flag is up if and only if a refresh was lost, or an arm that had taken effect was lost to unreadable bytes, and no session has ended or resumed since |
| BridgeCollision.AckedIff | texecom_alarm/src/texecom_alarm/panel_trust.py:185-191 | the tracker remembers an arm if and only if it was acknowledged, nothing has forgotten it, and no reconnect has completed since |
| BridgeCollision.SessionEndsQuietlyIff | texecom_alarm/src/texecom_alarm/app.py:556-569 | in every run the end of a session leaves the link as shown, instead of OFF, if and only if a collision had been noted, or unreadable bytes came during a delay or while such an arm was remembered |
| BridgeRuns.SecondDisarmIsIgnored | texecom_alarm/src/texecom_alarm/arm_commands.py:256-259 | once a push or a readable refresh has said disarmed, a second DISARM changes nothing |
| BridgeRuns.StepKeepsAlarmKnown | texecom_alarm/src/texecom_alarm/reconnect.py:107-114 | a reconnect that began during an alarm returns the alarm or disarmed |
| BridgeReads.RemembersWhenItBegan | texecom_alarm/src/texecom_alarm/app.py:551-570 | in every run a suspended poll or reconnect holds the payload from the step at which it began, a reconnect also the latest block through the guard, and the listen task has written nothing since |
| BridgeReads.StaleIffCommandWrote | texecom_alarm/src/texecom_alarm/arm_commands.py:289-306 | what it holds is out of date if and only if the command task wrote the payload since, last with something else |
| BridgeReads.PayloadLastsIff | texecom_alarm/src/texecom_alarm/app.py:672-826 | from any point of any run, whatever the payload and whoever set it, it lasts if and only if no step displaces it: the condition for each kind of step is on what was read and what its reader remembered |
| BridgeReads.PushLastsIff | texecom_alarm/src/texecom_alarm/app.py:789-818 | so it is with every payload the panel pushes, settled or not, from the step that applied it |
| BridgeReads.DelayLastsIff | texecom_alarm/src/texecom_alarm/alarm_flags_guard.py:56-68 | in every run, with the tasks interleaved anywhere and across sessions, arming or pending lasts if and only if none of these comes by: a push of something else, a poll or reconnect snapshot reading an alarm, an acknowledged disarm with an unset push queued, or any readable refresh after a disarm, unless it reads an alarm already known at the ACK |
| BridgeReads.RefreshRemembersAck | texecom_alarm/src/texecom_alarm/arm_commands.py:295-304 | a refresh under way compares with what the peek said at the ACK, however long ago |
| BridgeReads.RefreshOverwritesIff | texecom_alarm/src/texecom_alarm/arm_commands.py:170-196 | the refresh publishes and shares what the alarm bit tells it, if and only if that differs from the present payload and from what the peek said at the ACK; nothing pushed in between counts |
| BridgeReads.RefreshCanOverwritePush | texecom_alarm/src/texecom_alarm/arm_commands.py:179-196 | a run for every push and for a block reading unset or still armed: the push is applied during the refresh, then topic and payload go to disarmed |
| BridgeReads.DisarmLastsIff | texecom_alarm/src/texecom_alarm/arm_commands.py:289-306 | from any point of any run at which the payload is disarmed it stays so if and only if no step comes by of the kinds listed: a push, a poll whose block was news to what it remembered, a reconnect that saw a delay or whose block says otherwise, a refresh that reads a new alarm |
| BridgeReads.AlarmStandsIff | texecom_alarm/src/texecom_alarm/alarm_flags_guard.py:56-68 | from any point of any run at which the payload is triggered it stays so if and only if no step comes by that ends an alarm, each kind with its exact condition on what was read and what was remembered |
| BridgeReads.ArmedOverAlarmIff | texecom_alarm/src/texecom_alarm/panel_trust.py:375-389 | a poll or reconnect puts an armed state over an alarm if and only if its block says so and what it remembered was neither the alarm nor a delay (nor, for a poll, that state); and then a command raised the alarm since it began |
| BridgeReads.PollCanHideAlarm | texecom_alarm/src/texecom_alarm/panel_trust.py:382-389 | a run in which it happens: a poll queued behind the refresh of an acknowledged disarm that reads an alarm |
| BridgeReads.ReconnectAgreesIff | texecom_alarm/src/texecom_alarm/reconnect.py:107-122 | whatever attempts failed and whatever commands did meanwhile, a completed reconnect leaves topic and payload in agreement if and only if the last publish since the session ended was the working attempt's snapshot, or a command's of what is handed back, or there was none and they agreed before |
| BridgeReads.ReconnectCanUndoDisarm | texecom_alarm/src/texecom_alarm/app.py:551-570 | a run in which a disarm acknowledged and refreshed during the re-login is overwritten: topic disarmed, payload armed, nothing waiting, and an arm tap changes nothing |
| BridgeSnapshots.FramesAreAppliedInOrder | texecom_alarm/src/texecom_alarm/app.py:681-684 | within a session, the frames applied followed by those still waiting are those that waited followed by those that arrived |
| BridgeSnapshots.HistoryIsWhatWasApplied | texecom_alarm/src/texecom_alarm/app.py:747-775 | in every run, over any number of sessions, the memory holds the zone and log events of the frames applied, in order, and nothing else |
| BridgeSnapshots.EveryNewAlarmIsSnapshotted | texecom_alarm/src/texecom_alarm/trigger_snapshot.py:108-117 | in every run the attributes topic gets one snapshot for each step that tells the listen task of an alarm it did not know of, in order, and nothing from any other step, commands included |
| BridgeSnapshots.NewAlarmsAreAll | texecom_alarm/src/texecom_alarm/trigger_snapshot.py:108-117 | those steps are exactly the pushes and blocks that read triggered while their reader remembered something else, each once |
| BridgeSnapshots.SnapshotsTellTheRun | texecom_alarm/src/texecom_alarm/trigger_snapshot.py:84-117 | from start-up, snapshot k names a zone if and only if it is that of the latest opening event among the last 32 zone and log events applied up to its step, told by the octets of the frames: kind 1, the zone, a status with one of its two low bits set |
| BridgeSnapshots.NamedByOctets | texecom_alarm/src/texecom_alarm/trigger_snapshot.py:64-89 | so it is with any list of frames applied, kept as events or looked at as octets |
| BridgeSnapshots.SnapshotIffRealEdge | texecom_alarm/src/texecom_alarm/app.py:802-818 | unless a command wrote the payload meanwhile, a snapshot is published exactly on the edge of the shared payload |
| AlarmBridge.ArmGestureGate.ObserveLivePayload | texecom_alarm/src/texecom_alarm/arm_commands.py:66-79 | the gate is cleared by disarmed or a different armed payload, and by nothing else |
| AlarmBridge.AlarmPayloadFromQueuedArea | texecom_alarm/src/texecom_alarm/arm_commands.py:93-112 | draining and refilling leaves the queue unchanged and returns the latest decodable HOUSE AREA payload |
| AlarmBridge.OrderIsDecided | texecom_alarm/src/texecom_alarm/arm_commands.py:263-288 | an order that does not still wait is acknowledged exactly when it succeeds, and refused, timed out or lost exactly as its fault says |
| AlarmBridge.UnreadableIsNoise | texecom_alarm/src/texecom_alarm/protocol/client.py:70-72 | whatever the call, its session is lost to unreadable bytes if and only if bytes outside the protocol are the last that its last wait heard |
| AlarmBridge.AlarmBridge.constructor | texecom_alarm/src/texecom_alarm/app.py:259-276 | start-up leaves the machine's initial state with the link ON |
| AlarmBridge.AlarmBridge.LinkTellsSignals | texecom_alarm/src/texecom_alarm/panel_trust.py:411-427 | at any moment the link is thought dead, and while monitoring shown OFF, if and only if some failed command among the signals noted was never cleared |
| AlarmBridge.AlarmBridge.MaybePublishTriggerSnapshot | texecom_alarm/src/texecom_alarm/trigger_snapshot.py:92-117 | one snapshot on the edge into triggered, none otherwise |
| AlarmBridge.AlarmBridge.ObserveLiveAlarmPayload | texecom_alarm/src/texecom_alarm/app.py:58-69 | the tracker's memory is dropped together with the gate's |
| AlarmBridge.AlarmBridge.TakeMessage | texecom_alarm/src/texecom_alarm/app.py:681-684 | one step: the front of the queue, or a frame from the wire; otherwise nothing changes, and for the one cause given |
| AlarmBridge.AlarmBridge.NotePanelTraffic | texecom_alarm/src/texecom_alarm/app.py:716-722 | one step: a sign of life, which shows the link ON if the recover window has passed since every failed command; the streak of refused check-ins goes on |
| AlarmBridge.AlarmBridge.ApplyMessage | texecom_alarm/src/texecom_alarm/app.py:743-826 | one step, by the octets of the body: [2, 1, state] with a known state is published, shared and observed as what that state says, with a snapshot if it is 5 and the house was not in alarm; [1, zone, status] and [5, type, group] are recorded; everything else leaves no trace |
| AlarmBridge.AlarmBridge.BeginPollIfDue | texecom_alarm/src/texecom_alarm/panel_trust.py:333-364 | a poll begins if and only if no attempt was noted and no reconnect completed within the interval |
| AlarmBridge.AlarmBridge.BeginPoll | texecom_alarm/src/texecom_alarm/panel_trust.py:344-364 | one step: the payload is remembered before the panel is asked |
| AlarmBridge.AlarmBridge.EndPoll | texecom_alarm/src/texecom_alarm/app.py:689-707 | one step: the guard decides against what was remembered |
| AlarmBridge.AlarmBridge.EndSession | texecom_alarm/src/texecom_alarm/app.py:827-834 | one step: the link stays as shown if and only if a collision had been flagged, or bytes are unreadable during a delay or while an acknowledged arm is remembered; the flag is consumed |
| AlarmBridge.AlarmBridge.BeginAttempt | texecom_alarm/src/texecom_alarm/reconnect.py:90-98 | one step: a connect drops the queue; a failed one leaves the session closed |
| AlarmBridge.AlarmBridge.FailAttempt | texecom_alarm/src/texecom_alarm/reconnect.py:123-136 | one step: the remembered payload is kept; the link goes OFF after a first failure on a collision |
| AlarmBridge.AlarmBridge.TakeSnapshot | texecom_alarm/src/texecom_alarm/area_state.py:199-227 | one step: published unless the guard keeps the live payload |
| AlarmBridge.AlarmBridge.FinishReconnect | texecom_alarm/src/texecom_alarm/app.py:570-585 | one step: payload reassigned, observed unless disarmed, tracker reset, snapshot on an edge; the link ends ON |
| AlarmBridge.AlarmBridge.ReceiveText | texecom_alarm/src/texecom_alarm/arm_commands.py:252-371 | one step: a disarm is sent exactly when the payload is not disarmed, an arm exactly for a mode that the panel has, that is ready, in which the house is not armed and that the gate does not remember; a mode not ready bounces: arming is flashed, then the payload published again |
| AlarmBridge.AlarmBridge.HandleReadyCommand | texecom_alarm/src/texecom_alarm/app.py:484-497 | one step: a ready-to-arm switch |
| AlarmBridge.AlarmBridge.FinishDisarm | texecom_alarm/src/texecom_alarm/arm_commands.py:261-310 | one step: failure shows the link OFF and leaves the rest; an ACK leaves the link alone, clears gate and tracker, and asks for flags exactly when the peek does not say disarmed |
| AlarmBridge.AlarmBridge.FinishRefresh | texecom_alarm/src/texecom_alarm/arm_commands.py:170-212 | one step: an alarm by the alarm bit, else disarmed, is published and shared exactly when that is not what the peek said |
| AlarmBridge.AlarmBridge.LoseRefresh | texecom_alarm/src/texecom_alarm/arm_commands.py:213-222 | one step: a lost session is a collision, not a failed tap |
| AlarmBridge.AlarmBridge.FinishArm | texecom_alarm/src/texecom_alarm/arm_commands.py:370-459 | one step: an ACK is remembered; unreadable bytes after the arm had taken effect are flagged as a collision and passed on without touching the link; any other failure shows the link OFF, and bounces the topic unless it lost the session during a delay |
| AlarmBridge.AlarmBridge.AwaitDisarmReply | texecom_alarm/src/texecom_alarm/arm_commands.py:261-310 | the panel is sent [8, 1]: the unsolicited frames heard arrive, then the reply is handled; acknowledged exactly when the settling reply does not start with NAK, and any other outcome is the one the last transmission met |
| AlarmBridge.AlarmBridge.AwaitArmReply | texecom_alarm/src/texecom_alarm/arm_commands.py:370-447 | likewise for an arm, sent as [6, octet, 1] with the octet of the mode asked for; the session is closed exactly on a collision |
| AlarmBridge.AlarmBridge.AwaitFlagsReply | texecom_alarm/src/texecom_alarm/arm_commands.py:163-222 | likewise for the refresh, sent as [11, 0, 72]: the block used is the payload of the settling reply, a refusal or timeout is no news, a lost session is a collision and is closed |
| AlarmBridge.AlarmBridge.AwaitPollReply | texecom_alarm/src/texecom_alarm/panel_trust.py:362-389 | likewise for a poll: the block used is the payload of the settling reply, a refusal or timeout is no news, a lost session ends monitoring |
| AlarmBridge.AlarmBridge.CheckIn | texecom_alarm/src/texecom_alarm/app.py:588-639 | likewise for a check-in, [23]: a reply clears the streak and is a sign of life; a refusal or timeout ends the session if and only if some check-in was refused at least the patience ago and none has been answered and no reconnect completed since; a lost session ends at once |
| AlarmBridge.AlarmBridge.AwaitMessage | texecom_alarm/src/texecom_alarm/app.py:681-684 | one turn of waiting for a frame: a frame is taken; the session ends exactly when it is lost, to a hang-up, noise, a failed read, a closed peer or a session already gone; anything else changes nothing |
| AlarmBridge.AlarmBridge.EndIfStuck | texecom_alarm/src/texecom_alarm/app.py:841-850 | the session ends, and not as a collision, if and only if some command failure at least the fail window ago was never cleared |
| AlarmBridge.AlarmBridge.AwaitLogin | texecom_alarm/src/texecom_alarm/reconnect.py:98-99 | likewise for the login of an attempt, which otherwise fails the attempt; it works exactly when the settling reply is [1, 6] |
| AlarmBridge.AlarmBridge.AwaitZoneStates | texecom_alarm/src/texecom_alarm/reconnect.py:100-106 | likewise for its zone states, in as many requests as they take; with an honest panel they are those of the zones, in order |
| AlarmBridge.AlarmBridge.AwaitSnapshot | texecom_alarm/src/texecom_alarm/reconnect.py:107-114 | likewise for its flags snapshot, the payload of the settling reply to [11, 0, 72] |
| AlarmBridge.AlarmBridge.AwaitSubscription | texecom_alarm/src/texecom_alarm/reconnect.py:115-122 | likewise for its event subscription, [37, 63, 0], after which monitoring resumes and the tracker starts afresh |
| Reconnect.ReconnectAfterDisconnect | texecom_alarm/src/texecom_alarm/reconnect.py:73-136 | attempts until one works; the link shows OFF then ON, or only ON for a collision whose first attempt works; every connect follows its own close and full delay; payload, topic and link are those that the bridge's steps for these attempts leave |
| Reconnect.AttemptsAreSteps | texecom_alarm/src/texecom_alarm/reconnect.py:90-136 | with no command step in between, attempts up to a working one are a run of the bridge with this topic, link and payload at its end |
| Reconnect.ReturnedCanDifferFromTopic | texecom_alarm/src/texecom_alarm/reconnect.py:113 | a concrete pair of attempts after which they differ, because the remembered payload is never refreshed |

## Left out

- Sockets, asyncio and the MQTT broker: reads are scripted, publishing always succeeds and does not suspend, and the I/O lock makes each client operation one step.
- Finer interleavings than panel awaits: a refused-arm bounce, with its 0.35 s hold, is one step, and no claim is made about writers that run inside it or inside a publish.
- BridgeRuns.TopicFollowsPayload: covers one session, not a reconnect, across which it does not hold because a connect drops the queue; BridgeReads.ReconnectAgreesIff has the exact condition for a reconnect.
- The first-in first-out order of the I/O lock: the machine allows every interleaving at panel awaits, so what is proved of all runs holds of those the lock admits; the concrete runs shown are admitted by it.
- Watchdog.ReloginIff: every operation of the tracker reads the clock once, where the code reads it twice within one call when it records a failure.
- Schedule.CheckinStarts: lag and work of a pass are parameters with bounds, since lock waits and panel replies decide them.
- The order of work within one pass of the listen loop (check-in, sign of life, poll, watchdog, message): the machine allows every order, so what is proved of all runs holds of the code's; `Schedule` has when its check-ins fall.
- Fields that only feed log lines (last keepalive result, failure reason and mode, age of the last good poll) and all log and error texts.
- CommandLog.NoStaleReply: that the panel only echoes what it was sent is a hypothesis on the reply, as nothing in the client can establish it.
- Zone enumeration, MQTT discovery, topic names, zone names and the start-up login back-off: no property beyond their bodies.
- Option, environment and string parsing: only slot labels, the uniqueness check and the timing bounds are kept; the NaN that the number parser lets through is not a real and is not covered.
- Bitmaps wider than one octet in the snapshot and refresh paths: the code rejects them; flag decoding itself is proved for every width.
- Timestamps of trigger snapshots and the JSON they are wrapped in.
- Crash paths: an unexpected exception in the listen loop, which publishes OFF and stops listening.
