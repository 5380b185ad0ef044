/** Which taps are sent, in terms of the run before them. */
module BridgeGate {
  import opened Bytes
  import opened Frames
  import opened Settings
  import opened AreaState
  import opened Bridge
  import opened BridgeRuns
  import opened BridgeReads

  // ----- What the gate remembers -----

  /** Step `a` acknowledged an arm of `mode`, and nothing up to step `i` has forgotten it. */
  ghost predicate ArmStands(s: State, run: seq<Action>, a: nat, i: nat, mode: HaMode, cfg: Settings)
    requires Possible(s, run, cfg) && a < i <= |run|
  {
    && run[a] == ArmReply(Acked) && At(s, run, a, cfg).command == AwaitArm(mode)
    && forall k :: a < k < i ==> !ForgetsAt(s, run, k, mode, cfg)
  }

  lemma GateRises(s: State, a: Action, mode: HaMode, cfg: Settings)
    requires Enabled(s, a) && s.gate != Some(mode)
    ensures Next(s, a, cfg).gate == Some(mode) <==> a == ArmReply(Acked) && s.command == AwaitArm(mode)
  {
    hide HouseFlags, AreaPayload, Replaces, Edge, PayloadAfterAck, Remember, CollisionAtEnd;
  }

  /** In every run from an empty gate, it remembers a mode exactly when an arm of it was acknowledged and
      nothing has forgotten that. */
  lemma {:induction false} GateRemembersIff(s: State, run: seq<Action>, i: nat, mode: HaMode, cfg: Settings)
    requires Possible(s, run, cfg) && s.gate.None? && i <= |run|
    ensures At(s, run, i, cfg).gate == Some(mode) <==> exists a: nat :: a < i && ArmStands(s, run, a, i, mode, cfg)
    decreases i
  {
    hide Next, Enabled, ForgetsAt;
    if a: nat :| a < i && ArmStands(s, run, a, i, mode, cfg) {
      AckedIsRemembered(s, run, a, i, mode, cfg);
    }
    if i > 0 && At(s, run, i, cfg).gate == Some(mode) {
      var here := At(s, run, i - 1, cfg);
      AtNext(s, run, i - 1, cfg);
      if here.gate == Some(mode) {
        GateRemembersIff(s, run, i - 1, mode, cfg);
        var a: nat :| a < i - 1 && ArmStands(s, run, a, i - 1, mode, cfg);
        NotForgotten(s, run, i - 1, mode, cfg);
        assert ArmStands(s, run, a, i, mode, cfg);
      } else {
        GateRises(here, run[i - 1], mode, cfg);
        assert ArmStands(s, run, i - 1, i, mode, cfg);
      }
    }
  }

  lemma NotForgotten(s: State, run: seq<Action>, k: nat, mode: HaMode, cfg: Settings)
    requires Possible(s, run, cfg) && k < |run|
    requires At(s, run, k, cfg).gate == At(s, run, k + 1, cfg).gate == Some(mode)
    ensures !ForgetsAt(s, run, k, mode, cfg)
  {
    hide Next, Enabled, Forgets;
    AtNext(s, run, k, cfg);
    GateHolds(At(s, run, k, cfg), run[k], mode, cfg);
  }

  lemma AckedIsRemembered(s: State, run: seq<Action>, a: nat, i: nat, mode: HaMode, cfg: Settings)
    requires Possible(s, run, cfg) && a < i <= |run| && ArmStands(s, run, a, i, mode, cfg)
    ensures forall k :: a < k <= i ==> At(s, run, k, cfg).gate == Some(mode)
  {
    hide Next, Enabled, ForgetsAt;
    AtNext(s, run, a, cfg);
    AckSetsGate(At(s, run, a, cfg), mode, cfg);
    forall k | a < k <= i ensures At(s, run, k, cfg).gate == Some(mode) {
      GateHoldsUntilForgotten(s, run, a + 1, k, mode, cfg);
    }
  }

  lemma AckSetsGate(s: State, mode: HaMode, cfg: Settings)
    requires s.command == AwaitArm(mode)
    ensures Next(s, ArmReply(Acked), cfg).gate == Some(mode)
    ensures Next(s, ArmReply(Acked), cfg).payload == s.payload
  {
  }

  // ----- An unset house with a remembered arm -----

  /** What a step writes to the shared payload, if anything. */
  function Shares(s: State, a: Action, cfg: Settings): Option<Payload>
    requires Enabled(s, a)
  {
    match a
    case Apply => AreaPayload(s.inHand.value.body, cfg)
    case PollEnd(flags) =>
      if flags.Some? && Replaces(s.listen.previous, flags.value, cfg) then Some(HouseFlags(flags.value, cfg)) else None
    case AttemptSucceeds => s.listen.snapshot
    case _ => CommandSets(s, a, cfg)
  }

  ghost function SharedAt(s: State, run: seq<Action>, i: nat, cfg: Settings): Option<Payload>
    requires Possible(s, run, cfg) && i < |run|
  {
    AtNext(s, run, i, cfg);
    Shares(At(s, run, i, cfg), run[i], cfg)
  }

  lemma PayloadIsShared(s: State, a: Action, cfg: Settings)
    requires Enabled(s, a)
    ensures Next(s, a, cfg).payload == match Shares(s, a, cfg) case None => s.payload case Some(p) => p
  {
    if ListenSide(a) {
      ListenSideWrites(s, a, cfg);
    } else {
      OnlyCommandsSet(s, a, cfg);
    }
    hide Next, HouseFlags, AreaPayload, Replaces;
  }

  /** The latest step in `i..j` that wrote the payload. */
  ghost function LastSharer(s: State, run: seq<Action>, i: nat, j: nat, cfg: Settings): (w: Option<nat>)
    requires Possible(s, run, cfg) && i <= j <= |run|
    ensures w.Some? ==> i <= w.value < j
    decreases j - i
  {
    if i == j then None
    else if SharedAt(s, run, j - 1, cfg).Some? then Some(j - 1)
    else LastSharer(s, run, i, j - 1, cfg)
  }

  lemma {:induction false} PayloadIsLastShared(s: State, run: seq<Action>, i: nat, j: nat, cfg: Settings)
    requires Possible(s, run, cfg) && i <= j <= |run|
    ensures match LastSharer(s, run, i, j, cfg)
            case None => At(s, run, j, cfg).payload == At(s, run, i, cfg).payload
            case Some(w) => Some(At(s, run, j, cfg).payload) == SharedAt(s, run, w, cfg)
    decreases j - i
  {
    hide Next, Enabled, Shares;
    if i < j {
      PayloadIsLastShared(s, run, i, j - 1, cfg);
      AtNext(s, run, j - 1, cfg);
      PayloadIsShared(At(s, run, j - 1, cfg), run[j - 1], cfg);
    }
  }

  /** A step that writes disarmed and does not forget the arm can only complete a reconnect. */
  lemma UnsetWithoutForgetting(s: State, a: Action, mode: HaMode, cfg: Settings)
    requires Enabled(s, a) && s.gate == Some(mode) && !s.command.AwaitFlags?
    requires Shares(s, a, cfg) == Some(Disarmed) && !Forgets(s, a, mode, cfg)
    ensures a.AttemptSucceeds?
  {
    hide HouseFlags, AreaPayload, PayloadAfterAck;
  }

  /** Exactly when the house is unset while the gate remembers an arm that step `a` acknowledged: nothing
      has written the payload since, and the house was unset then; or the latest write was a reconnect
      that had seen no delay on entry and whose block read unset. */
  lemma UnsetButRememberedIff(s: State, run: seq<Action>, a: nat, i: nat, mode: HaMode, cfg: Settings)
    requires Possible(s, run, cfg) && s.listen.Listening? && !s.command.AwaitFlags?
    requires a < i <= |run| && ArmStands(s, run, a, i, mode, cfg)
    ensures At(s, run, i, cfg).gate == Some(mode)
    ensures At(s, run, i, cfg).payload == Disarmed <==>
            match LastSharer(s, run, a + 1, i, cfg)
            case None => At(s, run, a, cfg).payload == Disarmed
            case Some(w) => && run[w].AttemptSucceeds? && LatestSnapshot(run, w).Some?
                            && !Remembered(s, run, w, cfg).Transient()
                            && HouseFlags(WorkingBlock(run, w), cfg) == Disarmed
  {
    hide Next, Enabled, Shares, Forgets, HouseFlags, Replaces;
    AckedIsRemembered(s, run, a, i, mode, cfg);
    AtNext(s, run, a, cfg);
    AckSetsGate(At(s, run, a, cfg), mode, cfg);
    PayloadIsLastShared(s, run, a + 1, i, cfg);
    var w := LastSharer(s, run, a + 1, i, cfg);
    if w.Some? {
      SharerOfUnset(s, run, w.value, mode, cfg);
      if run[w.value].AttemptSucceeds? {
        ReadOutcome(s, run, w.value, cfg);
        AtNext(s, run, w.value, cfg);
        PayloadIsShared(At(s, run, w.value, cfg), run[w.value], cfg);
        ReplacesIffNews(Remembered(s, run, w.value, cfg), WorkingBlock(run, w.value), cfg);
      }
    }
  }

  lemma SharerOfUnset(s: State, run: seq<Action>, w: nat, mode: HaMode, cfg: Settings)
    requires Possible(s, run, cfg) && !s.command.AwaitFlags? && w < |run|
    requires At(s, run, w, cfg).gate == Some(mode) && !ForgetsAt(s, run, w, mode, cfg)
    ensures SharedAt(s, run, w, cfg) == Some(Disarmed) ==> run[w].AttemptSucceeds?
  {
    hide Next, Enabled, Shares, Forgets;
    AtNext(s, run, w, cfg);
    if At(s, run, w, cfg).command.AwaitFlags? {
      RefreshRemembersAck(s, run, w, cfg);
    } else if SharedAt(s, run, w, cfg) == Some(Disarmed) {
      UnsetWithoutForgetting(At(s, run, w, cfg), run[w], mode, cfg);
    }
  }

  /** Exactly when an arm tap on an unset house is sent, for a mode the panel has and that is ready:
      unless an acknowledged arm of that mode still stands. */
  lemma UnsetHouseArmsIff(s: State, run: seq<Action>, i: nat, mode: HaMode, cfg: Settings)
    requires Possible(s, run, cfg) && s.gate.None? && i <= |run|
    requires var here := At(s, run, i, cfg);
             here.payload == Disarmed && here.command.Ready? && mode in here.ready && cfg.ModeByteForHaMode(mode).Some?
    ensures Enabled(At(s, run, i, cfg), Receive(ArmText(mode)))
    ensures Hands(At(s, run, i, cfg), Receive(ArmText(mode)), mode, cfg) <==>
            !exists a: nat :: a < i && ArmStands(s, run, a, i, mode, cfg)
  {
    GateRemembersIff(s, run, i, mode, cfg);
    TapOnUnsetHouse(At(s, run, i, cfg), mode, cfg);
    hide Next, ArmStands, Hands;
  }

  lemma TapOnUnsetHouse(s: State, mode: HaMode, cfg: Settings)
    requires s.payload == Disarmed && s.command.Ready? && mode in s.ready && cfg.ModeByteForHaMode(mode).Some?
    ensures Enabled(s, Receive(ArmText(mode)))
    ensures Hands(s, Receive(ArmText(mode)), mode, cfg) <==> s.gate != Some(mode)
  {
  }

  /** It is withheld for good until the panel pushes something else. Armed Away through a tap and a push,
      the house loses its session and is unset meanwhile; the re-login reads unset. From then on neither
      the arm tap, nor a disarm tap, nor a poll that reads unset changes anything. */
  lemma ReconnectKeepsGate(unreadable: bool, cfg: Settings)
    ensures var armed := Frame(TYPE_MESSAGE, 0, [MSG_AREA, HOUSE_AREA_NUMBER, 3]);
            var run := [Receive(ArmText(Away)), ArmReply(Acked), TakeFromWire(armed), Apply,
                        SessionEnds(unreadable), Reconnect, Snapshot(HouseBlock({})), AttemptSucceeds];
            && Possible(Initial(Disarmed), run, cfg)
            && var s := At(Initial(Disarmed), run, 8, cfg);
            && s.payload == s.topic == Disarmed && s.gate == Some(Away)
            && IgnoresTap(s, ArmText(Away), cfg) && IgnoresTap(s, DisarmText, cfg)
            && IgnoresPoll(s, HouseBlock({}), cfg)
  {
    var armed := Frame(TYPE_MESSAGE, 0, [MSG_AREA, HOUSE_AREA_NUMBER, 3]);
    assert AreaPayload(armed.body, cfg) == Some(Armed(Away));
    HouseBlocksDecode(cfg);
    hide HouseBlock, DecodeAreaHaState, AreaPayload, Possible, At, Initial, IgnoresTap, IgnoresPoll;
    KeptGateRun(unreadable, armed, HouseBlock({}), cfg);
  }

  lemma KeptGateRun(unreadable: bool, armed: Frame, unset: seq<byte>, cfg: Settings)
    requires AreaPayload(armed.body, cfg) == Some(Armed(Away)) && armed.body[0] == MSG_AREA
    requires HouseFlags(unset, cfg) == Disarmed
    ensures var run := [Receive(ArmText(Away)), ArmReply(Acked), TakeFromWire(armed), Apply,
                        SessionEnds(unreadable), Reconnect, Snapshot(unset), AttemptSucceeds];
            && Possible(Initial(Disarmed), run, cfg)
            && var s := At(Initial(Disarmed), run, 8, cfg);
            && s.payload == s.topic == Disarmed && s.gate == Some(Away)
            && IgnoresTap(s, ArmText(Away), cfg) && IgnoresTap(s, DisarmText, cfg) && IgnoresPoll(s, unset, cfg)
  {
    hide Next, Enabled, Initial, Possible, At, AreaPayload, HouseFlags, AwayArmed, IgnoresTap, IgnoresPoll;
    var s0 := Initial(Disarmed);
    ArmsAway(armed, cfg);
    UnsetMeanwhile(unreadable, unset, cfg);
    var s1 := Next(s0, Receive(ArmText(Away)), cfg);
    var s2 := Next(s1, ArmReply(Acked), cfg);
    var s3 := Next(s2, TakeFromWire(armed), cfg);
    var s4 := Next(s3, Apply, cfg);
    var first := [Receive(ArmText(Away)), ArmReply(Acked), TakeFromWire(armed), Apply];
    TraceIsRun([s0, s1, s2, s3, s4], first, cfg);
    var s5 := Next(s4, SessionEnds(unreadable), cfg);
    var s6 := Next(s5, Reconnect, cfg);
    var s7 := Next(s6, Snapshot(unset), cfg);
    var s8 := Next(s7, AttemptSucceeds, cfg);
    var second := [SessionEnds(unreadable), Reconnect, Snapshot(unset), AttemptSucceeds];
    TraceIsRun([s4, s5, s6, s7, s8], second, cfg);
    RunSplits(s0, first, second, cfg);
    assert first + second == [Receive(ArmText(Away)), ArmReply(Acked), TakeFromWire(armed), Apply,
                              SessionEnds(unreadable), Reconnect, Snapshot(unset), AttemptSucceeds];
    RememberedArmIgnores(s8, unset, cfg);
  }

  predicate IgnoresTap(s: State, text: Text, cfg: Settings) {
    Enabled(s, Receive(text)) && Next(s, Receive(text), cfg) == s
  }

  predicate IgnoresPoll(s: State, flags: seq<byte>, cfg: Settings) {
    && Enabled(s, PollBegin)
    && Enabled(Next(s, PollBegin, cfg), PollEnd(Some(flags)))
    && Next(Next(s, PollBegin, cfg), PollEnd(Some(flags)), cfg) == s
  }

  /** Armed Away by a tap, and so pushed. */
  function AwayArmed(): State {
    Initial(Armed(Away)).(gate := Some(Away), acked := Some(Away))
  }

  lemma ArmsAway(armed: Frame, cfg: Settings)
    requires AreaPayload(armed.body, cfg) == Some(Armed(Away)) && armed.body[0] == MSG_AREA
    ensures var s0 := Initial(Disarmed);
            && Enabled(s0, Receive(ArmText(Away)))
            && var s1 := Next(s0, Receive(ArmText(Away)), cfg);
            && Enabled(s1, ArmReply(Acked))
            && var s2 := Next(s1, ArmReply(Acked), cfg);
            && Enabled(s2, TakeFromWire(armed))
            && var s3 := Next(s2, TakeFromWire(armed), cfg);
            && Enabled(s3, Apply) && Next(s3, Apply, cfg) == AwayArmed()
  {
    hide AreaPayload;
  }

  lemma UnsetMeanwhile(unreadable: bool, unset: seq<byte>, cfg: Settings)
    requires HouseFlags(unset, cfg) == Disarmed
    ensures var s4 := AwayArmed();
            && Enabled(s4, SessionEnds(unreadable))
            && var s5 := Next(s4, SessionEnds(unreadable), cfg);
            && Enabled(s5, Reconnect)
            && var s6 := Next(s5, Reconnect, cfg);
            && Enabled(s6, Snapshot(unset))
            && var s7 := Next(s6, Snapshot(unset), cfg);
            && Enabled(s7, AttemptSucceeds)
            && var s8 := Next(s7, AttemptSucceeds, cfg);
            && s8.payload == s8.topic == Disarmed && s8.gate == Some(Away)
            && s8.command.Ready? && Away in s8.ready && s8.listen.Listening?
  {
    hide HouseFlags, Edge;
  }

  lemma RememberedArmIgnores(s: State, unset: seq<byte>, cfg: Settings)
    requires s.payload == Disarmed && s.gate == Some(Away) && s.command.Ready? && Away in s.ready
    requires s.listen.Listening? && HouseFlags(unset, cfg) == Disarmed
    ensures IgnoresTap(s, ArmText(Away), cfg) && IgnoresTap(s, DisarmText, cfg) && IgnoresPoll(s, unset, cfg)
  {
    hide HouseFlags;
  }

  // ----- Every tap -----

  /** A disarm tap is sent unless the house is known to be unset: during a delay and an alarm as well. */
  lemma DisarmIsSentIff(s: State, cfg: Settings)
    requires s.command.Ready?
    ensures Enabled(s, Receive(DisarmText))
    ensures Next(s, Receive(DisarmText), cfg).command.AwaitDisarm? <==> s.payload != Disarmed
    ensures s.payload == Disarmed ==> Next(s, Receive(DisarmText), cfg) == s
  {
  }

  /** An arm tap is sent exactly for a mode that the panel has, that is ready, and in which the house
      neither is armed nor has been asked to be. */
  lemma ArmIsSentIff(s: State, mode: HaMode, cfg: Settings)
    requires s.command.Ready?
    ensures Enabled(s, Receive(ArmText(mode)))
    ensures Hands(s, Receive(ArmText(mode)), mode, cfg) <==>
            && (mode == Away || For(mode) in {cfg.partArm1, cfg.partArm2, cfg.partArm3})
            && mode in s.ready && s.payload != Armed(mode) && s.gate != Some(mode)
    ensures !Hands(s, Receive(ArmText(mode)), mode, cfg) ==> Next(s, Receive(ArmText(mode)), cfg).command.Ready?
  {
    ModeOctets(cfg, mode);
  }

  /** An acknowledged disarm asks for the flags unless the peek said unset; nothing else that becomes of
      one does, and then a new tap can be taken at once. */
  lemma RefreshIsAskedIff(s: State, outcome: Outcome, cfg: Settings)
    requires s.command.AwaitDisarm?
    ensures var next, peek := Next(s, DisarmReply(outcome), cfg).command, PayloadAfterAck(s, cfg);
            && (next == AwaitFlags(peek) <==> outcome.Acked? && peek != Disarmed)
            && (next.AwaitFlags? || next.Ready?)
            && (next.AwaitFlags? ==> next.current == peek)
  {
    hide LatestArea;
  }

  /** What the latest switch of `mode` before step `i` said; at start-up every mode is ready. */
  predicate SwitchedOn(run: seq<Action>, i: nat, mode: HaMode)
    requires i <= |run|
  {
    if i == 0 then true
    else if run[i - 1].SetReady? && run[i - 1].mode == mode then run[i - 1].on
    else SwitchedOn(run, i - 1, mode)
  }

  lemma ReadyMoves(s: State, a: Action, mode: HaMode, cfg: Settings)
    requires Enabled(s, a)
    ensures mode in Next(s, a, cfg).ready <==>
            if a.SetReady? && a.mode == mode then a.on else mode in s.ready
  {
    hide HouseFlags, AreaPayload, Replaces, Edge, PayloadAfterAck, Remember, Observed, CollisionAtEnd;
  }

  lemma {:induction false} ReadyIsLastSwitch(start: Payload, run: seq<Action>, i: nat, mode: HaMode, cfg: Settings)
    requires Possible(Initial(start), run, cfg) && i <= |run|
    ensures mode in At(Initial(start), run, i, cfg).ready <==> SwitchedOn(run, i, mode)
    decreases i
  {
    hide Next, Enabled;
    if i > 0 {
      ReadyIsLastSwitch(start, run, i - 1, mode, cfg);
      AtNext(Initial(start), run, i - 1, cfg);
      ReadyMoves(At(Initial(start), run, i - 1, cfg), run[i - 1], mode, cfg);
    }
  }

  /** What was last written to the shared payload before step `i`, or the start-up snapshot. */
  ghost function LastKnown(start: Payload, run: seq<Action>, i: nat, cfg: Settings): Payload
    requires Possible(Initial(start), run, cfg) && i <= |run|
  {
    match LastSharer(Initial(start), run, 0, i, cfg)
    case None => start
    case Some(w) => match SharedAt(Initial(start), run, w, cfg) case None => start case Some(payload) => payload
  }

  lemma PayloadIsLastKnown(start: Payload, run: seq<Action>, i: nat, cfg: Settings)
    requires Possible(Initial(start), run, cfg) && i <= |run|
    ensures At(Initial(start), run, i, cfg).payload == LastKnown(start, run, i, cfg)
  {
    hide Next, Enabled, SharedAt, LastSharer;
    PayloadIsLastShared(Initial(start), run, 0, i, cfg);
  }

  /** At any point of any run from start-up, a disarm tap is sent if and only if the last that was written
      to the shared payload was not disarmed. */
  lemma DisarmTapIsSentIff(start: Payload, run: seq<Action>, i: nat, cfg: Settings)
    requires Possible(Initial(start), run, cfg) && i < |run| && run[i] == Receive(DisarmText)
    ensures At(Initial(start), run, i + 1, cfg).command.AwaitDisarm? <==> LastKnown(start, run, i, cfg) != Disarmed
  {
    hide Next, LastKnown;
    PayloadIsLastKnown(start, run, i, cfg);
    AtNext(Initial(start), run, i, cfg);
    DisarmIsSentIff(At(Initial(start), run, i, cfg), cfg);
  }

  /** And an arm tap, if and only if the panel has the mode, its latest switch left it ready, the house
      is not known to be armed in it, and no acknowledged arm of it still stands. */
  lemma ArmTapIsSentIff(start: Payload, run: seq<Action>, i: nat, mode: HaMode, cfg: Settings)
    requires Possible(Initial(start), run, cfg) && i < |run| && run[i] == Receive(ArmText(mode))
    ensures At(Initial(start), run, i + 1, cfg).command == AwaitArm(mode) <==>
            && (mode == Away || For(mode) in {cfg.partArm1, cfg.partArm2, cfg.partArm3})
            && SwitchedOn(run, i, mode)
            && LastKnown(start, run, i, cfg) != Armed(mode)
            && !exists a: nat :: a < i && ArmStands(Initial(start), run, a, i, mode, cfg)
  {
    hide Next, LastKnown, ArmStands, SwitchedOn;
    PayloadIsLastKnown(start, run, i, cfg);
    ReadyIsLastSwitch(start, run, i, mode, cfg);
    GateRemembersIff(Initial(start), run, i, mode, cfg);
    AtNext(Initial(start), run, i, cfg);
    ArmIsSentIff(At(Initial(start), run, i, cfg), mode, cfg);
  }
}
