/** What every run of the bridge keeps. */
module BridgeRuns {
  import opened Bytes
  import opened Frames
  import opened Settings
  import opened AreaState
  import opened FlagsGuard
  import opened TriggerSnapshot
  import opened Bridge

  // ----- The retained topic and the shared payload -----

  /** Unsolicited frames received but not yet applied, oldest first. */
  function Unapplied(s: State): seq<Frame> {
    (if s.inHand.Some? then [s.inHand.value] else []) + s.queue
  }

  ghost predicate HoldsArea(frames: seq<Frame>, cfg: Settings) {
    exists i :: 0 <= i < |frames| && AreaPayload(frames[i].body, cfg).Some?
  }

  /** The topic lags the payload only behind an AREA push that is still to be applied, and then
      only because a disarm was acknowledged first. */
  ghost predicate InStep(s: State, cfg: Settings) {
    s.topic != s.payload ==> s.payload == Disarmed && HoldsArea(Unapplied(s), cfg)
  }

  /** Steps that belong to one panel session. */
  predicate WithinSession(a: Action) {
    !a.SessionEnds? && !a.Reconnect? && !a.Snapshot? && !a.AttemptFails? && !a.AttemptSucceeds?
  }

  lemma HoldsAreaInLonger(frames: seq<Frame>, more: seq<Frame>, cfg: Settings)
    ensures HoldsArea(frames, cfg) ==> HoldsArea(frames + more, cfg)
  {
    if i :| 0 <= i < |frames| && AreaPayload(frames[i].body, cfg).Some? {
      assert (frames + more)[i] == frames[i];
    }
  }

  lemma HoldsAreaInRest(frames: seq<Frame>, cfg: Settings)
    requires frames != [] && AreaPayload(frames[0].body, cfg).None?
    ensures HoldsArea(frames, cfg) ==> HoldsArea(frames[1..], cfg)
  {
    if i :| 0 <= i < |frames| && AreaPayload(frames[i].body, cfg).Some? {
      assert frames[1..][i - 1] == frames[i];
    }
  }

  lemma {:induction false} LatestAreaIsHeld(frames: seq<Frame>, cfg: Settings)
    ensures LatestArea(frames, cfg).Some? <==> HoldsArea(frames, cfg)
    decreases |frames|
  {
    hide AreaPayload;
    if frames != [] {
      var n := |frames| - 1;
      LatestAreaIsHeld(frames[..n], cfg);
      HoldsAreaInLonger(frames[..n], [frames[n]], cfg);
      assert frames[..n] + [frames[n]] == frames;
      if HoldsArea(frames, cfg) && AreaPayload(frames[n].body, cfg).None? {
        var i :| 0 <= i < |frames| && AreaPayload(frames[i].body, cfg).Some?;
        assert frames[..n][i] == frames[i];
      }
    }
  }

  lemma QueueMoves(s: State, a: Action, cfg: Settings)
    requires Enabled(s, a) && WithinSession(a)
    ensures var t := Next(s, a, cfg);
            && t.inHand == (match a
                            case TakeQueued => Some(s.queue[0])
                            case TakeFromWire(frame) => Some(frame)
                            case Apply => None
                            case _ => s.inHand)
            && t.queue == (match a
                           case TakeQueued => s.queue[1..]
                           case Enqueue(frame) => s.queue + [frame]
                           case _ => s.queue)
  {
    hide HouseFlags, AreaPayload, MayReplaceLive, Edge, PayloadAfterAck, Remember, Observed, CollisionAtEnd;
  }

  /** A step publishes what it shares, or bounces the payload, or leaves both alone. */
  lemma TopicMoves(s: State, a: Action, cfg: Settings)
    requires Enabled(s, a) && WithinSession(a) && !a.DisarmReply?
    ensures var t := Next(s, a, cfg);
            && (t.topic == t.payload || (t.topic == s.topic && t.payload == s.payload))
            && (a.Apply? && AreaPayload(s.inHand.value.body, cfg).Some? ==> t.topic == t.payload)
  {
    hide HouseFlags, AreaPayload, Replaces, MayReplaceLive, Edge, PayloadAfterAck, Remember, Observed;
  }

  lemma StepKeepsInStep(s: State, a: Action, cfg: Settings)
    requires Enabled(s, a) && WithinSession(a) && InStep(s, cfg)
    ensures InStep(Next(s, a, cfg), cfg)
  {
    hide AreaPayload, Next;
    var t := Next(s, a, cfg);
    if a.DisarmReply? {
      DisarmReplyIsHandled(s, a.outcome, cfg);
      AckedDisarmKeepsInStep(s, a.outcome, cfg);
    } else {
      QueueMoves(s, a, cfg);
      TopicMoves(s, a, cfg);
      if a.Enqueue? || a.TakeFromWire? {
        assert Unapplied(t) == Unapplied(s) + [a.frame];
        HoldsAreaInLonger(Unapplied(s), [a.frame], cfg);
      } else if a.TakeQueued? {
        assert Unapplied(t) == Unapplied(s);
      } else if a.Apply? {
        assert Unapplied(s)[1..] == s.queue == Unapplied(t);
        if AreaPayload(s.inHand.value.body, cfg).None? {
          HoldsAreaInRest(Unapplied(s), cfg);
        }
      }
    }
  }

  lemma AckedDisarmKeepsInStep(s: State, outcome: Outcome, cfg: Settings)
    requires InStep(s, cfg)
    ensures InStep(HandleDisarmReply(s, outcome, cfg), cfg)
  {
    hide AreaPayload, LatestArea;
    LatestAreaIsHeld(s.queue, cfg);
    if HoldsArea(s.queue, cfg) {
      var i :| 0 <= i < |s.queue| && AreaPayload(s.queue[i].body, cfg).Some?;
      assert Unapplied(s)[|Unapplied(s)| - |s.queue| + i] == s.queue[i];
    }
    assert Unapplied(HandleDisarmReply(s, outcome, cfg)) == Unapplied(s);
  }

  /** In every run of one session the retained topic equals the shared payload, except after an
      acknowledged disarm while an AREA push waits to be applied; once the waiting frames hold
      none, the two agree. */
  lemma {:induction false} TopicFollowsPayload(s: State, run: seq<Action>, cfg: Settings)
    requires Possible(s, run, cfg) && InStep(s, cfg)
    requires forall i :: 0 <= i < |run| ==> WithinSession(run[i])
    ensures var t := At(s, run, |run|, cfg);
            InStep(t, cfg) && (!HoldsArea(Unapplied(t), cfg) ==> t.topic == t.payload)
    decreases |run|
  {
    hide Next, Enabled;
    if run != [] {
      StepKeepsInStep(s, run[0], cfg);
      TopicFollowsPayload(Next(s, run[0], cfg), run[1..], cfg);
    }
  }

  /** Take and apply the `n` frames at the front of the queue. */
  function Drain(n: nat): seq<Action> {
    if n == 0 then [] else [TakeQueued, Apply] + Drain(n - 1)
  }

  /** What the listen task would leave as payload after applying `frames` in order. */
  function Fold(payload: Payload, frames: seq<Frame>, cfg: Settings): Payload
    decreases |frames|
  {
    if frames == [] then payload
    else
      var next := match AreaPayload(frames[0].body, cfg) case None => payload case Some(p) => p;
      Fold(next, frames[1..], cfg)
  }

  lemma {:induction false} FoldIsLatest(payload: Payload, frames: seq<Frame>, cfg: Settings)
    ensures Fold(payload, frames, cfg) ==
            match LatestArea(frames, cfg) case None => payload case Some(p) => p
    decreases |frames|
  {
    hide AreaPayload;
    if frames != [] {
      var first := AreaPayload(frames[0].body, cfg);
      var next := match first case None => payload case Some(p) => p;
      FoldIsLatest(next, frames[1..], cfg);
      LatestOfCons(frames, cfg);
    }
  }

  lemma {:induction false} LatestOfCons(frames: seq<Frame>, cfg: Settings)
    requires frames != []
    ensures LatestArea(frames, cfg) ==
            if LatestArea(frames[1..], cfg).Some? then LatestArea(frames[1..], cfg)
            else AreaPayload(frames[0].body, cfg)
    decreases |frames|
  {
    hide AreaPayload;
    var n := |frames| - 1;
    if n > 0 {
      assert frames[1..][n - 1] == frames[n] && frames[1..][..n - 1] == frames[..n][1..];
      LatestOfCons(frames[..n], cfg);
    } else {
      assert frames[1..] == [] && frames[..0] == [];
    }
  }

  lemma {:induction false} QueueDrains(s: State, cfg: Settings)
    requires s.listen.Listening? && s.inHand.None?
    ensures Possible(s, Drain(|s.queue|), cfg)
    ensures var t := At(s, Drain(|s.queue|), |Drain(|s.queue|)|, cfg);
            && t.payload == PayloadAfterAck(s, cfg) && t.queue == [] && t.inHand.None?
            && (LatestArea(s.queue, cfg).Some? || s.topic == s.payload ==> t.topic == t.payload)
    decreases |s.queue|
  {
    hide Next, Enabled, AreaPayload, Fold;
    var run := Drain(|s.queue|);
    if s.queue != [] {
      TakeAndApply(s, cfg);
      var taken := Next(s, TakeQueued, cfg);
      var applied := Next(taken, Apply, cfg);
      assert run[0] == TakeQueued && run[1..] == [Apply] + Drain(|s.queue| - 1);
      assert run[1..][0] == Apply && run[1..][1..] == Drain(|s.queue| - 1);
      QueueDrains(applied, cfg);
      FoldIsLatest(s.payload, s.queue, cfg);
      FoldIsLatest(applied.payload, applied.queue, cfg);
      LatestOfCons(s.queue, cfg);
      hide LatestArea;
    }
  }

  lemma TakeAndApply(s: State, cfg: Settings)
    requires s.listen.Listening? && s.inHand.None? && s.queue != []
    ensures Enabled(s, TakeQueued)
    ensures var taken := Next(s, TakeQueued, cfg);
            && Enabled(taken, Apply)
            && var applied := Next(taken, Apply, cfg);
            && applied.queue == s.queue[1..] && applied.listen.Listening? && applied.inHand.None?
            && Fold(s.payload, s.queue, cfg) == Fold(applied.payload, applied.queue, cfg)
            && (AreaPayload(s.queue[0].body, cfg).Some? || s.topic == s.payload ==> applied.topic == applied.payload)
  {
    hide AreaPayload, Edge, Observed, Remember;
  }

  /** Apply the frame in hand, then everything queued. */
  function Settle(s: State): seq<Action> {
    (if s.inHand.Some? then [Apply] else []) + Drain(|s.queue|)
  }

  /** The payload once the frame in hand is applied. */
  function Interim(s: State, cfg: Settings): Payload {
    var seen := if s.inHand.Some? then AreaPayload(s.inHand.value.body, cfg) else None;
    match seen case None => s.payload case Some(payload) => payload
  }

  lemma SettleDrains(s: State, cfg: Settings)
    requires s.listen.Listening?
    ensures Possible(s, Settle(s), cfg)
    ensures var t := At(s, Settle(s), |Settle(s)|, cfg);
            && t.queue == [] && t.inHand.None?
            && t.payload == (match LatestArea(s.queue, cfg) case None => Interim(s, cfg) case Some(p) => p)
            && (LatestArea(Unapplied(s), cfg).Some? || s.topic == s.payload ==> t.topic == t.payload)
  {
    if s.inHand.None? {
      assert Settle(s) == Drain(|s.queue|) && Unapplied(s) == s.queue;
      QueueDrains(s, cfg);
    } else {
      var applied := Next(s, Apply, cfg);
      assert applied.listen.Listening? && applied.inHand.None? && applied.queue == s.queue;
      QueueDrains(applied, cfg);
      assert Settle(s)[1..] == Drain(|s.queue|);
      assert Unapplied(s)[1..] == s.queue;
      LatestOfCons(Unapplied(s), cfg);
      hide AreaPayload, LatestArea;
    }
  }

  /** The post-ACK peek against the future. Let the listen task come back to its loop in any way
      that leaves the queue as it was (at once, or after a poll, or out of a reconnect), and apply
      what it holds. The payload it arrives at is the one peeked exactly when the queue holds an
      AREA push, or the frame in hand and the read that was under way leave the payload alone. */
  lemma PeekIsDrain(s: State, back: seq<Action>, cfg: Settings)
    requires Possible(s, back, cfg)
    requires var ready := At(s, back, |back|, cfg); ready.listen.Listening? && ready.queue == s.queue
    ensures var ready := At(s, back, |back|, cfg);
            var run := back + Settle(ready);
            && Possible(s, run, cfg)
            && var t := At(s, run, |run|, cfg);
            && t.queue == [] && t.inHand.None?
            && (t.payload == PayloadAfterAck(s, cfg) <==>
                  LatestArea(s.queue, cfg).Some? || Interim(ready, cfg) == s.payload)
            && (LatestArea(Unapplied(ready), cfg).Some? || ready.topic == ready.payload ==> t.topic == t.payload)
  {
    hide Next, Enabled, LatestArea, Interim, Settle;
    var ready := At(s, back, |back|, cfg);
    SettleDrains(ready, cfg);
    RunSplits(s, back, Settle(ready), cfg);
  }

  /** The frame in hand is what it can miss: the listen task took a push that says unset and waits
      for the I/O lock to check in; the disarm that held the lock is acknowledged; the queue is
      empty, so the peek still says armed and the flags are asked for after all. */
  lemma PeekMissesFrameInHand(cfg: Settings)
    ensures var unset := Frame(TYPE_MESSAGE, 0, [MSG_AREA, HOUSE_AREA_NUMBER, 0]);
            var run := [TakeFromWire(unset), Receive(DisarmText)];
            && Possible(Initial(Armed(Away)), run, cfg)
            && var s := At(Initial(Armed(Away)), run, 2, cfg);
            && s.queue == [] && PayloadAfterAck(s, cfg) == Armed(Away)
            && Possible(s, Settle(s), cfg) && At(s, Settle(s), |Settle(s)|, cfg).payload == Disarmed
            && Enabled(s, DisarmReply(Acked)) && Next(s, DisarmReply(Acked), cfg).command == AwaitFlags(Armed(Away))
  {
    var unset := Frame(TYPE_MESSAGE, 0, [MSG_AREA, HOUSE_AREA_NUMBER, 0]);
    assert AreaPayload(unset.body, cfg) == Some(Disarmed);
    hide Next, Enabled, AreaPayload, Settle, Initial, PayloadAfterAck, Interim, LatestArea;
    var start := Initial(Armed(Away));
    PeekMissSteps(unset, cfg);
    var taken := Next(start, TakeFromWire(unset), cfg);
    var s := Next(taken, Receive(DisarmText), cfg);
    SettleDrains(s, cfg);
    TraceIsRun([start, taken, s], [TakeFromWire(unset), Receive(DisarmText)], cfg);
  }

  lemma PeekMissSteps(unset: Frame, cfg: Settings)
    requires AreaPayload(unset.body, cfg) == Some(Disarmed)
    ensures Enabled(Initial(Armed(Away)), TakeFromWire(unset))
    ensures var taken := Next(Initial(Armed(Away)), TakeFromWire(unset), cfg);
            && Enabled(taken, Receive(DisarmText))
            && var s := Next(taken, Receive(DisarmText), cfg);
            && s.queue == [] && s.listen.Listening? && Interim(s, cfg) == Disarmed
            && LatestArea(s.queue, cfg) == None && PayloadAfterAck(s, cfg) == Armed(Away)
            && Enabled(s, DisarmReply(Acked)) && Next(s, DisarmReply(Acked), cfg).command == AwaitFlags(Armed(Away))
  {
    hide AreaPayload;
  }

  // ----- Exit and entry delays -----

  /** Only the listen task starts a delay, so what it remembers of one is current. */
  predicate DelayKnown(s: State) {
    s.payload.Transient() ==>
      match s.listen
      case Listening => true
      case Polling(previous) => previous == s.payload
      case Reconnecting(entry, snapshot, _) =>
        entry == s.payload && (snapshot.Some? ==> snapshot.value == Triggered || snapshot.value == s.payload)
  }

  lemma StepKeepsDelayKnown(s: State, a: Action, cfg: Settings)
    requires Enabled(s, a) && DelayKnown(s)
    ensures DelayKnown(Next(s, a, cfg))
  {
    if a.PollEnd? && a.flags.Some? {
      FlagsAreSettled(a.flags.value, 1, 1, cfg);
    }
    if a.Snapshot? {
      FlagsAreSettled(a.block, 1, 1, cfg);
    }
    if a.FlagsReply? && a.flags.Some? {
      RefreshOnlyDisarmsOrTriggers(s, a.flags.value, cfg);
    }
    if a.DisarmReply? && a.outcome.Acked? {
      assert Next(s, a, cfg).payload == s.payload || Next(s, a, cfg).payload == Disarmed;
    }
    hide DecodeAreaHaState, AreaPayload, Edge, Remember, Observed, PayloadAfterAck;
  }

  /** The refresh after a disarm never brings back an armed state, nor a delay. */
  lemma RefreshOnlyDisarmsOrTriggers(s: State, flags: seq<byte>, cfg: Settings)
    requires s.command.AwaitFlags?
    ensures var t := Next(s, FlagsReply(Some(flags)), cfg);
            || (t.payload == s.payload && t.topic == s.topic)
            || (t.payload == t.topic && t.payload in {Disarmed, Triggered})
  {
    FlagsAreSettled(flags, 1, 1, cfg);
    hide DecodeAreaHaState;
  }

  lemma SoundKnowsDelay(s: State)
    requires Sound(s)
    ensures DelayKnown(s) && RefreshIsNeeded(s)
  {
    hide DelayKnown, RefreshIsNeeded, AckedIsGated, AlarmKnown, LinkShown;
  }

  // ----- Duplicate arms -----

  /** The tracker never remembers an arm that the gate has forgotten. */
  predicate AckedIsGated(s: State) {
    s.acked.None? || s.acked == s.gate
  }

  lemma StepKeepsAckedGated(s: State, a: Action, cfg: Settings)
    requires Enabled(s, a) && AckedIsGated(s)
    ensures AckedIsGated(Next(s, a, cfg))
  {
    hide HouseFlags, AreaPayload, MayReplaceLive, Edge, PayloadAfterAck;
  }

  /** A refresh is only ever under way for a payload that is not yet disarmed. */
  predicate RefreshIsNeeded(s: State) {
    s.command.AwaitFlags? ==> s.command.current != Disarmed
  }

  lemma StepKeepsRefreshNeeded(s: State, a: Action, cfg: Settings)
    requires Enabled(s, a) && RefreshIsNeeded(s)
    ensures RefreshIsNeeded(Next(s, a, cfg))
  {
    hide HouseFlags, AreaPayload, MayReplaceLive, Edge, PayloadAfterAck, Remember, Observed, CollisionAtEnd;
  }

  /** A reconnect that began during an alarm comes back with the alarm or with disarmed. */
  predicate AlarmKnown(s: State) {
    s.listen.Reconnecting? && s.listen.entry == Triggered && s.listen.snapshot.Some? ==>
      s.listen.snapshot.value in {Triggered, Disarmed}
  }

  lemma StepKeepsAlarmKnown(s: State, a: Action, cfg: Settings)
    requires Enabled(s, a) && AlarmKnown(s)
    ensures AlarmKnown(Next(s, a, cfg))
  {
    if a.Snapshot? {
      FlagsAreSettled(a.block, 1, 1, cfg);
    }
    hide DecodeAreaHaState, AreaPayload, PayloadAfterAck, Edge;
  }

  /** The retained link topic. */
  predicate ShownOn(s: State) {
    s.link != [] && s.link[|s.link| - 1]
  }

  /** It shows ON exactly when the tracker thinks the link is live, and during a reconnect only as
      long as a collision's first attempt has not failed. */
  predicate LinkShown(s: State) {
    s.link != [] && (ShownOn(s) <==> s.live && (s.listen.Reconnecting? ==> s.listen.quiet))
  }

  lemma StepKeepsLinkShown(s: State, a: Action, cfg: Settings)
    requires Enabled(s, a) && LinkShown(s)
    ensures LinkShown(Next(s, a, cfg))
    ensures !ShownOn(s) && ShownOn(Next(s, a, cfg)) ==> a == LifeSign(true) || a.AttemptSucceeds?
  {
    hide HouseFlags, AreaPayload, MayReplaceLive, Edge, PayloadAfterAck, Remember;
  }

  predicate Sound(s: State) {
    DelayKnown(s) && AckedIsGated(s) && RefreshIsNeeded(s) && AlarmKnown(s) && LinkShown(s)
  }

  lemma StepKeepsSound(s: State, a: Action, cfg: Settings)
    requires Enabled(s, a) && Sound(s)
    ensures Sound(Next(s, a, cfg))
  {
    StepKeepsDelayKnown(s, a, cfg);
    StepKeepsAckedGated(s, a, cfg);
    StepKeepsAlarmKnown(s, a, cfg);
    StepKeepsLinkShown(s, a, cfg);
    StepKeepsRefreshNeeded(s, a, cfg);
    hide Next, Enabled, DelayKnown, AckedIsGated, RefreshIsNeeded, AlarmKnown, LinkShown;
  }

  /** The invariants hold from start-up on, at every point of every run. */
  lemma {:induction false} EverSound(s: State, run: seq<Action>, i: nat, cfg: Settings)
    requires Possible(s, run, cfg) && Sound(s) && i <= |run|
    ensures Sound(At(s, run, i, cfg))
    decreases i
  {
    hide Next, Enabled, Sound;
    if i > 0 {
      StepKeepsSound(s, run[0], cfg);
      EverSound(Next(s, run[0], cfg), run[1..], i - 1, cfg);
    }
  }

  /** Start-up establishes all of them, whatever the first snapshot reads. */
  lemma StartIsSound(payload: Payload, cfg: Settings)
    ensures Sound(Initial(payload)) && InStep(Initial(payload), cfg)
  {
  }

  /** In every run, once the link is shown OFF, by a failed command, a lost session or a failed
      attempt, it comes back only with a sign of life that finds the last command failure cleared,
      or with a completed reconnect. */
  lemma {:induction false} LinkStaysOff(s: State, run: seq<Action>, i: nat, j: nat, cfg: Settings)
    requires Possible(s, run, cfg) && Sound(s) && i <= j <= |run|
    requires !ShownOn(At(s, run, i, cfg)) && ShownOn(At(s, run, j, cfg))
    ensures exists k :: i <= k < j && (run[k] == LifeSign(true) || run[k].AttemptSucceeds?)
    decreases j - i
  {
    hide Next, Enabled, ShownOn, Sound;
    if i < j {
      AtNext(s, run, j - 1, cfg);
      if ShownOn(At(s, run, j - 1, cfg)) {
        LinkStaysOff(s, run, i, j - 1, cfg);
      } else {
        EverSound(s, run, j - 1, cfg);
        SoundShowsLink(At(s, run, j - 1, cfg));
        StepKeepsLinkShown(At(s, run, j - 1, cfg), run[j - 1], cfg);
      }
    }
  }

  /** At every point of every run from start-up, whatever the panel and the taps do, the retained link
      topic says what the tracker thinks; a reconnect shows OFF, except that a collision's first
      attempt leaves the topic as it was. */
  lemma LinkFollowsTrust(start: Payload, run: seq<Action>, i: nat, cfg: Settings)
    requires Possible(Initial(start), run, cfg) && i <= |run|
    ensures LinkShown(At(Initial(start), run, i, cfg))
  {
    hide Sound, LinkShown, InStep;
    StartIsSound(start, cfg);
    EverSound(Initial(start), run, i, cfg);
    SoundShowsLink(At(Initial(start), run, i, cfg));
  }

  lemma SoundShowsLink(s: State)
    requires Sound(s)
    ensures LinkShown(s)
  {
    hide LinkShown, DelayKnown, AckedIsGated, RefreshIsNeeded, AlarmKnown;
  }

  /** A payload that shows the house unset, or set some other way than `mode`. */
  predicate ShowsOtherwise(payload: Payload, mode: HaMode) {
    payload == Disarmed || (payload.Armed? && payload.mode != mode)
  }

  /** The events that make another arm of `mode` a new request: an acknowledged disarm, an
      acknowledged arm of another mode, or a payload the listen task has just published or resumed
      with. A reconnect snapshot that reads disarmed is not such an event. */
  predicate Forgets(s: State, a: Action, mode: HaMode, cfg: Settings)
    requires Enabled(s, a)
  {
    match a
    case DisarmReply(outcome) => outcome.Acked?
    case ArmReply(outcome) => outcome.Acked? && s.command.mode != mode
    case Apply =>
      var seen := AreaPayload(s.inHand.value.body, cfg);
      seen.Some? && ShowsOtherwise(seen.value, mode)
    case PollEnd(flags) =>
      flags.Some? && ShowsOtherwise(HouseFlags(flags.value, cfg), mode)
      && MayReplaceLive(Some(s.listen.previous), HouseFlags(flags.value, cfg), false, false)
    case AttemptSucceeds =>
      var seen := s.listen.snapshot.value;
      seen != Disarmed && ShowsOtherwise(seen, mode)
    case _ => false
  }

  /** An arm of `mode` is handed to the panel. */
  predicate Hands(s: State, a: Action, mode: HaMode, cfg: Settings)
    requires Enabled(s, a)
  {
    a == Receive(ArmText(mode)) && Next(s, a, cfg).command == AwaitArm(mode)
  }

  /** While the gate remembers `mode` no arm of it reaches the panel, and the gate remembers it
      until one of those events, no longer and no shorter. */
  lemma GateHolds(s: State, a: Action, mode: HaMode, cfg: Settings)
    requires Enabled(s, a) && s.gate == Some(mode)
    ensures !Hands(s, a, mode, cfg)
    ensures Next(s, a, cfg).gate == Some(mode) <==> !Forgets(s, a, mode, cfg)
  {
    hide HouseFlags, AreaPayload, MayReplaceLive, Edge, PayloadAfterAck;
  }

  /** What the tracker remembers of an acknowledged arm lasts as long as the gate does, except that
      every completed reconnect drops it. */
  lemma AckHolds(s: State, a: Action, mode: HaMode, cfg: Settings)
    requires Enabled(s, a)
    ensures s.acked == s.gate == Some(mode) ==>
              (Next(s, a, cfg).acked == Some(mode) <==> !Forgets(s, a, mode, cfg) && !a.AttemptSucceeds?)
    ensures a == ArmReply(Acked) && s.command == AwaitArm(mode) ==>
              Next(s, a, cfg).acked == Next(s, a, cfg).gate == Some(mode)
  {
    hide HouseFlags, AreaPayload, MayReplaceLive, Edge, PayloadAfterAck;
  }

  lemma {:induction false} GateHoldsUntilForgotten(
    s: State, run: seq<Action>, i: nat, j: nat, mode: HaMode, cfg: Settings)
    requires Possible(s, run, cfg) && i <= j <= |run|
    requires At(s, run, i, cfg).gate == Some(mode)
    requires forall k :: i <= k < j ==> !ForgetsAt(s, run, k, mode, cfg)
    ensures At(s, run, j, cfg).gate == Some(mode)
    decreases j - i
  {
    hide Next, Enabled, Forgets;
    if i < j {
      GateHoldsUntilForgotten(s, run, i, j - 1, mode, cfg);
      AtNext(s, run, j - 1, cfg);
      assert !ForgetsAt(s, run, j - 1, mode, cfg);
      GateHolds(At(s, run, j - 1, cfg), run[j - 1], mode, cfg);
    }
  }

  ghost predicate ForgetsAt(s: State, run: seq<Action>, k: nat, mode: HaMode, cfg: Settings)
    requires Possible(s, run, cfg) && k < |run|
  {
    AtNext(s, run, k, cfg);
    Forgets(At(s, run, k, cfg), run[k], mode, cfg)
  }

  /** Between an acknowledged arm and the next arm of the same mode that reaches the panel, in any
      run, there is always an event that forgets the first. */
  lemma {:induction false} NoDuplicateArm(s: State, run: seq<Action>, i: nat, j: nat, mode: HaMode, cfg: Settings)
    requires Possible(s, run, cfg) && i < j < |run|
    requires run[i] == ArmReply(Acked) && At(s, run, i, cfg).command == AwaitArm(mode)
    requires Enabled(At(s, run, j, cfg), run[j]) && Hands(At(s, run, j, cfg), run[j], mode, cfg)
    ensures exists k :: i < k < j && ForgetsAt(s, run, k, mode, cfg)
  {
    AtNext(s, run, i, cfg);
    if forall k :: i < k < j ==> !ForgetsAt(s, run, k, mode, cfg) {
      GateHoldsUntilForgotten(s, run, i + 1, j, mode, cfg);
      GateHolds(At(s, run, j, cfg), run[j], mode, cfg);
      assert false;
    }
  }

  // ----- Refused and unsent taps, finished disarms -----

  /** An arm that the panel does not acknowledge changes neither the payload nor what the bridge
      remembers, and puts the topic back to the payload, unless a delay is running or the session
      was lost to unreadable bytes after the arm had already taken effect. */
  lemma RefusedArmBouncesBack(s: State, outcome: Outcome, cfg: Settings)
    requires Enabled(s, ArmReply(outcome)) && !outcome.Acked?
    ensures var t := Next(s, ArmReply(outcome), cfg);
            && t.payload == s.payload && t.gate == s.gate && t.acked == s.acked && t.command.Ready?
            && (t.topic == s.payload ||
                (t.topic == s.topic && outcome.Disconnected? && (s.payload.Transient() || t.collision)))
            && (t.collision && !s.collision <==>
                  !s.collision && outcome == Disconnected(true)
                  && (s.acked == Some(s.command.mode) || s.payload.Transient() || s.payload == Armed(s.command.mode)))
  {
    assert s.command == AwaitArm(s.command.mode);
  }

  /** A tap that is not sent changes nothing but the topic, and that only when the mode is on offer
      but not ready: then it is put back to the payload. */
  lemma UnsentTapBouncesBack(s: State, text: Text, cfg: Settings)
    requires Enabled(s, Receive(text)) && Next(s, Receive(text), cfg).command.Ready?
    ensures var t := Next(s, Receive(text), cfg);
            var blocked := text.ArmText? && cfg.ModeByteForHaMode(text.mode).Some? && text.mode !in s.ready;
            t == if blocked then s.(topic := s.payload) else s
  {
  }

  /** The tap that follows an acknowledged disarm is not sent again: if an AREA push already said
      so, or the refresh can be read and shows no alarm, the payload is disarmed from then on, and
      a second DISARM leaves everything as it is. */
  lemma SecondDisarmIsIgnored(s: State, a: Action, cfg: Settings)
    requires Enabled(s, a) && RefreshIsNeeded(s)
    requires (a == DisarmReply(Acked) && PayloadAfterAck(s, cfg) == Disarmed)
             || (a.FlagsReply? && a.flags.Some? && HouseFlags(a.flags.value, cfg) != Triggered)
    ensures var t := Next(s, a, cfg);
            t.payload == Disarmed && t.command.Ready? && Next(t, Receive(DisarmText), cfg) == t
  {
    if a.FlagsReply? {
      FlagsAreSettled(a.flags.value, 1, 1, cfg);
    }
    hide DecodeAreaHaState, PayloadAfterAck;
  }

  /** The command task's own steps. */
  predicate OfCommandTask(a: Action) {
    a.Receive? || a.SetReady? || a.DisarmReply? || a.ArmReply? || a.FlagsReply? || a.FlagsLost?
  }

  predicate Acknowledges(a: Action) {
    (a.DisarmReply? || a.ArmReply?) && a.outcome.Acked?
  }

  function ListenTaskOnly(run: seq<Action>): seq<Action> {
    if run == [] then []
    else (if OfCommandTask(run[0]) then [] else [run[0]]) + ListenTaskOnly(run[1..])
  }

  /** Everything the bridge knows about the alarm; not the two topics, the switches and what the
      command task waits for. */
  predicate KnowTheSame(s: State, t: State) {
    && s.payload == t.payload && s.queue == t.queue && s.inHand == t.inHand
    && s.gate == t.gate && s.acked == t.acked && s.history == t.history && s.attributes == t.attributes
    && SamePlace(s.listen, t.listen)
  }

  predicate SamePlace(a: Listen, b: Listen) {
    match a
    case Reconnecting(entry, snapshot, _) => b.Reconnecting? && b.entry == entry && b.snapshot == snapshot
    case _ => a == b
  }

  lemma ListenStepsAgree(s: State, t: State, a: Action, cfg: Settings)
    requires KnowTheSame(s, t) && Enabled(s, a) && !OfCommandTask(a)
    ensures Enabled(t, a) && KnowTheSame(Next(s, a, cfg), Next(t, a, cfg))
    ensures Next(s, a, cfg).command == s.command
  {
    hide HouseFlags, AreaPayload, MayReplaceLive, PayloadAfterAck, Remember, CollisionAtEnd;
    hide Publish, HandleReconnected;
    if a.Apply? {
      var frame := s.inHand.value;
      var seen := AreaPayload(frame.body, cfg);
      if seen.Some? {
        PublishAgrees(s.(inHand := None, history := Remember(s.history, frame.body)),
                      t.(inHand := None, history := Remember(t.history, frame.body)), s.payload, seen.value);
      }
    } else if a.PollEnd? && a.flags.Some? {
      PublishAgrees(s.(listen := Listening), t.(listen := Listening), s.listen.previous,
                    HouseFlags(a.flags.value, cfg));
    } else if a.AttemptSucceeds? {
      ReconnectsAgree(s, t, s.listen.entry, s.listen.snapshot.value);
    }
  }

  lemma ReconnectsAgree(s: State, t: State, entry: Payload, result: Payload)
    requires KnowTheSame(s, t)
    ensures KnowTheSame(HandleReconnected(s, entry, result), HandleReconnected(t, entry, result))
    ensures HandleReconnected(s, entry, result).command == s.command
  {
    hide SnapshotOnEdge, Recent, Observed;
  }

  lemma PublishAgrees(s: State, t: State, previous: Payload, payload: Payload)
    requires KnowTheSame(s, t)
    ensures KnowTheSame(Publish(s, previous, payload), Publish(t, previous, payload))
    ensures Publish(s, previous, payload).command == s.command
  {
    hide SnapshotOnEdge, Recent, Observed;
  }

  lemma UnacknowledgedStepTeachesNothing(s: State, a: Action, cfg: Settings)
    requires Enabled(s, a) && OfCommandTask(a) && !Acknowledges(a) && !s.command.AwaitFlags?
    ensures KnowTheSame(s, Next(s, a, cfg)) && !Next(s, a, cfg).command.AwaitFlags?
  {
    if a.ArmReply? {
      RefusedArmBouncesBack(s, a.outcome, cfg);
    } else if a.Receive? && Next(s, a, cfg).command.Ready? {
      UnsentTapBouncesBack(s, a.text, cfg);
    }
  }

  /** Taps that are ignored, blocked, refused, unanswered or lost teach the bridge nothing: delete
      every step of the command task from a run in which the panel acknowledges none, and what is
      left is a run that arrives at the same payload, queue, memories and snapshots. */
  lemma {:induction false} UnacknowledgedTapsAreErasable(s: State, t: State, run: seq<Action>, cfg: Settings)
    requires Possible(s, run, cfg) && KnowTheSame(s, t) && !s.command.AwaitFlags?
    requires forall i :: 0 <= i < |run| ==> !Acknowledges(run[i])
    ensures Possible(t, ListenTaskOnly(run), cfg)
    ensures KnowTheSame(At(s, run, |run|, cfg), At(t, ListenTaskOnly(run), |ListenTaskOnly(run)|, cfg))
    decreases |run|
  {
    hide Next, Enabled, KnowTheSame, OfCommandTask, Acknowledges;
    if run != [] {
      var next := Next(s, run[0], cfg);
      if OfCommandTask(run[0]) {
        UnacknowledgedStepTeachesNothing(s, run[0], cfg);
        KnowTheSameTrans(next, s, t);
        UnacknowledgedTapsAreErasable(next, t, run[1..], cfg);
        assert ListenTaskOnly(run) == ListenTaskOnly(run[1..]);
      } else {
        ListenStepsAgree(s, t, run[0], cfg);
        UnacknowledgedTapsAreErasable(next, Next(t, run[0], cfg), run[1..], cfg);
        assert ListenTaskOnly(run)[1..] == ListenTaskOnly(run[1..]);
      }
    }
  }

  lemma KnowTheSameTrans(a: State, s: State, b: State)
    requires KnowTheSame(s, a) && KnowTheSame(s, b)
    ensures KnowTheSame(a, b)
  {
  }
}
