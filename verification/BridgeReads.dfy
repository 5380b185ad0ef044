/** A poll or a reconnect compares what it reads with a payload it remembered before it asked the
    panel. What that does, over whole runs, to a state that a command has settled meanwhile. */
module BridgeReads {
  import opened Bytes
  import opened Frames
  import opened Settings
  import opened AreaState
  import opened FlagsGuard
  import opened Bridge
  import opened BridgeRuns

  // ----- What the listen task remembers -----

  /** The step at which it last remembered the payload: the latest poll begun or session ended
      before step `i`. */
  function Began(run: seq<Action>, i: nat): (b: nat)
    requires i <= |run|
    ensures b <= i
  {
    if i == 0 then 0
    else if run[i - 1].PollBegin? || run[i - 1].SessionEnds? then i - 1
    else Began(run, i - 1)
  }

  /** The latest reconnect snapshot before step `i`. */
  function LatestSnapshot(run: seq<Action>, i: nat): (k: Option<nat>)
    requires i <= |run|
    ensures k.Some? ==> k.value < i && run[k.value].Snapshot?
    ensures forall m :: (if k.Some? then k.value + 1 else 0) <= m < i ==> !run[m].Snapshot?
  {
    if i == 0 then None
    else if run[i - 1].Snapshot? then Some(i - 1)
    else LatestSnapshot(run, i - 1)
  }

  /** The payload at that moment. */
  ghost function Remembered(s: State, run: seq<Action>, i: nat, cfg: Settings): Payload
    requires Possible(s, run, cfg) && i <= |run|
  {
    At(s, run, Began(run, i), cfg).payload
  }

  /** The steps by which the listen task writes the shared payload. */
  predicate ListenSide(a: Action) { a.Apply? || a.PollEnd? || a.AttemptSucceeds? }

  lemma ListenMoves(s: State, a: Action, cfg: Settings)
    requires Enabled(s, a)
    ensures var next := Next(s, a, cfg).listen;
            match a
            case PollBegin => next == Polling(s.payload)
            case SessionEnds(unreadable) => next == Reconnecting(s.payload, None, CollisionAtEnd(s, unreadable))
            case Snapshot(block) =>
              && s.listen.Reconnecting?
              && next == Reconnecting(s.listen.entry, Some(SnapshotResult(s.listen.entry, block, cfg)), s.listen.quiet)
            case AttemptFails => s.listen.Reconnecting? && next == Reconnecting(s.listen.entry, None, false)
            case _ => if ListenSide(a) then next.Listening? else next == s.listen
  {
    hide HouseFlags, SnapshotResult, AreaPayload, MayReplaceLive, Edge, PayloadAfterAck, Remember, Observed;
    hide CollisionAtEnd;
  }

  /** What a suspended poll or reconnect holds, read off the run: the payload when it began, and of
      the flag blocks the latest, through the guard. It has written nothing since. */
  lemma {:induction false} RemembersWhenItBegan(s: State, run: seq<Action>, i: nat, cfg: Settings)
    requires Possible(s, run, cfg) && s.listen.Listening? && i <= |run|
    ensures var b, before := Began(run, i), Remembered(s, run, i, cfg);
            match At(s, run, i, cfg).listen
            case Listening => true
            case Polling(previous) =>
              previous == before && b < i && run[b].PollBegin? && forall k :: b <= k < i ==> !ListenSide(run[k])
            case Reconnecting(entry, snapshot, _) =>
              && entry == before && b < i && run[b].SessionEnds? && (forall k :: b <= k < i ==> !ListenSide(run[k]))
              && (snapshot.Some? ==>
                    && LatestSnapshot(run, i).Some? && b < LatestSnapshot(run, i).value
                    && snapshot.value == SnapshotResult(before, run[LatestSnapshot(run, i).value].block, cfg))
    decreases i
  {
    hide Next, Enabled, SnapshotResult, CollisionAtEnd;
    if i > 0 {
      RemembersWhenItBegan(s, run, i - 1, cfg);
      AtNext(s, run, i - 1, cfg);
      ListenMoves(At(s, run, i - 1, cfg), run[i - 1], cfg);
    }
  }

  lemma {:induction false} BeganStays(run: seq<Action>, k: nat, i: nat)
    requires k <= i <= |run| && Began(run, i) < k
    ensures Began(run, k) == Began(run, i)
    decreases i - k
  {
    if k < i {
      BeganStays(run, k, i - 1);
    }
  }

  // ----- What commands write meanwhile -----

  /** What a step of the command task writes to the shared payload, if anything. */
  function CommandSets(s: State, a: Action, cfg: Settings): Option<Payload>
    requires Enabled(s, a)
  {
    match a
    case DisarmReply(outcome) =>
      if outcome.Acked? && PayloadAfterAck(s, cfg) == Disarmed then Some(Disarmed) else None
    case FlagsReply(flags) =>
      if flags.Some? && CoerceAfterDisarm(HouseFlags(flags.value, cfg)) != s.command.current
      then Some(CoerceAfterDisarm(HouseFlags(flags.value, cfg))) else None
    case _ => None
  }

  lemma OnlyCommandsSet(s: State, a: Action, cfg: Settings)
    requires Enabled(s, a) && !ListenSide(a)
    ensures Next(s, a, cfg).payload == match CommandSets(s, a, cfg) case None => s.payload case Some(p) => p
  {
    if a.FlagsReply? && a.flags.Some? {
      FlagsAreSettled(a.flags.value, 1, 1, cfg);
      SettledGuard(s.command.current, HouseFlags(a.flags.value, cfg));
    }
    hide DecodeAreaHaState, AreaPayload, MayReplaceLive, PayloadAfterAck, Edge, Remember, Observed, CollisionAtEnd;
  }

  /** The latest such write in steps `i..j`. */
  ghost function LastSet(s: State, run: seq<Action>, i: nat, j: nat, cfg: Settings): Option<Payload>
    requires Possible(s, run, cfg) && i <= j <= |run|
    decreases j - i
  {
    if i == j then None
    else
      AtNext(s, run, j - 1, cfg);
      var wrote := CommandSets(At(s, run, j - 1, cfg), run[j - 1], cfg);
      if wrote.Some? then wrote else LastSet(s, run, i, j - 1, cfg)
  }

  lemma {:induction false} PayloadBetween(s: State, run: seq<Action>, i: nat, j: nat, cfg: Settings)
    requires Possible(s, run, cfg) && i <= j <= |run|
    requires forall k :: i <= k < j ==> !ListenSide(run[k])
    ensures At(s, run, j, cfg).payload ==
            match LastSet(s, run, i, j, cfg) case None => At(s, run, i, cfg).payload case Some(p) => p
    decreases j - i
  {
    hide Next, Enabled, CommandSets;
    if i < j {
      PayloadBetween(s, run, i, j - 1, cfg);
      AtNext(s, run, j - 1, cfg);
      OnlyCommandsSet(At(s, run, j - 1, cfg), run[j - 1], cfg);
    }
  }

  /** What a poll or reconnect remembers is out of date exactly when a command wrote the payload
      since it began and the latest such write was something else. */
  lemma StaleIffCommandWrote(s: State, run: seq<Action>, i: nat, cfg: Settings)
    requires Possible(s, run, cfg) && s.listen.Listening? && i <= |run|
    requires !At(s, run, i, cfg).listen.Listening?
    ensures At(s, run, i, cfg).payload != Remembered(s, run, i, cfg) <==>
            var wrote := LastSet(s, run, Began(run, i), i, cfg);
            wrote.Some? && wrote.value != Remembered(s, run, i, cfg)
  {
    hide Next, Enabled, LastSet;
    RemembersWhenItBegan(s, run, i, cfg);
    PayloadBetween(s, run, Began(run, i), i, cfg);
  }

  // ----- When a settled state falls -----

  /** The flag block that an accepted reconnect returns with. */
  function WorkingBlock(run: seq<Action>, i: nat): seq<byte>
    requires i <= |run| && LatestSnapshot(run, i).Some?
  {
    run[LatestSnapshot(run, i).value].block
  }

  /** The payload after a listen-side step, from what was read and what was remembered. */
  lemma ReadOutcome(s: State, run: seq<Action>, i: nat, cfg: Settings)
    requires Possible(s, run, cfg) && s.listen.Listening? && i < |run| && ListenSide(run[i])
    ensures Enabled(At(s, run, i, cfg), run[i])
    ensures run[i].AttemptSucceeds? ==> LatestSnapshot(run, i).Some?
    ensures var here, after := At(s, run, i, cfg), At(s, run, i + 1, cfg).payload;
            var before := Remembered(s, run, i, cfg);
            match run[i]
            case Apply => after == Interim(here, cfg)
            case PollEnd(flags) =>
              after == if flags.Some? && Replaces(before, flags.value, cfg)
                       then HouseFlags(flags.value, cfg) else here.payload
            case AttemptSucceeds => after == SnapshotResult(before, WorkingBlock(run, i), cfg)
            case _ => true
  {
    AtNext(s, run, i, cfg);
    RemembersWhenItBegan(s, run, i, cfg);
    ListenSideWrites(At(s, run, i, cfg), run[i], cfg);
    hide Next, SnapshotResult, Replaces, HouseFlags;
  }

  lemma ListenSideWrites(s: State, a: Action, cfg: Settings)
    requires Enabled(s, a) && ListenSide(a)
    ensures var after := Next(s, a, cfg).payload;
            match a
            case Apply => after == Interim(s, cfg)
            case PollEnd(flags) =>
              after == if flags.Some? && Replaces(s.listen.previous, flags.value, cfg)
                       then HouseFlags(flags.value, cfg) else s.payload
            case AttemptSucceeds => after == s.listen.snapshot.value
            case _ => true
  {
    hide HouseFlags, AreaPayload, Replaces, Edge, Remember, Observed;
  }

  /** A read taken in passing replaces what is settled: `decoded` is news to its reader, who saw no
      delay running (else only an alarm counts) and no alarm standing (else only disarmed does). */
  predicate NewsTo(before: Payload, decoded: Payload) {
    && decoded != before
    && (before.Transient() ==> decoded == Triggered)
    && (before == Triggered ==> decoded == Disarmed)
  }

  lemma ReplacesIffNews(before: Payload, flags: seq<byte>, cfg: Settings)
    ensures Replaces(before, flags, cfg) <==> NewsTo(before, HouseFlags(flags, cfg))
    ensures !HouseFlags(flags, cfg).Transient()
  {
    FlagsAreSettled(flags, 1, 1, cfg);
    SettledGuard(before, HouseFlags(flags, cfg));
    hide DecodeAreaHaState, MayReplaceLive;
  }

  /** What takes the shared payload away from `payload`: a push of something else; an acknowledged
      disarm with an unset push already queued; a refresh that, an armed state read as disarmed, says
      something else and not what was current when the disarm was acknowledged; a poll whose block
      says something else and is news to it; a reconnect that remembers, or is told of, something
      else. */
  ghost predicate Displaces(s: State, run: seq<Action>, i: nat, payload: Payload, cfg: Settings)
    requires Possible(s, run, cfg) && i < |run|
  {
    AtNext(s, run, i, cfg);
    var here, before := At(s, run, i, cfg), Remembered(s, run, i, cfg);
    match run[i]
    case Apply => AreaPayload(here.inHand.value.body, cfg) !in {None, Some(payload)}
    case DisarmReply(outcome) =>
      outcome.Acked? && payload != Disarmed && LatestArea(here.queue, cfg) == Some(Disarmed)
    case FlagsReply(flags) =>
      flags.Some? && CoerceAfterDisarm(HouseFlags(flags.value, cfg)) !in {payload, here.command.current}
    case PollEnd(flags) =>
      flags.Some? && HouseFlags(flags.value, cfg) != payload && NewsTo(before, HouseFlags(flags.value, cfg))
    case AttemptSucceeds =>
      LatestSnapshot(run, i).Some?
      && (if NewsTo(before, HouseFlags(WorkingBlock(run, i), cfg))
          then HouseFlags(WorkingBlock(run, i), cfg) != payload else before != payload)
    case _ => false
  }

  lemma DisplacedIff(s: State, run: seq<Action>, i: nat, cfg: Settings)
    requires Possible(s, run, cfg) && s.listen.Listening? && i < |run|
    ensures At(s, run, i + 1, cfg).payload != At(s, run, i, cfg).payload <==>
            Displaces(s, run, i, At(s, run, i, cfg).payload, cfg)
  {
    AtNext(s, run, i, cfg);
    var here, before := At(s, run, i, cfg), Remembered(s, run, i, cfg);
    hide Next, Enabled, HouseFlags, Replaces, AreaPayload, LatestArea;
    if ListenSide(run[i]) {
      ReadOutcome(s, run, i, cfg);
      if run[i].PollEnd? && run[i].flags.Some? {
        ReplacesIffNews(before, run[i].flags.value, cfg);
      } else if run[i].AttemptSucceeds? {
        ReplacesIffNews(before, WorkingBlock(run, i), cfg);
      }
    } else {
      OnlyCommandsSet(here, run[i], cfg);
    }
  }

  /** Exactly when a payload lasts, whatever it is and whoever set it: from any point of any run the
      shared payload stays what it is if and only if no step displaces it. */
  lemma {:induction false} PayloadLastsIff(s: State, run: seq<Action>, i: nat, j: nat, cfg: Settings)
    requires Possible(s, run, cfg) && s.listen.Listening? && i <= j <= |run|
    ensures var payload := At(s, run, i, cfg).payload;
            (forall k :: i <= k <= j ==> At(s, run, k, cfg).payload == payload) <==>
            (forall k :: i <= k < j ==> !Displaces(s, run, k, payload, cfg))
    decreases j - i
  {
    hide Next, Enabled, Displaces;
    if i < j {
      DisplacedIff(s, run, i, cfg);
      if At(s, run, i + 1, cfg).payload == At(s, run, i, cfg).payload {
        PayloadLastsIff(s, run, i + 1, j, cfg);
      }
    }
  }

  /** In particular a payload pushed by the panel, settled or not, from the step that applied it. */
  lemma PushLastsIff(s: State, run: seq<Action>, i: nat, j: nat, cfg: Settings)
    requires Possible(s, run, cfg) && s.listen.Listening? && i < j <= |run| && run[i].Apply?
    ensures At(s, run, i, cfg).inHand.Some?
    ensures var pushed := AreaPayload(At(s, run, i, cfg).inHand.value.body, cfg);
            pushed.Some? ==>
              ((forall k :: i < k <= j ==> At(s, run, k, cfg).payload == pushed.value) <==>
               (forall k :: i < k < j ==> !Displaces(s, run, k, pushed.value, cfg)))
  {
    hide Next, Displaces, AreaPayload;
    ReadOutcome(s, run, i, cfg);
    PayloadLastsIff(s, run, i + 1, j, cfg);
  }

  // ----- What a refresh remembers -----

  /** The latest acknowledged disarm before step `i`. */
  function LatestAck(run: seq<Action>, i: nat): (d: Option<nat>)
    requires i <= |run|
    ensures d.Some? ==> d.value < i && run[d.value] == DisarmReply(Acked)
  {
    if i == 0 then None
    else if run[i - 1] == DisarmReply(Acked) then Some(i - 1)
    else LatestAck(run, i - 1)
  }

  /** What the peek said at that moment. */
  ghost function PeekedAtAck(s: State, run: seq<Action>, i: nat, cfg: Settings): Payload
    requires Possible(s, run, cfg) && i <= |run| && LatestAck(run, i).Some?
  {
    PayloadAfterAck(At(s, run, LatestAck(run, i).value, cfg), cfg)
  }

  lemma CommandMoves(s: State, a: Action, cfg: Settings)
    requires Enabled(s, a) && Next(s, a, cfg).command.AwaitFlags?
    ensures if a == DisarmReply(Acked)
            then Next(s, a, cfg).command.current == PayloadAfterAck(s, cfg) && Next(s, a, cfg).gate.None?
            else s.command == Next(s, a, cfg).command && (s.gate.None? ==> Next(s, a, cfg).gate.None?)
  {
    hide HouseFlags, AreaPayload, Replaces, MayReplaceLive, PayloadAfterAck, Edge, Remember, CollisionAtEnd;
  }

  /** A refresh under way compares with what the peek said when its disarm was acknowledged, however
      long ago; until it is done the gate remembers nothing. */
  lemma {:induction false} RefreshRemembersAck(s: State, run: seq<Action>, i: nat, cfg: Settings)
    requires Possible(s, run, cfg) && !s.command.AwaitFlags? && i <= |run|
    requires At(s, run, i, cfg).command.AwaitFlags?
    ensures LatestAck(run, i).Some? && At(s, run, i, cfg).command.current == PeekedAtAck(s, run, i, cfg)
    ensures At(s, run, i, cfg).gate.None?
    decreases i
  {
    hide Next, Enabled, PayloadAfterAck;
    if i > 0 {
      AtNext(s, run, i - 1, cfg);
      CommandMoves(At(s, run, i - 1, cfg), run[i - 1], cfg);
      if run[i - 1] != DisarmReply(Acked) {
        RefreshRemembersAck(s, run, i - 1, cfg);
      }
    }
  }

  /** Exactly when a refresh overwrites what the house was known to be: it is told, an alarm by the alarm
      bit and unset otherwise, something other than that and other than what the peek said at the ACK.
      What was pushed in between, a delay or an alarm included, does not count. */
  lemma RefreshOverwritesIff(s: State, run: seq<Action>, i: nat, cfg: Settings)
    requires Possible(s, run, cfg) && s.listen.Listening? && !s.command.AwaitFlags?
    requires i < |run| && run[i].FlagsReply? && run[i].flags.Some?
    ensures LatestAck(run, i).Some?
    ensures var told := Told(run[i].flags.value);
            var here, after := At(s, run, i, cfg), At(s, run, i + 1, cfg);
            if told !in {here.payload, PeekedAtAck(s, run, i, cfg)} then after.payload == after.topic == told
            else after.payload == here.payload
  {
    AtNext(s, run, i, cfg);
    RefreshRemembersAck(s, run, i, cfg);
    OnlyCommandsSet(At(s, run, i, cfg), run[i], cfg);
    TopicIsPublished(At(s, run, i, cfg), run[i], cfg);
    RefreshIsTold(run[i].flags.value, cfg);
    hide Next, DecodeAreaHaState, Told, PeekedAtAck;
  }

  /** It happens. The house is armed Away and the disarm is acknowledged with nothing queued; the listen
      task, first in line for the I/O lock, takes and applies a push of any kind; then the refresh
      reads unset, or still armed. Topic and payload go to disarmed: an exit delay just begun is
      ended, an alarm just raised is hidden. */
  lemma RefreshCanOverwritePush(state: byte, lagging: bool, cfg: Settings)
    requires PayloadForAreaState(state, cfg).Some?
    ensures var push := Frame(TYPE_MESSAGE, 0, [MSG_AREA, HOUSE_AREA_NUMBER, state]);
            var block := if lagging then HouseBlock({FLAG_FULL_ARMED}) else HouseBlock({});
            var run := [Receive(DisarmText), DisarmReply(Acked), TakeFromWire(push), Apply, FlagsReply(Some(block))];
            && Possible(Initial(Armed(Away)), run, cfg)
            && var (pushed, refreshed) :=
              (At(Initial(Armed(Away)), run, 4, cfg), At(Initial(Armed(Away)), run, 5, cfg));
            && Some(pushed.payload) == Some(pushed.topic) == PayloadForAreaState(state, cfg)
            && refreshed.payload == refreshed.topic == Disarmed
  {
    var push := Frame(TYPE_MESSAGE, 0, [MSG_AREA, HOUSE_AREA_NUMBER, state]);
    assert AreaPayload(push.body, cfg) == PayloadForAreaState(state, cfg);
    HouseBlocksDecode(cfg);
    hide HouseBlock, DecodeAreaHaState, Possible, At, Initial, PayloadForAreaState, AreaPayload;
    OverwriteRun(push, if lagging then HouseBlock({FLAG_FULL_ARMED}) else HouseBlock({}), cfg);
  }

  lemma OverwriteRun(push: Frame, block: seq<byte>, cfg: Settings)
    requires AreaPayload(push.body, cfg).Some? && HouseFlags(block, cfg) in {Disarmed, Armed(Away)}
    ensures var run := [Receive(DisarmText), DisarmReply(Acked), TakeFromWire(push), Apply, FlagsReply(Some(block))];
            && Possible(Initial(Armed(Away)), run, cfg)
            && var (pushed, refreshed) :=
              (At(Initial(Armed(Away)), run, 4, cfg), At(Initial(Armed(Away)), run, 5, cfg));
            && Some(pushed.payload) == Some(pushed.topic) == AreaPayload(push.body, cfg)
            && refreshed.payload == refreshed.topic == Disarmed
  {
    hide Next, Enabled, Initial, Possible, At, AreaPayload, HouseFlags, RefreshUnderWay;
    RefreshAsks(cfg);
    OverwriteSteps(push, AreaPayload(push.body, cfg).value, block, cfg);
    var start := Initial(Armed(Away));
    var s1 := Next(start, Receive(DisarmText), cfg);
    var s2 := Next(s1, DisarmReply(Acked), cfg);
    var s3 := Next(s2, TakeFromWire(push), cfg);
    var s4 := Next(s3, Apply, cfg);
    var s5 := Next(s4, FlagsReply(Some(block)), cfg);
    TraceIsRun([start, s1, s2, s3, s4, s5],
               [Receive(DisarmText), DisarmReply(Acked), TakeFromWire(push), Apply, FlagsReply(Some(block))], cfg);
  }

  /** The house armed Away, a disarm acknowledged and its refresh under way. */
  function RefreshUnderWay(): State {
    Initial(Armed(Away)).(command := AwaitFlags(Armed(Away)))
  }

  lemma RefreshAsks(cfg: Settings)
    ensures var start := Initial(Armed(Away));
            && Enabled(start, Receive(DisarmText))
            && var s1 := Next(start, Receive(DisarmText), cfg);
            && Enabled(s1, DisarmReply(Acked))
            && Next(s1, DisarmReply(Acked), cfg) == RefreshUnderWay()
  {
  }

  lemma OverwriteSteps(push: Frame, pushed: Payload, block: seq<byte>, cfg: Settings)
    requires AreaPayload(push.body, cfg) == Some(pushed) && HouseFlags(block, cfg) in {Disarmed, Armed(Away)}
    ensures var s2 := RefreshUnderWay();
            && Enabled(s2, TakeFromWire(push))
            && var s3 := Next(s2, TakeFromWire(push), cfg);
            && Enabled(s3, Apply)
            && var s4 := Next(s3, Apply, cfg);
            && s4.payload == s4.topic == pushed && Enabled(s4, FlagsReply(Some(block)))
            && var s5 := Next(s4, FlagsReply(Some(block)), cfg);
            && s5.payload == s5.topic == Disarmed
  {
    hide AreaPayload, HouseFlags, Edge, Observed, Remember;
  }

  // ----- Three readings of it -----

  /** What takes an unset house out of disarmed: a push; a poll whose block says otherwise and was
      news to it; a reconnect that saw a delay on entry or whose block says otherwise; a refresh
      that reads an alarm it did not know of. */
  ghost predicate Overturns(s: State, run: seq<Action>, i: nat, cfg: Settings)
    requires Possible(s, run, cfg) && i < |run|
  {
    AtNext(s, run, i, cfg);
    var here, before := At(s, run, i, cfg), Remembered(s, run, i, cfg);
    match run[i]
    case Apply => AreaPayload(here.inHand.value.body, cfg) !in {None, Some(Disarmed)}
    case PollEnd(flags) =>
      flags.Some? && HouseFlags(flags.value, cfg) != Disarmed && NewsTo(before, HouseFlags(flags.value, cfg))
    case AttemptSucceeds =>
      LatestSnapshot(run, i).Some? && (before.Transient() || HouseFlags(WorkingBlock(run, i), cfg) != Disarmed)
    case FlagsReply(flags) =>
      flags.Some? && HouseFlags(flags.value, cfg) == Triggered && here.command.current != Triggered
    case _ => false
  }

  lemma OverturnedIff(s: State, run: seq<Action>, i: nat, cfg: Settings)
    requires Possible(s, run, cfg) && s.listen.Listening? && i < |run|
    requires At(s, run, i, cfg).payload == Disarmed
    ensures At(s, run, i + 1, cfg).payload != Disarmed <==> Overturns(s, run, i, cfg)
  {
    DisplacedIff(s, run, i, cfg);
    AtNext(s, run, i, cfg);
    if LatestSnapshot(run, i).Some? {
      ReplacesIffNews(Remembered(s, run, i, cfg), WorkingBlock(run, i), cfg);
    }
    hide Next, HouseFlags, AreaPayload, LatestArea;
  }

  /** Exactly when an acknowledged disarm lasts. From any point of any run at which the payload is
      disarmed, it is disarmed at every later point if and only if none of those steps comes by. */
  lemma {:induction false} DisarmLastsIff(s: State, run: seq<Action>, i: nat, j: nat, cfg: Settings)
    requires Possible(s, run, cfg) && s.listen.Listening? && i <= j <= |run|
    requires At(s, run, i, cfg).payload == Disarmed
    ensures (forall k :: i <= k <= j ==> At(s, run, k, cfg).payload == Disarmed) <==>
            (forall k :: i <= k < j ==> !Overturns(s, run, k, cfg))
    decreases j - i
  {
    hide Next, Enabled, Overturns;
    if i < j {
      OverturnedIff(s, run, i, cfg);
      if At(s, run, i + 1, cfg).payload == Disarmed {
        DisarmLastsIff(s, run, i + 1, j, cfg);
      }
    }
  }

  /** What takes the house out of an alarm: a push that says so; an acknowledged disarm with an unset
      push already queued, or whose refresh reads no alarm; a poll whose block reads no alarm and was
      news to it; a reconnect whose block reads disarmed, or, if it did not know of the alarm, reads
      no alarm. */
  ghost predicate EndsAlarm(s: State, run: seq<Action>, i: nat, cfg: Settings)
    requires Possible(s, run, cfg) && i < |run|
  {
    AtNext(s, run, i, cfg);
    var here, before := At(s, run, i, cfg), Remembered(s, run, i, cfg);
    match run[i]
    case Apply => AreaPayload(here.inHand.value.body, cfg) !in {None, Some(Triggered)}
    case DisarmReply(outcome) => outcome.Acked? && LatestArea(here.queue, cfg) == Some(Disarmed)
    case FlagsReply(flags) => flags.Some? && HouseFlags(flags.value, cfg) != Triggered
    case PollEnd(flags) =>
      flags.Some? && HouseFlags(flags.value, cfg) != Triggered && NewsTo(before, HouseFlags(flags.value, cfg))
    case AttemptSucceeds =>
      LatestSnapshot(run, i).Some? && HouseFlags(WorkingBlock(run, i), cfg) != Triggered
      && (before == Triggered ==> HouseFlags(WorkingBlock(run, i), cfg) == Disarmed)
    case _ => false
  }

  lemma AlarmEndsIff(s: State, run: seq<Action>, i: nat, cfg: Settings)
    requires Possible(s, run, cfg) && s.listen.Listening? && Sound(s) && i < |run|
    requires At(s, run, i, cfg).payload == Triggered
    ensures At(s, run, i + 1, cfg).payload != Triggered <==> EndsAlarm(s, run, i, cfg)
  {
    DisplacedIff(s, run, i, cfg);
    EverSound(s, run, i, cfg);
    SoundKnowsDelay(At(s, run, i, cfg));
    AtNext(s, run, i, cfg);
    if run[i].FlagsReply? && run[i].flags.Some? {
      ReplacesIffNews(Disarmed, run[i].flags.value, cfg);
    }
    hide Next, HouseFlags, AreaPayload, LatestArea, Sound, DelayKnown;
  }

  /** Exactly when an alarm stands. */
  lemma {:induction false} AlarmStandsIff(s: State, run: seq<Action>, i: nat, j: nat, cfg: Settings)
    requires Possible(s, run, cfg) && s.listen.Listening? && Sound(s) && i <= j <= |run|
    requires At(s, run, i, cfg).payload == Triggered
    ensures (forall k :: i <= k <= j ==> At(s, run, k, cfg).payload == Triggered) <==>
            (forall k :: i <= k < j ==> !EndsAlarm(s, run, k, cfg))
    decreases j - i
  {
    hide Next, Enabled, EndsAlarm, Sound;
    if i < j {
      AlarmEndsIff(s, run, i, cfg);
      if At(s, run, i + 1, cfg).payload == Triggered {
        AlarmStandsIff(s, run, i + 1, j, cfg);
      }
    }
  }

  /** What ends an exit or entry delay: a push of anything else; a poll or a reconnect snapshot that
      reads an alarm; an acknowledged disarm with an unset push already queued; and any refresh after
      a disarm that can be read, whatever it reads, unless it reads an alarm already known when the
      disarm was acknowledged. */
  predicate EndsDelay(s: State, a: Action, cfg: Settings)
    requires Enabled(s, a)
  {
    match a
    case Apply => AreaPayload(s.inHand.value.body, cfg) !in {None, Some(s.payload)}
    case PollEnd(flags) => flags.Some? && HouseFlags(flags.value, cfg) == Triggered
    case AttemptSucceeds => s.listen.snapshot == Some(Triggered)
    case DisarmReply(outcome) => outcome.Acked? && LatestArea(s.queue, cfg) == Some(Disarmed)
    case FlagsReply(flags) =>
      flags.Some? && !(HouseFlags(flags.value, cfg) == Triggered && s.command.current == Triggered)
    case _ => false
  }

  lemma DelayEndsIff(s: State, a: Action, cfg: Settings)
    requires Enabled(s, a) && DelayKnown(s) && RefreshIsNeeded(s) && s.payload.Transient()
    ensures Next(s, a, cfg).payload != s.payload <==> EndsDelay(s, a, cfg)
  {
    if ListenSide(a) {
      ListenSideWrites(s, a, cfg);
      if a.PollEnd? && a.flags.Some? {
        ReplacesIffNews(s.listen.previous, a.flags.value, cfg);
      }
    } else {
      OnlyCommandsSet(s, a, cfg);
      if a.FlagsReply? && a.flags.Some? {
        ReplacesIffNews(s.payload, a.flags.value, cfg);
      }
    }
    hide Next, HouseFlags, AreaPayload, LatestArea, Replaces;
  }

  /** Exactly when a delay runs on: in every run, over any number of sessions and with the two tasks
      interleaved anywhere, the payload stays what it is during an exit or entry delay if and only if
      no such step comes by. */
  lemma {:induction false} DelayLastsIff(s: State, run: seq<Action>, i: nat, j: nat, cfg: Settings)
    requires Possible(s, run, cfg) && Sound(s) && i <= j <= |run|
    requires At(s, run, i, cfg).payload.Transient()
    ensures (forall k :: i <= k <= j ==> At(s, run, k, cfg).payload == At(s, run, i, cfg).payload) <==>
            (forall k :: i <= k < j ==> !EndsDelayAt(s, run, k, cfg))
    decreases j - i
  {
    hide Next, Enabled, EndsDelay, Sound;
    if i < j {
      EverSound(s, run, i, cfg);
      SoundKnowsDelay(At(s, run, i, cfg));
      AtNext(s, run, i, cfg);
      DelayEndsIff(At(s, run, i, cfg), run[i], cfg);
      if At(s, run, i + 1, cfg).payload == At(s, run, i, cfg).payload {
        DelayLastsIff(s, run, i + 1, j, cfg);
      } else {
        assert EndsDelayAt(s, run, i, cfg);
      }
    }
  }

  ghost predicate EndsDelayAt(s: State, run: seq<Action>, k: nat, cfg: Settings)
    requires Possible(s, run, cfg) && k < |run|
  {
    AtNext(s, run, k, cfg);
    EndsDelay(At(s, run, k, cfg), run[k], cfg)
  }

  /** The flag block a poll or a reconnect brought back. */
  function BlockRead(run: seq<Action>, i: nat): Option<seq<byte>>
    requires i < |run|
  {
    match run[i]
    case PollEnd(flags) => flags
    case AttemptSucceeds => if LatestSnapshot(run, i).Some? then Some(WorkingBlock(run, i)) else None
    case _ => None
  }

  /** An armed state is put over an alarm by a poll or a reconnect if and only if its block says so
      and what it remembered was neither the alarm nor a delay (nor, for a poll, that armed state
      already); and then a command has raised the alarm since it began. */
  lemma ArmedOverAlarmIff(s: State, run: seq<Action>, i: nat, cfg: Settings)
    requires Possible(s, run, cfg) && s.listen.Listening? && i < |run|
    requires At(s, run, i, cfg).payload == Triggered && (run[i].PollEnd? || run[i].AttemptSucceeds?)
    ensures var before, read := Remembered(s, run, i, cfg), BlockRead(run, i);
            && (At(s, run, i + 1, cfg).payload.Armed? <==>
                  && read.Some? && HouseFlags(read.value, cfg).Armed?
                  && before != Triggered && !before.Transient()
                  && (run[i].PollEnd? ==> before != HouseFlags(read.value, cfg)))
            && (At(s, run, i + 1, cfg).payload.Armed? ==>
                  LastSet(s, run, Began(run, i), i, cfg) == Some(Triggered))
  {
    hide Next, Enabled, HouseFlags, Replaces, LastSet;
    ReadOutcome(s, run, i, cfg);
    if BlockRead(run, i).Some? {
      ReplacesIffNews(Remembered(s, run, i, cfg), BlockRead(run, i).value, cfg);
    }
    ReaderIsSuspended(s, run, i, cfg);
    RemembersWhenItBegan(s, run, i, cfg);
    PayloadBetween(s, run, Began(run, i), i, cfg);
  }

  lemma ReaderIsSuspended(s: State, run: seq<Action>, i: nat, cfg: Settings)
    requires Possible(s, run, cfg) && i < |run| && (run[i].PollEnd? || run[i].AttemptSucceeds?)
    ensures !At(s, run, i, cfg).listen.Listening?
  {
    hide Next;
    AtNext(s, run, i, cfg);
  }

  /** It happens. The house was armed Home; the disarm is acknowledged, and a poll queues up behind
      its refresh; the refresh reads an alarm, then the poll reads full armed. */
  lemma PollCanHideAlarm(cfg: Settings)
    ensures var run := [Receive(DisarmText), DisarmReply(Acked), PollBegin, FlagsReply(Some(HouseBlock({FLAG_ALARM}))),
                        PollEnd(Some(HouseBlock({FLAG_FULL_ARMED})))];
            && Possible(Initial(Armed(Home)), run, cfg)
            && At(Initial(Armed(Home)), run, 4, cfg).payload == Triggered
            && At(Initial(Armed(Home)), run, 5, cfg).payload == Armed(Away)
  {
    hide Next, Enabled, HouseBlock, Initial, Possible, At, PollBehindRefresh;
    var alarm, armed := HouseBlock({FLAG_ALARM}), HouseBlock({FLAG_FULL_ARMED});
    HouseBlocksDecode(cfg);
    var start := Initial(Armed(Home));
    PollQueues(cfg);
    HiddenAlarmSteps(alarm, armed, cfg);
    var s1 := Next(start, Receive(DisarmText), cfg);
    var s2 := Next(s1, DisarmReply(Acked), cfg);
    var s3 := Next(s2, PollBegin, cfg);
    var s4 := Next(s3, FlagsReply(Some(alarm)), cfg);
    var s5 := Next(s4, PollEnd(Some(armed)), cfg);
    TraceIsRun([start, s1, s2, s3, s4, s5],
               [Receive(DisarmText), DisarmReply(Acked), PollBegin, FlagsReply(Some(alarm)), PollEnd(Some(armed))],
               cfg);
  }

  /** A poll queued behind the refresh of an acknowledged disarm. */
  function PollBehindRefresh(): State {
    Initial(Armed(Home)).(listen := Polling(Armed(Home)), command := AwaitFlags(Armed(Home)))
  }

  lemma PollQueues(cfg: Settings)
    ensures var start := Initial(Armed(Home));
            && Enabled(start, Receive(DisarmText))
            && var s1 := Next(start, Receive(DisarmText), cfg);
            && Enabled(s1, DisarmReply(Acked))
            && var s2 := Next(s1, DisarmReply(Acked), cfg);
            && Enabled(s2, PollBegin)
            && Next(s2, PollBegin, cfg) == PollBehindRefresh()
  {
  }

  lemma HiddenAlarmSteps(alarm: seq<byte>, armed: seq<byte>, cfg: Settings)
    requires HouseFlags(alarm, cfg) == Triggered && HouseFlags(armed, cfg) == Armed(Away)
    ensures var s3 := PollBehindRefresh();
            && Enabled(s3, FlagsReply(Some(alarm)))
            && var s4 := Next(s3, FlagsReply(Some(alarm)), cfg);
            && s4.payload == Triggered && Enabled(s4, PollEnd(Some(armed)))
            && Next(s4, PollEnd(Some(armed)), cfg).payload == Armed(Away)
  {
    hide HouseFlags;
  }

  // ----- The topic across a reconnect -----

  /** What a step puts on the retained alarm topic, if anything. */
  function Publishes(s: State, a: Action, cfg: Settings): Option<Payload>
    requires Enabled(s, a)
  {
    match a
    case Apply => AreaPayload(s.inHand.value.body, cfg)
    case PollEnd(flags) =>
      if flags.Some? && Replaces(s.listen.previous, flags.value, cfg) then Some(HouseFlags(flags.value, cfg)) else None
    case Snapshot(block) =>
      if Replaces(s.listen.entry, block, cfg) then Some(HouseFlags(block, cfg)) else None
    case FlagsReply(_) => CommandSets(s, a, cfg)
    case Receive(text) =>
      if text.ArmText? && cfg.ModeByteForHaMode(text.mode).Some? && text.mode !in s.ready then Some(s.payload) else None
    case ArmReply(outcome) =>
      if outcome.Acked? || (outcome.Disconnected? && s.payload.Transient()) || Excused(s, outcome)
      then None else Some(s.payload)
    case _ => None
  }

  lemma TopicIsPublished(s: State, a: Action, cfg: Settings)
    requires Enabled(s, a)
    ensures Next(s, a, cfg).topic == match Publishes(s, a, cfg) case None => s.topic case Some(p) => p
  {
    if a.FlagsReply? && a.flags.Some? {
      FlagsAreSettled(a.flags.value, 1, 1, cfg);
      SettledGuard(s.command.current, HouseFlags(a.flags.value, cfg));
    }
    hide DecodeAreaHaState, AreaPayload, MayReplaceLive, PayloadAfterAck, Edge, Remember, Observed, CollisionAtEnd;
  }

  /** The latest step in `i..j` that published. */
  ghost function LastPublisher(s: State, run: seq<Action>, i: nat, j: nat, cfg: Settings): (w: Option<nat>)
    requires Possible(s, run, cfg) && i <= j <= |run|
    ensures w.Some? ==> i <= w.value < j
    decreases j - i
  {
    if i == j then None
    else if PublishedAt(s, run, j - 1, cfg).Some? then Some(j - 1)
    else LastPublisher(s, run, i, j - 1, cfg)
  }

  ghost function PublishedAt(s: State, run: seq<Action>, i: nat, cfg: Settings): Option<Payload>
    requires Possible(s, run, cfg) && i < |run|
  {
    AtNext(s, run, i, cfg);
    Publishes(At(s, run, i, cfg), run[i], cfg)
  }

  lemma {:induction false} TopicIsLastPublished(s: State, run: seq<Action>, i: nat, j: nat, cfg: Settings)
    requires Possible(s, run, cfg) && i <= j <= |run|
    ensures match LastPublisher(s, run, i, j, cfg)
            case None => At(s, run, j, cfg).topic == At(s, run, i, cfg).topic
                         && forall k :: i <= k < j ==> PublishedAt(s, run, k, cfg).None?
            case Some(w) => Some(At(s, run, j, cfg).topic) == PublishedAt(s, run, w, cfg)
                            && forall k :: w < k < j ==> PublishedAt(s, run, k, cfg).None?
    decreases j - i
  {
    hide Next, Enabled, Publishes;
    if i < j {
      TopicIsLastPublished(s, run, i, j - 1, cfg);
      AtNext(s, run, j - 1, cfg);
      TopicIsPublished(At(s, run, j - 1, cfg), run[j - 1], cfg);
    }
  }

  /** What the snapshots of a reconnect publish is never what the reconnect remembers. */
  lemma SnapshotPublishes(s: State, run: seq<Action>, k: nat, i: nat, cfg: Settings)
    requires Possible(s, run, cfg) && s.listen.Listening? && k < i <= |run| && Began(run, i) < k && run[k].Snapshot?
    ensures var before := Remembered(s, run, i, cfg);
            PublishedAt(s, run, k, cfg) ==
            if Replaces(before, run[k].block, cfg) then Some(HouseFlags(run[k].block, cfg)) else None
    ensures PublishedAt(s, run, k, cfg) != Some(Remembered(s, run, i, cfg))
  {
    BeganStays(run, k, i);
    RemembersWhenItBegan(s, run, k, cfg);
    AtNext(s, run, k, cfg);
    ReplacesIffNews(Remembered(s, run, i, cfg), run[k].block, cfg);
    hide Next, HouseFlags, Replaces;
  }

  /** Exactly when a completed reconnect leaves the retained topic and the shared payload in
      agreement, whatever attempts failed and whatever the command task did meanwhile. Look at the
      last thing published since the session ended. It must be what the working attempt's own
      snapshot published; or what a command published, if that is what the reconnect hands back;
      if nothing was published, the two must have agreed when the session ended. */
  lemma ReconnectAgreesIff(s: State, run: seq<Action>, i: nat, cfg: Settings)
    requires Possible(s, run, cfg) && s.listen.Listening? && i < |run| && run[i].AttemptSucceeds?
    ensures LatestSnapshot(run, i).Some?
    ensures var b, after := Began(run, i), At(s, run, i + 1, cfg);
            && after.payload == SnapshotResult(Remembered(s, run, i, cfg), WorkingBlock(run, i), cfg)
            && (after.topic == after.payload <==>
                match LastPublisher(s, run, b, i, cfg)
                case None => At(s, run, b, cfg).topic == At(s, run, b, cfg).payload
                case Some(w) => if run[w].Snapshot? then LatestSnapshot(run, i) == Some(w)
                                else PublishedAt(s, run, w, cfg) == Some(after.payload))
  {
    hide Next, Enabled, HouseFlags, Replaces, PublishedAt, LastPublisher, Began, LatestSnapshot, At, Possible;
    var b, before := Began(run, i), Remembered(s, run, i, cfg);
    ReadOutcome(s, run, i, cfg);
    ResumesFromSnapshot(s, run, i, cfg);
    TopicIsLastPublished(s, run, b, i, cfg);
    var k := LatestSnapshot(run, i).value;
    SnapshotPublishes(s, run, k, i, cfg);
    var w := LastPublisher(s, run, b, i, cfg);
    if w.Some? && run[w.value].Snapshot? {
      SnapshotPublishes(s, run, w.value, i, cfg);
    }
  }

  lemma ResumesFromSnapshot(s: State, run: seq<Action>, i: nat, cfg: Settings)
    requires Possible(s, run, cfg) && s.listen.Listening? && i < |run| && run[i].AttemptSucceeds?
    ensures LatestSnapshot(run, i).Some? && Began(run, i) < LatestSnapshot(run, i).value
    ensures run[Began(run, i)].SessionEnds?
    ensures At(s, run, i + 1, cfg).topic == At(s, run, i, cfg).topic
  {
    hide Next;
    AtNext(s, run, i, cfg);
    RemembersWhenItBegan(s, run, i, cfg);
    TopicIsPublished(At(s, run, i, cfg), run[i], cfg);
  }

  /** It can undo a disarm. A house armed Away loses its session; the tap comes during the re-login
      and is acknowledged; the snapshot queued ahead of the refresh still reads armed; the refresh
      publishes disarmed; then the reconnect hands back what it remembered. The topic says disarmed,
      the shared payload armed, nothing is waiting, and an arm tap changes nothing. */
  lemma ReconnectCanUndoDisarm(unreadable: bool, cfg: Settings)
    ensures var armed, unset := HouseBlock({FLAG_FULL_ARMED}), HouseBlock({});
            var run := [SessionEnds(unreadable), Reconnect, Receive(DisarmText), DisarmReply(Acked), Snapshot(armed),
                        FlagsReply(Some(unset)), AttemptSucceeds];
            && Possible(Initial(Armed(Away)), run, cfg)
            && var s := At(Initial(Armed(Away)), run, 7, cfg);
            && s.topic == Disarmed && s.payload == Armed(Away) && Unapplied(s) == []
            && Enabled(s, Receive(ArmText(Away))) && Next(s, Receive(ArmText(Away)), cfg) == s
  {
    hide Next, Enabled, HouseBlock, Initial, Possible, At, DisarmedInReconnect, Unapplied;
    var armed, unset := HouseBlock({FLAG_FULL_ARMED}), HouseBlock({});
    HouseBlocksDecode(cfg);
    var start := Initial(Armed(Away));
    DisarmDuringReconnect(unreadable, cfg);
    UndoneDisarmSteps(armed, unset, cfg);
    var s1 := Next(start, SessionEnds(unreadable), cfg);
    var s2 := Next(s1, Reconnect, cfg);
    var s3 := Next(s2, Receive(DisarmText), cfg);
    var s4 := Next(s3, DisarmReply(Acked), cfg);
    var s5 := Next(s4, Snapshot(armed), cfg);
    var s6 := Next(s5, FlagsReply(Some(unset)), cfg);
    var s7 := Next(s6, AttemptSucceeds, cfg);
    ArmedAlreadyIgnored(s7, Away, cfg);
    TraceIsRun([start, s1, s2, s3, s4, s5, s6, s7],
               [SessionEnds(unreadable), Reconnect, Receive(DisarmText), DisarmReply(Acked), Snapshot(armed),
                FlagsReply(Some(unset)), AttemptSucceeds], cfg);
  }

  /** The house armed Away, its session lost, a disarm acknowledged and its refresh under way. */
  function DisarmedInReconnect(): State {
    Initial(Armed(Away)).(listen := Reconnecting(Armed(Away), None, false), command := AwaitFlags(Armed(Away)),
                          link := [true, false])
  }

  lemma DisarmDuringReconnect(unreadable: bool, cfg: Settings)
    ensures var start := Initial(Armed(Away));
            && Enabled(start, SessionEnds(unreadable))
            && var s1 := Next(start, SessionEnds(unreadable), cfg);
            && Enabled(s1, Reconnect)
            && var s2 := Next(s1, Reconnect, cfg);
            && Enabled(s2, Receive(DisarmText))
            && var s3 := Next(s2, Receive(DisarmText), cfg);
            && Enabled(s3, DisarmReply(Acked))
            && Next(s3, DisarmReply(Acked), cfg) == DisarmedInReconnect()
  {
    assert [true] + [false] == [true, false];
  }

  lemma UndoneDisarmSteps(armed: seq<byte>, unset: seq<byte>, cfg: Settings)
    requires HouseFlags(armed, cfg) == Armed(Away) && HouseFlags(unset, cfg) == Disarmed
    ensures var s4 := DisarmedInReconnect();
            && Enabled(s4, Snapshot(armed))
            && var s5 := Next(s4, Snapshot(armed), cfg);
            && Enabled(s5, FlagsReply(Some(unset)))
            && var s6 := Next(s5, FlagsReply(Some(unset)), cfg);
            && Enabled(s6, AttemptSucceeds)
            && var s7 := Next(s6, AttemptSucceeds, cfg);
            && s7.topic == Disarmed && s7.payload == Armed(Away) && Unapplied(s7) == []
            && s7.command.Ready? && Away in s7.ready
  {
    hide HouseFlags, Observed, Edge;
  }

  lemma ArmedAlreadyIgnored(s: State, mode: HaMode, cfg: Settings)
    requires s.payload == Armed(mode) && s.command.Ready? && mode in s.ready
    ensures Enabled(s, Receive(ArmText(mode))) && Next(s, Receive(ArmText(mode)), cfg) == s
  {
  }
}
