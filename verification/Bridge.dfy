/** The alarm-state bridge as a state machine: the listen task and the command task of app.py and
    arm_commands.py, sharing one alarm payload and one retained topic. A step runs from one await
    of the panel to the next, so steps of the two tasks interleave freely there. Publishing and
    the refused-arm bounce are part of the step they occur in. Bitmaps are one octet wide, the
    only width the start-up snapshot accepts. The fair I/O lock is not modelled, so runs here
    include orders that it rules out. */
module Bridge {
  import opened Bytes
  import opened Frames
  import opened Settings
  import opened AreaState
  import opened FlagsGuard
  import opened TriggerSnapshot

  /** Where the listen task is suspended. `previous` and `entry` are what it read beforehand; a
      reconnect is `quiet` while the link is not shown OFF: after a collision, until an attempt fails. */
  datatype Listen =
    | Listening
    | Polling(previous: Payload)
    | Reconnecting(entry: Payload, snapshot: Option<Payload>, quiet: bool)

  /** Where the command task is suspended. */
  datatype Command =
    | Ready
    | AwaitDisarm
    | AwaitArm(mode: HaMode)
    | AwaitFlags(current: Payload)

  /** `live` is the tracker's opinion of the panel link, `link` all that was published about it. */
  datatype State = State(
    payload: Payload,
    topic: Payload,
    queue: seq<Frame>,
    inHand: Option<Frame>,
    gate: Option<HaMode>,
    acked: Option<HaMode>,
    collision: bool,
    ready: set<HaMode>,
    listen: Listen,
    command: Command,
    history: seq<Activity>,
    attributes: seq<Option<byte>>,
    live: bool,
    link: seq<bool>)

  datatype Text = ArmText(mode: HaMode) | DisarmText | OtherText

  datatype Outcome = Acked | Nak | TimedOut | Disconnected(unreadable: bool)

  datatype Action =
    | Enqueue(frame: Frame)
    | TakeQueued
    | TakeFromWire(frame: Frame)
    | Apply
    | PollBegin
    | PollEnd(flags: Option<seq<byte>>)
    | SessionEnds(unreadable: bool)
    | Reconnect
    | Snapshot(block: seq<byte>)
    | AttemptFails
    | AttemptSucceeds
    | Receive(text: Text)
    | SetReady(mode: HaMode, on: bool)
    | DisarmReply(outcome: Outcome)
    | ArmReply(outcome: Outcome)
    | FlagsReply(flags: Option<seq<byte>>)
    | FlagsLost
    | LifeSign(cleared: bool)

  predicate Enabled(s: State, a: Action) {
    match a
    case Enqueue(_) => true
    case TakeQueued => s.listen.Listening? && s.inHand.None? && s.queue != []
    case TakeFromWire(_) => s.listen.Listening? && s.inHand.None? && s.queue == []
    case Apply => s.listen.Listening? && s.inHand.Some?
    case PollBegin => s.listen.Listening?
    case PollEnd(_) => s.listen.Polling?
    case SessionEnds(_) => !s.listen.Reconnecting?
    case Reconnect => s.listen.Reconnecting? && s.listen.snapshot.None?
    case Snapshot(_) => s.listen.Reconnecting? && s.listen.snapshot.None?
    case AttemptFails => s.listen.Reconnecting?
    case AttemptSucceeds => s.listen.Reconnecting? && s.listen.snapshot.Some?
    case Receive(_) => s.command.Ready?
    case SetReady(_, _) => true
    case DisarmReply(_) => s.command.AwaitDisarm?
    case ArmReply(_) => s.command.AwaitArm?
    case FlagsReply(_) => s.command.AwaitFlags?
    case FlagsLost => s.command.AwaitFlags?
    case LifeSign(_) => s.listen.Listening?
  }

  function HouseFlags(flags: seq<byte>, cfg: Settings): Payload {
    DecodeAreaHaState(flags, 1, HOUSE_AREA_NUMBER as nat, cfg)
  }

  /** A flags read that does not follow a command, compared with what its reader remembered. */
  predicate Replaces(current: Payload, flags: seq<byte>, cfg: Settings) {
    MayReplaceLive(Some(current), HouseFlags(flags, cfg), false, false)
  }

  function SnapshotResult(current: Payload, flags: seq<byte>, cfg: Settings): Payload {
    if Replaces(current, flags, cfg) then HouseFlags(flags, cfg) else current
  }

  /** `ArmGestureGate.observe_live_payload`. */
  function Observed(gate: Option<HaMode>, payload: Payload): Option<HaMode> {
    if gate.None? then None
    else if payload == Disarmed then None
    else if payload.Armed? && payload != Armed(gate.value) then None
    else gate
  }

  /** `_observe_live_alarm_payload`: the tracker's memory is dropped with the gate's. */
  function Observe(s: State, payload: Payload): State {
    var gate := Observed(s.gate, payload);
    s.(gate := gate, acked := if s.gate.Some? && gate.None? then None else s.acked)
  }

  function Edge(s: State, previous: Payload, payload: Payload): seq<Option<byte>> {
    SnapshotOnEdge(Some(previous), payload, Recent(s.history))
  }

  /** The listen task publishes `payload`, having remembered `previous`. */
  function Publish(s: State, previous: Payload, payload: Payload): State {
    Observe(s.(topic := payload, payload := payload,
               attributes := s.attributes + Edge(s, previous, payload)), payload)
  }

  /** The zone or log event in a frame body. */
  function EventIn(body: seq<byte>): Option<Activity> {
    if |body| < 3 then None
    else if body[0] == MSG_ZONE then Some(ZoneActivity(body[1], body[2]))
    else if body[0] == MSG_LOG then Some(LogActivity(body[1], body[2]))
    else None
  }

  function Remember(history: seq<Activity>, body: seq<byte>): seq<Activity> {
    match EventIn(body)
    case None => history
    case Some(event) => history + [event]
  }

  function LatestArea(frames: seq<Frame>, cfg: Settings): Option<Payload> {
    if frames == [] then None
    else
      match AreaPayload(frames[|frames| - 1].body, cfg)
      case Some(payload) => Some(payload)
      case None => LatestArea(frames[..|frames| - 1], cfg)
  }

  /** `_payload_after_ack`: an AREA push already queued is newer than the shared payload. */
  function PayloadAfterAck(s: State, cfg: Settings): Payload {
    match LatestArea(s.queue, cfg)
    case Some(payload) => payload
    case None => s.payload
  }

  /** `record_command_failure`: the link is shown OFF at once. */
  function Degraded(s: State): State {
    s.(live := false, link := s.link + [false])
  }

  function HandleText(s: State, text: Text, cfg: Settings): State {
    match text
    case OtherText => s
    case DisarmText => if s.payload == Disarmed then s else s.(command := AwaitDisarm)
    case ArmText(mode) =>
      if cfg.ModeByteForHaMode(mode).None? then s
      else if mode !in s.ready then s.(topic := s.payload)
      else if s.payload == Armed(mode) || s.gate == Some(mode) then s
      else s.(command := AwaitArm(mode))
  }

  /** An arm lost to unreadable bytes after it had already taken effect: a collision, not a failure. */
  predicate Excused(s: State, outcome: Outcome)
    requires s.command.AwaitArm?
  {
    outcome == Disconnected(true)
    && (s.acked == Some(s.command.mode) || s.payload.Transient() || s.payload == Armed(s.command.mode))
  }

  function HandleArmReply(s: State, outcome: Outcome): State
    requires s.command.AwaitArm?
  {
    var mode, done := s.command.mode, s.(command := Ready);
    if outcome.Acked? then done.(gate := Some(mode), acked := Some(mode))
    else if Excused(s, outcome) then done.(collision := true)
    else if outcome.Disconnected? && s.payload.Transient() then Degraded(done)
    else Degraded(done).(topic := s.payload)
  }

  function HandleDisarmReply(s: State, outcome: Outcome, cfg: Settings): State {
    var done := s.(command := Ready);
    if !outcome.Acked? then Degraded(done)
    else
      var current := PayloadAfterAck(s, cfg);
      var cleared := done.(gate := None, acked := None);
      if RoundTripNeeded(Some(current), false, true) then cleared.(command := AwaitFlags(current))
      else cleared.(payload := current)
  }

  function HandleFlagsReply(s: State, current: Payload, flags: Option<seq<byte>>, cfg: Settings): State {
    var done := s.(command := Ready);
    if flags.None? then done
    else
      var decoded := CoerceAfterDisarm(HouseFlags(flags.value, cfg));
      if MayReplaceLive(Some(current), decoded, false, true) then done.(topic := decoded, payload := decoded)
      else done
  }

  function HandlePollEnd(s: State, previous: Payload, flags: Option<seq<byte>>, cfg: Settings): State {
    var done := s.(listen := Listening);
    if flags.Some? && Replaces(previous, flags.value, cfg)
    then Publish(done, previous, HouseFlags(flags.value, cfg)) else done
  }

  function HandleApply(s: State, frame: Frame, cfg: Settings): State {
    var taken := s.(inHand := None, history := Remember(s.history, frame.body));
    match AreaPayload(frame.body, cfg)
    case None => taken
    case Some(payload) => Publish(taken, s.payload, payload)
  }

  function HandleSnapshot(s: State, entry: Payload, block: seq<byte>, cfg: Settings): State
    requires s.listen.Reconnecting?
  {
    s.(topic := if Replaces(entry, block, cfg) then HouseFlags(block, cfg) else s.topic,
       listen := Reconnecting(entry, Some(SnapshotResult(entry, block, cfg)), s.listen.quiet))
  }

  /** The shared payload is reassigned, observed unless disarmed, and the tracker is reset; the
      reconnect and the reset each publish the link ON. */
  function HandleReconnected(s: State, entry: Payload, result: Payload): State {
    var returned := s.(payload := result, link := s.link + [true]);
    var observed := if result == Disarmed then returned else Observe(returned, result);
    var reset := observed.(listen := Listening, acked := None, collision := false, live := true,
                           link := observed.link + [true]);
    reset.(attributes := reset.attributes + Edge(reset, entry, result))
  }

  function Next(s: State, a: Action, cfg: Settings): State
    requires Enabled(s, a)
  {
    match a
    case Enqueue(frame) => s.(queue := s.queue + [frame])
    case TakeQueued => s.(inHand := Some(s.queue[0]), queue := s.queue[1..])
    case TakeFromWire(frame) => s.(inHand := Some(frame))
    case Apply => HandleApply(s, s.inHand.value, cfg)
    case PollBegin => s.(listen := Polling(s.payload))
    case PollEnd(flags) => HandlePollEnd(s, s.listen.previous, flags, cfg)
    case SessionEnds(unreadable) =>
      var collision := CollisionAtEnd(s, unreadable);
      s.(inHand := None, collision := false, listen := Reconnecting(s.payload, None, collision),
         link := s.link + (if collision then [] else [false]))
    case Reconnect => s.(queue := [])
    case Snapshot(block) => HandleSnapshot(s, s.listen.entry, block, cfg)
    case AttemptFails =>
      s.(listen := Reconnecting(s.listen.entry, None, false),
         link := s.link + (if s.listen.quiet then [false] else []))
    case AttemptSucceeds => HandleReconnected(s, s.listen.entry, s.listen.snapshot.value)
    case Receive(text) => HandleText(s, text, cfg)
    case SetReady(mode, on) => s.(ready := if on then s.ready + {mode} else s.ready - {mode})
    case DisarmReply(outcome) => HandleDisarmReply(s, outcome, cfg)
    case ArmReply(outcome) => HandleArmReply(s, outcome)
    case FlagsReply(flags) => HandleFlagsReply(s, s.command.current, flags, cfg)
    case FlagsLost => s.(command := Ready, collision := true)
    case LifeSign(cleared) =>
      if cleared && !s.live then s.(live := true, link := s.link + [true]) else s
  }

  /** The collision the reconnect is told of: noted earlier, or by this very ending. */
  predicate CollisionAtEnd(s: State, unreadable: bool) {
    s.collision || (unreadable && (s.payload.Transient() || s.acked.Some?))
  }

  // The larger steps, by their handlers.

  lemma DisarmReplyIsHandled(s: State, outcome: Outcome, cfg: Settings)
    requires s.command.AwaitDisarm?
    ensures Next(s, DisarmReply(outcome), cfg) == HandleDisarmReply(s, outcome, cfg)
  {
  }

  lemma ArmReplyIsHandled(s: State, outcome: Outcome, cfg: Settings)
    requires s.command.AwaitArm?
    ensures Next(s, ArmReply(outcome), cfg) == HandleArmReply(s, outcome)
  {
  }

  lemma FlagsReplyIsHandled(s: State, flags: Option<seq<byte>>, cfg: Settings)
    requires s.command.AwaitFlags?
    ensures Next(s, FlagsReply(flags), cfg) == HandleFlagsReply(s, s.command.current, flags, cfg)
  {
  }

  lemma SessionEndIsHandled(s: State, unreadable: bool, cfg: Settings)
    requires !s.listen.Reconnecting?
    ensures var collision := CollisionAtEnd(s, unreadable);
            Next(s, SessionEnds(unreadable), cfg) ==
            s.(inHand := None, collision := false, listen := Reconnecting(s.payload, None, collision),
               link := s.link + (if collision then [] else [false]))
  {
  }

  lemma ReconnectIsHandled(s: State, cfg: Settings)
    requires s.listen.Reconnecting? && s.listen.snapshot.Some?
    ensures Next(s, AttemptSucceeds, cfg) == HandleReconnected(s, s.listen.entry, s.listen.snapshot.value)
  {
  }

  /** After the start-up snapshot, which always publishes what it decodes. */
  function Initial(payload: Payload): State {
    State(payload, payload, [], None, None, None, false, {Away, Home, Night}, Listening, Ready, [], [],
          true, [true])
  }

  // ----- Runs -----

  ghost predicate Possible(s: State, run: seq<Action>, cfg: Settings)
    decreases |run|
  {
    run == [] || (Enabled(s, run[0]) && Possible(Next(s, run[0], cfg), run[1..], cfg))
  }

  /** The state before step `i`; for `i == |run|`, the final state. */
  ghost function At(s: State, run: seq<Action>, i: nat, cfg: Settings): State
    requires Possible(s, run, cfg) && i <= |run|
    decreases i
  {
    if i == 0 then s else At(Next(s, run[0], cfg), run[1..], i - 1, cfg)
  }

  lemma {:induction false} AtNext(s: State, run: seq<Action>, i: nat, cfg: Settings)
    requires Possible(s, run, cfg) && i < |run|
    ensures Enabled(At(s, run, i, cfg), run[i])
    ensures At(s, run, i + 1, cfg) == Next(At(s, run, i, cfg), run[i], cfg)
    decreases i
  {
    hide Next, Enabled;
    if i > 0 {
      AtNext(Next(s, run[0], cfg), run[1..], i - 1, cfg);
      assert run[1..][i - 1] == run[i];
    }
  }

  /** A run is one stretch followed by another. */
  lemma {:induction false} RunSplits(s: State, run: seq<Action>, more: seq<Action>, cfg: Settings)
    requires Possible(s, run, cfg) && Possible(At(s, run, |run|, cfg), more, cfg)
    ensures Possible(s, run + more, cfg)
    ensures At(s, run + more, |run|, cfg) == At(s, run, |run|, cfg)
    ensures At(s, run + more, |run| + |more|, cfg) == At(At(s, run, |run|, cfg), more, |more|, cfg)
    decreases |run|
  {
    hide Next, Enabled;
    if run == [] {
      assert run + more == more;
    } else {
      assert (run + more)[1..] == run[1..] + more;
      RunSplits(Next(s, run[0], cfg), run[1..], more, cfg);
    }
  }

  /** States that follow one another by the steps of `run`. */
  ghost predicate Traces(states: seq<State>, run: seq<Action>, cfg: Settings) {
    && |states| == |run| + 1
    && forall i :: 0 <= i < |run| ==> Enabled(states[i], run[i]) && states[i + 1] == Next(states[i], run[i], cfg)
  }

  lemma {:induction false} TraceIsRun(states: seq<State>, run: seq<Action>, cfg: Settings)
    requires Traces(states, run, cfg)
    ensures Possible(states[0], run, cfg)
    ensures forall i: nat :: i <= |run| ==> At(states[0], run, i, cfg) == states[i]
    decreases |run|
  {
    hide Next, Enabled;
    if run != [] {
      assert Enabled(states[0], run[0]) && states[0 + 1] == Next(states[0], run[0], cfg);
      forall i | 0 <= i < |run[1..]|
        ensures Enabled(states[1..][i], run[1..][i]) && states[1..][i + 1] == Next(states[1..][i], run[1..][i], cfg)
      {
        assert run[1..][i] == run[i + 1] && states[1..][i] == states[i + 1];
        assert Enabled(states[i + 1], run[i + 1]) && states[i + 1 + 1] == Next(states[i + 1], run[i + 1], cfg);
      }
      TraceIsRun(states[1..], run[1..], cfg);
      forall i: nat | i <= |run| ensures At(states[0], run, i, cfg) == states[i] {
        if i > 0 {
          assert At(states[1], run[1..], i - 1, cfg) == states[1..][i - 1];
        }
      }
    }
  }

  /** Unsolicited frames that arrive while a command waits for its reply. */
  function Arrivals(frames: seq<Frame>): seq<Action> {
    seq(|frames|, i requires 0 <= i < |frames| => Enqueue(frames[i]))
  }

  lemma {:induction false} ArrivalsQueue(s: State, frames: seq<Frame>, cfg: Settings)
    ensures Possible(s, Arrivals(frames), cfg)
    ensures At(s, Arrivals(frames), |frames|, cfg) == s.(queue := s.queue + frames)
    decreases |frames|
  {
    if frames == [] {
      assert s.queue + [] == s.queue;
    } else {
      assert Arrivals(frames)[1..] == Arrivals(frames[1..]);
      ArrivalsQueue(Next(s, Enqueue(frames[0]), cfg), frames[1..], cfg);
      assert s.queue + [frames[0]] + frames[1..] == s.queue + frames;
    }
  }

  /** `steps` lead from `s` to `t`. */
  ghost predicate Leads(s: State, steps: seq<Action>, t: State, cfg: Settings) {
    Possible(s, steps, cfg) && At(s, steps, |steps|, cfg) == t
  }

  /** Frames arrive, and then at most one step more. */
  lemma ArrivalsLead(s: State, frames: seq<Frame>, heard: State, last: seq<Action>, t: State, cfg: Settings)
    requires heard == s.(queue := s.queue + frames) && |last| <= 1
    requires if last == [] then t == heard else Enabled(heard, last[0]) && t == Next(heard, last[0], cfg)
    ensures Leads(s, Arrivals(frames) + last, t, cfg)
  {
    ArrivalsQueue(s, frames, cfg);
    hide Next, Enabled;
    if last == [] {
      assert Arrivals(frames) + last == Arrivals(frames);
    } else {
      assert last == [last[0]];
      TraceIsRun([heard, t], last, cfg);
      RunSplits(s, Arrivals(frames), last, cfg);
    }
  }
}
