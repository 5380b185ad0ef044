/** The reconnect loop (reconnect.py), run against a script of how its attempts fare, and proved to
    take the steps that the state machine in `Bridge` allows it. Here the command task is idle;
    `BridgeReads` has what its steps in between add. */
module Reconnect {
  import opened Bytes
  import opened Settings
  import opened AreaState
  import opened FlagsGuard
  import Bridge

  /** `Works` and `SubscribeFails` both got as far as the area-flags snapshot. */
  datatype Attempt =
    | ConnectFails
    | SetupFails
    | SubscribeFails(flags: seq<byte>)
    | Works(flags: seq<byte>)

  datatype Act =
    | LinkPublished(on: bool)
    | Closed
    | Slept(delay: real)
    | Connected(ok: bool)
    | AlarmPublished(payload: Payload)

  function LinkActs(acts: seq<Act>): seq<bool> {
    if acts == [] then []
    else LinkActs(acts[..|acts| - 1]) +
         (if acts[|acts| - 1].LinkPublished? then [acts[|acts| - 1].on] else [])
  }

  /** The retained alarm topic after these acts. */
  function TopicAfter(topic: Payload, acts: seq<Act>): Payload {
    if acts == [] then topic
    else if acts[|acts| - 1].AlarmPublished? then acts[|acts| - 1].payload
    else TopicAfter(topic, acts[..|acts| - 1])
  }

  ghost predicate Spaced(acts: seq<Act>, delay: real) {
    forall i :: 0 <= i < |acts| && acts[i].Connected? ==>
      i >= 2 && acts[i - 1] == Slept(delay) && acts[i - 2] == Closed
  }

  lemma OneMoreAct(topic: Payload, acts: seq<Act>, act: Act)
    ensures LinkActs(acts + [act]) == LinkActs(acts) + (if act.LinkPublished? then [act.on] else [])
    ensures TopicAfter(topic, acts + [act]) == if act.AlarmPublished? then act.payload else TopicAfter(topic, acts)
    ensures forall delay :: Spaced(acts, delay) && !act.Connected? ==> Spaced(acts + [act], delay)
  {
    assert (acts + [act])[..|acts|] == acts;
  }

  lemma OneMoreTry(topic: Payload, acts: seq<Act>, delay: real, ok: bool)
    ensures var longer := acts + [Closed, Slept(delay), Connected(ok)];
            && LinkActs(longer) == LinkActs(acts)
            && TopicAfter(topic, longer) == TopicAfter(topic, acts)
            && (Spaced(acts, delay) ==> Spaced(longer, delay))
  {
    hide LinkActs, TopicAfter, Spaced;
    var one, two := acts + [Closed], acts + [Closed, Slept(delay)];
    var three := acts + [Closed, Slept(delay), Connected(ok)];
    OneMoreAct(topic, acts, Closed);
    OneMoreAct(topic, one, Slept(delay));
    OneMoreAct(topic, two, Connected(ok));
    assert one + [Slept(delay)] == two && two + [Connected(ok)] == three;
    SpacedTry(acts, delay, ok);
  }

  lemma SpacedTry(acts: seq<Act>, delay: real, ok: bool)
    ensures Spaced(acts, delay) ==> Spaced(acts + [Closed, Slept(delay), Connected(ok)], delay)
  {
  }

  function TopicAfterAttempts(topic: Payload, current: Payload, attempts: seq<Attempt>, cfg: Settings): Payload {
    if attempts == [] then topic
    else
      var last := attempts[|attempts| - 1];
      var before := TopicAfterAttempts(topic, current, attempts[..|attempts| - 1], cfg);
      if Published(last, current, cfg) then Bridge.HouseFlags(last.flags, cfg) else before
  }

  predicate Published(attempt: Attempt, current: Payload, cfg: Settings) {
    (attempt.SubscribeFails? || attempt.Works?) && Bridge.Replaces(current, attempt.flags, cfg)
  }

  /** The bridge's steps for an attempt, from its `connect` on. */
  function StepsOf(attempt: Attempt): seq<Bridge.Action> {
    match attempt
    case ConnectFails => [Bridge.AttemptFails]
    case SetupFails => [Bridge.Action.Reconnect, Bridge.AttemptFails]
    case SubscribeFails(flags) => [Bridge.Action.Reconnect, Bridge.Snapshot(flags), Bridge.AttemptFails]
    case Works(flags) => [Bridge.Action.Reconnect, Bridge.Snapshot(flags), Bridge.AttemptSucceeds]
  }

  /** From the end of the session on. */
  function StepsOfAll(unreadable: bool, attempts: seq<Attempt>): seq<Bridge.Action> {
    if attempts == [] then [Bridge.SessionEnds(unreadable)]
    else StepsOfAll(unreadable, attempts[..|attempts| - 1]) + StepsOf(attempts[|attempts| - 1])
  }

  /** Waiting to attempt a reconnect. */
  predicate Between(t: Bridge.State, current: Payload, quiet: bool) {
    t.payload == current && t.listen == Bridge.Reconnecting(current, None, quiet)
  }

  lemma SessionEndSteps(s: Bridge.State, unreadable: bool, cfg: Settings)
    requires !s.listen.Reconnecting?
    ensures var steps, collision := StepsOfAll(unreadable, []), Bridge.CollisionAtEnd(s, unreadable);
            && Bridge.Possible(s, steps, cfg)
            && var t := Bridge.At(s, steps, |steps|, cfg);
            && Between(t, s.payload, collision) && t.topic == s.topic
            && t.link == s.link + (if collision then [] else [false])
  {
    var next := Bridge.Next(s, Bridge.SessionEnds(unreadable), cfg);
    Bridge.TraceIsRun([s, next], StepsOfAll(unreadable, []), cfg);
  }

  lemma AttemptSteps(t: Bridge.State, attempt: Attempt, current: Payload, quiet: bool, cfg: Settings)
    requires Between(t, current, quiet)
    ensures Bridge.Possible(t, StepsOf(attempt), cfg)
    ensures var u := Bridge.At(t, StepsOf(attempt), |StepsOf(attempt)|, cfg);
            && u.topic == (if Published(attempt, current, cfg) then Bridge.HouseFlags(attempt.flags, cfg) else t.topic)
            && (if attempt.Works? then
                  && u.listen.Listening? && u.payload == Bridge.SnapshotResult(current, attempt.flags, cfg)
                  && u.link == t.link + [true, true]
                else Between(u, current, false) && u.link == t.link + (if quiet then [false] else []))
  {
    hide Bridge.HouseFlags, Bridge.Replaces, Bridge.Edge, Bridge.Observed;
    if attempt.ConnectFails? {
      Bridge.TraceIsRun([t, Bridge.Next(t, Bridge.AttemptFails, cfg)], StepsOf(attempt), cfg);
    } else if attempt.SetupFails? {
      var t1 := Bridge.Next(t, Bridge.Action.Reconnect, cfg);
      Bridge.TraceIsRun([t, t1, Bridge.Next(t1, Bridge.AttemptFails, cfg)], StepsOf(attempt), cfg);
    } else {
      SnapshotSteps(t, attempt.flags, current, quiet, cfg);
      hide Bridge.Next, Bridge.Enabled, Bridge.SnapshotResult;
      var t1 := Bridge.Next(t, Bridge.Action.Reconnect, cfg);
      var t2 := Bridge.Next(t1, Bridge.Snapshot(attempt.flags), cfg);
      var last := if attempt.Works? then Bridge.AttemptSucceeds else Bridge.AttemptFails;
      Bridge.TraceIsRun([t, t1, t2, Bridge.Next(t2, last, cfg)], StepsOf(attempt), cfg);
    }
  }

  lemma SnapshotSteps(t: Bridge.State, flags: seq<byte>, current: Payload, quiet: bool, cfg: Settings)
    requires Between(t, current, quiet)
    ensures Bridge.Enabled(t, Bridge.Action.Reconnect)
    ensures var t1 := Bridge.Next(t, Bridge.Action.Reconnect, cfg);
            && Bridge.Enabled(t1, Bridge.Snapshot(flags))
            && var t2 := Bridge.Next(t1, Bridge.Snapshot(flags), cfg);
            && Bridge.Enabled(t2, Bridge.AttemptSucceeds) && Bridge.Enabled(t2, Bridge.AttemptFails)
            && var (worked, failed) :=
              (Bridge.Next(t2, Bridge.AttemptSucceeds, cfg), Bridge.Next(t2, Bridge.AttemptFails, cfg));
            && worked.topic == failed.topic ==
               (if Bridge.Replaces(current, flags, cfg) then Bridge.HouseFlags(flags, cfg) else t.topic)
            && worked.listen.Listening? && worked.payload == Bridge.SnapshotResult(current, flags, cfg)
            && worked.link == t.link + [true, true]
            && Between(failed, current, false) && failed.link == t.link + (if quiet then [false] else [])
  {
    hide Bridge.HouseFlags, Bridge.Replaces, Bridge.SnapshotResult, Bridge.Edge, Bridge.Observed;
  }

  predicate Worked(attempts: seq<Attempt>) { attempts != [] && attempts[|attempts| - 1].Works? }

  /** What these attempts show on the link topic, the session's end included. */
  function LinkOf(collision: bool, attempts: seq<Attempt>): seq<bool> {
    if Worked(attempts) then if collision && |attempts| == 1 then [true] else [false, true]
    else if collision && attempts == [] then [] else [false]
  }

  /** Attempts up to a working one, with the command task idle, are a run of the bridge that leaves
      this topic, link and payload; the tracker's reset shows the link ON once more. */
  lemma {:induction false} AttemptsAreSteps(
    s: Bridge.State, unreadable: bool, attempts: seq<Attempt>, cfg: Settings)
    requires !s.listen.Reconnecting? && forall k :: 0 <= k < |attempts| - 1 ==> !attempts[k].Works?
    ensures var steps, collision := StepsOfAll(unreadable, attempts), Bridge.CollisionAtEnd(s, unreadable);
            && Bridge.Possible(s, steps, cfg)
            && var t := Bridge.At(s, steps, |steps|, cfg);
            && t.topic == TopicAfterAttempts(s.topic, s.payload, attempts, cfg)
            && t.link == s.link + LinkOf(collision, attempts) + (if Worked(attempts) then [true] else [])
            && (if Worked(attempts) then
                  && t.listen.Listening?
                  && t.payload == Bridge.SnapshotResult(s.payload, attempts[|attempts| - 1].flags, cfg)
                else Between(t, s.payload, collision && attempts == []))
    decreases |attempts|
  {
    hide Between, Bridge.HouseFlags, Bridge.Replaces, Bridge.SnapshotResult, Bridge.Next, Bridge.At;
    hide Bridge.Possible, Bridge.Enabled, Bridge.CollisionAtEnd;
    if attempts == [] {
      SessionEndSteps(s, unreadable, cfg);
    } else {
      var front, last := attempts[..|attempts| - 1], attempts[|attempts| - 1];
      var earlier, quiet := StepsOfAll(unreadable, front), Bridge.CollisionAtEnd(s, unreadable) && front == [];
      AttemptsAreSteps(s, unreadable, front, cfg);
      var t := Bridge.At(s, earlier, |earlier|, cfg);
      AttemptSteps(t, last, s.payload, quiet, cfg);
      Bridge.RunSplits(s, earlier, StepsOf(last), cfg);
      LinkGrows(s.link, Bridge.CollisionAtEnd(s, unreadable), front, last);
      assert front + [last] == attempts;
    }
  }

  lemma LinkGrows(link: seq<bool>, collision: bool, front: seq<Attempt>, last: Attempt)
    requires !Worked(front)
    ensures var quiet := collision && front == [];
            (link + LinkOf(collision, front) + []) +
            (if last.Works? then [true, true] else if quiet then [false] else []) ==
            link + LinkOf(collision, front + [last]) + (if last.Works? then [true] else [])
  {
  }

  /** The bridge's steps for these attempts leave the same topic, link and payload as these acts do;
      only the tracker's reset, which shows the link ON once more, is not among the acts. */
  ghost predicate LeavesWhatStepsLeave(
    s: Bridge.State, unreadable: bool, attempts: seq<Attempt>, r: Option<Payload>, acts: seq<Act>, cfg: Settings)
  {
    var steps := StepsOfAll(unreadable, attempts);
    && Bridge.Possible(s, steps, cfg)
    && var t := Bridge.At(s, steps, |steps|, cfg);
    && t.topic == TopicAfter(s.topic, acts)
    && t.link == s.link + LinkActs(acts) + (if r.Some? then [true] else [])
    && (if r.Some? then t.payload == r.value && t.listen.Listening?
        else Between(t, s.payload, Bridge.CollisionAtEnd(s, unreadable) && attempts == []))
  }

  lemma SeenFromBridge(
    s: Bridge.State, unreadable: bool, attempts: seq<Attempt>, r: Option<Payload>, acts: seq<Act>, cfg: Settings)
    requires !s.listen.Reconnecting? && forall k :: 0 <= k < |attempts| - 1 ==> !attempts[k].Works?
    requires r.Some? <==> Worked(attempts)
    requires r.Some? ==> r.value == Bridge.SnapshotResult(s.payload, attempts[|attempts| - 1].flags, cfg)
    requires TopicAfter(s.topic, acts) == TopicAfterAttempts(s.topic, s.payload, attempts, cfg)
    requires LinkActs(acts) == LinkOf(Bridge.CollisionAtEnd(s, unreadable), attempts)
    ensures LeavesWhatStepsLeave(s, unreadable, attempts, r, acts, cfg)
  {
    hide Between, StepsOfAll, TopicAfterAttempts, TopicAfter, LinkActs, LinkOf, Worked;
    hide Bridge.Possible, Bridge.At, Bridge.SnapshotResult, Bridge.CollisionAtEnd;
    AttemptsAreSteps(s, unreadable, attempts, cfg);
  }

  /** Attempt until one works. The link goes OFF at once, or, after a collision, only if the first
      attempt fails; it comes back ON once. Every connect follows its own close and full delay. Seen
      from the session `s` that ended, the acts leave the topic, the link and the payload that the
      bridge's steps leave. */
  method ReconnectAfterDisconnect(
      attempts: seq<Attempt>, delay: real, collision: bool, current: Payload, cfg: Settings,
      ghost s: Bridge.State, ghost unreadable: bool)
    returns (r: Option<Payload>, used: nat, acts: seq<Act>)
    requires !s.listen.Reconnecting? && s.payload == current && collision == Bridge.CollisionAtEnd(s, unreadable)
    ensures used <= |attempts| && forall k :: 0 <= k < used - 1 ==> !attempts[k].Works?
    ensures r.Some? ==> used > 0 && attempts[used - 1].Works?
                        && r.value == Bridge.SnapshotResult(current, attempts[used - 1].flags, cfg)
    ensures r.None? ==> used == |attempts| && forall k :: 0 <= k < used ==> !attempts[k].Works?
    ensures r.Some? ==> LinkActs(acts) == if collision && used == 1 then [true] else [false, true]
    ensures r.None? ==> LinkActs(acts) == if collision && used == 0 then [] else [false]
    ensures Spaced(acts, delay)
    ensures TopicAfter(s.topic, acts) == TopicAfterAttempts(s.topic, current, attempts[..used], cfg)
    ensures LeavesWhatStepsLeave(s, unreadable, attempts[..used], r, acts, cfg)
  {
    hide LinkActs, TopicAfter, Spaced, TopicAfterAttempts, LeavesWhatStepsLeave;
    hide Bridge.HouseFlags, Bridge.Replaces, Bridge.CollisionAtEnd;
    acts := [];
    NoActs(s.topic);
    NoAttempts(s.topic, current, cfg);
    if !collision {
      OneMoreAct(s.topic, acts, LinkPublished(false));
      acts := acts + [LinkPublished(false)];
    }
    used := 0;
    while used < |attempts|
      invariant used <= |attempts| && forall k :: 0 <= k < used ==> !attempts[k].Works?
      invariant LinkActs(acts) == if collision && used == 0 then [] else [false]
      invariant Spaced(acts, delay)
      invariant TopicAfter(s.topic, acts) == TopicAfterAttempts(s.topic, current, attempts[..used], cfg)
    {
      var attempt := attempts[used];
      OneMoreAttempt(s.topic, current, attempts, used, cfg);
      used := used + 1;
      OneMoreTry(s.topic, acts, delay, !attempt.ConnectFails?);
      acts := acts + [Closed, Slept(delay), Connected(!attempt.ConnectFails?)];
      if attempt.SubscribeFails? || attempt.Works? {
        var payload := current;
        if Bridge.Replaces(current, attempt.flags, cfg) {
          payload := Bridge.HouseFlags(attempt.flags, cfg);
          OneMoreAct(s.topic, acts, AlarmPublished(payload));
          acts := acts + [AlarmPublished(payload)];
        }
        if attempt.Works? {
          OneMoreAct(s.topic, acts, LinkPublished(true));
          acts := acts + [LinkPublished(true)];
          SeenFromBridge(s, unreadable, attempts[..used], Some(payload), acts, cfg);
          return Some(payload), used, acts;
        }
      }
      if collision && used == 1 {
        OneMoreAct(s.topic, acts, LinkPublished(false));
        acts := acts + [LinkPublished(false)];
      }
    }
    SeenFromBridge(s, unreadable, attempts[..used], None, acts, cfg);
    return None, used, acts;
  }

  lemma NoAttempts(topic: Payload, current: Payload, cfg: Settings)
    ensures TopicAfterAttempts(topic, current, [], cfg) == topic
  {
  }

  lemma OneMoreAttempt(topic: Payload, current: Payload, attempts: seq<Attempt>, used: nat, cfg: Settings)
    requires used < |attempts|
    ensures TopicAfterAttempts(topic, current, attempts[..used + 1], cfg) ==
            if Published(attempts[used], current, cfg) then Bridge.HouseFlags(attempts[used].flags, cfg)
            else TopicAfterAttempts(topic, current, attempts[..used], cfg)
  {
    assert attempts[..used + 1][..used] == attempts[..used];
  }

  lemma NoActs(topic: Payload)
    ensures LinkActs([]) == [] && TopicAfter(topic, []) == topic && forall delay :: Spaced([], delay)
  {
  }

  /** Payload and topic can part: arming on entry, a failed attempt that read an alarm, then one that
      reads unset. */
  lemma ReturnedCanDifferFromTopic(cfg: Settings)
    ensures var alarm, unset := HouseBlock({FLAG_ALARM}), HouseBlock({});
            && Bridge.SnapshotResult(Arming, unset, cfg) == Arming
            && TopicAfterAttempts(Arming, Arming, [SubscribeFails(alarm), Works(unset)], cfg) == Triggered
  {
    var alarm, unset := HouseBlock({FLAG_ALARM}), HouseBlock({});
    HouseBlocksDecode(cfg);
    hide HouseBlock, DecodeAreaHaState;
    var attempts := [SubscribeFails(alarm), Works(unset)];
    assert attempts[..1] == [SubscribeFails(alarm)] && [SubscribeFails(alarm)][..0] == [];
  }
}
