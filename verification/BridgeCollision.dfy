/** Which lost sessions are taken as a collision with a command that had succeeded. */
module BridgeCollision {
  import opened Bytes
  import opened Settings
  import opened AreaState
  import opened Bridge
  import opened BridgeRuns
  import opened BridgeGate

  /** A step that notes a collision: a refresh whose session is lost, or an arm lost to unreadable bytes
      that had taken effect. */
  ghost predicate NotesAt(s: State, run: seq<Action>, k: nat, cfg: Settings)
    requires Possible(s, run, cfg) && k < |run|
  {
    AtNext(s, run, k, cfg);
    var here := At(s, run, k, cfg);
    run[k].FlagsLost? ||
    (run[k] == ArmReply(Disconnected(true)) && here.command.AwaitArm?
     && (here.acked == Some(here.command.mode) || here.payload in {Arming, Pending, Armed(here.command.mode)}))
  }

  /** The end of a session and a completed reconnect leave none noted. */
  predicate Settled(a: Action) { a.SessionEnds? || a.AttemptSucceeds? }

  ghost predicate NotedSince(s: State, run: seq<Action>, k: nat, i: nat, cfg: Settings)
    requires Possible(s, run, cfg) && k < i <= |run|
  {
    NotesAt(s, run, k, cfg) && forall m :: k < m < i ==> !Settled(run[m])
  }

  lemma CollisionMoves(s: State, a: Action, cfg: Settings)
    requires Enabled(s, a)
    ensures Next(s, a, cfg).collision <==>
            || a.FlagsLost?
            || (a == ArmReply(Disconnected(true))
                && (s.acked == Some(s.command.mode) || s.payload in {Arming, Pending, Armed(s.command.mode)}))
            || (s.collision && !Settled(a))
  {
    hide HouseFlags, AreaPayload, Replaces, Edge, PayloadAfterAck, Remember, Observed;
  }

  lemma {:induction false} CollisionIff(start: Payload, run: seq<Action>, i: nat, cfg: Settings)
    requires Possible(Initial(start), run, cfg) && i <= |run|
    ensures At(Initial(start), run, i, cfg).collision <==>
            exists k: nat :: k < i && NotedSince(Initial(start), run, k, i, cfg)
    decreases i
  {
    hide Next;
    var s := Initial(start);
    if i > 0 {
      CollisionIff(start, run, i - 1, cfg);
      AtNext(s, run, i - 1, cfg);
      CollisionMoves(At(s, run, i - 1, cfg), run[i - 1], cfg);
      if At(s, run, i, cfg).collision {
        if NotesAt(s, run, i - 1, cfg) {
          assert NotedSince(s, run, i - 1, i, cfg);
        } else {
          var k: nat :| k < i - 1 && NotedSince(s, run, k, i - 1, cfg);
          assert NotedSince(s, run, k, i, cfg);
        }
      }
      if k: nat :| k < i && NotedSince(s, run, k, i, cfg) {
        if k < i - 1 {
          assert NotedSince(s, run, k, i - 1, cfg);
        }
      }
    }
  }

  /** The arm of step `a` is still on the tracker's mind at step `i`. */
  ghost predicate AckStands(s: State, run: seq<Action>, a: nat, i: nat, mode: HaMode, cfg: Settings)
    requires Possible(s, run, cfg) && a < i <= |run|
  {
    ArmStands(s, run, a, i, mode, cfg) && forall m :: a < m < i ==> !run[m].AttemptSucceeds?
  }

  lemma AckRises(s: State, a: Action, mode: HaMode, cfg: Settings)
    requires Enabled(s, a) && s.acked != Some(mode)
    ensures Next(s, a, cfg).acked == Some(mode) <==> a == ArmReply(Acked) && s.command == AwaitArm(mode)
  {
    hide HouseFlags, AreaPayload, Replaces, Edge, PayloadAfterAck, Remember, Observed, CollisionAtEnd;
  }

  lemma AckMoves(s: State, a: Action, mode: HaMode, cfg: Settings)
    requires Enabled(s, a) && AckedIsGated(s)
    ensures Next(s, a, cfg).acked == Some(mode) <==>
            || (a == ArmReply(Acked) && s.command == AwaitArm(mode))
            || (s.acked == Some(mode) && !Forgets(s, a, mode, cfg) && !a.AttemptSucceeds?)
  {
    hide Next, Forgets;
    if s.acked == Some(mode) {
      AckHolds(s, a, mode, cfg);
    } else {
      AckRises(s, a, mode, cfg);
    }
  }

  lemma {:induction false} AckedIff(start: Payload, run: seq<Action>, i: nat, mode: HaMode, cfg: Settings)
    requires Possible(Initial(start), run, cfg) && i <= |run|
    ensures At(Initial(start), run, i, cfg).acked == Some(mode) <==>
            exists a: nat :: a < i && AckStands(Initial(start), run, a, i, mode, cfg)
    decreases i
  {
    hide Next, Enabled, Forgets, Sound;
    var s := Initial(start);
    if i > 0 {
      AckedIff(start, run, i - 1, mode, cfg);
      StartIsSound(start, cfg);
      EverSound(s, run, i - 1, cfg);
      SoundKnowsAck(At(s, run, i - 1, cfg));
      AtNext(s, run, i - 1, cfg);
      var here := At(s, run, i - 1, cfg);
      AckMoves(here, run[i - 1], mode, cfg);
      if At(s, run, i, cfg).acked == Some(mode) {
        if run[i - 1] == ArmReply(Acked) && here.command == AwaitArm(mode) {
          assert AckStands(s, run, i - 1, i, mode, cfg);
        } else {
          var a: nat :| a < i - 1 && AckStands(s, run, a, i - 1, mode, cfg);
          assert AckStands(s, run, a, i, mode, cfg);
        }
      }
      if a: nat :| a < i && AckStands(s, run, a, i, mode, cfg) {
        if a < i - 1 {
          assert AckStands(s, run, a, i - 1, mode, cfg);
          assert !ForgetsAt(s, run, i - 1, mode, cfg);
        }
      }
    }
  }

  lemma SoundKnowsAck(s: State)
    requires Sound(s)
    ensures AckedIsGated(s)
  {
    hide DelayKnown, RefreshIsNeeded, AckedIsGated, AlarmKnown, LinkShown;
  }

  /** Exactly when a lost session is a collision, so that the link is not shown OFF at once: one was
      noted since the last session ended or resumed; or this one was lost to unreadable bytes while a
      delay ran, or after an acknowledged arm that still stood and no reconnect since. */
  lemma SessionEndsQuietlyIff(start: Payload, run: seq<Action>, i: nat, cfg: Settings)
    requires Possible(Initial(start), run, cfg) && i < |run| && run[i].SessionEnds?
    ensures var s := Initial(start);
            var here, after := At(s, run, i, cfg), At(s, run, i + 1, cfg);
            && after.listen.Reconnecting?
            && (after.listen.quiet <==>
                  || (exists k: nat :: k < i && NotedSince(s, run, k, i, cfg))
                  || (run[i].unreadable
                      && (here.payload in {Arming, Pending} || SomeAckStands(s, run, i, cfg))))
            && after.link == here.link + (if after.listen.quiet then [] else [false])
  {
    hide Next, NotedSince, SomeAckStands;
    var s := Initial(start);
    CollisionIff(start, run, i, cfg);
    AtNext(s, run, i, cfg);
    var here := At(s, run, i, cfg);
    SessionEndMoves(here, run[i].unreadable, cfg);
    SomeAckIff(start, run, i, cfg);
  }

  ghost predicate SomeAckStands(s: State, run: seq<Action>, i: nat, cfg: Settings)
    requires Possible(s, run, cfg) && i <= |run|
  {
    exists mode, a: nat :: a < i && AckStands(s, run, a, i, mode, cfg)
  }

  lemma SomeAckIff(start: Payload, run: seq<Action>, i: nat, cfg: Settings)
    requires Possible(Initial(start), run, cfg) && i <= |run|
    ensures At(Initial(start), run, i, cfg).acked.Some? <==> SomeAckStands(Initial(start), run, i, cfg)
  {
    hide Next, Enabled, AckStands;
    var s := Initial(start);
    var acked := At(s, run, i, cfg).acked;
    if acked.Some? {
      AckedIff(start, run, i, acked.value, cfg);
    }
    if mode, a: nat :| a < i && AckStands(s, run, a, i, mode, cfg) {
      AckedIff(start, run, i, mode, cfg);
    }
  }

  lemma SessionEndMoves(s: State, unreadable: bool, cfg: Settings)
    requires !s.listen.Reconnecting?
    ensures var t := Next(s, SessionEnds(unreadable), cfg);
            && t.listen.Reconnecting?
            && (t.listen.quiet <==>
                  s.collision || (unreadable && (s.payload in {Arming, Pending} || s.acked.Some?)))
            && t.link == s.link + (if t.listen.quiet then [] else [false])
            && t.listen.entry == t.payload == s.payload && t.listen.snapshot.None? && t.inHand.None? && !t.collision
            && t.queue == s.queue && t.topic == s.topic && t.gate == s.gate && t.acked == s.acked
  {
  }
}
