/** What the attributes topic tells about a run. */
module BridgeSnapshots {
  import opened Bytes
  import opened Frames
  import opened Settings
  import opened AreaState
  import opened FlagsGuard
  import opened TriggerSnapshot
  import opened Bridge
  import opened BridgeRuns
  import opened BridgeReads

  // ----- The activity memory -----

  /** The frames applied in the first `n` steps, in order. */
  ghost function Applied(s: State, run: seq<Action>, n: nat, cfg: Settings): seq<Frame>
    requires Possible(s, run, cfg) && n <= |run|
  {
    if n == 0 then []
    else
      AtNext(s, run, n - 1, cfg);
      Applied(s, run, n - 1, cfg) +
      (if run[n - 1].Apply? then [At(s, run, n - 1, cfg).inHand.value] else [])
  }

  /** The frames that arrived in them, on the wire or during a command wait. */
  function Arrived(run: seq<Action>, n: nat): seq<Frame>
    requires n <= |run|
  {
    if n == 0 then []
    else Arrived(run, n - 1) + (if run[n - 1].Enqueue? || run[n - 1].TakeFromWire? then [run[n - 1].frame] else [])
  }

  /** Their zone and log events. */
  function Events(frames: seq<Frame>): seq<Activity> {
    if frames == [] then []
    else
      var event := EventIn(frames[|frames| - 1].body);
      Events(frames[..|frames| - 1]) + (if event.Some? then [event.value] else [])
  }

  lemma EventsOfOneMore(frames: seq<Frame>, frame: Frame)
    ensures Events(frames + [frame]) ==
            Events(frames) + (if EventIn(frame.body).Some? then [EventIn(frame.body).value] else [])
  {
    assert (frames + [frame])[..|frames|] == frames;
  }

  lemma FramesMove(s: State, a: Action, cfg: Settings)
    requires Enabled(s, a) && WithinSession(a)
    ensures (if a.Apply? then [s.inHand.value] else []) + Unapplied(Next(s, a, cfg)) ==
            Unapplied(s) + (if a.Enqueue? || a.TakeFromWire? then [a.frame] else [])
  {
    QueueMoves(s, a, cfg);
    hide Next;
  }

  /** Within a session every frame that arrives is applied once, in the order of arrival, or is
      still waiting. */
  lemma {:induction false} FramesAreAppliedInOrder(s: State, run: seq<Action>, n: nat, cfg: Settings)
    requires Possible(s, run, cfg) && n <= |run|
    requires forall i :: 0 <= i < n ==> WithinSession(run[i])
    ensures Applied(s, run, n, cfg) + Unapplied(At(s, run, n, cfg)) == Unapplied(s) + Arrived(run, n)
    decreases n
  {
    hide Next, Unapplied;
    if n > 0 {
      FramesAreAppliedInOrder(s, run, n - 1, cfg);
      AtNext(s, run, n - 1, cfg);
      var here := At(s, run, n - 1, cfg);
      FramesMove(here, run[n - 1], cfg);
      var taken := if run[n - 1].Apply? then [here.inHand.value] else [];
      var came := if run[n - 1].Enqueue? || run[n - 1].TakeFromWire? then [run[n - 1].frame] else [];
      calc {
        (Applied(s, run, n - 1, cfg) + taken) + Unapplied(At(s, run, n, cfg));
        Applied(s, run, n - 1, cfg) + (taken + Unapplied(At(s, run, n, cfg)));
        Applied(s, run, n - 1, cfg) + (Unapplied(here) + came);
        (Applied(s, run, n - 1, cfg) + Unapplied(here)) + came;
        (Unapplied(s) + Arrived(run, n - 1)) + came;
        Unapplied(s) + (Arrived(run, n - 1) + came);
      }
    }
  }

  lemma HistoryMoves(s: State, a: Action, cfg: Settings)
    requires Enabled(s, a)
    ensures Next(s, a, cfg).history == if a.Apply? then Remember(s.history, s.inHand.value.body) else s.history
  {
    hide HouseFlags, AreaPayload, MayReplaceLive, Edge, PayloadAfterAck, Remember, Observed, CollisionAtEnd;
  }

  /** In every run, over any number of sessions, the memory holds the zone and log events of the
      frames applied, all of them, in order, and nothing else. */
  lemma {:induction false} HistoryIsWhatWasApplied(s: State, run: seq<Action>, n: nat, cfg: Settings)
    requires Possible(s, run, cfg) && n <= |run|
    ensures At(s, run, n, cfg).history == s.history + Events(Applied(s, run, n, cfg))
    decreases n
  {
    hide Next, Possible, Events, EventIn, Remember;
    if n == 0 {
      NothingRemembered(s.history);
    } else {
      HistoryIsWhatWasApplied(s, run, n - 1, cfg);
      AtNext(s, run, n - 1, cfg);
      HistoryMoves(At(s, run, n - 1, cfg), run[n - 1], cfg);
      hide At;
      if run[n - 1].Apply? {
        RememberOne(s.history, Applied(s, run, n - 1, cfg), At(s, run, n - 1, cfg).inHand.value);
      } else {
        assert Applied(s, run, n, cfg) == Applied(s, run, n - 1, cfg);
      }
    }
  }

  lemma NothingRemembered(history: seq<Activity>)
    ensures history + Events([]) == history
  {
    assert history + [] == history;
  }

  lemma RememberOne(history: seq<Activity>, frames: seq<Frame>, frame: Frame)
    ensures Remember(history + Events(frames), frame.body) == history + Events(frames + [frame])
  {
    EventsOfOneMore(frames, frame);
    var events := Events(frames);
    hide Events;
    assert events + [] == events;
  }

  // ----- The snapshots -----

  /** The payload that the reader of step `i` compares its news with. */
  ghost function Known(s: State, run: seq<Action>, i: nat, cfg: Settings): Payload
    requires Possible(s, run, cfg) && i < |run|
  {
    if run[i].Apply? then At(s, run, i, cfg).payload else Remembered(s, run, i, cfg)
  }

  /** The panel tells the listen task of an alarm: by a push, or in the block of a poll or of a
      completed reconnect. */
  ghost predicate TellsOfAlarm(s: State, run: seq<Action>, i: nat, cfg: Settings)
    requires Possible(s, run, cfg) && i < |run|
  {
    AtNext(s, run, i, cfg);
    if run[i].Apply? then AreaPayload(At(s, run, i, cfg).inHand.value.body, cfg) == Some(Triggered)
    else BlockRead(run, i).Some? && HouseFlags(BlockRead(run, i).value, cfg) == Triggered
  }

  ghost predicate NewAlarm(s: State, run: seq<Action>, i: nat, cfg: Settings)
    requires Possible(s, run, cfg) && i < |run|
  {
    TellsOfAlarm(s, run, i, cfg) && Known(s, run, i, cfg) != Triggered
  }

  /** The steps among the first `n` that bring news of an alarm, in order. */
  ghost function NewAlarms(s: State, run: seq<Action>, n: nat, cfg: Settings): (steps: seq<nat>)
    requires Possible(s, run, cfg) && n <= |run|
    ensures forall k :: 0 <= k < |steps| ==> steps[k] < n
  {
    if n == 0 then []
    else NewAlarms(s, run, n - 1, cfg) + (if NewAlarm(s, run, n - 1, cfg) then [n - 1] else [])
  }

  ghost predicate Increasing(steps: seq<nat>) {
    forall j, k :: 0 <= j < k < |steps| ==> steps[j] < steps[k]
  }

  lemma {:induction false} NewAlarmsAreAll(s: State, run: seq<Action>, n: nat, cfg: Settings)
    requires Possible(s, run, cfg) && n <= |run|
    ensures forall i: nat :: i in NewAlarms(s, run, n, cfg) <==> i < n && NewAlarm(s, run, i, cfg)
    ensures Increasing(NewAlarms(s, run, n, cfg))
    decreases n
  {
    hide NewAlarm;
    if n > 0 {
      NewAlarmsAreAll(s, run, n - 1, cfg);
      var earlier, steps := NewAlarms(s, run, n - 1, cfg), NewAlarms(s, run, n, cfg);
      if NewAlarm(s, run, n - 1, cfg) {
        assert steps == earlier + [n - 1] && steps[|earlier|] == n - 1;
      } else {
        assert steps == earlier;
      }
    }
  }

  /** The listen task's steps, told from what it remembers, add a snapshot on its own edge only. */
  lemma AttributesMove(s: State, a: Action, cfg: Settings)
    requires Enabled(s, a)
    ensures var t := Next(s, a, cfg);
            var edge :=
              match a
              case Apply => s.payload != Triggered && AreaPayload(s.inHand.value.body, cfg) == Some(Triggered)
              case PollEnd(flags) =>
                s.listen.previous != Triggered && flags.Some? && HouseFlags(flags.value, cfg) == Triggered
              case AttemptSucceeds => s.listen.entry != Triggered && s.listen.snapshot == Some(Triggered)
              case _ => false;
            t.attributes == s.attributes + (if edge then [InitiatingZone(Recent(t.history))] else [])
  {
    hide HouseFlags, AreaPayload, InitiatingZone, Recent, PayloadAfterAck, Remember, Observed, CollisionAtEnd;
    assert s.attributes + [] == s.attributes;
  }

  lemma {:induction false} EveryNewAlarmIsSnapshotted(s: State, run: seq<Action>, n: nat, cfg: Settings)
    requires Possible(s, run, cfg) && s.listen.Listening? && n <= |run|
    ensures At(s, run, n, cfg).attributes == s.attributes + Zones(s, run, NewAlarms(s, run, n, cfg), cfg)
    decreases n
  {
    hide Next, Enabled, InitiatingZone, Recent, NewAlarm, Possible;
    if n == 0 {
      assert s.attributes + [] == s.attributes;
    } else {
      EveryNewAlarmIsSnapshotted(s, run, n - 1, cfg);
      AtNext(s, run, n - 1, cfg);
      StepSnapshots(s, run, n - 1, cfg);
      var earlier := NewAlarms(s, run, n - 1, cfg);
      if NewAlarm(s, run, n - 1, cfg) {
        assert Zones(s, run, earlier + [n - 1], cfg) ==
               Zones(s, run, earlier, cfg) + [InitiatingZone(Recent(At(s, run, n, cfg).history))];
      } else {
        assert earlier + [] == earlier;
      }
    }
  }

  /** The zone each of these steps names: the one found right after it. */
  ghost function Zones(s: State, run: seq<Action>, steps: seq<nat>, cfg: Settings): seq<Option<byte>>
    requires Possible(s, run, cfg) && forall k :: 0 <= k < |steps| ==> steps[k] < |run|
  {
    seq(|steps|, k requires 0 <= k < |steps| => InitiatingZone(Recent(At(s, run, steps[k] + 1, cfg).history)))
  }

  lemma StepSnapshots(s: State, run: seq<Action>, i: nat, cfg: Settings)
    requires Possible(s, run, cfg) && s.listen.Listening? && i < |run|
    ensures At(s, run, i + 1, cfg).attributes == At(s, run, i, cfg).attributes +
            (if NewAlarm(s, run, i, cfg) then [InitiatingZone(Recent(At(s, run, i + 1, cfg).history))] else [])
  {
    AtNext(s, run, i, cfg);
    RemembersWhenItBegan(s, run, i, cfg);
    var here := At(s, run, i, cfg);
    AttributesMove(here, run[i], cfg);
    if run[i].AttemptSucceeds? {
      ReplacesIffNews(here.listen.entry, WorkingBlock(run, i), cfg);
    }
    hide Next, InitiatingZone, Recent, HouseFlags, Replaces, Began, LatestSnapshot;
  }

  /** From start-up on, in every run and over any number of sessions, the attributes topic got one
      snapshot for each time the panel told the listen task of an alarm that was news to it, in that
      order, and no other. Snapshot `k` names `zone` exactly when that is the zone of the latest
      opening frame among the last 32 zone and log frames applied up to then. */
  lemma SnapshotsTellTheRun(start: Payload, run: seq<Action>, k: nat, zone: byte, cfg: Settings)
    requires Possible(Initial(start), run, cfg)
    ensures var s := Initial(start);
            var steps, published := NewAlarms(s, run, |run|, cfg), At(s, run, |run|, cfg).attributes;
            && |published| == |steps|
            && (k < |steps| ==>
                  (published[k] == Some(zone) <==> NamesZone(Carriers(Applied(s, run, steps[k] + 1, cfg)), zone)))
  {
    hide Next, Enabled, NewAlarm, InitiatingZone, Recent, Applied, Carriers, At, Possible, NamesZone;
    var s := Initial(start);
    var steps := NewAlarms(s, run, |run|, cfg);
    EveryNewAlarmIsSnapshotted(s, run, |run|, cfg);
    if k < |steps| {
      ZoneNamed(s, run, steps[k] + 1, zone, cfg);
    }
  }

  lemma ZoneNamed(s: State, run: seq<Action>, n: nat, zone: byte, cfg: Settings)
    requires Possible(s, run, cfg) && n <= |run| && s.history == []
    ensures InitiatingZone(Recent(At(s, run, n, cfg).history)) == Some(zone) <==>
            NamesZone(Carriers(Applied(s, run, n, cfg)), zone)
  {
    hide InitiatingZone, Recent, Applied, Events, Carriers, NamesZone, At, Possible;
    HistoryIsWhatWasApplied(s, run, n, cfg);
    var history := Events(Applied(s, run, n, cfg));
    assert s.history + history == history;
    InitiatingZoneIsLatestRecent(history, zone);
    NamedByOctets(Applied(s, run, n, cfg), zone);
  }

  // ----- The same in the octets of the frames -----

  /** A zone or log frame, by its octets. */
  predicate CarriesEvent(body: seq<byte>) { |body| >= 3 && (body[0] == 1 || body[0] == 5) }

  /** The bodies of these frames, in order. */
  function Carriers(frames: seq<Frame>): (bodies: seq<seq<byte>>)
    ensures forall i :: 0 <= i < |bodies| ==> CarriesEvent(bodies[i])
  {
    if frames == [] then []
    else
      var last := frames[|frames| - 1].body;
      Carriers(frames[..|frames| - 1]) + (if CarriesEvent(last) then [last] else [])
  }

  /** A zone frame whose third octet has one of its two low bits set. */
  predicate OpensZone(body: seq<byte>)
    requires CarriesEvent(body)
  {
    body[0] == 1 && (TestBit(body[2] as nat, 0) || TestBit(body[2] as nat, 1))
  }

  /** The latest of these frames that opens a zone opens `zone`, and is among the last 32. */
  ghost predicate NamesZone(bodies: seq<seq<byte>>, zone: byte)
    requires forall i :: 0 <= i < |bodies| ==> CarriesEvent(bodies[i])
  {
    exists i :: 0 <= i < |bodies| && LatestToOpen(bodies, i) && bodies[i][1] == zone && |bodies| - i <= 32
  }

  ghost predicate LatestToOpen(bodies: seq<seq<byte>>, i: nat)
    requires i < |bodies| && forall j :: 0 <= j < |bodies| ==> CarriesEvent(bodies[j])
  {
    OpensZone(bodies[i]) && forall j :: i < j < |bodies| ==> !OpensZone(bodies[j])
  }

  lemma EventByOctets(body: seq<byte>)
    ensures EventIn(body).Some? <==> CarriesEvent(body)
    ensures CarriesEvent(body) ==>
              && (EventIn(body).value.Opens() <==> OpensZone(body))
              && (OpensZone(body) ==> EventIn(body).value.zone == body[1])
  {
    if CarriesEvent(body) {
      OpensByBits(body[1], body[2]);
    }
  }

  lemma {:induction false} EventsAreCarried(frames: seq<Frame>)
    ensures |Events(frames)| == |Carriers(frames)|
    ensures forall i :: 0 <= i < |Carriers(frames)| ==> EventIn(Carriers(frames)[i]) == Some(Events(frames)[i])
    decreases |frames|
  {
    hide EventIn, CarriesEvent;
    if frames != [] {
      EventsAreCarried(frames[..|frames| - 1]);
      EventByOctets(frames[|frames| - 1].body);
    }
  }

  lemma NamedByOctets(frames: seq<Frame>, zone: byte)
    ensures NamesZone(Carriers(frames), zone) <==>
            exists i :: 0 <= i < |Events(frames)| && LatestOpening(Events(frames), i)
                        && Events(frames)[i].zone == zone && |Events(frames)| - i <= MAXLEN
  {
    hide EventIn, OpensZone, Events, Carriers;
    EventsAreCarried(frames);
    var events, bodies := Events(frames), Carriers(frames);
    forall i | 0 <= i < |bodies|
      ensures events[i].Opens() <==> OpensZone(bodies[i])
      ensures OpensZone(bodies[i]) ==> events[i].zone == bodies[i][1]
    {
      EventByOctets(bodies[i]);
    }
    assert forall i :: 0 <= i < |bodies| ==> (LatestOpening(events, i) <==> LatestToOpen(bodies, i));
  }

  /** A snapshot goes with a real edge of the shared payload, unless a command wrote the payload
      while the poll or reconnect was under way. */
  lemma SnapshotIffRealEdge(s: State, run: seq<Action>, i: nat, cfg: Settings)
    requires Possible(s, run, cfg) && s.listen.Listening? && i < |run| && ListenSide(run[i])
    requires Known(s, run, i, cfg) == At(s, run, i, cfg).payload
    ensures |At(s, run, i + 1, cfg).attributes| == |At(s, run, i, cfg).attributes| +
            (if At(s, run, i, cfg).payload != Triggered && At(s, run, i + 1, cfg).payload == Triggered then 1 else 0)
  {
    StepSnapshots(s, run, i, cfg);
    ReadOutcome(s, run, i, cfg);
    if BlockRead(run, i).Some? {
      ReplacesIffNews(Remembered(s, run, i, cfg), BlockRead(run, i).value, cfg);
    }
    hide Next, InitiatingZone, Recent, HouseFlags, AreaPayload, Replaces, Began, LatestSnapshot;
  }
}
