/** The bridge with its objects: the code of app.py and arm_commands.py from one await of the panel
    to the next, each piece proved to be one step of the state machine in `Bridge`; and the awaits
    themselves, each a call of the panel client during which nothing but unsolicited frames arrives. */
module AlarmBridge {
  import opened Bytes
  import opened Frames
  import opened Settings
  import opened AreaState
  import opened FlagsGuard
  import opened TriggerSnapshot
  import opened Bridge
  import Client
  import CommandLog
  import Streams
  import Trust
  import opened Watchdog
  import ZoneState

  class ArmGestureGate {
    var lastAckedHaMode: Option<HaMode>

    constructor ()
      ensures lastAckedHaMode.None?
    {
      lastAckedHaMode := None;
    }

    method ObserveLivePayload(payload: Payload)
      modifies this
      ensures lastAckedHaMode == Observed(old(lastAckedHaMode), payload)
    {
      if lastAckedHaMode.None? {
        return;
      }
      if payload == Disarmed {
        lastAckedHaMode := None;
        return;
      }
      if payload.Armed? && payload != Armed(lastAckedHaMode.value) {
        lastAckedHaMode := None;
      }
    }
  }

  /** Read the newest AREA push out of the client's queue, leaving the queue as it was. */
  method AlarmPayloadFromQueuedArea(panel: Client.PanelClient, cfg: Settings) returns (latest: Option<Payload>)
    requires panel.Valid()
    modifies panel`queue
    ensures panel.Valid() && panel.queue == old(panel.queue)
    ensures latest == LatestArea(panel.queue, cfg)
  {
    var frames := panel.TakeQueuedMessages();
    latest := None;
    for i := 0 to |frames|
      invariant panel.queue == [] && latest == LatestArea(frames[..i], cfg)
    {
      var decoded := AreaPayload(frames[i].body, cfg);
      if decoded.Some? {
        latest := decoded;
      }
      assert frames[..i + 1][..i] == frames[..i];
    }
    for i := 0 to |frames|
      invariant panel.queue == frames[..i]
    {
      panel.EnqueueUnsolicited(frames[i]);
    }
    assert frames[..|frames|] == frames;
  }

  /** How a command handler takes the way its call ended; none while the call still waits. */
  function OutcomeOf(r: Client.Result<()>): Option<Outcome> {
    match r
    case Ok(_) => Some(Acked)
    case Raised(ProtocolError(_)) => Some(Nak)
    case Raised(Timeout(_)) => Some(TimedOut)
    case Raised(ForcedDisconnect(why)) => Some(Disconnected(why.OutsideProtocol?))
    case Raised(_) => None
  }

  /** The call still waits: the script of the network is used up. */
  predicate Waits<T>(r: Client.Result<T>) { r.Raised? && r.fault == Client.OutOfScript }

  /** The session is lost. */
  predicate Lost<T>(r: Client.Result<T>) { r.Raised? && r.fault.ForcedDisconnect? }

  /** Lost to bytes outside the protocol. */
  predicate Unreadable<T>(r: Client.Result<T>) { Lost(r) && r.fault.why.OutsideProtocol? }

  function ValueOf(r: Client.Result<seq<byte>>): Option<seq<byte>> {
    if r.Ok? then Some(r.value) else None
  }

  /** The kinds of outcome that an order can have. */
  lemma OrderIsDecided(r: Client.Result<()>, refusal: Option<Client.Fault>, sent: seq<CommandLog.Exchange>,
                       command: seq<byte>)
    requires Client.Asked(refusal, r, sent, command, 1) && refusal != Some(Client.ValueError)
    requires refusal != Some(Client.OutOfScript)
    ensures OutcomeOf(r).None? <==> Waits(r)
    ensures OutcomeOf(r) == Some(Acked) <==> r.Ok?
    ensures OutcomeOf(r) == Some(TimedOut) <==> r.Raised? && r.fault.Timeout?
    ensures Lost(r) ==> OutcomeOf(r) == Some(Disconnected(Unreadable(r)))
    ensures OutcomeOf(r) == Some(Nak) <==> r.Raised? && r.fault.ProtocolError?
  {
    hide Client.Carry;
  }

  /** A session is lost to unreadable bytes exactly when noise is the last that its last wait heard. */
  lemma UnreadableIsNoise<T>(r: Client.Result<T>, sent: seq<CommandLog.Exchange>, retries: nat)
    requires sent != [] && Client.Settles(r, sent, retries) && CommandLog.WellEnded(sent[|sent| - 1])
    ensures var heard := sent[|sent| - 1].heard; Unreadable(r) <==> heard != [] && heard[|heard| - 1].Noise?
    ensures Lost(r) <==> sent[|sent| - 1].ending.Broken?
  {
  }

  // The step that each call ends in; a refusal or a timeout of a flags read is no news.

  function DisarmEnds(r: Client.Result<()>): seq<Action> {
    if OutcomeOf(r).None? then [] else [DisarmReply(OutcomeOf(r).value)]
  }

  function ArmEnds(r: Client.Result<()>): seq<Action> {
    if OutcomeOf(r).None? then [] else [ArmReply(OutcomeOf(r).value)]
  }

  function RefreshEnds(r: Client.Result<seq<byte>>): seq<Action> {
    if Waits(r) then [] else if Lost(r) then [FlagsLost] else [FlagsReply(ValueOf(r))]
  }

  function PollEnds(r: Client.Result<seq<byte>>): seq<Action> {
    if Waits(r) then [] else if Lost(r) then [SessionEnds(Unreadable(r))] else [PollEnd(ValueOf(r))]
  }

  /** What a check-in tells the tracker. */
  function CheckinTells(r: Client.Result<seq<byte>>, now: real): seq<Timed> {
    if r.Ok? then [Timed(now, Trust.CheckinOk)]
    else if Waits(r) || Lost(r) then []
    else [Timed(now, Trust.CheckinRefused)]
  }

  /** `cleared`: no recent command failure; `exhausted`: this refusal outlasts the patience. */
  function CheckinEnds(r: Client.Result<seq<byte>>, cleared: bool, exhausted: bool): seq<Action> {
    if Waits(r) then []
    else if r.Ok? then [LifeSign(cleared)]
    else if Lost(r) || exhausted then [SessionEnds(Unreadable(r))]
    else []
  }

  function AttemptEnds<T>(r: Client.Result<T>, worked: seq<Action>): seq<Action> {
    if Waits(r) then [] else if r.Ok? then worked else [AttemptFails]
  }

  /** The unsolicited frames heard during a call. */
  ghost function FramesHeard(sent: seq<CommandLog.Exchange>): seq<Frame> {
    Streams.Messages(Client.Heard(sent))
  }

  class AlarmBridge {
    const cfg: Settings
    const panel: Client.PanelClient
    const trust: Trust.PanelTrust
    const gate: ArmGestureGate
    const activity: TriggerActivityBuffer

    var payload: Payload
    var inHand: Option<Frame>
    var ready: set<HaMode>
    var listen: Listen
    var command: Command

    /** The retained alarm topic, and everything published on it and on the attributes topic. */
    ghost var topic: Payload
    ghost var published: seq<Payload>
    ghost var attributes: seq<Option<byte>>

    /** What the tracker has been told since it was reset at start-up. */
    ghost var began: real
    ghost var signals: seq<Timed>

    ghost function View(): State
      reads this, panel, trust, gate, activity
    {
      State(payload, topic, panel.queue, inHand, gate.lastAckedHaMode, trust.lastAckedArm,
            trust.sessionCollision, ready, listen, command, activity.history, attributes, trust.live, trust.link)
    }

    /** The tracker is what those signals make of it. */
    ghost predicate Replayed()
      reads `began, `signals, trust`live, trust`lastCommandFailAt, trust`degradedSince, trust`checkinFailureSince
      reads trust`lastPollAttemptAt
    {
      Dated(began, signals) && trust.State() == Replay(trust.windows, Trust.Fresh(began), signals)
    }

    /** The clock does not run backwards. */
    ghost predicate NotEarlier(now: real)
      reads `began, `signals
    {
      UpTo(began, signals, now)
    }

    ghost predicate Shown()
      reads `topic, `published
    {
      published != [] && published[|published| - 1] == topic
    }

    /** Unsolicited frames are conserved, the tracker has heard every signal, while monitoring the link
        topic says what it says, and a mode being armed is one the panel has. */
    ghost predicate Valid()
      reads this, panel, trust, activity
    {
      && panel.Valid() && trust.Valid() && activity.Valid() && Replayed() && Shown()
      && (!listen.Reconnecting? ==> trust.LinkAgrees())
      && (command.AwaitArm? ==> cfg.ModeByteForHaMode(command.mode).Some?)
    }

    constructor (cfg: Settings, panel: Client.PanelClient, trust: Trust.PanelTrust, snapshot: Payload, now: real)
      requires panel.Valid() && trust.Valid() && panel.queue == []
      modifies trust
      ensures Valid() && View() == Initial(snapshot).(link := old(trust.link) + [true])
      ensures this.cfg == cfg && this.panel == panel && this.trust == trust
      ensures began == now && signals == [] && published == [snapshot]
    {
      this.cfg, this.panel, this.trust := cfg, panel, trust;
      gate := new ArmGestureGate();
      activity := new TriggerActivityBuffer();
      payload, inHand, ready, listen, command := snapshot, None, {Away, Home, Night}, Listening, Ready;
      topic, published, attributes := snapshot, [snapshot], [];
      began, signals := now, [];
      new;
      trust.ResetAfterReconnect(now);
    }

    /** The tracker has just taken a signal. */
    ghost method Tell(signal: Trust.Signal, now: real, before: Trust.Health)
      requires Dated(began, signals) && NotEarlier(now)
      requires before == Replay(trust.windows, Trust.Fresh(began), signals)
      requires trust.State() == Trust.After(trust.windows, before, signal, now)
      modifies `signals
      ensures Replayed() && signals == old(signals) + [Timed(now, signal)]
    {
      hide Trust.After;
      OneMoreSignal(began, signals, Timed(now, signal));
      ReplayOneMore(trust.windows, Trust.Fresh(began), signals, Timed(now, signal));
      signals := signals + [Timed(now, signal)];
    }

    /** At any moment: the link is thought dead, and while monitoring shown OFF, exactly while some
        command failure was never cleared. */
    lemma LinkTellsSignals()
      requires Valid()
      ensures trust.live <==> !exists i :: StaysDown(trust.windows, signals, i)
      ensures !listen.Reconnecting? ==> trust.link != [] && trust.link[|trust.link| - 1] == trust.live
    {
      hide Client.PanelClient.Valid, StaysDown;
      DownIff(trust.windows, began, signals);
    }

    method PublishAlarmState(payload: Payload)
      modifies `topic, `published
      ensures topic == payload && published == old(published) + [payload]
      ensures View() == old(View()).(topic := payload) && (old(Valid()) ==> Valid())
    {
      topic, published := payload, published + [payload];
    }

    method MaybePublishTriggerSnapshot(previous: Payload, current: Payload)
      requires Valid()
      modifies `attributes
      ensures Valid()
      ensures attributes == old(attributes) + SnapshotOnEdge(Some(previous), current, Recent(activity.history))
      ensures View() == old(View()).(attributes := old(attributes) + Edge(old(View()), previous, current))
    {
      hide Client.PanelClient.Valid, AlarmBridge.Replayed;
      if current != Triggered || previous == Triggered {
        assert attributes == attributes + [];
        return;
      }
      var zone := activity.LatestOpen();
      attributes := attributes + [zone];
    }

    method ObserveLiveAlarmPayload(seen: Payload)
      modifies gate, trust`lastAckedArm
      ensures gate.lastAckedHaMode == Observed(old(gate.lastAckedHaMode), seen)
      ensures trust.lastAckedArm ==
              if old(gate.lastAckedHaMode).Some? && gate.lastAckedHaMode.None? then None else old(trust.lastAckedArm)
      ensures View() == Observe(old(View()), seen) && (old(Valid()) ==> Valid())
    {
      hide Observed, Client.PanelClient.Valid, AlarmBridge.Replayed;
      var previous := gate.lastAckedHaMode;
      gate.ObserveLivePayload(seen);
      if previous.Some? && gate.lastAckedHaMode.None? {
        trust.lastAckedArm := None;
      }
    }

    /** What an acknowledgement leaves in both memories. */
    method RememberArm(mode: Option<HaMode>)
      requires Valid()
      modifies gate, trust`lastAckedArm
      ensures Valid() && View() == old(View()).(gate := mode, acked := mode)
      ensures gate.lastAckedHaMode == trust.lastAckedArm == mode
    {
      hide Client.PanelClient.Valid, AlarmBridge.Replayed;
      gate.lastAckedHaMode := mode;
      trust.lastAckedArm := mode;
    }

    /** Monitoring resumes: the tracker forgets everything and shows the link ON. */
    method ResetTrust(now: real)
      requires Valid() && listen.Reconnecting? && NotEarlier(now)
      modifies `listen, `signals, trust
      ensures Valid() && signals == old(signals) + [Timed(now, Trust.Reconnected)]
      ensures View() == var s := old(View());
                        s.(listen := Listening, acked := None, collision := false, live := true,
                           link := s.link + [true])
      ensures trust.live && trust.link == old(trust.link) + [true]
    {
      hide Client.PanelClient.Valid, Trust.After, Dated, UpTo, Replay;
      ghost var before := trust.State();
      trust.ResetAfterReconnect(now);
      listen := Listening;
      Tell(Trust.Reconnected, now, before);
    }

    method NoteSessionCollision()
      requires Valid()
      modifies trust`sessionCollision
      ensures Valid() && View() == old(View()).(collision := true) && trust.sessionCollision
    {
      hide Client.PanelClient.Valid, AlarmBridge.Replayed;
      trust.sessionCollision := true;
    }

    /** A failed command: the link is shown OFF at once. */
    method Degrade(now: real)
      requires Valid() && NotEarlier(now)
      modifies `signals, trust
      ensures trust.sessionCollision == old(trust.sessionCollision)
      ensures Valid() && View() == Degraded(old(View())) && signals == old(signals) + [Timed(now, Trust.CommandFailed)]
      ensures !trust.live && trust.link == old(trust.link) + [false]
    {
      hide Client.PanelClient.Valid, Trust.After, Dated, UpTo, Replay;
      ghost var before := trust.State();
      trust.RecordCommandFailure(now);
      Tell(Trust.CommandFailed, now, before);
    }

    // ----- The listen task -----

    method TakeMessage(entering: bool, script: seq<CommandLog.Net>)
      returns (r: Client.Result<Option<Frame>>, rest: seq<CommandLog.Net>,
               ghost took: seq<Streams.Item>, ghost used: seq<CommandLog.Net>)
      requires Valid() && listen.Listening? && inHand.None?
      modifies `inHand, panel
      ensures Valid()
      ensures r.Ok? && r.value.Some? ==>
                View() == Next(old(View()),
                               if old(panel.queue) != [] then TakeQueued else TakeFromWire(r.value.value), cfg)
      ensures r.Raised? || r.value.None? ==> View() == old(View())
      ensures panel.items == old(panel.items) + took && Client.Read(script, used, rest, old(panel.wire), panel.wire)
      ensures old(panel.queue) != [] ==> r == Client.Ok(Some(old(panel.queue)[0])) && took == [] && used == []
      ensures old(panel.queue) == [] ==>
                Client.TurnEnds(r, entering, old(panel.connected), old(panel.NotConnected()), script, took, used, rest)
    {
      hide Client.PanelClient.Valid, Client.TurnEnds, Client.Read, AlarmBridge.Replayed;
      r, rest, took, used := panel.RecvMessage(entering, script);
      if r.Ok? && r.value.Some? {
        inHand := r.value;
      }
    }

    /** Whether a sign of life at this moment would clear the failed commands. */
    ghost predicate Cleared(now: real)
      reads `signals
    {
      FailuresCleared(trust.windows, signals, now)
    }

    /** Some check-in was refused at least the patience ago, and none has been answered since. */
    ghost predicate PatienceOver(now: real)
      reads `signals
    {
      exists i :: Unanswered(signals, i) && now - signals[i].at >= trust.windows.patience
    }

    /** Some failed command was never cleared, at least the fail window ago. */
    ghost predicate DownTooLong(now: real)
      reads `signals
    {
      exists i :: StaysDown(trust.windows, signals, i) && now - signals[i].at >= trust.windows.fail
    }

    /** No poll was attempted, and no reconnect completed, within the poll interval. */
    ghost predicate PollIsDue(now: real)
      reads `began, `signals
    {
      && now - began >= trust.windows.pollInterval
      && forall i :: 0 <= i < |signals| && signals[i].signal in {Trust.PollAttempt, Trust.Reconnected} ==>
           now - signals[i].at >= trust.windows.pollInterval
    }

    method NotePanelTraffic(now: real)
      requires Valid() && listen.Listening? && NotEarlier(now)
      modifies `signals, trust
      ensures Valid() && signals == old(signals) + [Timed(now, Trust.Traffic)]
      ensures trust.checkinFailureSince == old(trust.checkinFailureSince)
      ensures View() == Next(old(View()), LifeSign(old(Cleared(now))), cfg)
    {
      hide Client.PanelClient.Valid, Dated, UpTo, Replay, FailuresCleared;
      SignsOfLife(now);
      ghost var before := trust.State();
      trust.NotePanelTraffic(now);
      Tell(Trust.Traffic, now, before);
    }

    lemma SignsOfLife(now: real)
      requires Replayed()
      ensures Trust.CommandFailureCleared(trust.windows, trust.State(), now) <==> Cleared(now)
    {
      ClearedIff(trust.windows, began, signals, now);
    }

    /** The check-in was answered. */
    method NoteKeepaliveOk(now: real)
      requires Valid() && listen.Listening? && NotEarlier(now)
      modifies `signals, trust
      ensures Valid() && signals == old(signals) + [Timed(now, Trust.CheckinOk)] && trust.checkinFailureSince.None?
      ensures View() == Next(old(View()), LifeSign(old(Cleared(now))), cfg)
    {
      hide Client.PanelClient.Valid, Dated, UpTo, Replay, FailuresCleared;
      SignsOfLife(now);
      ghost var before := trust.State();
      trust.NoteKeepaliveOk(now);
      Tell(Trust.CheckinOk, now, before);
    }

    method NoteCheckinFailed(now: real) returns (exceeded: bool)
      requires Valid() && listen.Listening? && NotEarlier(now)
      modifies `signals, trust`checkinFailureSince
      ensures Valid() && signals == old(signals) + [Timed(now, Trust.CheckinRefused)]
      ensures View() == old(View()) && exceeded == PatienceOver(now)
    {
      hide Client.PanelClient.Valid, Trust.After, UpTo, Replay, Unanswered;
      ghost var before := trust.State();
      trust.NoteCheckinFailed(now);
      Tell(Trust.CheckinRefused, now, before);
      PatienceExceededIff(trust.windows, began, signals, now);
      exceeded := Trust.CheckinPatienceExceeded(trust.windows, trust.State(), now);
    }

    /** The listen task has learnt what the house is in: published, snapshotted, shared and observed. */
    method PublishLive(previous: Payload, current: Payload)
      requires Valid()
      modifies `payload, `topic, `published, `attributes, gate, trust`lastAckedArm
      ensures Valid() && View() == Bridge.Publish(old(View()), previous, current)
      ensures topic == payload == current && published == old(published) + [current]
      ensures attributes == old(attributes) + (if current == Triggered && previous != Triggered
                                               then [InitiatingZone(Recent(activity.history))] else [])
    {
      hide InitiatingZone, Recent, Observed, Client.PanelClient.Valid, AlarmBridge.Replayed;
      PublishAlarmState(current);
      MaybePublishTriggerSnapshot(previous, current);
      payload := current;
      ObserveLiveAlarmPayload(current);
    }

    /** A HOUSE AREA push is published, snapshotted, shared and observed; zone and log events are kept for
        the snapshots; nothing else leaves a trace. */
    method ApplyMessage()
      requires Valid() && listen.Listening? && inHand.Some?
      modifies `inHand, `payload, `topic, `published, `attributes, gate, trust`lastAckedArm, activity
      ensures Valid() && View() == Next(old(View()), Apply, cfg)
      ensures var body := old(inHand).value.body;
              if HousePush(body) then
                && Says(body[2], payload, cfg) && topic == payload && published == old(published) + [payload]
                && attributes == old(attributes) +
                                 (if body[2] == 5 && old(payload) != Triggered
                                  then [InitiatingZone(Recent(activity.history))] else [])
              else
                payload == old(payload) && published == old(published) && attributes == old(attributes)
      ensures var body := old(inHand).value.body;
              activity.history == old(activity.history) +
                                  (if |body| >= 3 && body[0] == 1 then [ZoneActivity(body[1], body[2])]
                                   else if |body| >= 3 && body[0] == 5 then [LogActivity(body[1], body[2])]
                                   else [])
    {
      hide AreaPayload, InitiatingZone, Recent, Bridge.Publish, Says, Client.PanelClient.Valid, AlarmBridge.Replayed;
      var body := inHand.value.body;
      inHand := None;
      PushDecode(body, cfg);
      if body == [] {
        return;
      }
      if body[0] == MSG_ZONE {
        if |body| >= 3 {
          activity.Record(ZoneActivity(body[1], body[2]));
        }
      } else if body[0] == MSG_LOG {
        if |body| >= 3 {
          activity.Record(LogActivity(body[1], body[2]));
        }
      } else if body[0] == MSG_AREA {
        var newPayload := AreaPayload(body, cfg);
        if newPayload.Some? {
          AlarmOctet(body[2], newPayload.value, cfg);
          PublishLive(payload, newPayload.value);
        }
      }
    }

    lemma AlarmOctet(state: byte, said: Payload, cfg: Settings)
      requires Says(state, said, cfg)
      ensures said == Triggered <==> state == 5
    {
    }

    /** A due poll begins: what is known now is what its reply will be compared with. */
    method BeginPollIfDue(now: real) returns (due: bool)
      requires Valid() && listen.Listening? && NotEarlier(now)
      modifies `listen, `signals, trust`lastPollAttemptAt
      ensures Valid() && due == old(PollIsDue(now))
      ensures View() == if due then Next(old(View()), PollBegin, cfg) else old(View())
      ensures signals == old(signals) + (if due then [Timed(now, Trust.PollAttempt)] else [])
      ensures due ==> listen == Polling(payload)
    {
      hide Client.PanelClient.Valid, Trust.After, UpTo, Replay;
      PollDueIff(trust.windows, began, signals, now);
      due := Trust.PollDue(trust.windows, trust.State(), now);
      if due {
        BeginPoll(now);
      }
    }

    method BeginPoll(now: real)
      requires Valid() && listen.Listening? && NotEarlier(now)
      modifies `listen, `signals, trust`lastPollAttemptAt
      ensures Valid() && View() == Next(old(View()), PollBegin, cfg)
      ensures signals == old(signals) + [Timed(now, Trust.PollAttempt)] && listen == Polling(payload)
    {
      hide Client.PanelClient.Valid, Trust.After, Dated, UpTo, Replay;
      ghost var before := trust.State();
      trust.NotePollAttempt(now);
      listen := Polling(payload);
      Tell(Trust.PollAttempt, now, before);
    }

    method EndPoll(flags: Option<seq<byte>>)
      requires Valid() && listen.Polling?
      modifies `listen, `payload, `topic, `published, `attributes, gate, trust`lastAckedArm
      ensures Valid() && View() == Next(old(View()), PollEnd(flags), cfg) && listen.Listening?
      ensures published == old(published) +
                           (if flags.Some? && Replaces(old(listen).previous, flags.value, cfg)
                            then [HouseFlags(flags.value, cfg)] else [])
    {
      hide Bridge.Publish, HouseFlags, MayReplaceLive, Client.PanelClient.Valid;
      hide AlarmBridge.Replayed;
      var previous := listen.previous;
      listen := Listening;
      if flags.None? {
        return;
      }
      var decoded := HouseFlags(flags.value, cfg);
      if !MayReplaceLive(Some(previous), decoded, false, false) {
        return;
      }
      PublishLive(previous, decoded);
    }

    /** The listen loop returns. */
    method LeaveListening(unreadable: bool)
      requires Valid()
      modifies trust`sessionCollision
      ensures Valid() && trust.sessionCollision == CollisionAtEnd(old(View()), unreadable)
      ensures trust.sessionCollision <==>
                || old(trust.sessionCollision)
                || (unreadable && (payload in {Arming, Pending} || trust.lastAckedArm.Some?))
    {
      hide Client.PanelClient.Valid, AlarmBridge.Replayed, AlarmBridge.Shown;
      if unreadable && (payload == Arming || payload == Pending || trust.lastAckedArm.Some?) {
        trust.sessionCollision := true;
      }
    }

    /** The listen loop returns, and the reconnect begins with the collision flag it consumes: one noted
        earlier, or unreadable bytes during a delay or while an acknowledged arm is remembered. */
    method EndSession(unreadable: bool) returns (collision: bool)
      requires Valid() && !listen.Reconnecting?
      modifies `inHand, `listen, trust`sessionCollision, trust`link
      ensures collision <==> || old(trust.sessionCollision)
                             || (unreadable && (payload in {Arming, Pending} || trust.lastAckedArm.Some?))
      ensures listen == Reconnecting(payload, None, collision) && inHand.None? && !trust.sessionCollision
      ensures trust.link == old(trust.link) + (if collision then [] else [false])
      ensures Valid() && View() == Next(old(View()), SessionEnds(unreadable), cfg)
    {
      SessionEndIsHandled(View(), unreadable, cfg);
      hide Next, Valid, CollisionAtEnd, AlarmBridge.Replayed;
      LeaveListening(unreadable);
      collision := StartReconnect();
    }

    /** The reconnect begins: what is known now is what its snapshot will be compared with. */
    method StartReconnect() returns (collision: bool)
      requires Valid() && !listen.Reconnecting?
      modifies `inHand, `listen, trust`sessionCollision, trust`link
      ensures collision == old(trust.sessionCollision)
      ensures listen == Reconnecting(payload, None, collision) && inHand.None? && !trust.sessionCollision
      ensures trust.link == old(trust.link) + (if collision then [] else [false])
      ensures Valid()
    {
      hide Client.PanelClient.Valid, Trust.PanelTrust.Valid, Trust.PanelTrust.LinkAgrees;
      hide TriggerActivityBuffer.Valid, AlarmBridge.Replayed, AlarmBridge.Shown;
      inHand := None;
      collision := trust.ConsumeSessionCollision();
      listen := Reconnecting(payload, None, collision);
      if !collision {
        trust.PublishLink(false);
      }
    }

    /** One reconnect attempt up to its open connection: close, wait, connect. The connect starts the
        unsolicited queue afresh. */
    method BeginAttempt(reachable: bool) returns (ok: bool)
      requires Valid() && listen.Reconnecting? && listen.snapshot.None?
      modifies panel
      ensures Valid() && ok == reachable == panel.connected && !panel.authenticated
      ensures View() == if ok then Next(old(View()), Reconnect, cfg) else old(View())
    {
      hide Client.PanelClient.Valid, AlarmBridge.Replayed;
      panel.Close();
      ok := panel.Connect(reachable);
    }

    method FailAttempt()
      requires Valid() && listen.Reconnecting?
      modifies `listen, trust`link
      ensures Valid() && View() == Next(old(View()), AttemptFails, cfg)
      ensures listen == Reconnecting(old(listen).entry, None, false)
      ensures trust.link == old(trust.link) + (if old(listen).quiet then [false] else [])
    {
      hide Client.PanelClient.Valid, AlarmBridge.Replayed;
      var firstAfterCollision := listen.quiet;
      listen := Reconnecting(listen.entry, None, false);
      if firstAfterCollision {
        trust.PublishLink(false);
      }
    }

    method TakeSnapshot(flags: seq<byte>)
      requires Valid() && listen.Reconnecting? && listen.snapshot.None?
      modifies `listen, `topic, `published
      ensures Valid() && View() == Next(old(View()), Snapshot(flags), cfg)
      ensures listen == old(listen).(snapshot := Some(SnapshotResult(old(listen).entry, flags, cfg)))
      ensures published == old(published) +
                           (if Replaces(old(listen).entry, flags, cfg) then [HouseFlags(flags, cfg)] else [])
    {
      hide HouseFlags, MayReplaceLive, Client.PanelClient.Valid, AlarmBridge.Replayed;
      var entry := listen.entry;
      var decoded := HouseFlags(flags, cfg);
      if !MayReplaceLive(Some(entry), decoded, false, false) {
        listen := listen.(snapshot := Some(entry));
        return;
      }
      PublishAlarmState(decoded);
      listen := listen.(snapshot := Some(decoded));
    }

    /** The attempt subscribed to events: reconnect returns and monitoring resumes. */
    method FinishReconnect(now: real)
      requires Valid() && listen.Reconnecting? && listen.snapshot.Some? && NotEarlier(now)
      modifies `listen, `payload, `attributes, `signals, gate, trust
      ensures Valid() && View() == Next(old(View()), AttemptSucceeds, cfg)
      ensures listen.Listening? && payload == old(listen).snapshot.value
      ensures signals == old(signals) + [Timed(now, Trust.Reconnected)]
      ensures trust.link == old(trust.link) + [true, true] && trust.live
    {
      hide Client.PanelClient.Valid, Trust.PanelTrust.Valid, Trust.PanelTrust.LinkAgrees, TriggerActivityBuffer.Valid;
      hide Next, Observe, Edge, Valid, UpTo, AlarmBridge.Replayed;
      var entry, result := listen.entry, listen.snapshot.value;
      ghost var before := View();
      ReconnectIsHandled(before, cfg);
      Return(result);
      if result != Disarmed {
        ObserveLiveAlarmPayload(result);
      }
      ResetTrust(now);
      MaybePublishTriggerSnapshot(entry, result);
    }

    /** Reconnect shows the link ON and hands back its payload. */
    method Return(result: Payload)
      requires Valid() && listen.Reconnecting?
      modifies `payload, trust`link
      ensures Valid() && View() == old(View()).(payload := result, link := old(View()).link + [true])
    {
      hide Client.PanelClient.Valid, AlarmBridge.Replayed;
      trust.PublishLink(true);
      payload := result;
    }

    // ----- The command task -----

    /** A disarm is sent unless the house is known to be unset, an arm if the panel has the mode, it is
        ready, and the house neither is armed in it nor has been asked to be. An arm refused for not being
        ready is bounced: Arming is flashed, then the present state published again. */
    method ReceiveText(text: Text)
      requires Valid() && command.Ready?
      modifies `command, `topic, `published
      ensures Valid() && View() == Next(old(View()), Receive(text), cfg)
      ensures command.AwaitDisarm? <==> text.DisarmText? && payload != Disarmed
      ensures forall mode :: command == AwaitArm(mode) <==>
                && text == ArmText(mode) && (mode == Away || For(mode) in {cfg.partArm1, cfg.partArm2, cfg.partArm3})
                && mode in ready && payload != Armed(mode) && gate.lastAckedHaMode != Some(mode)
      ensures command.AwaitDisarm? || command.AwaitArm? || command.Ready?
      ensures published == old(published) +
                           (if text.ArmText? && cfg.ModeByteForHaMode(text.mode).Some? && text.mode !in ready
                            then if payload == Arming then [payload] else [Arming, payload] else [])
    {
      hide Client.PanelClient.Valid, AlarmBridge.Replayed;
      if text.DisarmText? {
        if payload == Disarmed {
          return;
        }
        command := AwaitDisarm;
        return;
      }
      if text.OtherText? {
        return;
      }
      var mode := text.mode;
      if cfg.ModeByteForHaMode(mode).None? {
        return;
      }
      if mode !in ready {
        if payload != Arming {
          PublishAlarmState(Arming);
        }
        PublishAlarmState(payload);
        return;
      }
      if payload == Armed(mode) {
        return;
      }
      if gate.lastAckedHaMode == Some(mode) {
        return;
      }
      command := AwaitArm(mode);
    }

    method HandleReadyCommand(mode: HaMode, on: bool)
      requires Valid()
      modifies `ready
      ensures Valid() && View() == Next(old(View()), SetReady(mode, on), cfg)
      ensures forall m :: m in ready <==> if m == mode then on else m in old(ready)
    {
      ready := if on then ready + {mode} else ready - {mode};
    }

    /** Flags are asked for exactly after an ACK at which the peek does not say unset. */
    method FinishDisarm(outcome: Outcome, now: real)
      requires Valid() && command.AwaitDisarm? && NotEarlier(now)
      modifies `command, `payload, `signals, gate, trust, panel`queue
      ensures Valid() && View() == Next(old(View()), DisarmReply(outcome), cfg)
      ensures var peek := PayloadAfterAck(old(View()), cfg);
              command == if outcome.Acked? && peek != Disarmed then AwaitFlags(peek) else Ready
      ensures outcome.Acked? ==> gate.lastAckedHaMode.None? && trust.lastAckedArm.None?
      ensures if outcome.Acked?
              then trust.live == old(trust.live) && trust.link == old(trust.link) && signals == old(signals)
              else !trust.live && trust.link == old(trust.link) + [false]
                   && signals == old(signals) + [Timed(now, Trust.CommandFailed)]
    {
      DisarmReplyIsHandled(View(), outcome, cfg);
      hide PayloadAfterAck, Next, Client.PanelClient.Valid, Trust.PanelTrust.Valid, Trust.PanelTrust.LinkAgrees;
      hide UpTo, AlarmBridge.Replayed, AlarmBridge.Shown;
      if !outcome.Acked? {
        command := Ready;
        Degrade(now);
        return;
      }
      FinishAckedDisarm();
    }

    /** The look into the queue, and what it saves. */
    method FinishAckedDisarm()
      requires Valid() && command.AwaitDisarm?
      modifies `command, `payload, gate, trust`lastAckedArm, panel`queue
      ensures Valid() && View() == HandleDisarmReply(old(View()), Acked, cfg)
      ensures var peek := PayloadAfterAck(old(View()), cfg);
              command == if peek != Disarmed then AwaitFlags(peek) else Ready
      ensures gate.lastAckedHaMode.None? && trust.lastAckedArm.None?
    {
      hide LatestArea, Client.PanelClient.Valid, Trust.PanelTrust.Valid, Trust.PanelTrust.LinkAgrees;
      hide AlarmBridge.Replayed, AlarmBridge.Shown;
      command := Ready;
      RememberArm(None);
      var current := payload;
      var queued := AlarmPayloadFromQueuedArea(panel, cfg);
      if queued.Some? {
        current := queued.value;
      }
      if RoundTripNeeded(Some(current), false, true) {
        command := AwaitFlags(current);
        return;
      }
      if current == Disarmed {
        payload := current;
      }
    }

    method FinishRefresh(flags: Option<seq<byte>>)
      requires Valid() && command.AwaitFlags?
      modifies `command, `payload, `topic, `published
      ensures Valid() && View() == Next(old(View()), FlagsReply(flags), cfg) && command.Ready?
      ensures published == old(published) +
                           (if flags.Some? && Told(flags.value) != old(command).current
                            then [Told(flags.value)] else [])
    {
      FlagsReplyIsHandled(View(), flags, cfg);
      hide Next, Valid, Told, HouseFlags, MayReplaceLive, CoerceAfterDisarm;
      var current := command.current;
      if flags.None? {
        EndRefresh();
        return;
      }
      var decoded := CoerceAfterDisarm(HouseFlags(flags.value, cfg));
      RefreshIsNews(current, flags.value);
      EndRefresh();
      if MayReplaceLive(Some(current), decoded, false, true) {
        ShareRefresh(decoded);
      }
    }

    method EndRefresh()
      requires Valid()
      modifies `command
      ensures Valid() && View() == old(View()).(command := Ready) && command.Ready?
    {
      hide Client.PanelClient.Valid, AlarmBridge.Replayed, AlarmBridge.Shown;
      command := Ready;
    }

    method ShareRefresh(decoded: Payload)
      requires Valid()
      modifies `payload, `topic, `published
      ensures Valid() && View() == old(View()).(topic := decoded, payload := decoded)
      ensures published == old(published) + [decoded]
    {
      hide Client.PanelClient.Valid, AlarmBridge.Replayed;
      PublishAlarmState(decoded);
      payload := decoded;
    }

    lemma RefreshIsNews(current: Payload, flags: seq<byte>)
      ensures var decoded := CoerceAfterDisarm(HouseFlags(flags, cfg));
              decoded == Told(flags) && (MayReplaceLive(Some(current), decoded, false, true) <==> decoded != current)
    {
      RefreshIsTold(flags, cfg);
      FlagsAreSettled(flags, 1, 1, cfg);
      SettledGuard(current, HouseFlags(flags, cfg));
      hide MayReplaceLive, DecodeAreaHaState;
    }

    method LoseRefresh()
      requires Valid() && command.AwaitFlags?
      modifies `command, trust`sessionCollision
      ensures Valid() && View() == Next(old(View()), FlagsLost, cfg)
      ensures command.Ready? && trust.sessionCollision
    {
      hide Client.PanelClient.Valid, AlarmBridge.Replayed;
      command := Ready;
      NoteSessionCollision();
    }

    /** True if the session was lost to a collision, which the caller passes on: unreadable bytes once
        the arm had been acknowledged or had shown. */
    method FinishArm(outcome: Outcome, now: real) returns (raised: bool)
      requires Valid() && command.AwaitArm? && NotEarlier(now)
      modifies `command, `topic, `published, `signals, gate, trust
      ensures Valid() && View() == Next(old(View()), ArmReply(outcome), cfg)
      ensures command.Ready? && trust.sessionCollision == (old(trust.sessionCollision) || raised)
      ensures outcome.Acked? ==> gate.lastAckedHaMode == trust.lastAckedArm == Some(old(command).mode)
      ensures raised <==> outcome == Disconnected(true)
                          && (old(trust.lastAckedArm) == Some(old(command).mode)
                              || payload in {Arming, Pending, Armed(old(command).mode)})
      ensures if outcome.Acked? || raised
              then trust.live == old(trust.live) && trust.link == old(trust.link) && signals == old(signals)
              else !trust.live && trust.link == old(trust.link) + [false]
                   && signals == old(signals) + [Timed(now, Trust.CommandFailed)]
      ensures published == old(published) +
                           (if outcome.Nak? || outcome.TimedOut?
                               || (outcome.Disconnected? && !raised && payload !in {Arming, Pending})
                            then [payload] else [])
    {
      ArmReplyIsHandled(View(), outcome, cfg);
      hide Next, Valid, AlarmBridge.NotEarlier, Degraded;
      raised := false;
      match outcome {
        case Acked => KeepArm();
        case Nak | TimedOut => RefuseArm(now);
        case Disconnected(unreadable) => raised := LoseArm(unreadable, now);
      }
    }

    method KeepArm()
      requires Valid() && command.AwaitArm?
      modifies `command, gate, trust`lastAckedArm
      ensures Valid() && View() == HandleArmReply(old(View()), Acked) && command.Ready?
      ensures gate.lastAckedHaMode == trust.lastAckedArm == Some(old(command).mode)
    {
      hide Client.PanelClient.Valid, AlarmBridge.Replayed, AlarmBridge.Shown, Trust.PanelTrust.LinkAgrees;
      var mode := command.mode;
      command := Ready;
      RememberArm(Some(mode));
    }

    method RefuseArm(now: real)
      requires Valid() && command.AwaitArm? && NotEarlier(now)
      modifies `command, `topic, `published, `signals, trust
      ensures Valid() && View() == HandleArmReply(old(View()), Nak) == HandleArmReply(old(View()), TimedOut)
      ensures !trust.live && trust.link == old(trust.link) + [false]
      ensures command.Ready? && trust.sessionCollision == old(trust.sessionCollision)
      ensures signals == old(signals) + [Timed(now, Trust.CommandFailed)] && published == old(published) + [payload]
    {
      hide Client.PanelClient.Valid, AlarmBridge.Replayed, AlarmBridge.Shown, Trust.PanelTrust.LinkAgrees, UpTo;
      command := Ready;
      Degrade(now);
      PublishAlarmState(payload);
    }

    method LoseArm(unreadable: bool, now: real) returns (raised: bool)
      requires Valid() && command.AwaitArm? && NotEarlier(now)
      modifies `command, `topic, `published, `signals, trust
      ensures raised <==> unreadable && (old(trust.lastAckedArm) == Some(old(command).mode)
                                         || payload in {Arming, Pending, Armed(old(command).mode)})
      ensures if raised then trust.live == old(trust.live) && trust.link == old(trust.link) && signals == old(signals)
              else !trust.live && trust.link == old(trust.link) + [false]
                   && signals == old(signals) + [Timed(now, Trust.CommandFailed)]
      ensures published == old(published) + (if !raised && payload !in {Arming, Pending} then [payload] else [])
      ensures command.Ready? && trust.sessionCollision == (old(trust.sessionCollision) || raised)
      ensures Valid() && View() == HandleArmReply(old(View()), Disconnected(unreadable))
    {
      hide Client.PanelClient.Valid, Trust.PanelTrust.Valid, Trust.PanelTrust.LinkAgrees;
      hide TriggerActivityBuffer.Valid, UpTo, AlarmBridge.Replayed, AlarmBridge.Shown;
      var mode := command.mode;
      command := Ready;
      var alreadyAcked := trust.lastAckedArm == Some(mode)
                          || payload == Arming || payload == Pending || payload == Armed(mode);
      if alreadyAcked && unreadable {
        NoteSessionCollision();
        return true;
      }
      Degrade(now);
      if payload != Arming && payload != Pending {
        PublishAlarmState(payload);
      }
      return false;
    }

    // ----- The awaits: a call of the panel client, and what its caller does next -----

    /** One turn of waiting for a frame. If it loses the session, the listen loop returns; if it yields
        nothing, nothing has changed. */
    method AwaitMessage(entering: bool, script: seq<CommandLog.Net>)
      returns (r: Client.Result<Option<Frame>>, rest: seq<CommandLog.Net>,
               ghost took: seq<Streams.Item>, ghost used: seq<CommandLog.Net>)
      requires Valid() && listen.Listening? && inHand.None?
      modifies `inHand, `listen, panel, trust`sessionCollision, trust`link
      ensures Valid() && (listen.Reconnecting? <==> Lost(r))
      ensures View() ==
              if r.Ok? && r.value.Some? then
                Next(old(View()), if old(panel.queue) != [] then TakeQueued else TakeFromWire(r.value.value), cfg)
              else if Lost(r) then Next(old(View()), SessionEnds(Unreadable(r)), cfg)
              else old(View())
      ensures Unreadable(r) <==> took != [] && took[0].Noise?
      ensures panel.items == old(panel.items) + took && Client.Read(script, used, rest, old(panel.wire), panel.wire)
      ensures old(panel.queue) != [] ==> r == Client.Ok(Some(old(panel.queue)[0])) && took == [] && used == []
      ensures old(panel.queue) == [] ==>
                Client.TurnEnds(r, entering, old(panel.connected), old(panel.NotConnected()), script, took, used, rest)
    {
      hide Client.PanelClient.Valid, Client.Read, Next, AlarmBridge.Replayed;
      r, rest, took, used := TakeMessage(entering, script);
      if Lost(r) {
        var _ := EndSession(Unreadable(r));
      }
    }

    /** The stuck-trust watchdog: a link that stayed down for the fail window ends the session. */
    method EndIfStuck(now: real) returns (ended: bool)
      requires Valid() && listen.Listening?
      modifies `inHand, `listen, trust`sessionCollision, trust`link
      ensures Valid() && ended == old(DownTooLong(now)) == listen.Reconnecting?
      ensures View() == if ended then Next(old(View()), SessionEnds(false), cfg) else old(View())
    {
      hide Client.PanelClient.Valid, Next, StaysDown, Replay;
      ReloginIff(trust.windows, began, signals, now);
      ended := Trust.NeedsSessionRelogin(trust.windows, trust.State(), now);
      if ended {
        var _ := EndSession(false);
      }
    }

    /** SETAREADISARM, up to what the handler does with its reply. */
    method AwaitDisarmReply(script: seq<CommandLog.Net>, now: real)
      returns (r: Client.Result<()>, rest: seq<CommandLog.Net>, ghost sent: seq<CommandLog.Exchange>)
      requires Valid() && command.AwaitDisarm? && NotEarlier(now)
      modifies `command, `payload, `signals, panel, gate, trust
      ensures Client.Asked(old(panel.Refusal(8, [1])), r, sent, [8, 1], 1) && Client.Obeyed(r, 8, sent)
      ensures panel.log == old(panel.log) + sent && script == Client.MetBy(sent) + rest
      ensures Valid() && (DisarmEnds(r) == [] <==> Waits(r))
      ensures Leads(old(View()), Arrivals(FramesHeard(sent)) + DisarmEnds(r), View(), cfg)
      ensures signals == old(signals) + (if r.Ok? || Waits(r) then [] else [Timed(now, Trust.CommandFailed)])
      ensures (command.AwaitDisarm? <==> Waits(r)) && (command.AwaitFlags? ==> r.Ok?)
      ensures r.Ok? ==> gate.lastAckedHaMode.None? && trust.lastAckedArm.None?
    {
      hide Client.PanelClient.Valid, Client.Heard, Client.MetBy, Streams.Messages, Client.Obeyed, Client.CallShape;
      hide Client.Settles, Client.Carry, Next, Leads, Arrivals, UpTo, AlarmBridge.Replayed, PayloadAfterAck;
      ghost var before := View();
      r, rest, sent := panel.SetAreaDisarm(script);
      ghost var heard := View();
      Client.CallCarries(sent, 8, [1], panel.session, old(panel.calls), old(panel.numbersTaken));
      assert [8 as byte] + [1] == [8, 1];
      OrderIsDecided(r, old(panel.Refusal(8, [1])), sent, [8, 1]);
      if !Waits(r) {
        FinishDisarm(OutcomeOf(r).value, now);
      }
      ArrivalsLead(before, FramesHeard(sent), heard, DisarmEnds(r), View(), cfg);
    }

    /** SETAREAARM with the mode's octet. After a collision the session is closed. */
    method AwaitArmReply(script: seq<CommandLog.Net>, now: real)
      returns (r: Client.Result<()>, rest: seq<CommandLog.Net>, ghost sent: seq<CommandLog.Exchange>)
      requires command.AwaitArm? && Valid() && NotEarlier(now)
      modifies `command, `topic, `published, `signals, panel, gate, trust
      ensures var octet := cfg.ModeByteForHaMode(old(command).mode).value;
              Client.Asked(old(panel.Refusal(6, [octet, 1])), r, sent, [6, octet, 1], 1) && Client.Obeyed(r, 6, sent)
      ensures Valid() && (ArmEnds(r) == [] <==> Waits(r))
      ensures Leads(old(View()), Arrivals(FramesHeard(sent)) + ArmEnds(r), View(), cfg)
      ensures panel.log == old(panel.log) + sent && script == Client.MetBy(sent) + rest
      ensures var mode := old(command).mode;
              var collided := Unreadable(r) && (old(trust.lastAckedArm) == Some(mode)
                                                || payload in {Arming, Pending, Armed(mode)});
              && panel.connected == (old(panel.connected) && !collided)
              && signals == old(signals) +
                            (if r.Ok? || Waits(r) || collided then [] else [Timed(now, Trust.CommandFailed)])
              && trust.sessionCollision == (old(trust.sessionCollision) || collided)
              && command == (if Waits(r) then AwaitArm(mode) else Ready)
              && (r.Ok? ==> gate.lastAckedHaMode == trust.lastAckedArm == Some(mode))
    {
      hide Client.PanelClient.Valid, Client.Heard, Client.MetBy, Streams.Messages, Client.Obeyed, Client.CallShape;
      hide Client.Settles, Client.Carry, Next, Leads, Arrivals, UpTo, AlarmBridge.Replayed;
      ghost var before := View();
      var octet := cfg.ModeByteForHaMode(command.mode).value;
      r, rest, sent := panel.SetAreaArm(octet, script);
      ghost var heard := View();
      Client.CallCarries(sent, 6, [octet, 1], panel.session, old(panel.calls), old(panel.numbersTaken));
      assert [6 as byte] + [octet, 1] == [6, octet, 1];
      OrderIsDecided(r, old(panel.Refusal(6, [octet, 1])), sent, [6, octet, 1]);
      if !Waits(r) {
        var raised := FinishArm(OutcomeOf(r).value, now);
        if raised {
          CloseSession();
        }
      }
      ArrivalsLead(before, FramesHeard(sent), heard, ArmEnds(r), View(), cfg);
    }

    /** The flags read after a disarm. If it loses the session, that is closed. */
    method AwaitFlagsReply(script: seq<CommandLog.Net>)
      returns (r: Client.Result<seq<byte>>, rest: seq<CommandLog.Net>, ghost sent: seq<CommandLog.Exchange>)
      requires Valid() && command.AwaitFlags?
      modifies `command, `payload, `topic, `published, panel, trust`sessionCollision
      ensures Client.Asked(old(panel.Refusal(11, [0, 72])), r, sent, [11, 0, 72], 1) && Client.Returned(r, 11, 72, sent)
      ensures panel.log == old(panel.log) + sent && script == Client.MetBy(sent) + rest
      ensures Valid()
      ensures Leads(old(View()), Arrivals(FramesHeard(sent)) + RefreshEnds(r), View(), cfg)
      ensures panel.connected == (old(panel.connected) && !Lost(r))
      ensures trust.sessionCollision == (old(trust.sessionCollision) || Lost(r))
      ensures command == if Waits(r) then old(command) else Ready
      ensures published == old(published) +
                           (if r.Ok? && Told(r.value) != old(command).current then [Told(r.value)] else [])
    {
      hide Valid, Client.Heard, Client.MetBy, Streams.Messages, Client.Returned, Client.Asked, Next, Leads, Arrivals;
      ghost var before := View();
      r, rest, sent := ReadFlags(script);
      ghost var heard := View();
      if Lost(r) {
        LoseRefresh();
        CloseSession();
      } else if !Waits(r) {
        FinishRefresh(ValueOf(r));
      }
      ArrivalsLead(before, FramesHeard(sent), heard, RefreshEnds(r), View(), cfg);
    }

    method CloseSession()
      requires Valid()
      modifies panel
      ensures Valid() && View() == old(View()) && !panel.connected && panel.log == old(panel.log)
    {
      hide Client.PanelClient.Valid, AlarmBridge.Replayed, AlarmBridge.Shown;
      panel.Close();
    }

    /** All the flags of every area, one octet each. */
    method ReadFlags(script: seq<CommandLog.Net>)
      returns (r: Client.Result<seq<byte>>, rest: seq<CommandLog.Net>, ghost sent: seq<CommandLog.Exchange>)
      requires Valid()
      modifies panel
      ensures Client.Asked(old(panel.Refusal(11, [0, 72])), r, sent, [11, 0, 72], 1) && Client.Returned(r, 11, 72, sent)
      ensures script == Client.MetBy(sent) + rest
      ensures Valid() && panel.OnlyTalked(sent) && panel.authenticated == old(panel.authenticated)
      ensures View() == var s := old(View()); s.(queue := s.queue + FramesHeard(sent))
    {
      hide Client.PanelClient.Valid, Client.Heard, Client.MetBy, Streams.Messages, Client.CallShape, Client.Returned;
      hide Client.Settles, Client.Carry, AlarmBridge.Replayed;
      r, rest, sent := panel.GetAreaFlags(0, AREA_FLAGS_COUNT, 1, script);
      Client.CallCarries(sent, 11, [0, 72], panel.session, old(panel.calls), old(panel.numbersTaken));
      assert [11 as byte] + [0, 72] == [11, 0, 72];
    }

    /** The flags read of a poll. If it loses the session, the listen loop returns. */
    method AwaitPollReply(script: seq<CommandLog.Net>)
      returns (r: Client.Result<seq<byte>>, rest: seq<CommandLog.Net>, ghost sent: seq<CommandLog.Exchange>)
      requires Valid() && listen.Polling?
      modifies `inHand, `listen, `payload, `topic, `published, `attributes, panel, gate
      modifies trust`lastAckedArm, trust`sessionCollision, trust`link
      ensures Client.Asked(old(panel.Refusal(11, [0, 72])), r, sent, [11, 0, 72], 1) && Client.Returned(r, 11, 72, sent)
      ensures (listen.Polling? <==> Waits(r)) && (listen.Reconnecting? <==> Lost(r))
      ensures published == old(published) + (if r.Ok? && Replaces(old(listen).previous, r.value, cfg)
                                             then [HouseFlags(r.value, cfg)] else [])
      ensures panel.log == old(panel.log) + sent && script == Client.MetBy(sent) + rest
      ensures Valid()
      ensures Leads(old(View()), Arrivals(FramesHeard(sent)) + PollEnds(r), View(), cfg)
    {
      hide Valid, Client.Heard, Client.MetBy, Streams.Messages, Client.Returned, Client.Asked, Next, Leads, Arrivals;
      ghost var before := View();
      r, rest, sent := ReadFlags(script);
      ghost var heard := View();
      if Lost(r) {
        var _ := EndSession(Unreadable(r));
      } else if !Waits(r) {
        EndPoll(ValueOf(r));
      }
      ArrivalsLead(before, FramesHeard(sent), heard, PollEnds(r), View(), cfg);
    }

    /** The scheduled check-in. A reply is a sign of life and ends the streak of refusals; a refusal or a
        timeout ends the session if and only if some check-in was refused at least the patience ago and
        none has been answered since; a lost session ends at once. */
    method CheckIn(script: seq<CommandLog.Net>, now: real)
      returns (r: Client.Result<seq<byte>>, rest: seq<CommandLog.Net>, ghost sent: seq<CommandLog.Exchange>)
      requires Valid() && listen.Listening? && NotEarlier(now)
      modifies `inHand, `listen, `signals, panel, trust
      ensures Client.Asked(old(panel.Refusal(23, [])), r, sent, [23], 0) && Client.Returned(r, 23, 6, sent)
      ensures panel.log == old(panel.log) + sent && script == Client.MetBy(sent) + rest
      ensures Valid() && signals == old(signals) + CheckinTells(r, now)
      ensures r.Ok? ==> trust.checkinFailureSince.None?
      ensures listen.Reconnecting? <==> Lost(r) || (r.Raised? && !Waits(r) && PatienceOver(now))
      ensures Leads(old(View()), Arrivals(FramesHeard(sent)) + CheckinEnds(r, old(Cleared(now)), PatienceOver(now)),
                    View(), cfg)
    {
      hide Client.PanelClient.Valid, Client.Heard, Client.MetBy, Streams.Messages, Client.CallShape, Client.Returned;
      hide Client.Settles, Client.Carry, Next, Leads, Arrivals, UpTo, AlarmBridge.Replayed;
      hide AlarmBridge.Cleared, AlarmBridge.PatienceOver, CheckinEnds;
      ghost var before, cleared := View(), Cleared(now);
      r, rest, sent := panel.Keepalive(script);
      ghost var heard := View();
      Client.CallCarries(sent, 23, [], panel.session, old(panel.calls), old(panel.numbersTaken));
      assert [23 as byte] + [] == [23];
      FinishCheckin(r, now);
      AtMostOneEnds(heard, r, cleared, PatienceOver(now));
      ArrivalsLead(before, FramesHeard(sent), heard, CheckinEnds(r, cleared, PatienceOver(now)), View(), cfg);
    }

    lemma AtMostOneEnds(heard: State, r: Client.Result<seq<byte>>, cleared: bool, exhausted: bool)
      requires heard.listen.Listening?
      ensures var last := CheckinEnds(r, cleared, exhausted); |last| <= 1 && (last != [] ==> Enabled(heard, last[0]))
    {
    }

    method FinishCheckin(r: Client.Result<seq<byte>>, now: real)
      requires Valid() && listen.Listening? && NotEarlier(now)
      modifies `inHand, `listen, `signals, trust
      ensures Valid() && signals == old(signals) + CheckinTells(r, now)
      ensures r.Ok? ==> trust.checkinFailureSince.None?
      ensures listen.Reconnecting? <==> Lost(r) || (r.Raised? && !Waits(r) && PatienceOver(now))
      ensures var last := CheckinEnds(r, old(Cleared(now)), PatienceOver(now));
              && (last == [] ==> View() == old(View()))
              && (last != [] ==> Enabled(old(View()), last[0]) && View() == Next(old(View()), last[0], cfg))
    {
      hide Client.PanelClient.Valid, UpTo, AlarmBridge.Replayed, AlarmBridge.Cleared, AlarmBridge.PatienceOver;
      if r.Ok? {
        NoteKeepaliveOk(now);
      } else if Lost(r) {
        var _ := EndSession(Unreadable(r));
      } else if !Waits(r) {
        var exceeded := NoteCheckinFailed(now);
        if exceeded {
          var _ := EndSession(false);
        }
      }
    }

    /** Log in on the connection a reconnect attempt has opened. */
    method AwaitLogin(password: seq<byte>, loginRetries: nat, script: seq<CommandLog.Net>)
      returns (r: Client.Result<()>, rest: seq<CommandLog.Net>, ghost sent: seq<CommandLog.Exchange>)
      requires Valid() && listen.Reconnecting? && listen.snapshot.None?
      modifies `listen, panel, trust`link
      ensures Client.Asked(old(panel.Refusal(1, password)), r, sent, [1] + password, loginRetries)
      ensures panel.log == old(panel.log) + sent && script == Client.MetBy(sent) + rest
      ensures Valid() && panel.authenticated == (old(panel.authenticated) || r.Ok?)
      ensures Leads(old(View()), Arrivals(FramesHeard(sent)) + AttemptEnds(r, []), View(), cfg)
      ensures r.Ok? <==> Client.LastAnswered(sent) && Client.LastReply(sent) == [1, 6]
      ensures r.Raised? && !Waits(r) ==>
                && listen == Reconnecting(old(listen).entry, None, false)
                && trust.link == old(trust.link) + (if old(listen).quiet then [false] else [])
      ensures !r.Raised? || Waits(r) ==> listen == old(listen) && trust.link == old(trust.link)
    {
      hide Client.PanelClient.Valid, Client.Heard, Client.MetBy, Streams.Messages, Client.CallShape;
      hide Client.Settles, Client.Carry, Next, Leads, Arrivals, AlarmBridge.Replayed;
      ghost var before := View();
      r, rest, sent := panel.Login(password, loginRetries, script);
      ghost var heard := View();
      Client.CallCarries(sent, 1, password, panel.session, old(panel.calls), old(panel.numbersTaken));
      if r.Raised? && !Waits(r) {
        FailAttempt();
      }
      ArrivalsLead(before, FramesHeard(sent), heard, AttemptEnds(r, []), View(), cfg);
    }

    /** The zone states of an attempt, in as many requests as that takes. */
    method AwaitZoneStates(zoneCount: int, script: seq<CommandLog.Net>)
      returns (r: Client.Result<seq<byte>>, rest: seq<CommandLog.Net>, ghost sent: seq<CommandLog.Exchange>)
      requires Valid() && listen.Reconnecting? && listen.snapshot.None?
      modifies `listen, panel, trust`link
      ensures panel.log == old(panel.log) + sent && script == Client.MetBy(sent) + rest
      ensures Valid() && (r.Ok? ==> |r.value| == if zoneCount <= 0 then 0 else zoneCount)
      ensures forall status :: r.Ok? && ZoneState.Honest(sent, status) ==>
                r.value == ZoneState.Statuses(status, 1, |r.value|)
      ensures r.Raised? && !Waits(r) ==>
                && listen == Reconnecting(old(listen).entry, None, false)
                && trust.link == old(trust.link) + (if old(listen).quiet then [false] else [])
      ensures !r.Raised? || Waits(r) ==> listen == old(listen) && trust.link == old(trust.link)
      ensures Leads(old(View()), Arrivals(FramesHeard(sent)) + AttemptEnds(r, []), View(), cfg)
    {
      hide Client.PanelClient.Valid, Client.Heard, Client.MetBy, Streams.Messages, Next, Leads, Arrivals;
      hide ZoneState.Honest, ZoneState.Statuses, Client.LastAnswered, AlarmBridge.Replayed;
      ghost var before := View();
      ghost var requests;
      r, rest, sent, requests := ZoneState.FetchZoneStates(panel, zoneCount, script);
      ghost var heard := View();
      if r.Raised? && !Waits(r) {
        FailAttempt();
      }
      ArrivalsLead(before, FramesHeard(sent), heard, AttemptEnds(r, []), View(), cfg);
    }

    /** Its area-flags snapshot. */
    method AwaitSnapshot(script: seq<CommandLog.Net>)
      returns (r: Client.Result<seq<byte>>, rest: seq<CommandLog.Net>, ghost sent: seq<CommandLog.Exchange>)
      requires Valid() && listen.Reconnecting? && listen.snapshot.None?
      modifies `listen, `topic, `published, panel, trust`link
      ensures Client.Asked(old(panel.Refusal(11, [0, 72])), r, sent, [11, 0, 72], 1) && Client.Returned(r, 11, 72, sent)
      ensures panel.log == old(panel.log) + sent && script == Client.MetBy(sent) + rest
      ensures r.Raised? && !Waits(r) ==>
                && listen == Reconnecting(old(listen).entry, None, false)
                && trust.link == old(trust.link) + (if old(listen).quiet then [false] else [])
      ensures r.Ok? ==> listen == old(listen).(snapshot := Some(SnapshotResult(old(listen).entry, r.value, cfg)))
      ensures published == old(published) + (if r.Ok? && Replaces(old(listen).entry, r.value, cfg)
                                             then [HouseFlags(r.value, cfg)] else [])
      ensures Valid()
      ensures Leads(old(View()),
                    Arrivals(FramesHeard(sent)) + AttemptEnds(r, if r.Ok? then [Snapshot(r.value)] else []),
                    View(), cfg)
    {
      hide Valid, Client.Heard, Client.MetBy, Streams.Messages, Client.Returned, Client.Asked, Next, Leads, Arrivals;
      ghost var before := View();
      r, rest, sent := ReadFlags(script);
      ghost var heard := View();
      if r.Ok? {
        TakeSnapshot(r.value);
      } else if !Waits(r) {
        FailAttempt();
      }
      ArrivalsLead(before, FramesHeard(sent), heard, AttemptEnds(r, if r.Ok? then [Snapshot(r.value)] else []),
                   View(), cfg);
    }

    /** Its event subscription; with that, monitoring resumes. */
    method AwaitSubscription(script: seq<CommandLog.Net>, now: real)
      returns (r: Client.Result<()>, rest: seq<CommandLog.Net>, ghost sent: seq<CommandLog.Exchange>)
      requires Valid() && listen.Reconnecting? && listen.snapshot.Some? && NotEarlier(now)
      modifies `listen, `payload, `attributes, `signals, panel, gate, trust
      ensures Client.Asked(old(panel.Refusal(37, [0x3F, 0])), r, sent, [37, 0x3F, 0], 1) && Client.Obeyed(r, 37, sent)
      ensures panel.log == old(panel.log) + sent && script == Client.MetBy(sent) + rest
      ensures r.Raised? && !Waits(r) ==>
                && listen == Reconnecting(old(listen).entry, None, false)
                && trust.link == old(trust.link) + (if old(listen).quiet then [false] else [])
      ensures r.Ok? ==> listen.Listening? && payload == old(listen).snapshot.value
      ensures Valid() && signals == old(signals) + (if r.Ok? then [Timed(now, Trust.Reconnected)] else [])
      ensures Leads(old(View()), Arrivals(FramesHeard(sent)) + AttemptEnds(r, [AttemptSucceeds]), View(), cfg)
    {
      hide Client.PanelClient.Valid, Client.Heard, Client.MetBy, Streams.Messages, Client.Obeyed, Client.CallShape;
      hide Client.Settles, Client.Carry, Next, Leads, Arrivals, UpTo, AlarmBridge.Replayed;
      ghost var before := View();
      r, rest, sent := panel.SetEventMessages(script);
      ghost var heard := View();
      Client.CallCarries(sent, 37, [0x3F, 0], panel.session, old(panel.calls), old(panel.numbersTaken));
      assert [37 as byte] + [0x3F, 0] == [37, 0x3F, 0];
      if r.Ok? {
        FinishReconnect(now);
      } else if !Waits(r) {
        FailAttempt();
      }
      ArrivalsLead(before, FramesHeard(sent), heard, AttemptEnds(r, [AttemptSucceeds]), View(), cfg);
    }
  }
}
