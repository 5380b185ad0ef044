/** Panel-link trust (panel_trust.py). Each operation reads the clock once, as `now`. */
module Trust {
  import opened Bytes
  import opened Settings

  datatype Windows = Windows(recover: real, fail: real, patience: real, pollInterval: real)

  /** The part of the tracker that decides anything. */
  datatype Health = Health(
    live: bool,
    lastCommandFailAt: Option<real>,
    degradedSince: Option<real>,
    checkinFailureSince: Option<real>,
    lastPollAttemptAt: Option<real>)

  datatype Signal = CheckinOk | Traffic | CheckinRefused | CommandFailed | PollAttempt | Reconnected
  {
    /** Evidence that the panel link is alive. */
    predicate Alive() { CheckinOk? || Traffic? }
  }

  function CommandFailureCleared(w: Windows, h: Health, now: real): bool {
    h.lastCommandFailAt.None? || now - h.lastCommandFailAt.value >= w.recover
  }

  function Recovered(w: Windows, h: Health, now: real): Health {
    if !CommandFailureCleared(w, h, now) || h.live then h else h.(live := true, degradedSince := None)
  }

  function After(w: Windows, h: Health, signal: Signal, now: real): Health {
    match signal
    case CheckinOk => Recovered(w, h.(checkinFailureSince := None), now)
    case Traffic => Recovered(w, h, now)
    case CheckinRefused =>
      if h.checkinFailureSince.None? then h.(checkinFailureSince := Some(now)) else h
    case CommandFailed =>
      h.(live := false, lastCommandFailAt := Some(now),
         degradedSince := if h.degradedSince.None? then Some(now) else h.degradedSince)
    case PollAttempt => h.(lastPollAttemptAt := Some(now))
    case Reconnected => Fresh(now)
  }

  function Fresh(now: real): Health { Health(true, None, None, None, Some(now)) }

  predicate NeedsSessionRelogin(w: Windows, h: Health, now: real) {
    !h.live && h.degradedSince.Some? && now - h.degradedSince.value >= w.fail
  }

  predicate CheckinPatienceExceeded(w: Windows, h: Health, now: real) {
    h.checkinFailureSince.Some? && now - h.checkinFailureSince.value >= w.patience
  }

  predicate PollDue(w: Windows, h: Health, now: real) {
    h.lastPollAttemptAt.None? || now - h.lastPollAttemptAt.value >= w.pollInterval
  }

  class PanelTrust {
    const windows: Windows
    var live: bool
    var lastCommandFailAt: Option<real>
    var lastPollAttemptAt: Option<real>
    var degradedSince: Option<real>
    var sessionCollision: bool
    var lastAckedArm: Option<HaMode>
    var checkinFailureSince: Option<real>

    /** What has been published on the retained panel-link topic. */
    ghost var link: seq<bool>

    function State(): Health
      reads `live, `lastCommandFailAt, `degradedSince, `checkinFailureSince, `lastPollAttemptAt
    {
      Health(live, lastCommandFailAt, degradedSince, checkinFailureSince, lastPollAttemptAt)
    }

    ghost predicate Valid()
      reads `live, `degradedSince
    {
      live <==> degradedSince.None?
    }

    /** The retained topic says what the tracker thinks. */
    ghost predicate LinkAgrees()
      reads `live, `link
    {
      link != [] && link[|link| - 1] == live
    }

    constructor (windows: Windows)
      ensures Valid() && this.windows == windows && link == [] && lastAckedArm.None? && !sessionCollision
      ensures State() == Health(true, None, None, None, None)
    {
      this.windows := windows;
      live := true;
      lastCommandFailAt, lastPollAttemptAt, degradedSince, checkinFailureSince := None, None, None, None;
      sessionCollision, lastAckedArm, link := false, None, [];
    }

    method PublishLink(on: bool)
      modifies `link
      ensures link == old(link) + [on]
    {
      link := link + [on];
    }

    method MaybeRecover(now: real)
      requires Valid()
      modifies `live, `degradedSince, `link
      ensures Valid() && State() == Recovered(windows, old(State()), now)
      ensures link == old(link) + (if live && !old(live) then [true] else [])
    {
      if lastCommandFailAt.Some? && now - lastCommandFailAt.value < windows.recover {
        return;
      }
      if live {
        return;
      }
      live := true;
      degradedSince := None;
      PublishLink(true);
    }

    method NoteKeepaliveOk(now: real)
      requires Valid()
      modifies this
      ensures Valid() && State() == After(windows, old(State()), CheckinOk, now)
      ensures link == old(link) + (if live && !old(live) then [true] else [])
      ensures old(LinkAgrees()) ==> LinkAgrees()
      ensures lastAckedArm == old(lastAckedArm) && sessionCollision == old(sessionCollision)
    {
      checkinFailureSince := None;
      MaybeRecover(now);
    }

    method NotePanelTraffic(now: real)
      requires Valid()
      modifies this
      ensures Valid() && State() == After(windows, old(State()), Traffic, now)
      ensures link == old(link) + (if live && !old(live) then [true] else [])
      ensures old(LinkAgrees()) ==> LinkAgrees()
      ensures lastAckedArm == old(lastAckedArm) && sessionCollision == old(sessionCollision)
    {
      MaybeRecover(now);
    }

    method NoteCheckinFailed(now: real)
      requires Valid()
      modifies `checkinFailureSince
      ensures Valid() && State() == After(windows, old(State()), CheckinRefused, now)
      ensures old(LinkAgrees()) ==> LinkAgrees()
    {
      if checkinFailureSince.None? {
        checkinFailureSince := Some(now);
      }
    }

    method RecordCommandFailure(now: real)
      requires Valid()
      modifies this
      ensures Valid() && State() == After(windows, old(State()), CommandFailed, now)
      ensures LinkAgrees() && link == old(link) + [false]
      ensures lastAckedArm == old(lastAckedArm) && sessionCollision == old(sessionCollision)
    {
      lastCommandFailAt := Some(now);
      live := false;
      if degradedSince.None? {
        degradedSince := Some(now);
      }
      PublishLink(false);
    }

    /** The bookkeeping half of `poll`; what its reply does to the alarm entity is in the bridge. */
    method NotePollAttempt(now: real)
      requires Valid()
      modifies `lastPollAttemptAt
      ensures Valid() && State() == After(windows, old(State()), PollAttempt, now)
      ensures old(LinkAgrees()) ==> LinkAgrees()
    {
      lastPollAttemptAt := Some(now);
    }

    method ResetAfterReconnect(now: real)
      modifies this
      ensures Valid() && State() == After(windows, old(State()), Reconnected, now)
      ensures LinkAgrees() && link == old(link) + [true]
      ensures lastAckedArm.None? && !sessionCollision
    {
      live := true;
      lastCommandFailAt, degradedSince, checkinFailureSince := None, None, None;
      lastPollAttemptAt := Some(now);
      sessionCollision := false;
      lastAckedArm := None;
      PublishLink(true);
    }

    method ConsumeSessionCollision() returns (flagged: bool)
      modifies `sessionCollision
      ensures flagged == old(sessionCollision) && !sessionCollision
    {
      flagged := sessionCollision;
      sessionCollision := false;
    }
  }
}
