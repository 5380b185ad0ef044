/** The link topic of a timed run. In `Bridge` a sign of life carries the tracker's verdict on the last
    command failure; here that verdict is the clock's. */
module BridgeClock {
  import opened Bytes
  import opened Settings
  import opened AreaState
  import opened Trust
  import opened Watchdog
  import opened Bridge
  import opened BridgeRuns

  /** What a step tells the tracker. A check-in's reply and a frame are alike to the link. */
  function SignalOf(s: Bridge.State, a: Action): Option<Signal>
    requires Enabled(s, a)
  {
    match a
    case DisarmReply(outcome) => if outcome.Acked? then None else Some(CommandFailed)
    case ArmReply(outcome) => if outcome.Acked? || Excused(s, outcome) then None else Some(CommandFailed)
    case LifeSign(_) => Some(Traffic)
    case PollBegin => Some(PollAttempt)
    case AttemptSucceeds => Some(Reconnected)
    case _ => None
  }

  /** The signals of the first `n` steps, at the times of those steps. */
  ghost function Signals(s: Bridge.State, run: seq<Action>, times: seq<real>, n: nat, cfg: Settings): seq<Timed>
    requires Possible(s, run, cfg) && |times| == |run| && n <= |run|
  {
    if n == 0 then []
    else
      AtNext(s, run, n - 1, cfg);
      var signal := SignalOf(At(s, run, n - 1, cfg), run[n - 1]);
      Signals(s, run, times, n - 1, cfg) + (if signal.Some? then [Timed(times[n - 1], signal.value)] else [])
  }

  /** Time does not run backwards, and every sign of life carries the verdict of its moment. */
  ghost predicate Clocked(w: Windows, began: real, s: Bridge.State, run: seq<Action>, times: seq<real>, cfg: Settings)
    requires Possible(s, run, cfg)
  {
    && |times| == |run|
    && (forall i, j :: 0 <= i <= j < |times| ==> times[i] <= times[j])
    && forall i :: 0 <= i < |run| && run[i].LifeSign? ==>
         run[i].cleared ==
         CommandFailureCleared(w, Replay(w, Fresh(began), Signals(s, run, times, i, cfg)), times[i])
  }

  lemma {:induction false} SignalsAreOrdered(s: Bridge.State, run: seq<Action>, times: seq<real>, n: nat, cfg: Settings)
    requires Possible(s, run, cfg) && |times| == |run| && n <= |run|
    requires forall i, j :: 0 <= i <= j < |times| ==> times[i] <= times[j]
    ensures Ordered(Signals(s, run, times, n, cfg))
    ensures forall t :: t in Signals(s, run, times, n, cfg) ==> n > 0 && t.at <= times[n - 1]
    decreases n
  {
    hide Next, SignalOf;
    if n > 0 {
      SignalsAreOrdered(s, run, times, n - 1, cfg);
    }
  }

  lemma LiveMoves(w: Windows, h: Health, s: Bridge.State, a: Action, at: real, cfg: Settings)
    requires Enabled(s, a) && s.live == h.live
    requires a.LifeSign? ==> a.cleared == CommandFailureCleared(w, h, at)
    ensures var signal := SignalOf(s, a);
            Next(s, a, cfg).live == (if signal.Some? then After(w, h, signal.value, at) else h).live
  {
    hide HouseFlags, AreaPayload, Replaces, Edge, PayloadAfterAck, Remember, Observed;
  }

  lemma {:induction false} LiveIsReplayed(
    w: Windows, began: real, s: Bridge.State, run: seq<Action>, times: seq<real>, n: nat, cfg: Settings)
    requires Possible(s, run, cfg) && Clocked(w, began, s, run, times, cfg) && s.live && n <= |run|
    ensures At(s, run, n, cfg).live == Replay(w, Fresh(began), Signals(s, run, times, n, cfg)).live
    decreases n
  {
    hide Next, SignalOf, After;
    if n > 0 {
      LiveIsReplayed(w, began, s, run, times, n - 1, cfg);
      AtNext(s, run, n - 1, cfg);
      var front := Signals(s, run, times, n - 1, cfg);
      LiveMoves(w, Replay(w, Fresh(began), front), At(s, run, n - 1, cfg), run[n - 1], times[n - 1], cfg);
      var signal := SignalOf(At(s, run, n - 1, cfg), run[n - 1]);
      if signal.Some? {
        ReplayOneMore(w, Fresh(began), front, Timed(times[n - 1], signal.value));
      } else {
        assert front + [] == front;
      }
    }
  }

  /** Exactly when the retained link topic shows OFF, at any moment of any timed run from start-up: some
      failed command was never cleared, every sign of life since having come less than the recover
      window after a failed one; or a reconnect is under way and not still quiet. */
  lemma LinkOffIff(w: Windows, began: real, start: Payload, run: seq<Action>, times: seq<real>, n: nat, cfg: Settings)
    requires Possible(Initial(start), run, cfg) && Clocked(w, began, Initial(start), run, times, cfg) && n <= |run|
    ensures var here := At(Initial(start), run, n, cfg);
            !ShownOn(here) <==>
              || (exists i :: StaysDown(w, Signals(Initial(start), run, times, n, cfg), i))
              || (here.listen.Reconnecting? && !here.listen.quiet)
  {
    hide Next, Enabled, Signals, StaysDown, Replay, CommandFailureCleared;
    LinkFollowsTrust(start, run, n, cfg);
    LiveIsReplayed(w, began, Initial(start), run, times, n, cfg);
    SignalsAreOrdered(Initial(start), run, times, n, cfg);
    DownIff(w, began, Signals(Initial(start), run, times, n, cfg));
  }
}
