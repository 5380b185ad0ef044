/** When the listen loop of app.py sends its check-ins. */
module Schedule {

  /** One pass of the loop: a frame would arrive `arrives` after the pass begins; `lag` is how late
      `recv_message` notices (lock waits and polling slices); `work` is everything done afterwards. */
  datatype Pass = Pass(pollDue: bool, untilPoll: real, arrives: real, lag: real, work: real)

  function Min(a: real, b: real): real { if a < b then a else b }

  function Max(a: real, b: real): real { if a < b then b else a }

  /** The timeout given to `recv_message`. */
  function RecvTimeout(idle: real, sinceCheckin: real, pollDue: bool, untilPoll: real): real {
    var wait := Max(0.0, idle - sinceCheckin);
    if pollDue then Min(wait, 0.05) else Min(wait, Max(0.05, untilPoll))
  }

  /** Each start follows the one before by at least `idle`, and by at most `jitter` more. */
  ghost predicate Spaced(starts: seq<real>, idle: real, jitter: real) {
    forall k :: 0 <= k < |starts| - 1 ==> idle <= starts[k + 1] - starts[k] <= idle + jitter
  }

  predicate Within(p: Pass, maxLag: real, maxWork: real) {
    0.0 <= p.arrives && 0.0 <= p.lag <= maxLag && 0.0 <= p.work <= maxWork
  }

  /** `starts` holds the moment the session began and then those of the check-ins; `top` is when the
      next pass begins. However frames arrive, check-ins are never closer than the interval, and
      never later than the interval plus one pass's own lag and work: a busy panel cannot starve
      them, and an idle one cannot delay them. */
  method CheckinStarts(idle: real, start: real, passes: seq<Pass>, ghost maxLag: real, ghost maxWork: real)
    returns (starts: seq<real>, top: real)
    requires idle > 0.0 && maxLag >= 0.0 && maxWork >= 0.0
    requires forall i :: 0 <= i < |passes| ==> Within(passes[i], maxLag, maxWork)
    ensures |starts| >= 1 && starts[0] == start
    ensures Spaced(starts, idle, maxLag + maxWork)
    ensures 0.0 <= top - starts[|starts| - 1] <= idle + maxWork
  {
    var lastCheckinAt := start;
    starts, top := [start], start;
    for i := 0 to |passes|
      invariant |starts| >= 1 && starts[0] == start && starts[|starts| - 1] == lastCheckinAt
      invariant Spaced(starts, idle, maxLag + maxWork)
      invariant 0.0 <= top - lastCheckinAt <= idle + maxWork
    {
      var p := passes[i];
      assert Within(p, maxLag, maxWork);
      var timeout := RecvTimeout(idle, top - lastCheckinAt, p.pollDue, p.untilPoll);
      var returned := top + Min(timeout, p.arrives) + p.lag;
      if returned - lastCheckinAt >= idle {
        lastCheckinAt := returned;
        starts := starts + [returned];
      }
      top := returned + p.work;
    }
  }
}
