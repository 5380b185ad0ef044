/** What the trust tracker concludes from a whole run, stated on the run itself. */
module Watchdog {
  import opened Bytes
  import opened Settings
  import opened Trust
  import Schedule

  datatype Timed = Timed(at: real, signal: Signal)

  ghost predicate Ordered(run: seq<Timed>) {
    forall i, j :: 0 <= i <= j < |run| ==> run[i].at <= run[j].at
  }

  function Replay(w: Windows, start: Health, run: seq<Timed>): Health {
    if run == [] then start
    else
      var last := run[|run| - 1];
      After(w, Replay(w, start, run[..|run| - 1]), last.signal, last.at)
  }

  lemma ReplayOneMore(w: Windows, h: Health, run: seq<Timed>, last: Timed)
    ensures Replay(w, h, run + [last]) == After(w, Replay(w, h, run), last.signal, last.at)
  {
    assert (run + [last])[..|run|] == run;
  }

  /** Signals since `start`, in the order of their times. */
  ghost predicate Dated(start: real, run: seq<Timed>) {
    Ordered(run) && forall i :: 0 <= i < |run| ==> start <= run[i].at
  }

  ghost predicate UpTo(start: real, run: seq<Timed>, now: real) {
    start <= now && forall i :: 0 <= i < |run| ==> run[i].at <= now
  }

  lemma OneMoreSignal(start: real, run: seq<Timed>, last: Timed)
    requires Dated(start, run) && UpTo(start, run, last.at)
    ensures Dated(start, run + [last]) && UpTo(start, run + [last], last.at)
  {
  }

  ghost predicate NoneAfter(run: seq<Timed>, i: int, signals: set<Signal>) {
    forall j :: 0 <= i < j < |run| ==> run[j].signal !in signals
  }

  // ----- The stuck-trust watchdog -----

  /** From failure `i` on the link is never cleared: every sign of life came less than the recover
      window after some command failure, and there was no reconnect. */
  ghost predicate StaysDown(w: Windows, run: seq<Timed>, i: int) {
    && 0 <= i < |run| && run[i].signal == CommandFailed
    && NoneAfter(run, i, {Reconnected})
    && forall j :: i < j < |run| && run[j].signal.Alive() ==> Smothered(w, run, i, j)
  }

  ghost predicate Smothered(w: Windows, run: seq<Timed>, i: int, j: int)
    requires 0 <= j < |run|
  {
    exists k :: 0 <= i <= k < j && run[k].signal == CommandFailed && run[j].at - run[k].at < w.recover
  }

  ghost predicate LatestFailure(run: seq<Timed>, k: int) {
    0 <= k < |run| && run[k].signal == CommandFailed && NoneAfter(run, k, {Reconnected, CommandFailed})
  }

  lemma {:induction false} LastFailureRemembered(w: Windows, start: real, run: seq<Timed>)
    ensures var h := Replay(w, Fresh(start), run);
            && (h.live <==> h.degradedSince.None?)
            && (h.degradedSince.Some? ==> h.lastCommandFailAt.Some?)
            && (forall t :: h.lastCommandFailAt == Some(t) ==> exists k :: LatestFailure(run, k) && run[k].at == t)
    decreases |run|
  {
    if run != [] {
      var n := |run| - 1;
      LastFailureRemembered(w, start, run[..n]);
      var h := Replay(w, Fresh(start), run);
      if h.lastCommandFailAt.Some? {
        if run[n].signal == CommandFailed {
          assert LatestFailure(run, n);
        } else {
          var k :| LatestFailure(run[..n], k) && run[..n][k].at == h.lastCommandFailAt.value;
          assert LatestFailure(run, k);
        }
      }
    }
  }

  lemma {:induction false} FailureNotForgotten(w: Windows, start: real, run: seq<Timed>, k: nat)
    requires Ordered(run) && k < |run| && run[k].signal == CommandFailed && NoneAfter(run, k, {Reconnected})
    ensures var h := Replay(w, Fresh(start), run);
            h.lastCommandFailAt.Some? && run[k].at <= h.lastCommandFailAt.value
    decreases |run|
  {
    var n := |run| - 1;
    if k < n {
      FailureNotForgotten(w, start, run[..n], k);
    }
  }

  /** The recover window has passed since every command failure that no reconnect has wiped out. */
  ghost predicate FailuresCleared(w: Windows, run: seq<Timed>, now: real) {
    forall k: nat :: k < |run| && run[k].signal == CommandFailed && NoneAfter(run, k, {Reconnected}) ==>
      now - run[k].at >= w.recover
  }

  lemma ClearedIff(w: Windows, start: real, run: seq<Timed>, now: real)
    requires Ordered(run)
    ensures CommandFailureCleared(w, Replay(w, Fresh(start), run), now) <==> FailuresCleared(w, run, now)
  {
    var h := Replay(w, Fresh(start), run);
    LastFailureRemembered(w, start, run);
    if h.lastCommandFailAt.Some? {
      var k :| LatestFailure(run, k) && run[k].at == h.lastCommandFailAt.value;
      assert NoneAfter(run, k, {Reconnected});
    }
    forall k: nat | k < |run| && run[k].signal == CommandFailed && NoneAfter(run, k, {Reconnected})
      ensures h.lastCommandFailAt.Some? && run[k].at <= h.lastCommandFailAt.value
    {
      FailureNotForgotten(w, start, run, k);
    }
  }

  lemma StaysDownBefore(w: Windows, run: seq<Timed>, i: int, n: int)
    requires StaysDown(w, run, i) && i < n <= |run|
    ensures StaysDown(w, run[..n], i)
  {
    var front := run[..n];
    forall j | i < j < n && front[j].signal.Alive() ensures Smothered(w, front, i, j) {
      assert Smothered(w, run, i, j);
      var k :| i <= k < j && run[k].signal == CommandFailed && run[j].at - run[k].at < w.recover;
      assert front[k] == run[k];
    }
  }

  /** A degrade outlasts anything but a reconnect and a sign of life outside the recover window. */
  lemma DegradeKept(w: Windows, h: Health, signal: Signal, at: real)
    requires h.degradedSince.Some? && !h.live && signal != Reconnected
    requires signal.Alive() ==> h.lastCommandFailAt.Some? && at - h.lastCommandFailAt.value < w.recover
    ensures After(w, h, signal, at).degradedSince == h.degradedSince
  {
  }

  lemma {:induction false} DownSince(w: Windows, start: real, run: seq<Timed>, i: int)
    requires Ordered(run) && StaysDown(w, run, i)
    ensures var h := Replay(w, Fresh(start), run);
            h.degradedSince.Some? && h.degradedSince.value <= run[i].at
    decreases |run|
  {
    var n := |run| - 1;
    var front := run[..n];
    LastFailureRemembered(w, start, front);
    if i == n {
      DegradedInThePast(w, start, front);
    } else {
      StaysDownBefore(w, run, i, n);
      DownSince(w, start, front, i);
      if run[n].signal.Alive() {
        assert Smothered(w, run, i, n);
        var k :| i <= k < n && run[k].signal == CommandFailed && run[n].at - run[k].at < w.recover;
        FailureNotForgotten(w, start, front, k);
      }
      DegradeKept(w, Replay(w, Fresh(start), front), run[n].signal, run[n].at);
    }
  }

  lemma {:induction false} DegradedInThePast(w: Windows, start: real, run: seq<Timed>)
    requires Ordered(run)
    ensures var h := Replay(w, Fresh(start), run);
            h.degradedSince.Some? ==> run != [] && h.degradedSince.value <= run[|run| - 1].at
    decreases |run|
  {
    if run != [] {
      DegradedInThePast(w, start, run[..|run| - 1]);
    }
  }

  lemma {:induction false} DownFromSomeFailure(w: Windows, start: real, run: seq<Timed>) returns (i: int)
    requires Ordered(run) && Replay(w, Fresh(start), run).degradedSince.Some?
    ensures StaysDown(w, run, i) && Replay(w, Fresh(start), run).degradedSince == Some(run[i].at)
    decreases |run|
  {
    var n := |run| - 1;
    var front := run[..n];
    LastFailureRemembered(w, start, front);
    var before := Replay(w, Fresh(start), front);
    if before.degradedSince.None? {
      i := n;
    } else {
      i := DownFromSomeFailure(w, start, front);
      if run[n].signal.Alive() {
        var k :| LatestFailure(front, k) && front[k].at == before.lastCommandFailAt.value;
        assert run[k] == front[k] && i <= k;
        assert Smothered(w, run, i, n);
      }
      StaysDownLonger(w, run, i);
    }
  }

  lemma StaysDownLonger(w: Windows, run: seq<Timed>, i: int)
    requires run != [] && StaysDown(w, run[..|run| - 1], i) && run[|run| - 1].signal != Reconnected
    requires run[|run| - 1].signal.Alive() ==> Smothered(w, run, i, |run| - 1)
    ensures StaysDown(w, run, i)
  {
    var front := run[..|run| - 1];
    forall j | i < j < |run| && run[j].signal.Alive() ensures Smothered(w, run, i, j) {
      if j < |front| {
        assert Smothered(w, front, i, j);
        var k :| i <= k < j && front[k].signal == CommandFailed && front[j].at - front[k].at < w.recover;
        assert run[k] == front[k];
      }
    }
  }

  /** The tracker thinks the link dead exactly when some command failure was never cleared. */
  lemma DownIff(w: Windows, start: real, run: seq<Timed>)
    requires Ordered(run)
    ensures !Replay(w, Fresh(start), run).live <==> exists i :: StaysDown(w, run, i)
  {
    var h := Replay(w, Fresh(start), run);
    LastFailureRemembered(w, start, run);
    if h.degradedSince.Some? {
      var i := DownFromSomeFailure(w, start, run);
    }
    if i :| StaysDown(w, run, i) {
      DownSince(w, start, run, i);
    }
  }

  /** Re-login is requested exactly when the link has been down, uncleared, since a command
      failure at least the fail window ago. */
  lemma ReloginIff(w: Windows, start: real, run: seq<Timed>, now: real)
    requires Ordered(run)
    ensures NeedsSessionRelogin(w, Replay(w, Fresh(start), run), now) <==>
            exists i :: StaysDown(w, run, i) && now - run[i].at >= w.fail
  {
    var h := Replay(w, Fresh(start), run);
    LastFailureRemembered(w, start, run);
    if NeedsSessionRelogin(w, h, now) {
      var i := DownFromSomeFailure(w, start, run);
    }
    if i :| StaysDown(w, run, i) && now - run[i].at >= w.fail {
      DownSince(w, start, run, i);
    }
  }

  ghost predicate SomethingAlive(run: seq<Timed>, after: real, until: real) {
    exists j :: 0 <= j < |run| && run[j].signal.Alive() && after < run[j].at <= until
  }

  /** Signs of life come at least every `gap`, and command failures are further apart than the
      recover window plus that gap: the watchdog never fires. */
  lemma HealthyPanelNeverRelogs(w: Windows, start: real, run: seq<Timed>, now: real, gap: real)
    requires Ordered(run) && gap > 0.0 && w.recover >= 0.0 && w.recover + gap < w.fail
    requires forall i :: 0 <= i < |run| ==> start <= run[i].at <= now
    requires forall from, to :: start <= from && to == from + gap && to <= now ==> SomethingAlive(run, from, to)
    requires forall i, j :: 0 <= i < j < |run| && run[i].signal == run[j].signal == CommandFailed ==>
               run[j].at - run[i].at > w.recover + gap
    ensures !NeedsSessionRelogin(w, Replay(w, Fresh(start), run), now)
  {
    ReloginIff(w, start, run, now);
    forall i | 0 <= i < |run| && now - run[i].at >= w.fail ensures !StaysDown(w, run, i) {
      if run[i].signal == CommandFailed {
        ClearedInTime(w, start, run, i, now, gap);
      }
    }
  }

  lemma ClearedInTime(w: Windows, start: real, run: seq<Timed>, i: int, now: real, gap: real)
    requires Ordered(run) && gap > 0.0 && w.recover >= 0.0 && w.recover + gap < w.fail
    requires 0 <= i < |run| && run[i].signal == CommandFailed && start <= run[i].at && now - run[i].at >= w.fail
    requires forall from, to :: start <= from && to == from + gap && to <= now ==> SomethingAlive(run, from, to)
    requires forall k :: i < k < |run| && run[k].signal == CommandFailed ==> run[k].at - run[i].at > w.recover + gap
    ensures !StaysDown(w, run, i)
  {
    var from := run[i].at + w.recover;
    assert SomethingAlive(run, from, from + gap);
    var j :| 0 <= j < |run| && run[j].signal.Alive() && from < run[j].at <= from + gap;
    assert i < j;
    assert !Smothered(w, run, i, j);
  }

  /** Command failures that keep coming less than the recover window apart for a whole fail window
      make it fire, whatever else arrives in between. */
  lemma RelentlessFailuresRelog(w: Windows, start: real, run: seq<Timed>, now: real, i: nat)
    requires Ordered(run) && forall j :: 0 <= j < |run| ==> run[j].at <= now
    requires i < |run| && run[i].signal == CommandFailed && now - run[i].at >= w.fail
    requires NoneAfter(run, i, {Reconnected})
    requires forall k :: i <= k < |run| && run[k].signal == CommandFailed ==>
               now - run[k].at < w.recover || FailsAgainWithin(run, k, w.recover)
    ensures NeedsSessionRelogin(w, Replay(w, Fresh(start), run), now)
  {
    forall j | i < j < |run| && run[j].signal.Alive() ensures Smothered(w, run, i, j) {
      var k := LastFailureBefore(run, i, j);
      if FailsAgainWithin(run, k, w.recover) {
        var next :| k < next < |run| && run[next].signal == CommandFailed && run[next].at - run[k].at < w.recover;
        assert next > j;
      }
    }
    assert StaysDown(w, run, i);
    ReloginIff(w, start, run, now);
  }

  ghost predicate FailsAgainWithin(run: seq<Timed>, k: nat, window: real)
    requires k < |run|
  {
    exists next :: k < next < |run| && run[next].signal == CommandFailed && run[next].at - run[k].at < window
  }

  lemma {:induction false} LastFailureBefore(run: seq<Timed>, i: nat, j: nat) returns (k: nat)
    requires i < j < |run| && run[i].signal == CommandFailed
    ensures i <= k < j && run[k].signal == CommandFailed
    ensures forall m :: k < m < j ==> run[m].signal != CommandFailed
    decreases j
  {
    if run[j - 1].signal == CommandFailed {
      k := j - 1;
    } else {
      k := LastFailureBefore(run, i, j - 1);
    }
  }

  // ----- Check-in patience -----

  ghost predicate Unanswered(run: seq<Timed>, i: int) {
    0 <= i < |run| && run[i].signal == CheckinRefused && NoneAfter(run, i, {CheckinOk, Reconnected})
  }

  lemma {:induction false} StreakStart(w: Windows, start: real, run: seq<Timed>)
    requires Ordered(run)
    ensures var since := Replay(w, Fresh(start), run).checkinFailureSince;
            && (since.Some? ==> exists i :: Unanswered(run, i) && run[i].at == since.value)
            && (forall i :: Unanswered(run, i) ==> since.Some? && since.value <= run[i].at)
    decreases |run|
  {
    if run != [] {
      var n := |run| - 1;
      var front := run[..n];
      StreakStart(w, start, front);
      var before := Replay(w, Fresh(start), front).checkinFailureSince;
      var since := Replay(w, Fresh(start), run).checkinFailureSince;
      if since.Some? {
        if before.None? {
          assert Unanswered(run, n);
        } else {
          var i :| Unanswered(front, i) && front[i].at == before.value;
          assert Unanswered(run, i);
        }
      }
      forall i | Unanswered(run, i) ensures since.Some? && since.value <= run[i].at {
        if i < n {
          assert Unanswered(front, i);
        } else if before.Some? {
          var k :| Unanswered(front, k) && front[k].at == before.value;
          assert run[k].at <= run[n].at;
        }
      }
    }
  }

  /** Patience has run out exactly when some refused check-in is at least that old and neither a
      valid reply nor a reconnect came after it: traffic, polls and commands do not matter. */
  lemma PatienceExceededIff(w: Windows, start: real, run: seq<Timed>, now: real)
    requires Ordered(run)
    ensures CheckinPatienceExceeded(w, Replay(w, Fresh(start), run), now) <==>
            exists i :: Unanswered(run, i) && now - run[i].at >= w.patience
  {
    StreakStart(w, start, run);
  }

  /** A session is never ended by the first refusal of a streak, unless deciding took as long as
      patience itself. */
  lemma FirstRefusalNeverEnds(w: Windows, start: real, run: seq<Timed>, at: real, now: real)
    requires Ordered(run + [Timed(at, CheckinRefused)]) && now - at < w.patience
    requires forall i :: 0 <= i < |run| && run[i].signal == CheckinRefused ==> !Unanswered(run, i)
    ensures !CheckinPatienceExceeded(w, Replay(w, Fresh(start), run + [Timed(at, CheckinRefused)]), now)
  {
    var longer := run + [Timed(at, CheckinRefused)];
    hide Replay, CheckinPatienceExceeded, Ordered;
    PatienceExceededIff(w, start, longer, now);
    assert longer[..|run|] == run;
    forall i | 0 <= i < |longer| && now - longer[i].at >= w.patience ensures !Unanswered(longer, i) {
      if Unanswered(longer, i) && i < |run| {
        UnansweredBefore(longer, i, |run|);
      }
    }
  }

  lemma UnansweredBefore(run: seq<Timed>, i: int, n: nat)
    requires Unanswered(run, i) && n <= |run|
    ensures i < n ==> Unanswered(run[..n], i)
  {
  }

  /** Check-ins refused at these times, with no reply in between. */
  function RefusedAt(stamps: seq<real>): seq<Timed> {
    seq(|stamps|, k requires 0 <= k < |stamps| => Timed(stamps[k], CheckinRefused))
  }

  lemma {:induction false} StreakOfRefusals(w: Windows, h: Health, stamps: seq<real>)
    requires h.checkinFailureSince.None? && stamps != []
    ensures Replay(w, h, RefusedAt(stamps)).checkinFailureSince == Some(stamps[0])
    decreases |stamps|
  {
    var n := |stamps|;
    assert RefusedAt(stamps)[..n - 1] == RefusedAt(stamps[..n - 1]);
    if n > 1 {
      StreakOfRefusals(w, h, stamps[..n - 1]);
    }
  }

  /** The verdict taken at the moment of the last refusal. */
  predicate EndsOnLast(w: Windows, h: Health, stamps: seq<real>)
    requires stamps != []
  {
    CheckinPatienceExceeded(w, Replay(w, h, RefusedAt(stamps)), stamps[|stamps| - 1])
  }

  lemma VerdictOnLast(w: Windows, h: Health, stamps: seq<real>)
    requires h.checkinFailureSince.None? && stamps != []
    ensures EndsOnLast(w, h, stamps) <==> stamps[|stamps| - 1] - stamps[0] >= w.patience
  {
    StreakOfRefusals(w, h, stamps);
    hide Replay, RefusedAt;
  }

  lemma {:induction false} SpreadOfStarts(starts: seq<real>, idle: real, jitter: real, n: nat)
    requires Schedule.Spaced(starts, idle, jitter) && n < |starts|
    ensures n as real * idle <= starts[n] - starts[0] <= n as real * (idle + jitter)
  {
    if n > 0 {
      SpreadOfStarts(starts, idle, jitter, n - 1);
      assert starts[n - 1 + 1] - starts[n - 1] <= idle + jitter;
      OneStepMore(n, idle);
      OneStepMore(n, idle + jitter);
    }
  }

  lemma OneStepMore(n: nat, gap: real)
    requires n > 0
    ensures n as real * gap == (n - 1) as real * gap + gap
  {
  }

  /** Each check-in fails at most `latency` after it was started. */
  ghost predicate FailsWithin(starts: seq<real>, stamps: seq<real>, latency: real) {
    |stamps| == |starts| && forall k :: 0 <= k < |stamps| ==> 0.0 <= stamps[k] - starts[k] <= latency
  }

  /** Check-ins spaced as the listen loop spaces them, failing one after the other: however spacing
      and latency vary within their bounds, the session has ended by the refusal that exact spacing
      brings to patience plus one latency, and not before the one that the widest spacing and one
      latency can bring to patience. */
  lemma PatienceUnderJitter(w: Windows, h: Health, starts: seq<real>, stamps: seq<real>,
                            idle: real, jitter: real, latency: real)
    requires h.checkinFailureSince.None? && stamps != []
    requires Schedule.Spaced(starts, idle, jitter) && FailsWithin(starts, stamps, latency)
    ensures (|stamps| - 1) as real * idle >= w.patience + latency ==> EndsOnLast(w, h, stamps)
    ensures (|stamps| - 1) as real * (idle + jitter) + latency < w.patience ==> !EndsOnLast(w, h, stamps)
  {
    var n := |stamps| - 1;
    SpreadOfStarts(starts, idle, jitter, n);
    VerdictOnLast(w, h, stamps);
    assert 0.0 <= stamps[0] - starts[0] <= latency && 0.0 <= stamps[n] - starts[n] <= latency;
    hide EndsOnLast;
  }

  /** With the default 15 and 45 seconds the third refusal in a row does not end the session and the
      fifth does, as long as twice the jitter and one latency stay under 15 seconds; the fourth does
      exactly when 45 seconds have passed since the first was noted. */
  lemma DefaultsEndOnFourthOrFifth(w: Windows, h: Health, starts: seq<real>, stamps: seq<real>,
                                   jitter: real, latency: real)
    requires h.checkinFailureSince.None? && w.patience == 45.0
    requires Schedule.Spaced(starts, 15.0, jitter) && FailsWithin(starts, stamps, latency)
    requires 3 <= |stamps| <= 5 && 2.0 * jitter + latency < 15.0 && jitter >= 0.0
    ensures |stamps| == 3 ==> !EndsOnLast(w, h, stamps)
    ensures |stamps| == 4 ==> (EndsOnLast(w, h, stamps) <==> stamps[3] - stamps[0] >= 45.0)
    ensures |stamps| == 5 ==> EndsOnLast(w, h, stamps)
  {
    hide EndsOnLast, Schedule.Spaced, FailsWithin;
    PatienceUnderJitter(w, h, starts, stamps, 15.0, jitter, latency);
    VerdictOnLast(w, h, stamps);
  }

  /** The fourth may pass: the first check-in times out after two seconds, the others are refused at
      once. */
  lemma SlowFirstRefusalSurvivesFourth(w: Windows, h: Health)
    requires h.checkinFailureSince.None? && w.patience == 45.0
    ensures var starts, stamps := [0.0, 15.0, 30.0, 45.0, 60.0], [2.0, 15.0, 30.0, 45.0, 60.0];
            && Schedule.Spaced(starts, 15.0, 0.0) && FailsWithin(starts, stamps, 2.0)
            && !EndsOnLast(w, h, stamps[..4]) && EndsOnLast(w, h, stamps)
  {
    var stamps := [2.0, 15.0, 30.0, 45.0, 60.0];
    VerdictOnLast(w, h, stamps[..4]);
    VerdictOnLast(w, h, stamps);
    hide EndsOnLast;
  }

  /** `n` refusals, `interval` apart. */
  function EvenStamps(first: real, interval: real, n: nat): seq<real> {
    seq(n, k requires 0 <= k < n => first + k as real * interval)
  }

  /** Refused at exact spacing, the session ends on the `n`-th refusal and no earlier one exactly
      when `n - 1` is the least number of intervals that covers patience: n = ceil(P/I) + 1. */
  lemma EndsOnNthRefusal(w: Windows, h: Health, first: real, interval: real, n: nat)
    requires h.checkinFailureSince.None? && interval > 0.0 && w.patience > 0.0 && n >= 1
    ensures EndsAt(w, h, first, interval, n) && (forall m: nat :: 1 <= m < n ==> !EndsAt(w, h, first, interval, m))
            <==> (n - 1) as real * interval >= w.patience > (n - 2) as real * interval
  {
    hide EndsAt;
    forall m: nat | 1 <= m <= n ensures EndsAt(w, h, first, interval, m) <==> (m - 1) as real * interval >= w.patience {
      VerdictOfNth(w, h, first, interval, m);
    }
    if n >= 2 {
      assert EndsAt(w, h, first, interval, n - 1) <==> (n - 2) as real * interval >= w.patience;
      forall m: nat | 1 <= m < n ensures EndsAt(w, h, first, interval, m) ==> EndsAt(w, h, first, interval, n - 1) {
        Monotone((m - 1) as real, (n - 2) as real, interval);
      }
    } else {
      assert (n - 1) as real * interval == 0.0;
    }
  }

  lemma VerdictOfNth(w: Windows, h: Health, first: real, interval: real, n: nat)
    requires h.checkinFailureSince.None? && n >= 1
    ensures EndsAt(w, h, first, interval, n) <==> (n - 1) as real * interval >= w.patience
  {
    VerdictOnLast(w, h, EvenStamps(first, interval, n));
    assert EvenStamps(first, interval, n)[0] == first;
    hide EndsOnLast;
  }

  lemma Monotone(a: real, b: real, scale: real)
    requires a <= b && scale > 0.0
    ensures a * scale <= b * scale
  {
  }

  predicate EndsAt(w: Windows, h: Health, first: real, interval: real, n: nat)
    requires n >= 1
  {
    EndsOnLast(w, h, EvenStamps(first, interval, n))
  }

  /** At exact spacing, a patience no shorter than the interval rides out one refusal, and a second
      one too unless they are equal; with the default 15 and 45 seconds it takes the fourth. */
  lemma AcceptedPatienceRidesOut(w: Windows, h: Health, first: real, interval: real)
    requires h.checkinFailureSince.None? && CheckinTimingAccepted(interval, w.patience)
    ensures !EndsAt(w, h, first, interval, 1)
    ensures EndsAt(w, h, first, interval, 2) <==> interval == w.patience
    ensures interval == 15.0 && w.patience == 45.0 ==>
              EndsAt(w, h, first, interval, 4) && !EndsAt(w, h, first, interval, 3)
  {
    VerdictOfNth(w, h, first, interval, 1);
    VerdictOfNth(w, h, first, interval, 2);
    VerdictOfNth(w, h, first, interval, 3);
    VerdictOfNth(w, h, first, interval, 4);
    hide EndsAt;
  }

  // ----- The reconciliation poll -----

  /** A poll is due exactly when none was attempted, and no reconnect completed, within the
      interval: nothing else the tracker hears moves it. */
  lemma {:induction false} PollDueIff(w: Windows, start: real, run: seq<Timed>, now: real)
    requires Ordered(run) && forall i :: 0 <= i < |run| ==> start <= run[i].at
    ensures PollDue(w, Replay(w, Fresh(start), run), now) <==>
            now - start >= w.pollInterval
            && forall i :: 0 <= i < |run| && run[i].signal in {PollAttempt, Reconnected} ==>
                 now - run[i].at >= w.pollInterval
    decreases |run|
  {
    if run != [] {
      var front := run[..|run| - 1];
      PollDueIff(w, start, front, now);
      assert forall i :: 0 <= i < |front| ==> front[i] == run[i];
    }
  }

  // ----- Independence of the signals -----

  function Only(run: seq<Timed>, kept: set<Signal>): seq<Timed> {
    if run == [] then []
    else Only(run[..|run| - 1], kept) + (if run[|run| - 1].signal in kept then [run[|run| - 1]] else [])
  }

  const LINK_SIGNALS: set<Signal> := {CheckinOk, Traffic, CommandFailed, Reconnected}
  const PATIENCE_SIGNALS: set<Signal> := {CheckinOk, CheckinRefused, Reconnected}

  predicate SameLink(a: Health, b: Health) {
    a.live == b.live && a.lastCommandFailAt == b.lastCommandFailAt && a.degradedSince == b.degradedSince
  }

  lemma OnlyLast(w: Windows, start: Health, run: seq<Timed>, kept: set<Signal>)
    requires run != []
    ensures var (front, last) := (run[..|run| - 1], run[|run| - 1]);
            Replay(w, start, Only(run, kept)) ==
            if last.signal in kept then After(w, Replay(w, start, Only(front, kept)), last.signal, last.at)
            else Replay(w, start, Only(front, kept))
  {
    var front, last := run[..|run| - 1], run[|run| - 1];
    if last.signal in kept {
      assert Only(run, kept) == Only(front, kept) + [last];
      assert Only(run, kept)[..|Only(run, kept)| - 1] == Only(front, kept);
    } else {
      assert Only(run, kept) == Only(front, kept);
    }
    hide After, Only;
  }

  lemma LinkStep(w: Windows, a: Health, b: Health, signal: Signal, at: real)
    requires SameLink(a, b)
    ensures SameLink(After(w, a, signal, at), After(w, b, signal, at))
    ensures signal !in LINK_SIGNALS ==> SameLink(After(w, a, signal, at), b)
  {
  }

  lemma PatienceStep(w: Windows, a: Health, b: Health, signal: Signal, at: real)
    requires a.checkinFailureSince == b.checkinFailureSince
    ensures After(w, a, signal, at).checkinFailureSince == After(w, b, signal, at).checkinFailureSince
    ensures signal !in PATIENCE_SIGNALS ==>
              After(w, a, signal, at).checkinFailureSince == b.checkinFailureSince
  {
  }

  /** Polls and refused check-ins leave no trace in the link state. */
  lemma {:induction false} LinkIgnoresPollsAndRefusals(w: Windows, start: Health, run: seq<Timed>)
    ensures SameLink(Replay(w, start, run),
                     Replay(w, start, Only(run, LINK_SIGNALS)))
    decreases |run|
  {
    hide After, SameLink, Only;
    NothingHeard(w, start, LINK_SIGNALS);
    if run != [] {
      var front, last := run[..|run| - 1], run[|run| - 1];
      LinkIgnoresPollsAndRefusals(w, start, front);
      OnlyLast(w, start, run, LINK_SIGNALS);
      LinkStep(w, Replay(w, start, front), Replay(w, start, Only(front, LINK_SIGNALS)),
               last.signal, last.at);
    }
  }

  /** Traffic, polls and command failures leave no trace in the patience clock. */
  lemma {:induction false} PatienceIgnoresEverythingElse(w: Windows, start: Health, run: seq<Timed>)
    ensures Replay(w, start, run).checkinFailureSince
         == Replay(w, start, Only(run, PATIENCE_SIGNALS)).checkinFailureSince
    decreases |run|
  {
    hide After, Only;
    NothingHeard(w, start, PATIENCE_SIGNALS);
    if run != [] {
      var front, last := run[..|run| - 1], run[|run| - 1];
      PatienceIgnoresEverythingElse(w, start, front);
      OnlyLast(w, start, run, PATIENCE_SIGNALS);
      PatienceStep(w, Replay(w, start, front), Replay(w, start, Only(front, PATIENCE_SIGNALS)),
                   last.signal, last.at);
    }
  }

  lemma NothingHeard(w: Windows, start: Health, kept: set<Signal>)
    ensures Only([], kept) == [] && Replay(w, start, []) == start && SameLink(start, start)
  {
  }

  /** So the two verdicts can be read off the two erased runs. */
  lemma VerdictsAreIndependent(w: Windows, start: Health, run: seq<Timed>, now: real)
    ensures NeedsSessionRelogin(w, Replay(w, start, run), now) <==>
            NeedsSessionRelogin(w, Replay(w, start, Only(run, LINK_SIGNALS)), now)
    ensures CheckinPatienceExceeded(w, Replay(w, start, run), now) <==>
            CheckinPatienceExceeded(w, Replay(w, start, Only(run, PATIENCE_SIGNALS)), now)
  {
    LinkIgnoresPollsAndRefusals(w, start, run);
    PatienceIgnoresEverythingElse(w, start, run);
  }
}
