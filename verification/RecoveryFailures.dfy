/** How far the pauses after failures reach (core/automation.py): the counter of consecutive failures stops at 1000, and
    from there on a failed run leaves no pause of its own. */
module RecoveryFailures {
  import opened Prelude
  import opened SlidingWindow
  import opened AsteriskObservation
  import opened Automation
  import opened Recovery
  import opened RecoveryRuns
  import opened RecoveryPauses
  import opened RecoveryCapacity

  /** The start command fails, and the run records its failure at `end`. */
  function AfterFailure(c: Config, s: Sys, end: int): Sys {
    s.(policyPassed := false, lockHeld := false, workers := [], now := end,
       data := FinishedData(c, end, Begun(c, s.now, s.data), false))
  }

  function Refused(now: int): Answer {
    Answer(Stopped(now), true, Rejected)
  }

  lemma CommandFails(c: Config, start: int, s: Sys, end: int)
    requires Reachable(c, start, WithReservation(c, s)) && s.now <= end && ClockAllows(c, end)
    ensures Reachable(c, start, AfterFailure(c, s, end))
  {
    hide Reachable, FinishedData, Begun;
    var h := WithReservation(c, s);
    var w := Work(0, Refused(s.now));
    ReachesNext(c, start, h, w);
    var confirmed := Step(c, h, w);
    assert confirmed == h.(workers := [h.workers[0].(phase := Phase.Confirmed)]);
    ReachesNext(c, start, confirmed, w);
    var failing := Step(c, confirmed, w);
    assert failing == h.(workers := [h.workers[0].(phase := Phase.Failing)]);
    hide Step;
    Waits(c, start, failing, end);
    ReachesNext(c, start, failing.(now := end), w);
    FinishEnds(c, failing.(now := end), w);
  }

  lemma FinishEnds(c: Config, s: Sys, w: Event)
    requires |s.workers| == 1 && s.workers[0].phase.Failing? && s.workers[0].wakes <= s.now && w.Work? && w.index == 0
    ensures Step(c, s, w) == s.(workers := [], lockHeld := false, data := FinishedData(c, s.now, s.data, false))
  {
    hide FinishedData;
  }

  // ---------------------------------------------------------------------------------------------------

  /** `k` runs have failed, the last one just now and a window after its start; pauses end by `until`. */
  ghost predicate Failed(c: Config, s: Sys, k: nat, until: int) {
    && Idle(s) && s.now >= 0 && Load(s.data.file).Some?
    && var st := s.data.file.value;
       && !st.maintenance && st.failures == Min(MAX_FAILURES, k)
       && st.backoffUntil <= until && st.cooldownUntil <= until
       && (forall i :: 0 <= i < |st.attempts| ==> s.now - st.attempts[i] >= c.window)
       && Failures(s.data.past.finishes) == k
       && (k > 0 ==> s.data.past.finishes[|s.data.past.finishes| - 1].time == s.now)
  }

  lemma FailedPermits(c: Config, s: Sys, k: nat, until: int, at: int)
    requires Failed(c, s, k, until) && s.now <= at && until <= at && c.maxAttempts >= 1
    ensures MayStart(c, s.(now := at))
  {
    WithinWithin(s.data.file.value.attempts, c.Retention(), c.window, at);
    NoneWithin(s.data.file.value.attempts, c.window, at);
    hide Within, Failures;
  }

  lemma {:induction false} NoneWithin(s: seq<int>, span: int, now: int)
    requires forall i :: 0 <= i < |s| ==> now - s[i] >= span
    ensures Within(s, span, now) == []
  {
    if s != [] {
      NoneWithin(s[1..], span, now);
    }
  }

  /** How long a failing run takes here: as long as a window. */
  function Span(c: Config): nat {
    Max(0, c.window)
  }

  predicate Pausing(c: Config) {
    c.maxAttempts >= 1 && c.minCooldown >= 1 && c.maxBackoff > PROBE_PAUSE
  }

  /** One more failure. Beyond the limit of the counter it leaves the pauses as they were. */
  lemma OneFailure(c: Config, s: Sys, k: nat, until: int, at: int)
    requires Pausing(c) && Failed(c, s, k, until) && s.now <= at && until <= at
    requires at + Span(c) + c.maxBackoff <= MAX_EPOCH
    ensures Failed(c, AfterFailure(c, s.(now := at), at + Span(c)), k + 1,
                   if k < MAX_FAILURES then at + Span(c) + c.maxBackoff else until)
  {
    hide Within, Failures, Doubled;
    var d, end := s.data, at + Span(c);
    FailedPermits(c, s, k, until, at);
    PermittedLeavesFile(c, d.file, Stopped(at), at);
    BegunStamps(c, d, at);
    var b := Begun(c, at, d);
    BackoffIsBounded(c, b.file.value.failures + 1);
    FailedFinishIsSavedIff(c, b.file.value, end);
    FailuresAppend(d.past.finishes, Finishing(end, false));
    hide Accepted, Permits;
    var f := FinishedData(c, end, b, false);
    assert f.file.Some? && f.file.value.attempts == b.file.value.attempts;
    forall i | 0 <= i < |f.file.value.attempts| ensures end - f.file.value.attempts[i] >= c.window {
      var t := f.file.value.attempts[i];
      assert t in b.file.value.attempts;
    }
  }

  /** A reservation changes no pause and no count, and adds at most its own stamp. */
  lemma BegunStamps(c: Config, d: Data, at: int)
    requires Load(d.file).Some?
    ensures var b := Begun(c, at, d);
            && Load(b.file).Some? && b.past.finishes == d.past.finishes
            && b.file.value.maintenance == d.file.value.maintenance && b.file.value.failures == d.file.value.failures
            && b.file.value.backoffUntil == d.file.value.backoffUntil
            && b.file.value.cooldownUntil == d.file.value.cooldownUntil
            && forall t :: t in b.file.value.attempts ==> t in d.file.value.attempts || t == at
  {
    WithinIsSubset(d.file.value.attempts, c.Retention(), at);
    hide Within, Accepted;
  }

  lemma {:induction false} DoubledGrows(x: int, n: int)
    requires x >= 1 && n >= 0
    ensures Doubled(x, n) >= x + n
    decreases n
  {
    if n > 0 {
      DoubledGrows(x, n - 1);
    }
  }

  lemma LongBackoff(c: Config, k: nat)
    requires Pausing(c) && k > MAX_FAILURES
    ensures PROBE_PAUSE < c.Backoff(k) <= c.maxBackoff
  {
    DoubledGrows(c.minCooldown, 30);
    hide Doubled;
  }

  /** From one failure to the next. */
  function Period(c: Config): int {
    Span(c) + c.maxBackoff + PROBE_PAUSE
  }

  lemma {:induction false} FailAgain(c: Config, start: int, k: nat) returns (s: Sys, until: int)
    requires Pausing(c) && 0 <= start && start + (k + 1) * Period(c) + c.LongestPause() <= MAX_EPOCH
    ensures Reachable(c, start, s) && Failed(c, s, k, until)
    ensures until <= s.now + c.maxBackoff && (k > MAX_FAILURES ==> until <= s.now)
    ensures s.now + PROBE_PAUSE + c.maxBackoff <= start + (k + 1) * Period(c)
  {
    hide Reachable, Failed, MayStart;
    if k == 0 {
      s, until := Initial(start), 0;
      NobodyFailed(c, start);
      StartIsReachable(c, start);
    } else {
      Distributes(Period(c), k + 1);
      assert (k + 1) * Period(c) == Period(c) * (k + 1) && k * Period(c) == Period(c) * k;
      s, until := FailAgain(c, start, k - 1);
      var at := s.now + c.maxBackoff + PROBE_PAUSE;
      s := FailOnce(c, start, s, k - 1, until, at);
      until := if k - 1 < MAX_FAILURES then at + Span(c) + c.maxBackoff else until;
    }
  }

  lemma FailOnce(c: Config, start: int, s: Sys, k: nat, until: int, at: int) returns (t: Sys)
    requires Pausing(c) && Reachable(c, start, s) && Failed(c, s, k, until)
    requires s.now + PROBE_PAUSE <= at && until <= at - PROBE_PAUSE
    requires at + Span(c) + c.maxBackoff <= MAX_EPOCH && ClockAllows(c, at + Span(c))
    ensures Reachable(c, start, t) && t.now == at + Span(c)
    ensures Failed(c, t, k + 1, if k < MAX_FAILURES then at + Span(c) + c.maxBackoff else until)
  {
    hide Reachable, Failed, MayStart, Step, Begun, FinishedData;
    FailedPermits(c, s, k, until, at - PROBE_PAUSE);
    FailedPermits(c, s, k, until, at);
    FailedIsIdle(c, s, k, until);
    ReservationIsDue(c, start, s, at);
    ReservesNow(c, s.(now := at));
    ReachesNext(c, start, WithWorker(s.(now := at), Phase.Cleared, at), Work(0, Going(at)));
    CommandFails(c, start, s.(now := at), at + Span(c));
    OneFailure(c, s, k, until, at);
    t := AfterFailure(c, s.(now := at), at + Span(c));
  }

  lemma FailedIsIdle(c: Config, s: Sys, k: nat, until: int)
    requires Failed(c, s, k, until)
    ensures Idle(s) && Load(s.data.file).Some? && Failures(s.data.past.finishes) == k
    ensures k > 0 ==> s.data.past.finishes != [] && s.data.past.finishes[|s.data.past.finishes| - 1].time == s.now
  {
  }

  lemma NobodyFailed(c: Config, start: int)
    requires start >= 0
    ensures Failed(c, Initial(start), 0, 0)
  {
  }

  lemma StartIsReachable(c: Config, start: int)
    ensures Reachable(c, start, Initial(start))
  {
    assert Run(c, Initial(start), []) == Initial(start);
  }

  /** The pause of a failure is kept up to the thousandth only: for every later k there is a run in which the start after
      the k-th consecutive failure comes five seconds after it, before its pause is over. */
  lemma LaterPausesAreForgotten(c: Config, start: int, k: nat) returns (events: seq<Event>, e: Event)
    requires Pausing(c) && k > MAX_FAILURES
    requires 0 <= start && start + (k + 1) * Period(c) + c.LongestPause() <= MAX_EPOCH
    ensures var s := Run(c, Initial(start), events);
            && Failures(s.data.past.finishes) == k && s.data.past.finishes != []
            && |Step(c, s, e).data.past.starts| > |s.data.past.starts|
            && s.now < s.data.past.finishes[|s.data.past.finishes| - 1].time + c.Backoff(k)
  {
    hide Reachable, Failed, MayStart, Run;
    var s, until := FailAgain(c, start, k);
    var at := s.now + PROBE_PAUSE;
    FailedPermits(c, s, k, until, s.now);
    FailedPermits(c, s, k, until, at);
    FailedIsIdle(c, s, k, until);
    assert s.(now := s.now) == s;
    ReservationIsDue(c, start, s, at);
    LongBackoff(c, k);
    ReservesNow(c, s.(now := at));
    events := RunTo(c, start, WithWorker(s.(now := at), Phase.Cleared, at));
    e := Work(0, Going(at));
  }

  // ---------------------------------------------------------------------------------------------------
  // Exactly when every pause is waited out.

  /** If the step starts a recovery, the pause after the failures before it is over, however many they are. */
  ghost predicate WaitsOut(c: Config, s: Sys, e: Event) {
    var finishes := s.data.past.finishes;
    var k := Failures(finishes);
    |Step(c, s, e).data.past.starts| > |s.data.past.starts| && k > 0 ==>
      s.now >= finishes[|finishes| - 1].time + c.Backoff(k)
  }

  lemma ShortBackoff(c: Config, k: int)
    requires c.minCooldown <= 0 || c.maxBackoff <= PROBE_PAUSE
    ensures c.Backoff(k) <= PROBE_PAUSE
  {
    if c.minCooldown <= 0 {
      DoubledStays(c.minCooldown, Min(30, Max(0, k - 1)));
    }
    hide Doubled;
  }

  /** A start comes five seconds after the finish before it. */
  lemma StartsAfterFinish(c: Config, now: int, events: seq<Event>, e: Event)
    requires StartTime(c, now)
    ensures var s := Run(c, Initial(now), events);
            |Step(c, s, e).data.past.starts| > |s.data.past.starts| ==>
              s.now >= s.data.past.lastFinish + PROBE_PAUSE && FinishesOk(s.data.past)
  {
    hide Run, Step, OrderOk, PausesOk, StartTime;
    RunKeepsPauses(c, now, events);
    var s := Run(c, Initial(now), events);
    if |Step(c, s, e).data.past.starts| > |s.data.past.starts| {
      OnlyWorkersReserve(c, s, e);
    }
  }

  lemma NobodyStarts(c: Config, now: int, events: seq<Event>, e: Event)
    requires c.maxAttempts <= 0 && StartTime(c, now)
    ensures var s := Run(c, Initial(now), events);
            |Step(c, s, e).data.past.starts| <= |s.data.past.starts|
  {
    hide Run, Step, OrderOk, DataOk, Live, Paused, Accepted;
    RunKeeps(c, now, events);
    var s := Run(c, Initial(now), events);
    if |Step(c, s, e).data.past.starts| > |s.data.past.starts| {
      OnlyWorkersReserve(c, s, e);
      assert false;
    }
  }

  lemma ShortPausesAreWaitedOut(c: Config, now: int, events: seq<Event>, e: Event)
    requires !Pausing(c) && StartTime(c, now)
    ensures WaitsOut(c, Run(c, Initial(now), events), e)
  {
    hide Run, Step, StartTime;
    if c.maxAttempts <= 0 {
      NobodyStarts(c, now, events, e);
    } else {
      StartsAfterFinish(c, now, events, e);
      ShortBackoff(c, Failures(Run(c, Initial(now), events).data.past.finishes));
    }
  }

  /** Every start of every run waits out the pause after the failures before it, however many they are, if and only if no
      pause outlasts the sleep of a run or no recovery is permitted at all. */
  lemma EveryPauseIsWaitedOutIff(c: Config, start: int)
    requires 0 <= start && start + (MAX_FAILURES + 2) * Period(c) + c.LongestPause() <= MAX_EPOCH
    requires StartTime(c, start)
    ensures (forall events, e :: WaitsOut(c, Run(c, Initial(start), events), e)) <==> !Pausing(c)
  {
    hide Run, Step, Pausing, WaitsOut;
    if Pausing(c) {
      var events, e := LaterPausesAreForgotten(c, start, MAX_FAILURES + 1);
      Breaks(c, Run(c, Initial(start), events), e);
    } else {
      forall events, e ensures WaitsOut(c, Run(c, Initial(start), events), e) {
        ShortPausesAreWaitedOut(c, start, events, e);
      }
    }
  }

  lemma Breaks(c: Config, s: Sys, e: Event)
    requires Failures(s.data.past.finishes) > 0 && s.data.past.finishes != []
    requires |Step(c, s, e).data.past.starts| > |s.data.past.starts|
    requires s.now < s.data.past.finishes[|s.data.past.finishes| - 1].time + c.Backoff(Failures(s.data.past.finishes))
    ensures !WaitsOut(c, s, e)
  {
    hide Step;
  }
}
