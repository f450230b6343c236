/** The pauses of automatic recovery (core/automation.py), in every configuration: how long a start waits after failures,
    and that no run locks recovery out. The attempt limit may fail where the stamps do not fit; this does not. */
module RecoveryPauses {
  import opened Prelude
  import opened SlidingWindow
  import opened Automation
  import opened Recovery
  import opened RecoveryRuns

  // ---------------------------------------------------------------------------------------------------
  // The invariant.

  /** Stored stamps are in order, and none is later than the last start. */
  ghost predicate StampsOrdered(st: Safety, past: History) {
    Sorted(st.attempts) && forall t :: t in st.attempts ==> t <= LastStart(past)
  }

  /** The counter follows the trailing failures up to its limit, and so does the pause after the last of them. */
  ghost predicate FailuresCounted(c: Config, st: Safety, past: History) {
    var k := Failures(past.finishes);
    && st.failures == Min(MAX_FAILURES, k)
    && (0 < k <= MAX_FAILURES ==>
          st.cooldownUntil >= past.finishes[|past.finishes| - 1].time + c.Backoff(k))
  }

  ghost predicate PausesEnd(c: Config, st: Safety, past: History) {
    && st.cooldownUntil <= past.lastFinish + c.LongestPause()
    && (c.maxAttempts >= 1 ==>
          st.backoffUntil <= Max(past.lastFinish, LastStart(past) + c.window) + c.LongestPause())
  }

  /** A negative pause may have a deadline before the first second, which is not saved. */
  predicate PausesForward(c: Config) {
    c.minCooldown >= 0 && c.maxBackoff >= 0
  }

  ghost predicate PausesOk(c: Config, st: Safety, past: History) {
    StampsOrdered(st, past) && PausesEnd(c, st, past) && (PausesForward(c) ==> FailuresCounted(c, st, past))
  }

  ghost predicate FinishesOk(past: History) {
    past.finishes != [] ==> past.finishes[|past.finishes| - 1].time <= past.lastFinish
  }

  ghost predicate Between(now: int, past: History) {
    0 <= past.lastFinish <= now && 0 <= LastStart(past) <= now
  }

  ghost predicate PausesHold(c: Config, d: Data) {
    FinishesOk(d.past) && (Load(d.file).Some? ==> PausesOk(c, d.file.value, d.past))
  }

  lemma OrderlyIsBetween(s: Sys)
    requires Orderly(s)
    ensures Between(s.now, s.data.past)
  {
  }

  lemma InitialPauses(c: Config, now: int)
    ensures PausesHold(c, Initial(now).data)
  {
  }

  // ---------------------------------------------------------------------------------------------------
  // The operations.

  lemma WithinOrdered(s: seq<int>, span: int, now: int)
    requires Sorted(s)
    ensures Sorted(Within(s, span, now)) && forall t :: t in Within(s, span, now) ==> t in s && now - t < span
  {
    WithinIsSuffix(s, span, now);
    SuffixSorted(s, |s| - |Within(s, span, now)|);
    WithinIsSubset(s, span, now);
  }

  lemma PollPauses(c: Config, now: int, d: Data, h: Health)
    requires PausesHold(c, d) && Between(now, d.past)
    ensures PausesHold(c, Polled(c, now, d, h))
  {
    if Load(d.file).Some? {
      var st := d.file.value;
      PollIsSaved(c, st, h, now);
      WithinOrdered(st.attempts, c.Retention(), now);
      ResetPauses(c, Observed(c, st, h, now), d.past.(epoch := |d.past.starts|, finishes := []));
      hide Sorted, Within, Accepted, Doubled;
    }
  }

  lemma ResetPauses(c: Config, st: Safety, past: History)
    requires past.finishes == [] && past.lastFinish >= 0 && LastStart(past) >= 0
    ensures st.attempts == [] && st.failures == st.cooldownUntil == st.backoffUntil == 0 ==> PausesOk(c, st, past)
  {
  }

  /** An escalation happens within a window of the last start. */
  lemma EscalationIsEarly(c: Config, now: int, st: Safety, past: History)
    requires StampsOrdered(st, past)
    requires |Within(Prune(c, st, now).attempts, c.window, now)| >= c.maxAttempts
    ensures c.maxAttempts >= 1 ==> now < LastStart(past) + c.window
  {
    if c.maxAttempts >= 1 {
      var pruned := Prune(c, st, now).attempts;
      WithinIsSubset(pruned, c.window, now);
      WithinIsSubset(st.attempts, c.Retention(), now);
      var t := Within(pruned, c.window, now)[0];
      assert t in st.attempts;
    }
  }

  lemma PolicyPauses(c: Config, now: int, d: Data, h: Health)
    requires PausesHold(c, d)
    ensures PausesHold(c, d.(file := AfterPolicy(c, d.file, h, now)))
  {
    hide Sorted, Within, Accepted, Doubled, Failures;
    if Load(d.file).Some? && Judge(c, d.file.value, h, now).Escalate? {
      WithinOrdered(d.file.value.attempts, c.Retention(), now);
      EscalationIsEarly(c, now, d.file.value, d.past);
    }
  }

  lemma TogglePauses(c: Config, d: Data, enabled: bool)
    requires PausesHold(c, d)
    ensures PausesHold(c, d.(file := AfterToggle(d.file, enabled)))
  {
    hide Sorted, Accepted, Doubled, Failures;
  }

  lemma AppendOrdered(s: seq<int>, now: int)
    requires Sorted(s) && forall t :: t in s ==> t <= now
    ensures Sorted(s + [now]) && forall t :: t in s + [now] ==> t <= now
  {
    assert forall i :: 0 <= i < |s| ==> s[i] in s;
  }

  lemma BeginPauses(c: Config, now: int, d: Data)
    requires PausesHold(c, d) && Between(now, d.past) && Load(d.file).Some?
    ensures PausesHold(c, Begun(c, now, d))
  {
    WithinOrdered(d.file.value.attempts, c.Retention(), now);
    AppendOrdered(Within(d.file.value.attempts, c.Retention(), now), now);
    hide Sorted, Within, Accepted, Doubled, Failures, Paused;
  }

  lemma CancelPauses(c: Config, d: Data)
    requires PausesHold(c, d) && |d.past.starts| > 0
    ensures PausesHold(c, CancelledData(d, |d.past.starts| - 1))
  {
    hide Sorted, Accepted, Doubled, Failures;
    if Load(d.file).Some? {
      var st, after := d.file.value, WithLastCancelled(d.past);
      assert CancelledData(d, |d.past.starts| - 1) == Data(Save(d.file, Cancelled(st)), after);
      assert LastStart(after) == LastStart(d.past);
      CancelledOrdered(st, after);
    }
  }

  lemma CancelledOrdered(st: Safety, past: History)
    requires StampsOrdered(st, past)
    ensures StampsOrdered(Cancelled(st), past)
  {
    if st.attempts != [] {
      PrefixSorted(st.attempts, |st.attempts| - 1);
      assert forall t :: t in Cancelled(st).attempts ==> t in st.attempts;
    }
  }

  lemma FailuresAppend(finishes: seq<Finishing>, f: Finishing)
    ensures Failures(finishes + [f]) == if f.verified then 0 else Failures(finishes) + 1
  {
    assert (finishes + [f])[..|finishes|] == finishes;
  }

  lemma BackoffIsAtMostLongest(c: Config, failures: int)
    ensures c.Backoff(failures) <= c.LongestPause()
    ensures PausesForward(c) ==> c.Backoff(failures) >= 0
  {
    if PausesForward(c) {
      BackoffIsBounded(c, failures);
    }
  }

  lemma FinishedPausesEnd(c: Config, now: int, st: Safety, past: History, verified: bool)
    requires PausesEnd(c, st, past) && past.lastFinish <= now
    ensures PausesEnd(c, Finished(c, st, verified, now), past.(lastFinish := now))
    ensures PausesEnd(c, st, past.(lastFinish := now))
  {
    BackoffIsAtMostLongest(c, st.failures + 1);
    hide Within, Doubled;
  }

  /** A finish that is not saved is a failure beyond the limit of the counter. */
  lemma FinishIsCounted(c: Config, now: int, st: Safety, past: History, verified: bool)
    requires FailuresCounted(c, st, past) && PausesForward(c) && StartTime(c, now) && Accepted(st)
    ensures var next := Finished(c, st, verified, now);
            var after := past.(finishes := past.finishes + [Finishing(now, verified)], lastFinish := now);
            FailuresCounted(c, if Accepted(next) then next else st, after)
  {
    FailuresAppend(past.finishes, Finishing(now, verified));
    BackoffIsAtMostLongest(c, st.failures + 1);
    VerifiedFinishIsSavedIff(c, st, now);
    FailedFinishIsSavedIff(c, st, now);
    hide Accepted, Failures, Doubled, Within;
  }

  lemma FinishPauses(c: Config, now: int, d: Data, verified: bool)
    requires PausesHold(c, d) && Between(now, d.past) && StartTime(c, now)
    ensures PausesHold(c, FinishedData(c, now, d, verified))
  {
    hide Sorted, Accepted, Failures, FailuresCounted, PausesEnd, StartTime, PausesForward;
    if Load(d.file).Some? {
      var after := d.past.(finishes := d.past.finishes + [Finishing(now, verified)], lastFinish := now);
      var next := Finished(c, d.file.value, verified, now);
      FinishedPausesEnd(c, now, d.file.value, d.past, verified);
      assert PausesEnd(c, next, after) && PausesEnd(c, d.file.value, after) by {
        PausesEndIgnores(c, next, after.(finishes := d.past.finishes), after);
        PausesEndIgnores(c, d.file.value, after.(finishes := d.past.finishes), after);
      }
      if PausesForward(c) {
        FinishIsCounted(c, now, d.file.value, d.past, verified);
      }
      assert next.attempts == d.file.value.attempts;
      hide Finished;
    }
  }

  lemma PausesEndIgnores(c: Config, st: Safety, past: History, after: History)
    requires PausesEnd(c, st, past) && after.lastFinish == past.lastFinish && after.starts == past.starts
    ensures PausesEnd(c, st, after)
  {
  }

  lemma EffectPauses(c: Config, now: int, d: Data, w: Worker, action: Action, h: Health)
    requires PausesHold(c, d) && Between(now, d.past) && StartTime(c, now) && Pacing(now, d.past, w)
    requires Next(w.phase, action).Some?
    requires action.Reserve? && action.granted ==> Begins(d.file, now)
    ensures PausesHold(c, Effect(c, now, d, w.start, action, h))
  {
    hide PausesHold, AfterPolicy, Begun, CancelledData, FinishedData, Accepted, Paused, Between;
    match action
    case Check(_) => PolicyPauses(c, now, d, h);
    case Reserve(granted) => if granted { BeginPauses(c, now, d); }
    case Cancel => CancelPauses(c, d);
    case Finish(verified) => FinishPauses(c, now, d, verified);
    case _ =>
  }

  lemma WorkPauses(c: Config, s: Sys, i: nat, a: Answer)
    requires Orderly(s) && StartTime(c, s.now) && PausesHold(c, s.data) && i < |s.workers|
    ensures PausesHold(c, WorkStep(c, s, i, a).data)
  {
    hide PausesHold, Effect, Permits, Begins, OrderOk, Pacing, Between;
    OrderlyIsBetween(s);
    var w := s.workers[i];
    var action := ActionOf(c, s.now, s.data.file, w.phase, a);
    if Next(w.phase, action).Some? && w.wakes <= s.now {
      EffectPauses(c, s.now, s.data, w, action, a.health);
    }
  }

  lemma StepKeepsPauses(c: Config, s: Sys, e: Event)
    requires Orderly(s) && StartTime(c, s.now) && PausesHold(c, s.data)
    ensures StartTime(c, Step(c, s, e).now) && PausesHold(c, Step(c, s, e).data)
  {
    hide PausesOk, OrderOk, Polled, AfterPolicy, AfterToggle, Permits, WorkStep, Pacing, Accepted;
    OrderlyIsBetween(s);
    match e
    case Poll(h) => PollPauses(c, s.now, s.data, h);
    case Toggle(enabled) => TogglePauses(c, s.data, enabled);
    case Policy(h) => PolicyPauses(c, s.now, s.data, h);
    case Work(i, a) =>
      if i < |s.workers| {
        WorkPauses(c, s, i, a);
        WorkKeepsTime(c, s, i, a);
      }
    case _ =>
  }

  lemma WorkKeepsTime(c: Config, s: Sys, i: nat, a: Answer)
    requires i < |s.workers|
    ensures WorkStep(c, s, i, a).now == s.now
  {
    hide Effect, ActionOf, Following;
  }

  /** Over every run of every configuration. */
  lemma {:induction false} RunKeepsPauses(c: Config, now: int, events: seq<Event>)
    requires StartTime(c, now)
    ensures var s := Run(c, Initial(now), events);
            Orderly(s) && StartTime(c, s.now) && PausesHold(c, s.data)
  {
    hide Orderly, PausesHold, Step;
    RunIsOrderly(c, now, events);
    if events == [] {
      InitialPauses(c, now);
    } else {
      RunKeepsPauses(c, now, events[..|events| - 1]);
      StepKeepsPauses(c, Run(c, Initial(now), events[..|events| - 1]), events[|events| - 1]);
    }
  }

  // ---------------------------------------------------------------------------------------------------
  // The results.

  /** A step that adds a start is the reservation of the worker. */
  lemma OnlyWorkersReserve(c: Config, s: Sys, e: Event)
    requires |Step(c, s, e).data.past.starts| > |s.data.past.starts|
    ensures e.Work? && e.index < |s.workers| && s.workers[e.index].phase.Cleared? && s.workers[e.index].wakes <= s.now
    ensures Begins(s.data.file, s.now) && Step(c, s, e).data == Begun(c, s.now, s.data)
  {
    hide AfterPolicy, AfterHealth, AfterToggle, AfterBegin, AfterCancel, AfterFinish, Permits, Begins, Load;
  }

  lemma {:induction false} DoubledStays(x: int, n: int)
    requires x <= 0
    ensures Doubled(x, n) <= 0
    decreases n
  {
    if n > 0 {
      DoubledStays(x, n - 1);
    }
  }

  lemma NegativePausesAreOver(c: Config, k: int)
    requires !PausesForward(c)
    ensures c.Backoff(k) <= 0
  {
    if c.minCooldown < 0 {
      DoubledStays(c.minCooldown, Min(30, Max(0, k - 1)));
    }
  }

  /** A start waits out the pause of the failures before it: after the k-th consecutive failure since the last
      healthy reset, the next start comes no earlier than the doubled cooldown, capped at the longest backoff. */
  lemma {:induction false} StartWaitsForBackoff(c: Config, now: int, events: seq<Event>, e: Event)
    requires StartTime(c, now)
    ensures var s := Run(c, Initial(now), events);
            var k := Failures(s.data.past.finishes);
            |Step(c, s, e).data.past.starts| > |s.data.past.starts| && 0 < k <= MAX_FAILURES ==>
              s.now >= s.data.past.finishes[|s.data.past.finishes| - 1].time + c.Backoff(k)
  {
    hide Run, Step, Doubled, OrderOk, StampsOrdered, Pacing, Accepted;
    RunKeepsPauses(c, now, events);
    var s := Run(c, Initial(now), events);
    OrderlyIsBetween(s);
    if |Step(c, s, e).data.past.starts| > |s.data.past.starts| {
      OnlyWorkersReserve(c, s, e);
      if !PausesForward(c) {
        NegativePausesAreOver(c, Failures(s.data.past.finishes));
      }
    }
  }

  lemma NoneRecent(c: Config, now: int, st: Safety, past: History)
    requires StampsOrdered(st, past) && now >= LastStart(past) + c.window
    ensures Within(Prune(c, st, now).attempts, c.window, now) == []
  {
    var pruned := Prune(c, st, now).attempts;
    var recent := Within(pruned, c.window, now);
    if recent != [] {
      var t := recent[0];
      assert t in recent;
      WithinIsSubset(pruned, c.window, now);
      WithinIsSubset(st.attempts, c.Retention(), now);
      hide Within;
    }
  }

  /** No run locks recovery out for good. Once the longest pause has passed since the last finished run, and a
      whole window and the longest pause since the last start, a confirmed outage outside maintenance is permitted,
      unless the configuration permits no attempt at all. */
  lemma {:induction false} NeverLockedOut(c: Config, now: int, events: seq<Event>, h: Health)
    requires StartTime(c, now)
    ensures var s := Run(c, Initial(now), events);
            && Load(s.data.file).Some? && !s.data.file.value.maintenance && h.OutageConfirmed(s.now)
            && s.now >= s.data.past.lastFinish + c.LongestPause()
            && s.now >= LastStart(s.data.past) + c.window + c.LongestPause()
            ==> (Permits(c, s.data.file, h, s.now) <==> c.maxAttempts >= 1)
  {
    hide Run, Orderly, StampsOrdered, FailuresCounted, Accepted, Within, Failures;
    RunKeepsPauses(c, now, events);
    var s := Run(c, Initial(now), events);
    if Load(s.data.file).Some? && s.now >= LastStart(s.data.past) + c.window {
      NoneRecent(c, s.now, s.data.file.value, s.data.past);
    }
  }
}
