/** What a run of the recovery system has seen: on which evidence its counters are forgotten (core/automation.py), and
    how long each of its pauses can last. */
module RecoveryEvidence {
  import opened Prelude
  import opened SlidingWindow
  import opened Automation
  import opened Recovery
  import opened RecoveryRuns
  import opened RecoveryPauses

  // ---------------------------------------------------------------------------------------------------
  // Healthy resets.

  datatype Sighting = Sighting(time: int, healthy: bool)

  predicate Awake(s: Sys, i: nat) {
    i < |s.workers| && s.workers[i].wakes <= s.now
  }

  /** Asterisk is online and answers, and so does the node. */
  predicate Well(h: Health) {
    h.asterisk == AsteriskObservation.Online && h.queryNormal == true && h.nodeNormal == true
  }

  /** What a step learns about health: a poll, or a verified recovery. */
  function Seen(s: Sys, e: Event): seq<Sighting> {
    if Load(s.data.file).None? then []
    else
      match e
      case Poll(h) => [Sighting(s.now, Well(h))]
      case Work(i, _) => if Awake(s, i) && s.workers[i].phase.Passing? then [Sighting(s.now, true)] else []
      case _ => []
  }

  function SeenIn(c: Config, now: int, events: seq<Event>): seq<Sighting> {
    if events == [] then []
    else
      var init := events[..|events| - 1];
      SeenIn(c, now, init) + Seen(Run(c, Initial(now), init), events[|events| - 1])
  }

  /** Everything seen since a sighting at `t` was healthy. */
  ghost predicate HealthyFrom(seen: seq<Sighting>, t: int) {
    exists i :: 0 <= i < |seen| && seen[i].time == t && forall k :: i <= k < |seen| ==> seen[k].healthy
  }

  ghost predicate SinceIsSeen(file: File, seen: seq<Sighting>) {
    Load(file).Some? && file.value.healthySince.Some? ==> HealthyFrom(seen, file.value.healthySince.value)
  }

  lemma HealthyFromMore(seen: seq<Sighting>, t: int, now: int)
    ensures HealthyFrom(seen, t) ==> HealthyFrom(seen + [Sighting(now, true)], t)
    ensures HealthyFrom(seen + [Sighting(now, true)], now)
  {
    var more := seen + [Sighting(now, true)];
    assert more[|seen|] == Sighting(now, true);
    if i :| 0 <= i < |seen| && seen[i].time == t && forall k :: i <= k < |seen| ==> seen[k].healthy {
      assert more[i].time == t && forall k :: i <= k < |more| ==> more[k].healthy;
    }
  }

  lemma PollKeepsSince(c: Config, file: File, h: Health, now: int, seen: seq<Sighting>)
    requires Load(file).Some? && SinceIsSeen(file, seen)
    ensures SinceIsSeen(AfterHealth(c, file, h, now), seen + [Sighting(now, Well(h))])
  {
    PollIsSaved(c, file.value, h, now);
    if h.Healthy() {
      HealthyFromMore(seen, file.value.healthySince.GetOr(now), now);
    }
    hide HealthyFrom, Accepted;
  }

  lemma WorkKeepsSince(c: Config, now: int, d: Data, w: Worker, a: Answer, seen: seq<Sighting>)
    requires Load(d.file).Some? && SinceIsSeen(d.file, seen)
    ensures var action := ActionOf(c, now, d.file, w.phase, a);
            SinceIsSeen(Effect(c, now, d, w.start, action, a.health).file,
                        if w.phase.Passing? then seen + [Sighting(now, true)] else seen)
  {
    if w.phase.Passing? {
      HealthyFromMore(seen, d.file.value.healthySince.GetOr(now), now);
    }
    hide HealthyFrom, Accepted;
  }

  lemma OthersKeepSince(c: Config, file: File, h: Health, enabled: bool, now: int, seen: seq<Sighting>)
    requires SinceIsSeen(file, seen)
    ensures SinceIsSeen(AfterPolicy(c, file, h, now), seen) && SinceIsSeen(AfterToggle(file, enabled), seen)
  {
    hide HealthyFrom, Accepted;
  }

  lemma RefusedStaysRefused(c: Config, s: Sys, e: Event)
    requires Load(s.data.file).None?
    ensures Load(Step(c, s, e).data.file).None?
  {
    var h := if e.Poll? || e.Policy? then e.health else Health(AsteriskObservation.Unknown, false, false, None);
    InvalidStateInhibits(c, s.data.file, h, e.Toggle? && e.enabled, false, s.now);
    hide AfterPolicy, AfterToggle, AfterHealth, Effect, ActionOf, Permits, Accepted;
    if e.Work? && e.index < |s.workers| {
      EffectStaysAccepted(c, s.now, s.data, s.workers[e.index], e.answer);
    }
  }

  lemma StepKeepsSince(c: Config, s: Sys, e: Event, seen: seq<Sighting>)
    requires SinceIsSeen(s.data.file, seen)
    ensures SinceIsSeen(Step(c, s, e).data.file, seen + Seen(s, e))
  {
    assert seen + [] == seen;
    hide HealthyFrom, Accepted, AfterPolicy, AfterToggle, AfterHealth, Effect, ActionOf, Permits;
    if Load(s.data.file).None? {
      RefusedStaysRefused(c, s, e);
    } else {
      match e
      case Poll(h) => PollKeepsSince(c, s.data.file, h, s.now, seen);
      case Policy(h) => OthersKeepSince(c, s.data.file, h, false, s.now, seen);
      case Toggle(enabled) =>
        var h := Health(AsteriskObservation.Unknown, false, false, None);
        OthersKeepSince(c, s.data.file, h, enabled, s.now, seen);
      case Work(i, a) =>
        if i < |s.workers| {
          WorkKeepsSince(c, s.now, s.data, s.workers[i], a, seen);
          PassingFinishes(c, s.now, s.data.file, a);
        }
      case _ =>
    }
  }

  lemma PassingFinishes(c: Config, now: int, file: File, a: Answer)
    ensures ActionOf(c, now, file, Passing, a) == Finish(true)
  {
  }

  lemma {:induction false} SinceIsAlwaysSeen(c: Config, now: int, events: seq<Event>)
    ensures SinceIsSeen(Run(c, Initial(now), events).data.file, SeenIn(c, now, events))
  {
    if events != [] {
      hide SinceIsSeen, Step, Seen;
      var init := events[..|events| - 1];
      SinceIsAlwaysSeen(c, now, init);
      StepKeepsSince(c, Run(c, Initial(now), init), events[|events| - 1], SeenIn(c, now, init));
    }
  }

  /** The step forgets the attempts and failures so far. */
  predicate Forgets(c: Config, s: Sys, e: Event) {
    e.Poll? && Load(s.data.file).Some? && Resets(c, s.data.file.value, e.health, s.now)
  }

  /** Counters are forgotten only on sustained health: over every run, when a step forgets them, everything seen since
      some sighting at least `healthyReset` seconds ago was healthy. No other step forgets any start. */
  lemma {:induction false} ResetNeedsSustainedHealth(c: Config, now: int, events: seq<Event>, e: Event)
    ensures var s := Run(c, Initial(now), events);
            && (Forgets(c, s, e) ==>
                  exists t :: HealthyFrom(SeenIn(c, now, events + [e]), t) && s.now - t >= c.healthyReset)
            && (!Forgets(c, s, e) ==>
                  Step(c, s, e).data.past.epoch == s.data.past.epoch
                  && |Step(c, s, e).data.past.finishes| >= |s.data.past.finishes|)
  {
    hide Run, Forgets, SeenIn, HealthyFrom, Step;
    var s := Run(c, Initial(now), events);
    if Forgets(c, s, e) {
      var t := ForgetsOnHealth(c, now, events, e);
    } else {
      OthersForgetNothing(c, s, e);
    }
  }

  lemma ForgetsOnHealth(c: Config, now: int, events: seq<Event>, e: Event) returns (t: int)
    requires Forgets(c, Run(c, Initial(now), events), e)
    ensures HealthyFrom(SeenIn(c, now, events + [e]), t) && Run(c, Initial(now), events).now - t >= c.healthyReset
  {
    hide Run, HealthyFrom, Accepted, Within;
    var s := Run(c, Initial(now), events);
    SinceIsAlwaysSeen(c, now, events);
    var seen := SeenIn(c, now, events);
    assert (events + [e])[..|events|] == events;
    assert SeenIn(c, now, events + [e]) == seen + [Sighting(s.now, true)];
    t := s.data.file.value.healthySince.GetOr(s.now);
    HealthyFromMore(seen, t, s.now);
  }

  lemma OthersForgetNothing(c: Config, s: Sys, e: Event)
    requires !Forgets(c, s, e)
    ensures Step(c, s, e).data.past.epoch == s.data.past.epoch
    ensures |Step(c, s, e).data.past.finishes| >= |s.data.past.finishes|
  {
    hide AfterHealth, AfterPolicy, AfterToggle, AfterBegin, AfterCancel, AfterFinish, Permits, Begins, Load;
  }

  // ---------------------------------------------------------------------------------------------------
  // Sustained health is forgiven.

  /** Neither a worker nor damage, and no poll that sees trouble. */
  predicate Calm(e: Event) {
    !e.Work? && !e.Damage? && (e.Poll? ==> Well(e.health))
  }

  ghost predicate WellSince(s: Sys, t: int) {
    Load(s.data.file).Some? && s.data.file.value.healthySince.Some? && s.data.file.value.healthySince.value <= t
  }

  lemma {:induction false} SeenIsPast(c: Config, now: int, events: seq<Event>)
    ensures forall i :: 0 <= i < |SeenIn(c, now, events)| ==> SeenIn(c, now, events)[i].time <= Run(c, Initial(now), events).now
  {
    if events != [] {
      var init, e := events[..|events| - 1], events[|events| - 1];
      SeenIsPast(c, now, init);
      ClockGoesOn(c, Run(c, Initial(now), init), e);
      hide Step;
    }
  }

  lemma ClockGoesOn(c: Config, s: Sys, e: Event)
    ensures Step(c, s, e).now >= s.now
  {
    hide Effect, ActionOf, Following, AfterPolicy, AfterHealth, AfterToggle, Permits;
  }

  lemma PolledWell(c: Config, s: Sys, h: Health, t: int)
    requires Well(h) && Load(s.data.file).Some? && t <= s.now
    requires s.data.file.value.healthySince.Some? ==> s.data.file.value.healthySince.value <= t
    requires s.data.file.value.healthySince.None? ==> s.now == t
    ensures WellSince(Step(c, s, Poll(h)), t) && Step(c, s, Poll(h)).now == s.now
  {
    PollIsSaved(c, s.data.file.value, h, s.now);
    hide Accepted, Within;
  }

  lemma CalmKeepsWell(c: Config, s: Sys, e: Event, t: int)
    requires Calm(e) && WellSince(s, t) && t <= s.now
    ensures WellSince(Step(c, s, e), t) && t <= Step(c, s, e).now
  {
    hide Accepted, Within;
    ClockGoesOn(c, s, e);
    match e
    case Poll(h) => PolledWell(c, s, h, t);
    case _ =>
  }

  lemma {:induction false} CalmRunKeepsWell(c: Config, s: Sys, events: seq<Event>, t: int)
    requires WellSince(s, t) && t <= s.now && forall e :: e in events ==> Calm(e)
    ensures WellSince(Run(c, s, events), t) && t <= Run(c, s, events).now
  {
    if events != [] {
      hide WellSince, Step;
      var init, e := events[..|events| - 1], events[|events| - 1];
      CalmRunKeepsWell(c, s, init, t);
      assert e in events;
      CalmKeepsWell(c, Run(c, s, init), e, t);
    }
  }

  /** The converse: when every poll from some time on has found Asterisk online, its query and its node normal, and no
      worker has acted in between, then the poll that comes `healthyReset` seconds later leaves no attempt, no failure
      and no pause behind, and if there was any, a resting mode. */
  lemma SustainedHealthIsForgiven(c: Config, now: int, before: seq<Event>, first: Health, between: seq<Event>, last: Health)
    requires Well(first) && Well(last) && forall e :: e in between ==> Calm(e)
    requires Load(Run(c, Initial(now), before).data.file).Some?
    ensures var s := Run(c, Initial(now), before);
            var t := Run(c, Step(c, s, Poll(first)), between);
            var after := Step(c, t, Poll(last)).data.file;
            && after.Some? && after.value.maintenance == t.data.file.value.maintenance
            && (t.now - s.now >= c.healthyReset ==>
                  && after.value.attempts == []
                  && after.value.failures == after.value.cooldownUntil == after.value.backoffUntil == 0
                  && (t.data.file.value.failures != 0 || t.data.file.value.cooldownUntil != 0
                      || t.data.file.value.backoffUntil != 0 ==>
                        after.value.mode == if after.value.maintenance then Maintenance else Active))
  {
    hide Run, Step, WellSince, SeenIn, Accepted, Within;
    var s := Run(c, Initial(now), before);
    SinceIsAlwaysSeen(c, now, before);
    SeenIsPast(c, now, before);
    PolledWell(c, s, first, s.now);
    CalmRunKeepsWell(c, Step(c, s, Poll(first)), between, s.now);
    LongWell(c, Run(c, Step(c, s, Poll(first)), between), last, s.now);
  }

  lemma LongWell(c: Config, s: Sys, h: Health, t: int)
    requires Well(h) && WellSince(s, t)
    ensures var after := Step(c, s, Poll(h)).data.file;
            && after.Some? && after.value.maintenance == s.data.file.value.maintenance
            && (s.now - t >= c.healthyReset ==>
                  && after.value.attempts == []
                  && after.value.failures == after.value.cooldownUntil == after.value.backoffUntil == 0
                  && (s.data.file.value.failures != 0 || s.data.file.value.cooldownUntil != 0
                      || s.data.file.value.backoffUntil != 0 ==>
                        after.value.mode == if after.value.maintenance then Maintenance else Active))
  {
    PollIsSaved(c, s.data.file.value, h, s.now);
    hide Accepted, Within;
  }

  // ---------------------------------------------------------------------------------------------------
  // Pauses.

  /** The step ends in the escalation of `recovery_allowed`. */
  predicate Escalates(c: Config, s: Sys, e: Event) {
    && Load(s.data.file).Some?
    && match e
       case Policy(h) => h.asterisk.Offline? && Judge(c, s.data.file.value, h, s.now).Escalate?
       case Work(i, a) =>
         Awake(s, i) && s.workers[i].phase in {Entered, StoppedTwice}
         && Judge(c, s.data.file.value, a.health, s.now).Escalate?
       case _ => false
  }

  /** The time of the last escalation, or zero. */
  function LastEscalation(c: Config, now: int, events: seq<Event>): int {
    if events == [] then 0
    else
      var init := events[..|events| - 1];
      var s := Run(c, Initial(now), init);
      if Escalates(c, s, events[|events| - 1]) then s.now else LastEscalation(c, now, init)
  }

  ghost predicate BackoffOk(c: Config, s: Sys, escalation: int) {
    && 0 <= escalation <= s.now && 0 <= s.data.past.lastFinish <= s.now
    && (Load(s.data.file).Some? ==>
          s.data.file.value.backoffUntil <= Max(s.data.past.lastFinish, escalation) + c.LongestPause())
  }

  lemma EffectKeepsBackoff(c: Config, s: Sys, w: Worker, a: Answer, escalation: int)
    requires BackoffOk(c, s, escalation)
    ensures var action := ActionOf(c, s.now, s.data.file, w.phase, a);
            var escalates := Load(s.data.file).Some? && w.phase in {Entered, StoppedTwice}
                             && Judge(c, s.data.file.value, a.health, s.now).Escalate?;
            BackoffOk(c, s.(data := Effect(c, s.now, s.data, w.start, action, a.health)),
                      if escalates then s.now else escalation)
  {
    if Load(s.data.file).Some? {
      BackoffIsAtMostLongest(c, s.data.file.value.failures + 1);
    }
    hide Accepted, Doubled, Within, Next;
  }

  lemma StepKeepsBackoff(c: Config, s: Sys, e: Event, escalation: int)
    requires BackoffOk(c, s, escalation)
    ensures BackoffOk(c, Step(c, s, e), if Escalates(c, s, e) then s.now else escalation)
  {
    hide Accepted, Within, Doubled, ActionOf, Effect;
    if e.Work? && e.index < |s.workers| {
      EffectKeepsBackoff(c, s, s.workers[e.index], e.answer, escalation);
    }
  }

  lemma {:induction false} BackoffIsExplained(c: Config, now: int, events: seq<Event>)
    requires now >= 0
    ensures BackoffOk(c, Run(c, Initial(now), events), LastEscalation(c, now, events))
  {
    if events != [] {
      hide BackoffOk, Step, Escalates;
      var init := events[..|events| - 1];
      BackoffIsExplained(c, now, init);
      StepKeepsBackoff(c, Run(c, Initial(now), init), events[|events| - 1], LastEscalation(c, now, init));
    }
  }

  /** An escalation takes hold, whether the coordinator or a worker meets the attempt limit: the longest backoff begins and
      the mode asks for attention. */
  lemma EscalationTakesHold(c: Config, s: Sys, e: Event)
    requires Escalates(c, s, e) && IsStamp(s.now + c.maxBackoff)
    ensures var file := Step(c, s, e).data.file;
            file.Some? && file.value.backoffUntil == s.now + c.maxBackoff && file.value.mode == Attention
  {
    EscalationIsSavedIff(c, s.data.file.value, s.now);
    hide Accepted, Within, Doubled;
  }

  /** Every pause runs out. Once the longest pause has passed since the last finished run and the last escalation, and
      a window since the last start, a confirmed outage outside maintenance is permitted, unless no attempt ever is. When the longest pause covers
      the window, that is: once it has passed since the last start, finish or escalation. */
  lemma {:induction false} PausesRunOut(c: Config, now: int, events: seq<Event>, h: Health)
    requires StartTime(c, now)
    ensures var s := Run(c, Initial(now), events);
            && Load(s.data.file).Some? && !s.data.file.value.maintenance && h.OutageConfirmed(s.now)
            && s.now >= s.data.past.lastFinish + c.LongestPause()
            && s.now >= LastEscalation(c, now, events) + c.LongestPause()
            && s.now >= LastStart(s.data.past) + c.window
            ==> (Permits(c, s.data.file, h, s.now) <==> c.maxAttempts >= 1)
  {
    hide Run, LastEscalation, Orderly, PausesHold, BackoffOk, Load, Permits;
    RunKeepsPauses(c, now, events);
    BackoffIsExplained(c, now, events);
    PermittedAfter(c, Run(c, Initial(now), events), LastEscalation(c, now, events), h);
  }

  /** Nothing inhibits a recovery once the pauses of the state have passed and its windows are empty. */
  lemma PermittedAfter(c: Config, s: Sys, escalation: int, h: Health)
    requires PausesHold(c, s.data) && BackoffOk(c, s, escalation)
    ensures && Load(s.data.file).Some? && !s.data.file.value.maintenance && h.OutageConfirmed(s.now)
            && s.now >= s.data.past.lastFinish + c.LongestPause() && s.now >= escalation + c.LongestPause()
            && s.now >= LastStart(s.data.past) + c.window
            ==> (Permits(c, s.data.file, h, s.now) <==> c.maxAttempts >= 1)
  {
    hide Within, FailuresCounted, StampsOrdered, Accepted, AsteriskObservation.ConfirmedStopped;
    if Load(s.data.file).Some? && s.now >= LastStart(s.data.past) + c.window {
      NoneRecent(c, s.now, s.data.file.value, s.data.past);
    }
  }

  // ---------------------------------------------------------------------------------------------------
  // The length of the stored list.

  ghost predicate StampsRecent(c: Config, d: Data) {
    Load(d.file).Some? ==> forall t :: t in d.file.value.attempts ==> LastStart(d.past) - t < c.Retention()
  }

  /** Every operation but a reservation keeps some of the stamps and no others. */
  lemma OthersAddNoStamp(c: Config, file: File, h: Health, enabled: bool, verified: bool, now: int)
    requires Load(file).Some?
    ensures forall after :: after in {AfterHealth(c, file, h, now), AfterPolicy(c, file, h, now), AfterToggle(file, enabled),
                                      AfterCancel(file), AfterFinish(c, file, verified, now)} ==>
              after.Some? && forall t :: t in after.value.attempts ==> t in file.value.attempts
  {
    WithinIsSubset(file.value.attempts, c.Retention(), now);
    hide Accepted, Within;
  }

  lemma BeginKeepsRecent(c: Config, now: int, d: Data)
    requires StampsFit(c) && DataOk(c, now, d) && Begins(d.file, now)
    requires NextFits(Live(d.past), Limit(c), c.window + PROBE_PAUSE, now) && LastStart(d.past) + PROBE_PAUSE <= now
    ensures StampsRecent(c, Begun(c, now, d))
  {
    ReservationFits(c, now, d);
    WithinIsSubset(d.file.value.attempts, c.Retention(), now);
    hide Accepted, Within, DataOk, Live, NextFits, Paused;
  }

  lemma EffectKeepsRecent(c: Config, s: Sys, w: Worker, a: Answer)
    requires StampsFit(c) && DataOk(c, s.now, s.data) && WorkerOk(c, s.now, s.data, w) && StampsRecent(c, s.data)
    requires Pacing(s.now, s.data.past, w)
    ensures StampsRecent(c, Effect(c, s.now, s.data, w.start, ActionOf(c, s.now, s.data.file, w.phase, a), a.health))
  {
    hide DataOk, Live, NextFits, StampsFit, Accepted, Within;
    if Load(s.data.file).None? {
      EffectStaysAccepted(c, s.now, s.data, w, a);
    } else {
      OthersAddNoStamp(c, s.data.file, a.health, false, w.phase.Passing?, s.now);
      hide AfterPolicy, AfterCancel, AfterFinish, AfterHealth, AfterToggle, Permits;
      if w.phase.Cleared? && Begins(s.data.file, s.now) {
        NextFitsLater(Live(s.data.past), Limit(c), c.window + PROBE_PAUSE, w.wakes, s.now);
        BeginKeepsRecent(c, s.now, s.data);
      }
      hide Begun, Begins;
    }
  }

  lemma StepKeepsRecent(c: Config, s: Sys, e: Event)
    requires StampsFit(c) && Invariant(c, s) && StampsRecent(c, s.data)
    ensures StampsRecent(c, Step(c, s, e).data)
  {
    hide DataOk, StampsFit, Accepted, Within, WorkerOk, Pacing, OrderOk, ActionOf, Effect, AfterPolicy, AfterHealth, AfterToggle, Permits;
    if Load(s.data.file).None? {
      RefusedStaysRefused(c, s, e);
    } else {
      var h := if e.Poll? || e.Policy? then e.health else Health(AsteriskObservation.Unknown, false, false, None);
      OthersAddNoStamp(c, s.data.file, h, e.Toggle? && e.enabled, false, s.now);
      if e.Work? && e.index < |s.workers| {
        EffectKeepsRecent(c, s, s.workers[0], e.answer);
      }
    }
  }

  lemma {:induction false} StampsStayRecent(c: Config, now: int, events: seq<Event>)
    requires StampsFit(c) && StartTime(c, now)
    ensures StampsRecent(c, Run(c, Initial(now), events).data)
  {
    if events != [] {
      hide StampsRecent, Step, Invariant;
      var init := events[..|events| - 1];
      StampsStayRecent(c, now, init);
      RecoveryRuns.RunKeeps(c, now, init);
      StepKeepsRecent(c, Run(c, Initial(now), init), events[|events| - 1]);
    }
  }

  /** In every reachable state of every configuration the stored list is sorted and no longer than the room in the
      retention, or the validator where the starts that fit the retention find no room in it. */
  lemma {:induction false} StampsAreBounded(c: Config, now: int, events: seq<Event>)
    requires StartTime(c, now)
    ensures var file := Run(c, Initial(now), events).data.file;
            Load(file).Some? ==>
              && Sorted(file.value.attempts) && |file.value.attempts| <= MAX_STAMPS
              && (c.window >= 1 ==>
                    |file.value.attempts| <= Room(Max(0, c.maxAttempts), c.window + PROBE_PAUSE, PROBE_PAUSE, c.Retention()))
  {
    hide Run, Orderly, Sorted, Room, StampsFit, StartTime, PausesEnd, FailuresCounted;
    RunKeepsPauses(c, now, events);
    if StampsFit(c) {
      RoomBoundsStamps(c, now, events);
    } else {
      NotFitting(c);
    }
  }

  lemma NotFitting(c: Config)
    requires !StampsFit(c)
    ensures c.maxAttempts >= 1
    ensures c.window >= 1 ==> Room(c.maxAttempts, c.window + PROBE_PAUSE, PROBE_PAUSE, c.Retention()) > MAX_STAMPS
  {
    hide Room;
  }

  lemma {:induction false} RoomBoundsStamps(c: Config, now: int, events: seq<Event>)
    requires StampsFit(c) && StartTime(c, now)
    ensures var file := Run(c, Initial(now), events).data.file;
            Load(file).Some? && c.window >= 1 ==>
              |file.value.attempts| <= Room(Max(0, c.maxAttempts), c.window + PROBE_PAUSE, PROBE_PAUSE, c.Retention())
  {
    hide Run, StampsRecent, DataOk, WorkerOk, Pacing, OrderOk, StampsFit, StartTime, Load, Room;
    StampsStayRecent(c, now, events);
    RecoveryRuns.RunKeeps(c, now, events);
    if c.window >= 1 {
      RecentAreFew(c, Run(c, Initial(now), events));
    }
  }

  lemma RecentAreFew(c: Config, s: Sys)
    requires c.window >= 1 && DataOk(c, s.now, s.data) && StampsRecent(c, s.data)
    ensures Load(s.data.file).Some? ==>
              |s.data.file.value.attempts| <= Room(Max(0, c.maxAttempts), c.window + PROBE_PAUSE, PROBE_PAUSE, c.Retention())
  {
    hide Accepted, Live, Sorted, Spaced, Retains, Room;
    if Load(s.data.file).Some? {
      var attempts, live := s.data.file.value.attempts, Live(s.data.past);
      RetainedShape(attempts, live, c.Retention(), s.now);
      SuffixSpaced(live, |live| - |attempts|, Limit(c), c.window + PROBE_PAUSE);
      SuffixSpaced(live, |live| - |attempts|, 1, PROBE_PAUSE);
      RetainedAreLive(attempts, live, c.Retention(), s.now);
      assert forall j :: 0 <= j < |attempts| ==> attempts[j] in attempts;
      SpacedBoundsLength(attempts, Limit(c), c.window + PROBE_PAUSE, PROBE_PAUSE, c.Retention(), LastStart(s.data.past));
    }
  }
}
