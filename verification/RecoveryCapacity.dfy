/** Exactly which configurations bound the recovery starts (core/automation.py, core/recovery.py). The safety state holds
    4096 stamps; a configuration whose windows can fill them lets further starts go unrecorded, unless the sleep of each
    run keeps the starts apart. */
module RecoveryCapacity {
  import opened Prelude
  import opened SlidingWindow
  import opened AsteriskObservation
  import opened Automation
  import opened Recovery
  import opened RecoveryRuns

  /** A run from the start leads here. */
  ghost predicate Reachable(c: Config, start: int, s: Sys) {
    exists events :: Run(c, Initial(start), events) == s
  }

  lemma ReachesNext(c: Config, start: int, s: Sys, e: Event)
    requires Reachable(c, start, s)
    ensures Reachable(c, start, Step(c, s, e))
  {
    hide Step;
    var events :| Run(c, Initial(start), events) == s;
    assert (events + [e])[..|events|] == events;
    assert Run(c, Initial(start), events + [e]) == Step(c, s, e);
  }

  // ---------------------------------------------------------------------------------------------------
  // A start whose worker dies: the monitor restarts after the reservation.

  function Stopped(now: int): Health {
    Health(Offline, false, false, Some(Evidence(Service(Offline, now, Some(0), true, InactiveDead), false)))
  }

  function Going(now: int): Answer {
    Answer(Stopped(now), true, Succeeded)
  }

  predicate Idle(s: Sys) {
    s.workers == [] && !s.lockHeld
  }

  predicate MayStart(c: Config, s: Sys) {
    Permits(c, s.data.file, Stopped(s.now), s.now)
  }

  function WithWorker(s: Sys, phase: Phase, wakes: int): Sys {
    s.(policyPassed := false, lockHeld := true, workers := [Worker(phase, 0, wakes)])
  }

  lemma PermittedLeavesFile(c: Config, file: File, h: Health, now: int)
    requires Permits(c, file, h, now)
    ensures AfterPolicy(c, file, h, now) == file && Begins(file, now)
  {
  }

  lemma ClaimStarts(c: Config, s: Sys)
    requires Idle(s) && MayStart(c, s)
    ensures Step(c, Step(c, s, Policy(Stopped(s.now))), Claim(true)) == WithWorker(s, Phase.Entered, s.now)
  {
    PermittedLeavesFile(c, s.data.file, Stopped(s.now), s.now);
    hide AfterPolicy, Permits;
  }

  lemma WorkerGoesOn(c: Config, s: Sys, phase: Phase, wakes: int)
    requires MayStart(c, s) && phase in {Phase.Entered, Phase.Permitted, Phase.StoppedOnce, Phase.StoppedTwice}
    requires wakes <= s.now
    ensures Step(c, WithWorker(s, phase, wakes), Work(0, Going(s.now))) ==
            match phase
            case Entered => WithWorker(s, Phase.Permitted, wakes)
            case Permitted => WithWorker(s, Phase.StoppedOnce, s.now + PROBE_PAUSE)
            case StoppedOnce => WithWorker(s, Phase.StoppedTwice, wakes)
            case _ => WithWorker(s, Phase.Cleared, wakes)
  {
    hide AfterPolicy, Permits;
    PermittedLeavesFile(c, s.data.file, Stopped(s.now), s.now);
  }

  lemma WorkerReserves(c: Config, s: Sys, wakes: int)
    requires MayStart(c, s) && wakes <= s.now
    ensures Step(c, Step(c, WithWorker(s, Phase.Cleared, wakes), Work(0, Going(s.now))), Restart) == AfterStart(c, s)
  {
    PermittedLeavesFile(c, s.data.file, Stopped(s.now), s.now);
    hide Load, Permits, AfterPolicy, AfterBegin, Begins;
  }

  /** The worker holds a reservation made at `s.now`. */
  function WithReservation(c: Config, s: Sys): Sys {
    s.(policyPassed := false, lockHeld := true, data := Begun(c, s.now, s.data),
       workers := [Worker(Phase.Holding, |s.data.past.starts|, s.now)])
  }

  lemma ReservesNow(c: Config, s: Sys)
    requires MayStart(c, s)
    ensures Step(c, WithWorker(s, Phase.Cleared, s.now), Work(0, Going(s.now))) == WithReservation(c, s)
  {
    PermittedLeavesFile(c, s.data.file, Stopped(s.now), s.now);
    hide Load, Permits, AfterPolicy, AfterBegin, Begins;
  }

  /** One more start at this time, after which the monitor is idle again. */
  function AfterStart(c: Config, s: Sys): Sys {
    s.(policyPassed := false, lockHeld := false, workers := [], data := Begun(c, s.now, s.data))
  }

  predicate ClockAllows(c: Config, now: int) {
    now + c.LongestPause() <= MAX_EPOCH
  }

  lemma FirstProbe(c: Config, start: int, s: Sys)
    requires Reachable(c, start, s) && Idle(s) && MayStart(c, s)
    ensures Reachable(c, start, WithWorker(s, Phase.StoppedOnce, s.now + PROBE_PAUSE))
  {
    hide Step, MayStart, Reachable;
    var w := Work(0, Going(s.now));
    ClaimStarts(c, s);
    ReachesNext(c, start, s, Policy(Stopped(s.now)));
    ReachesNext(c, start, Step(c, s, Policy(Stopped(s.now))), Claim(true));
    WorkerGoesOn(c, s, Phase.Entered, s.now);
    ReachesNext(c, start, WithWorker(s, Phase.Entered, s.now), w);
    WorkerGoesOn(c, s, Phase.Permitted, s.now);
    ReachesNext(c, start, WithWorker(s, Phase.Permitted, s.now), w);
  }

  lemma SecondProbe(c: Config, start: int, s: Sys)
    requires Reachable(c, start, WithWorker(s, Phase.StoppedOnce, s.now)) && MayStart(c, s)
    ensures Reachable(c, start, WithWorker(s, Phase.Cleared, s.now))
  {
    hide Step, MayStart, Reachable;
    var w := Work(0, Going(s.now));
    WorkerGoesOn(c, s, Phase.StoppedOnce, s.now);
    ReachesNext(c, start, WithWorker(s, Phase.StoppedOnce, s.now), w);
    WorkerGoesOn(c, s, Phase.StoppedTwice, s.now);
    ReachesNext(c, start, WithWorker(s, Phase.StoppedTwice, s.now), w);
  }

  lemma Waits(c: Config, start: int, s: Sys, until: int)
    requires Reachable(c, start, s) && s.now <= until && ClockAllows(c, until)
    ensures Reachable(c, start, s.(now := until))
  {
    hide Reachable;
    ReachesNext(c, start, s, Tick(until - s.now));
  }

  /** A reservation at any time from five seconds on is due, if it is permitted then and five seconds before. */
  lemma ReservationIsDue(c: Config, start: int, s: Sys, at: int)
    requires Reachable(c, start, s) && Idle(s) && s.now + PROBE_PAUSE <= at && ClockAllows(c, at)
    requires MayStart(c, s.(now := at - PROBE_PAUSE)) && MayStart(c, s.(now := at))
    ensures Reachable(c, start, WithWorker(s.(now := at), Phase.Cleared, at))
  {
    hide Reachable, MayStart;
    var before, awake := s.(now := at - PROBE_PAUSE), s.(now := at);
    Waits(c, start, s, at - PROBE_PAUSE);
    FirstProbe(c, start, before);
    var asleep := WithWorker(before, Phase.StoppedOnce, at);
    Waits(c, start, asleep, at);
    assert asleep.(now := at) == WithWorker(awake, Phase.StoppedOnce, at);
    SecondProbe(c, start, awake);
  }

  /** It is made, and the monitor restarts. */
  lemma InterruptedStart(c: Config, start: int, s: Sys, at: int)
    requires Reachable(c, start, s) && Idle(s) && s.now + PROBE_PAUSE <= at && ClockAllows(c, at)
    requires MayStart(c, s.(now := at - PROBE_PAUSE)) && MayStart(c, s.(now := at))
    ensures Reachable(c, start, AfterStart(c, s.(now := at)))
  {
    hide Reachable, MayStart, Step;
    var awake, w := s.(now := at), Work(0, Going(at));
    ReservationIsDue(c, start, s, at);
    WorkerReserves(c, awake, at);
    ReachesNext(c, start, WithWorker(awake, Phase.Cleared, at), w);
    ReachesNext(c, start, Step(c, WithWorker(awake, Phase.Cleared, at), w), Restart);
  }

  // ---------------------------------------------------------------------------------------------------
  // The schedule: `m` starts, `gap` seconds apart, every `w` seconds.

  function Off(m: nat, w: int, gap: nat, n: nat): int
    requires m >= 1
  {
    if n < m then gap * n else w + Off(m, w, gap, n - m)
  }

  /** The place of start `n` among its `m`. */
  function Place(m: nat, n: nat): (p: nat)
    requires m >= 1
    ensures p < m && p <= n
  {
    if n < m then n else Place(m, n - m)
  }

  lemma {:induction false} OffSteps(m: nat, w: int, gap: nat, n: nat)
    requires m >= 1 && gap * m <= w
    ensures Off(m, w, gap, n) + gap <= Off(m, w, gap, n + 1) && Off(m, w, gap, n) >= 0
    ensures Place(m, n) + 1 < m ==> Off(m, w, gap, n + 1) == Off(m, w, gap, n) + gap && Place(m, n + 1) == Place(m, n) + 1
  {
    if n >= m {
      OffSteps(m, w, gap, n - m);
    } else {
      Distributes(gap, n + 1);
      assert gap * n >= 0;
    }
  }

  lemma {:induction false} OffGrows(m: nat, w: int, gap: nat, n: nat, k: nat)
    requires m >= 1 && gap * m <= w && n <= k
    ensures Off(m, w, gap, n) <= Off(m, w, gap, k)
    decreases k
  {
    if n < k {
      OffSteps(m, w, gap, k - 1);
      OffGrows(m, w, gap, n, k - 1);
    }
  }

  /** Within its place, a start is so many gaps after the first of its `m`. */
  lemma {:induction false} OffInPlace(m: nat, w: int, gap: nat, n: nat, i: nat)
    requires m >= 1 && gap * m <= w && i <= Place(m, n)
    ensures Off(m, w, gap, n - i) == Off(m, w, gap, n) - gap * i
  {
    if n >= m {
      OffInPlace(m, w, gap, n - m, i);
    } else {
      assert gap * (n - i) == gap * n - gap * i;
    }
  }

  lemma {:induction false} OffAfterPlace(m: nat, w: int, gap: nat, n: nat, i: nat)
    requires m >= 1 && gap * m <= w && Place(m, n) + i < m
    ensures Off(m, w, gap, n + i) == Off(m, w, gap, n) + gap * i && Place(m, n + i) == Place(m, n) + i
    decreases i
  {
    if i > 0 {
      OffAfterPlace(m, w, gap, n, i - 1);
      OffSteps(m, w, gap, n + i - 1);
      assert gap * (i - 1) + gap == gap * i;
    }
  }

  /** The room in a span is the number of starts that the schedule begins within it. */
  lemma {:induction false} RoomIsSchedule(m: nat, w: int, gap: nat, span: int, n: nat)
    requires m >= 1 && gap >= 1 && w >= 1 && gap * m <= w
    ensures Room(m, w, gap, span) > n <==> Off(m, w, gap, n) < span
    decreases Max(0, span)
  {
    hide Steps;
    OffSteps(m, w, gap, n);
    if span > 0 {
      StepsIff(span, gap, 1);
      StepsIff(span, gap, m);
      Distributes(gap, m);
      if n < m {
        StepsIff(span, gap, n + 1);
        if span <= w {
          assert Room(m, w, gap, span - w) == 0;
        }
        assert (n + 1 - 1) * gap == gap * n;
      } else {
        RoomIsSchedule(m, w, gap, span - w, n - m);
      }
    }
  }

  // ---------------------------------------------------------------------------------------------------
  // Lists of stamps.

  /** The first `n` starts of the schedule, from `base` on. */
  function Schedule(m: nat, w: int, gap: nat, base: int, n: nat): seq<int>
    requires m >= 1
  {
    seq(n, i requires 0 <= i < n => base + Off(m, w, gap, i))
  }

  lemma OffApart(m: nat, w: int, gap: nat, i: nat, j: nat)
    requires m >= 1 && gap * m <= w && i <= j
    ensures 0 <= Off(m, w, gap, i) <= Off(m, w, gap, j)
    ensures i < j ==> Off(m, w, gap, i) + gap <= Off(m, w, gap, j)
    ensures i + m <= j ==> Off(m, w, gap, i) + w <= Off(m, w, gap, j)
  {
    OffSteps(m, w, gap, i);
    OffGrows(m, w, gap, i, j);
    if i < j {
      OffGrows(m, w, gap, i + 1, j);
    }
    if i + m <= j {
      OffGrows(m, w, gap, i, j - m);
    }
  }

  lemma ScheduleIsSpaced(m: nat, w: int, gap: nat, base: int, n: nat)
    requires m >= 1 && gap * m <= w
    ensures var s := Schedule(m, w, gap, base, n);
            && Sorted(s) && Spaced(s, 1, gap) && Spaced(s, m, w)
            && forall i: nat :: i < n ==> base <= s[i] <= base + Off(m, w, gap, n - 1)
  {
    hide Off;
    var s := Schedule(m, w, gap, base, n);
    forall i: nat, j: nat | i <= j < n
      ensures base <= s[i] <= s[j] && (i < j ==> s[i] + gap <= s[j]) && (i + m <= j ==> s[i] + w <= s[j])
    {
      OffApart(m, w, gap, i, j);
    }
    forall i: nat | i < n ensures base <= s[i] <= base + Off(m, w, gap, n - 1) {
      OffApart(m, w, gap, i, n - 1);
    }
  }

  /** What the safety state permits with these numbers of attempts and this window. */
  function Stamps(c: Config, gap: nat, base: int, n: nat): seq<int>
    requires c.maxAttempts >= 1
  {
    Schedule(c.maxAttempts, c.window + PROBE_PAUSE, gap, base, n)
  }

  /** The configuration leaves a window time for one more start than permitted, `gap` seconds apart. */
  predicate Leaves(c: Config, gap: nat) {
    c.maxAttempts >= 1 && gap >= PROBE_PAUSE && gap * c.maxAttempts < c.window
  }

  lemma LeavesRoom(c: Config, gap: nat)
    requires Leaves(c, gap)
    ensures c.window >= 1 && gap * c.maxAttempts <= c.window + PROBE_PAUSE
  {
    assert gap * c.maxAttempts >= 0;
  }

  lemma StampsGrow(c: Config, gap: nat, base: int, n: nat)
    requires Leaves(c, gap)
    ensures var s := Stamps(c, gap, base, n);
            Sorted(s) && Spaced(s, 1, gap) && forall i :: 0 <= i < n ==> base <= s[i]
  {
    LeavesRoom(c, gap);
    ScheduleIsSpaced(c.maxAttempts, c.window + PROBE_PAUSE, gap, base, n);
  }

  // ---------------------------------------------------------------------------------------------------
  // Filling the list.

  /** The monitor is idle, nothing inhibits a start, and these are the recorded stamps and all the live starts. */
  ghost predicate Holds(start: int, s: Sys, stamps: seq<int>, live: seq<int>) {
    && Idle(s) && 0 <= start <= s.now && s.data.past.epoch == 0
    && Live(s.data.past) == live
    && Load(s.data.file).Some?
    && var st := s.data.file.value;
       !st.maintenance && st.backoffUntil == 0 && st.cooldownUntil == 0 && st.attempts == stamps
  }

  /** A list that the next stamp fits is permitted, whatever pruning forgets. */
  lemma HoldsPermits(c: Config, start: int, s: Sys, stamps: seq<int>, live: seq<int>, at: int)
    requires Holds(start, s, stamps, live) && s.now <= at
    requires Sorted(stamps) && NextFits(stamps, Limit(c), c.window, at)
    ensures MayStart(c, s.(now := at))
  {
    WithinWithin(stamps, c.Retention(), c.window, at);
    NextFitsMeansFewRecent(stamps, Limit(c), c.window, at);
    hide Within, Sorted, NextFits, Live;
  }

  /** The start at `at`, recorded if the pruned list has a free place, and live in any case. */
  lemma StartAt(c: Config, start: int, s: Sys, stamps: seq<int>, live: seq<int>, at: int) returns (t: Sys)
    requires Reachable(c, start, s) && Holds(start, s, stamps, live)
    requires s.now + PROBE_PAUSE <= at <= MAX_EPOCH && ClockAllows(c, at)
    requires Sorted(stamps) && NextFits(stamps, Limit(c), c.window, at - PROBE_PAUSE)
    ensures var kept := Within(stamps, c.Retention(), at);
            && Reachable(c, start, t) && t.now == at
            && Holds(start, t, if |kept| < MAX_STAMPS then kept + [at] else stamps, live + [at])
  {
    hide Reachable;
    NextFitsLater(stamps, Limit(c), c.window, at - PROBE_PAUSE, at);
    HoldsPermits(c, start, s, stamps, live, at - PROBE_PAUSE);
    HoldsPermits(c, start, s, stamps, live, at);
    InterruptedStart(c, start, s, at);
    t := AfterStart(c, s.(now := at));
    StartLeaves(c, start, s, stamps, live, at);
  }

  lemma StartLeaves(c: Config, start: int, s: Sys, stamps: seq<int>, live: seq<int>, at: int)
    requires Holds(start, s, stamps, live) && s.now <= at <= MAX_EPOCH && MayStart(c, s.(now := at))
    ensures var kept := Within(stamps, c.Retention(), at);
            Holds(start, AfterStart(c, s.(now := at)), if |kept| < MAX_STAMPS then kept + [at] else stamps, live + [at])
  {
    hide Within, Permits, Live;
    ReservationIsSavedIff(c, s.data.file.value, at);
    PermittedLeavesFile(c, s.data.file, Stopped(at), at);
    LiveAfterStart(s.data.past, at);
    hide Accepted;
  }

  /** Times at which starts are permitted one after the other, each already when its run begins, and none forgotten. */
  ghost predicate Startable(c: Config, start: int, times: seq<int>) {
    && c.maxAttempts >= 1
    && Sorted(times) && Spaced(times, 1, PROBE_PAUSE) && Spaced(times, Limit(c), c.window + PROBE_PAUSE)
    && forall i :: 0 <= i < |times| ==> start + PROBE_PAUSE <= times[i] < start + PROBE_PAUSE + c.Retention()
  }

  lemma StartableLast(c: Config, start: int, times: seq<int>)
    requires Startable(c, start, times) && times != []
    ensures var init, at := times[..|times| - 1], times[|times| - 1];
            && Startable(c, start, init) && NextFits(init, Limit(c), c.window, at - PROBE_PAUSE)
            && (init != [] ==> init[|init| - 1] + PROBE_PAUSE <= at)
            && Within(init, c.Retention(), at) == init
  {
    hide Within;
    var n, m, w, at := |times| - 1, Limit(c), c.window + PROBE_PAUSE, times[|times| - 1];
    if n >= m {
      assert times[n] - times[n - m] >= w;
    }
    if n >= 1 {
      assert times[n] - times[n - 1] >= PROBE_PAUSE;
    }
    hide Sorted, Spaced, NextFits;
    PrefixSpaced(times, n, 1, PROBE_PAUSE);
    PrefixSpaced(times, n, m, w);
    PrefixSorted(times, n);
    AllYoungKept(times[..n], c.Retention(), at);
  }

  predicate ClockLasts(c: Config, start: int) {
    0 <= start && start + PROBE_PAUSE + c.Retention() + c.LongestPause() <= MAX_EPOCH
  }

  /** All of them are recorded, as long as the list has places. */
  lemma {:induction false} FillList(c: Config, start: int, times: seq<int>) returns (s: Sys)
    requires Startable(c, start, times) && |times| <= MAX_STAMPS && ClockLasts(c, start)
    ensures Reachable(c, start, s) && Holds(start, s, times, times)
    ensures s.now == if times == [] then start else times[|times| - 1]
    decreases |times|
  {
    hide Reachable, Holds, Spaced, NextFits, Within;
    if times == [] {
      s := Initial(start);
      StartHolds(c, start);
    } else {
      var init, at := times[..|times| - 1], times[|times| - 1];
      StartableLast(c, start, times);
      s := FillList(c, start, init);
      s := StartAt(c, start, s, init, init, at);
      assert init + [at] == times;
    }
  }

  /** The schedule runs until the list is full. */
  lemma {:induction false} Fill(c: Config, start: int, gap: nat, n: nat) returns (s: Sys)
    requires Leaves(c, gap) && 0 <= start && n <= MAX_STAMPS
    requires Off(c.maxAttempts, c.window + PROBE_PAUSE, gap, n) < c.Retention()
    requires start + PROBE_PAUSE + c.Retention() + c.LongestPause() <= MAX_EPOCH
    ensures var stamps := Stamps(c, gap, start + PROBE_PAUSE, n);
            Reachable(c, start, s) && Holds(start, s, stamps, stamps)
    ensures s.now + PROBE_PAUSE <= start + PROBE_PAUSE + Off(c.maxAttempts, c.window + PROBE_PAUSE, gap, n)
  {
    hide Reachable, Holds, Off;
    LeavesRoom(c, gap);
    var m, w := c.maxAttempts, c.window + PROBE_PAUSE;
    ScheduleIsSpaced(m, w, gap, start + PROBE_PAUSE, n);
    OffSteps(m, w, gap, if n > 0 then n - 1 else 0);
    s := FillList(c, start, Stamps(c, gap, start + PROBE_PAUSE, n));
  }

  lemma StartHolds(c: Config, start: int)
    requires 0 <= start
    ensures Holds(start, Initial(start), [], []) && Reachable(c, start, Initial(start))
  {
    assert Run(c, Initial(start), []) == Initial(start);
  }

  // ---------------------------------------------------------------------------------------------------
  // Starts on a full list.

  /** Starts `gap` seconds apart from the one on that finds the list full. */
  function Extras(c: Config, gap: nat, base: int, k: nat): seq<int>
    requires c.maxAttempts >= 1
  {
    seq(k, i requires 0 <= i < k => base + Off(c.maxAttempts, c.window + PROBE_PAUSE, gap, MAX_STAMPS) + gap * i)
  }

  function Extra(c: Config, gap: nat, base: int, k: nat): int
    requires c.maxAttempts >= 1
  {
    base + Off(c.maxAttempts, c.window + PROBE_PAUSE, gap, MAX_STAMPS) + gap * k
  }

  lemma ExtraNext(c: Config, gap: nat, base: int, k: nat)
    requires c.maxAttempts >= 1
    ensures Extra(c, gap, base, 0) == base + Off(c.maxAttempts, c.window + PROBE_PAUSE, gap, MAX_STAMPS)
    ensures Extra(c, gap, base, k + 1) == Extra(c, gap, base, k) + gap
  {
    assert gap * 0 == 0 && gap * (k + 1) == gap * k + gap;
  }

  lemma ExtrasSpan(c: Config, gap: nat, base: int, i: nat, k: nat)
    requires c.maxAttempts >= 1 && i <= k
    ensures Extra(c, gap, base, i) <= Extra(c, gap, base, k)
    ensures Extra(c, gap, base, k) - Extra(c, gap, base, 0) == gap * k >= 0
  {
    assert gap * i <= gap * k && gap * 0 == 0;
  }

  lemma OffBack(m: nat, w: int, gap: nat, n: nat)
    requires m >= 1 && n >= m
    ensures Off(m, w, gap, n) == w + Off(m, w, gap, n - m)
  {
  }

  /** What is recorded: some of the schedule, and fewer of the extra starts than there were. */
  ghost predicate Recorded(c: Config, gap: nat, base: int, list: seq<int>, p: nat, extra: seq<int>, k: nat)
    requires c.maxAttempts >= 1
  {
    && p <= MAX_STAMPS && list == Stamps(c, gap, base, MAX_STAMPS)[p..] + extra
    && (if k == 0 then p == 0 && extra == [] else |extra| < k)
    && Sorted(list)
    && (forall i :: 0 <= i < |extra| ==> Extra(c, gap, base, 0) <= extra[i])
    && (forall i :: 0 <= i < |list| ==> list[i] <= Extra(c, gap, base, k) - gap)
  }

  /** The next extra start is permitted, because at least one before it was not recorded. */
  lemma ExtraFits(c: Config, gap: nat, base: int, list: seq<int>, p: nat, extra: seq<int>, k: nat)
    requires Leaves(c, gap) && Recorded(c, gap, base, list, p, extra, k)
    requires Place(c.maxAttempts, MAX_STAMPS) + k <= c.maxAttempts
    ensures NextFits(list, Limit(c), c.window, Extra(c, gap, base, k) - PROBE_PAUSE)
  {
    hide Sorted, Off, Extra;
    LeavesRoom(c, gap);
    var m, w, x := c.maxAttempts, c.window + PROBE_PAUSE, |extra|;
    if |list| >= m {
      OffAfterPlace(m, w, gap, MAX_STAMPS, x);
      OffBack(m, w, gap, MAX_STAMPS + x);
      assert list[|list| - m] == base + Off(m, w, gap, MAX_STAMPS + x - m);
      ExtraNext(c, gap, base, 0);
      ExtrasSpan(c, gap, base, x, k);
      ExtrasSpan(c, gap, base, x, x);
    }
  }

  /** Pruning forgets only the oldest of the schedule. */
  lemma PrunedRecorded(c: Config, gap: nat, base: int, list: seq<int>, p: nat, extra: seq<int>, k: nat) returns (q: nat)
    requires Leaves(c, gap) && Recorded(c, gap, base, list, p, extra, k) && k <= c.maxAttempts
    requires Off(c.maxAttempts, c.window + PROBE_PAUSE, gap, MAX_STAMPS) < c.Retention()
    ensures p <= q <= MAX_STAMPS
    ensures Within(list, c.Retention(), Extra(c, gap, base, k)) == Stamps(c, gap, base, MAX_STAMPS)[q..] + extra
    ensures k == 0 ==> q == 0
  {
    hide Off, Within, Sorted;
    var at, old4096 := Extra(c, gap, base, k), Stamps(c, gap, base, MAX_STAMPS);
    var a := old4096[p..];
    StampsGrow(c, gap, base, MAX_STAMPS);
    SuffixSorted(old4096, p);
    WithinConcat(a, extra, c.Retention(), at);
    assert gap * k <= gap * c.maxAttempts;
    forall j | 0 <= j < |extra| ensures at - extra[j] < c.Retention() {
      assert Extra(c, gap, base, 0) <= extra[j];
    }
    AllYoungKept(extra, c.Retention(), at);
    WithinIsSuffix(a, c.Retention(), at);
    var kept := Within(a, c.Retention(), at);
    q := p + (|a| - |kept|);
    assert kept == old4096[q..];
    if k == 0 {
      forall j | 0 <= j < |a| ensures at - a[j] < c.Retention() {
        assert base <= old4096[j];
      }
      AllYoungKept(a, c.Retention(), at);
    }
  }

  lemma RecordedNext(c: Config, gap: nat, base: int, list: seq<int>, p: nat, extra: seq<int>, k: nat, q: nat)
    requires Leaves(c, gap) && Recorded(c, gap, base, list, p, extra, k) && p <= q <= MAX_STAMPS
    ensures k > 0 ==>
              Recorded(c, gap, base, Stamps(c, gap, base, MAX_STAMPS)[q..] + extra + [Extra(c, gap, base, k)], q,
                       extra + [Extra(c, gap, base, k)], k + 1)
    ensures Recorded(c, gap, base, list, p, extra, k + 1)
  {
    hide Off;
    var at := Extra(c, gap, base, k);
    assert gap * (k + 1) == gap * k + gap;
    assert gap * k >= 0;
    var rest := Stamps(c, gap, base, MAX_STAMPS)[q..] + extra;
    assert rest == list[q - p..];
    assert rest + [at] == Stamps(c, gap, base, MAX_STAMPS)[q..] + (extra + [at]);
  }

  lemma FullIsRecorded(c: Config, gap: nat, base: int)
    requires Leaves(c, gap)
    ensures Recorded(c, gap, base, Stamps(c, gap, base, MAX_STAMPS), 0, [], 0)
  {
    LeavesRoom(c, gap);
    StampsGrow(c, gap, base, MAX_STAMPS);
    var m, w, list := c.maxAttempts, c.window + PROBE_PAUSE, Stamps(c, gap, base, MAX_STAMPS);
    assert list[0..] + [] == list;
    OffSteps(m, w, gap, MAX_STAMPS - 1);
    forall i | 0 <= i < |list| ensures list[i] <= Extra(c, gap, base, 0) - gap {
      OffGrows(m, w, gap, i, MAX_STAMPS - 1);
    }
    hide Off, Sorted;
  }

  /** From a full list on, extra starts follow, at least the first of them unrecorded. */
  lemma {:induction false} Overflow(c: Config, start: int, gap: nat, k: nat)
    returns (s: Sys, list: seq<int>, p: nat, extra: seq<int>)
    requires Leaves(c, gap) && 0 <= start
    requires Off(c.maxAttempts, c.window + PROBE_PAUSE, gap, MAX_STAMPS) < c.Retention()
    requires start + PROBE_PAUSE + c.Retention() + c.window + c.LongestPause() <= MAX_EPOCH
    requires Place(c.maxAttempts, MAX_STAMPS) + k <= c.maxAttempts + 1
    ensures var base := start + PROBE_PAUSE;
            && Recorded(c, gap, base, list, p, extra, k) && Reachable(c, start, s)
            && Holds(start, s, list, Stamps(c, gap, base, MAX_STAMPS) + Extras(c, gap, base, k))
            && s.now + PROBE_PAUSE <= Extra(c, gap, base, k)
    decreases k
  {
    hide Reachable, Holds, Recorded, NextFits, Off, Place, Extra;
    var base := start + PROBE_PAUSE;
    LeavesRoom(c, gap);
    ExtraNext(c, gap, base, 0);
    if k == 0 {
      s := Fill(c, start, gap, MAX_STAMPS);
      list, p, extra := Stamps(c, gap, base, MAX_STAMPS), 0, [];
      FullIsRecorded(c, gap, base);
      assert Extras(c, gap, base, 0) == [] && list + [] == list;
    } else {
      s, list, p, extra := Overflow(c, start, gap, k - 1);
      s, list, p, extra := OneExtra(c, start, gap, k - 1, s, list, p, extra);
    }
  }

  lemma OneExtra(c: Config, start: int, gap: nat, k: nat, s: Sys, list: seq<int>, p: nat, extra: seq<int>)
    returns (t: Sys, next: seq<int>, q: nat, more: seq<int>)
    requires Leaves(c, gap) && 0 <= start
    requires Off(c.maxAttempts, c.window + PROBE_PAUSE, gap, MAX_STAMPS) < c.Retention()
    requires start + PROBE_PAUSE + c.Retention() + c.window + c.LongestPause() <= MAX_EPOCH
    requires Place(c.maxAttempts, MAX_STAMPS) + k <= c.maxAttempts
    requires var base := start + PROBE_PAUSE;
             && Recorded(c, gap, base, list, p, extra, k) && Reachable(c, start, s)
             && Holds(start, s, list, Stamps(c, gap, base, MAX_STAMPS) + Extras(c, gap, base, k))
             && s.now + PROBE_PAUSE <= Extra(c, gap, base, k)
    ensures var base := start + PROBE_PAUSE;
            && Recorded(c, gap, base, next, q, more, k + 1) && Reachable(c, start, t)
            && Holds(start, t, next, Stamps(c, gap, base, MAX_STAMPS) + Extras(c, gap, base, k + 1))
            && t.now + PROBE_PAUSE <= Extra(c, gap, base, k + 1)
  {
    hide Reachable, Holds, Recorded, NextFits, Off, Place, Extra, Extras, Stamps, Within, Sorted;
    var base := start + PROBE_PAUSE;
    var at, live := Extra(c, gap, base, k), Stamps(c, gap, base, MAX_STAMPS) + Extras(c, gap, base, k);
    LeavesRoom(c, gap);
    ExtraFits(c, gap, base, list, p, extra, k);
    RecordedIsSorted(c, gap, base, list, p, extra, k);
    q := PrunedRecorded(c, gap, base, list, p, extra, k);
    RecordedNext(c, gap, base, list, p, extra, k, q);
    ExtraNext(c, gap, base, k);
    ExtraIsInTime(c, start, gap, k);
    t := StartAt(c, start, s, list, live, at);
    ExtrasNext(c, gap, base, k);
    assert live + [at] == Stamps(c, gap, base, MAX_STAMPS) + Extras(c, gap, base, k + 1);
    next, more := list, extra;
    if |Within(list, c.Retention(), at)| < MAX_STAMPS {
      FullIsNotPruned(c, gap, base, list, p, extra, k, q);
      next, more := Within(list, c.Retention(), at) + [at], extra + [at];
    } else {
      q := p;
    }
  }

  lemma ExtraIsInTime(c: Config, start: int, gap: nat, k: nat)
    requires Leaves(c, gap) && Place(c.maxAttempts, MAX_STAMPS) + k <= c.maxAttempts
    requires Off(c.maxAttempts, c.window + PROBE_PAUSE, gap, MAX_STAMPS) < c.Retention()
    requires start + PROBE_PAUSE + c.Retention() + c.window + c.LongestPause() <= MAX_EPOCH
    ensures ClockAllows(c, Extra(c, gap, start + PROBE_PAUSE, k)) && Extra(c, gap, start + PROBE_PAUSE, k) <= MAX_EPOCH
    ensures k <= c.maxAttempts
  {
    hide Off, Place;
    assert gap * k <= gap * c.maxAttempts;
  }

  /** The first extra start finds the list full. */
  lemma FullIsNotPruned(c: Config, gap: nat, base: int, list: seq<int>, p: nat, extra: seq<int>, k: nat, q: nat)
    requires c.maxAttempts >= 1 && Recorded(c, gap, base, list, p, extra, k) && q <= MAX_STAMPS
    requires |Stamps(c, gap, base, MAX_STAMPS)[q..] + extra| < MAX_STAMPS && (k == 0 ==> q == 0)
    ensures k > 0
  {
  }

  /** With the list full, a start is granted and reported, and the disk does not know of it. */
  lemma UncountedStartWithoutCapacity(c: Config, start: int, gap: nat) returns (s: Sys, t: Sys)
    requires Leaves(c, gap) && 0 <= start
    requires Off(c.maxAttempts, c.window + PROBE_PAUSE, gap, MAX_STAMPS) < c.Retention()
    requires start + PROBE_PAUSE + c.Retention() + c.window + c.LongestPause() <= MAX_EPOCH
    ensures Reachable(c, start, s) && Reachable(c, start, t) && t.now > s.now
    ensures Live(t.data.past) == Live(s.data.past) + [t.now]
    ensures s.data.file.Some? && t.data.file.Some? && |s.data.file.value.attempts| == MAX_STAMPS
    ensures t.data.file.value.attempts == s.data.file.value.attempts
  {
    hide Reachable, Recorded, NextFits, Off, Place, Within, Sorted, Live;
    var base := start + PROBE_PAUSE;
    LeavesRoom(c, gap);
    s := Fill(c, start, gap, MAX_STAMPS);
    var stamps, at := Stamps(c, gap, base, MAX_STAMPS), Extra(c, gap, base, 0);
    FullIsRecorded(c, gap, base);
    ExtraFits(c, gap, base, stamps, 0, [], 0);
    RecordedIsSorted(c, gap, base, stamps, 0, [], 0);
    var q := PrunedRecorded(c, gap, base, stamps, 0, [], 0);
    ExtraIsInTime(c, start, gap, 0);
    t := StartAt(c, start, s, stamps, stamps, at);
  }

  lemma ExtrasNext(c: Config, gap: nat, base: int, k: nat)
    requires c.maxAttempts >= 1
    ensures Extras(c, gap, base, k + 1) == Extras(c, gap, base, k) + [Extra(c, gap, base, k)]
  {
  }

  lemma RecordedIsSorted(c: Config, gap: nat, base: int, list: seq<int>, p: nat, extra: seq<int>, k: nat)
    requires c.maxAttempts >= 1 && Recorded(c, gap, base, list, p, extra, k)
    ensures Sorted(list) && (k == 0 ==> |list| == MAX_STAMPS)
  {
  }

  // ---------------------------------------------------------------------------------------------------

  /** The number of non-cancelled starts since the last healthy reset that fall into a window. */
  function StartsIn(c: Config, start: int, events: seq<Event>, from: int): nat {
    CountIn(Live(Run(c, Initial(start), events).data.past), from, from + c.window)
  }

  ghost predicate AlwaysBounded(c: Config, start: int) {
    forall events, from :: StartsIn(c, start, events, from) <= Max(0, c.maxAttempts)
  }

  /** The window that begins with the last full place of the schedule holds one start too many. */
  lemma TooManyInWindow(c: Config, gap: nat, base: int)
    requires Leaves(c, gap)
    ensures var m, g := c.maxAttempts, Place(c.maxAttempts, MAX_STAMPS);
            var live := Stamps(c, gap, base, MAX_STAMPS) + Extras(c, gap, base, m - g + 1);
            var from := Extra(c, gap, base, 0) - gap * g;
            CountIn(live, from, from + c.window) > m && Spaced(live, 1, gap)
  {
    LeavesRoom(c, gap);
    var m, w, g := c.maxAttempts, c.window + PROBE_PAUSE, Place(c.maxAttempts, MAX_STAMPS);
    var stamps, extras := Stamps(c, gap, base, MAX_STAMPS), Extras(c, gap, base, m - g + 1);
    hide CountIn, Off, Spaced, Place, Extra, Stamps, Extras;
    var live, from := stamps + extras, Extra(c, gap, base, 0) - gap * g;
    forall j: nat | |live| - (m + 1) <= j < |live| ensures from <= live[j] < from + c.window {
      if j < MAX_STAMPS {
        InLastPlace(c, gap, base, j);
      } else {
        InExtras(c, gap, base, j - MAX_STAMPS);
      }
    }
    CountSuffix(live, m + 1, from, from + c.window);
    StampsGrow(c, gap, base, MAX_STAMPS);
    JoinedSpaced(c, gap, base, m - g + 1);
  }

  lemma InLastPlace(c: Config, gap: nat, base: int, j: nat)
    requires Leaves(c, gap) && MAX_STAMPS - Place(c.maxAttempts, MAX_STAMPS) <= j < MAX_STAMPS
    ensures var from := Extra(c, gap, base, 0) - gap * Place(c.maxAttempts, MAX_STAMPS);
            from <= Stamps(c, gap, base, MAX_STAMPS)[j] < from + c.window
  {
    hide Place, Off, Extra;
    LeavesRoom(c, gap);
    ExtraNext(c, gap, base, 0);
    var m, g := c.maxAttempts, Place(c.maxAttempts, MAX_STAMPS);
    OffInPlace(m, c.window + PROBE_PAUSE, gap, MAX_STAMPS, MAX_STAMPS - j);
    assert 0 <= gap * (MAX_STAMPS - j) <= gap * g <= gap * m;
  }

  lemma InExtras(c: Config, gap: nat, base: int, i: nat)
    requires Leaves(c, gap) && i <= c.maxAttempts - Place(c.maxAttempts, MAX_STAMPS)
    ensures var m, g := c.maxAttempts, Place(c.maxAttempts, MAX_STAMPS);
            var from := Extra(c, gap, base, 0) - gap * g;
            from <= Extras(c, gap, base, m - g + 1)[i] < from + c.window
  {
    hide Place, Off;
    var m, g := c.maxAttempts, Place(c.maxAttempts, MAX_STAMPS);
    assert 0 <= gap * i <= gap * (m - g) == gap * m - gap * g;
    assert gap * g >= 0 && gap * 0 == 0;
  }

  lemma {:induction false} SpacedByNeighbours(s: seq<int>, gap: nat)
    requires forall i :: 0 <= i && i + 1 < |s| ==> s[i] + gap <= s[i + 1]
    ensures Spaced(s, 1, gap)
    ensures forall i, j :: 0 <= i < j < |s| ==> s[i] + gap <= s[j]
  {
    if |s| > 1 {
      SpacedByNeighbours(s[..|s| - 1], gap);
      forall i, j | 0 <= i < j < |s| ensures s[i] + gap <= s[j] {
        if j == |s| - 1 && i < j - 1 {
          assert s[..|s| - 1][i] + gap <= s[..|s| - 1][j - 1];
        } else if j < |s| - 1 {
          assert s[..|s| - 1][i] + gap <= s[..|s| - 1][j];
        }
      }
    }
  }

  lemma JoinedSpaced(c: Config, gap: nat, base: int, k: nat)
    requires Leaves(c, gap)
    ensures Spaced(Stamps(c, gap, base, MAX_STAMPS) + Extras(c, gap, base, k), 1, gap)
  {
    LeavesRoom(c, gap);
    var m, w := c.maxAttempts, c.window + PROBE_PAUSE;
    var live := Stamps(c, gap, base, MAX_STAMPS) + Extras(c, gap, base, k);
    forall i: nat | i + 1 < |live| ensures live[i] + gap <= live[i + 1] {
      if i < MAX_STAMPS {
        OffSteps(m, w, gap, i);
      } else {
        assert gap * (i + 1 - MAX_STAMPS) == gap * (i - MAX_STAMPS) + gap;
      }
    }
    hide Off, Spaced;
    SpacedByNeighbours(live, gap);
  }

  /** The run that breaks the bound, with its starts any `gap` of at least five seconds apart for which a window has time. */
  lemma TooManyStarts(c: Config, start: int, gap: nat) returns (events: seq<Event>, from: int)
    requires Leaves(c, gap)
    requires 0 <= start && start + PROBE_PAUSE + c.Retention() + c.window + c.LongestPause() <= MAX_EPOCH
    requires Room(c.maxAttempts, c.window + PROBE_PAUSE, gap, c.Retention()) > MAX_STAMPS
    ensures StartsIn(c, start, events, from) > c.maxAttempts
    ensures Spaced(Live(Run(c, Initial(start), events).data.past), 1, gap)
  {
    hide Reachable, Recorded, Run, CountIn, Live, Room, Off, Spaced;
    LeavesRoom(c, gap);
    var m, g, base := c.maxAttempts, Place(c.maxAttempts, MAX_STAMPS), start + PROBE_PAUSE;
    RoomIsSchedule(m, c.window + PROBE_PAUSE, gap, c.Retention(), MAX_STAMPS);
    var s, list, p, extra := Overflow(c, start, gap, m - g + 1);
    TooManyInWindow(c, gap, base);
    from := Extra(c, gap, base, 0) - gap * g;
    events := RunTo(c, start, s);
  }

  lemma RunTo(c: Config, start: int, s: Sys) returns (events: seq<Event>)
    requires Reachable(c, start, s)
    ensures Run(c, Initial(start), events) == s
  {
    events :| Run(c, Initial(start), events) == s;
  }

  lemma PacedIsBounded(c: Config, start: int, events: seq<Event>, from: int)
    requires start >= 0 && c.window <= PROBE_PAUSE * Max(0, c.maxAttempts)
    ensures StartsIn(c, start, events, from) <= Max(0, c.maxAttempts)
  {
    hide Run, CountIn, Live, Spaced;
    var live, m := Live(Run(c, Initial(start), events).data.past), Max(0, c.maxAttempts);
    StartsArePaced(c, start, events);
    SpacedMultiplies(live, PROBE_PAUSE, m);
    SpacedBoundsEveryWindow(live, m, PROBE_PAUSE * m, from);
    SlidingWindow.CountGrows(live, from, from + c.window, from + PROBE_PAUSE * m);
  }

  lemma RoomIsBounded(c: Config, start: int, events: seq<Event>, from: int)
    requires StampsFit(c) && StartTime(c, start)
    ensures StartsIn(c, start, events, from) <= Max(0, c.maxAttempts)
  {
    hide Run, CountIn, Live, StampsFit;
    StartsAreBounded(c, start, events, from);
    SlidingWindow.CountGrows(Live(Run(c, Initial(start), events).data.past), from, from + c.window, from + c.window + PROBE_PAUSE);
  }

  /** Exactly which configurations bound the starts: in every run, every window holds at most the permitted attempts since
      the last healthy reset, if and only if the five seconds that every run sleeps leave a window no time for more, or
      the starts that find room in the retention fit the 4096 stamps of the validator. */
  lemma StartsAreBoundedIff(c: Config, start: int)
    requires 0 <= start && start + PROBE_PAUSE + c.Retention() + c.window + c.LongestPause() <= MAX_EPOCH
    requires start + c.LongestPause() <= MAX_EPOCH
    ensures AlwaysBounded(c, start) <==>
            || c.window <= PROBE_PAUSE * Max(0, c.maxAttempts)
            || Room(Max(0, c.maxAttempts), c.window + PROBE_PAUSE, PROBE_PAUSE, c.Retention()) <= MAX_STAMPS
  {
    hide StartsIn, Room;
    if c.window <= PROBE_PAUSE * Max(0, c.maxAttempts) {
      forall events, from ensures StartsIn(c, start, events, from) <= Max(0, c.maxAttempts) {
        PacedIsBounded(c, start, events, from);
      }
    } else if Room(Max(0, c.maxAttempts), c.window + PROBE_PAUSE, PROBE_PAUSE, c.Retention()) <= MAX_STAMPS {
      forall events, from ensures StartsIn(c, start, events, from) <= Max(0, c.maxAttempts) {
        RoomIsBounded(c, start, events, from);
      }
    } else {
      NoAttemptsNeedNoRoom(c);
      var events, from := TooManyStarts(c, start, PROBE_PAUSE);
      assert StartsIn(c, start, events, from) > Max(0, c.maxAttempts);
    }
  }

  lemma {:induction false} NoRoom(w: int, gap: int, span: int)
    requires w >= 1 && gap >= 1
    ensures Room(0, w, gap, span) == 0
    decreases Max(0, span)
  {
    hide Steps;
    if span > 0 {
      NoRoom(w, gap, span - w);
    }
  }

  lemma NoAttemptsNeedNoRoom(c: Config)
    requires c.window > PROBE_PAUSE * Max(0, c.maxAttempts)
    ensures Room(Max(0, c.maxAttempts), c.window + PROBE_PAUSE, PROBE_PAUSE, c.Retention()) > 0 ==> c.maxAttempts >= 1
  {
    NoRoom(c.window + PROBE_PAUSE, PROBE_PAUSE, c.Retention());
  }
}
