/** Every interleaving of health polls, maintenance toggles, the recovery coordinator (core/monitor.py) and its
    worker threads (core/recovery.py), over the persisted safety state (core/automation.py).

    One step is one section under the state lock, one lock operation or one answer from outside. The clock never
    goes back. History variables record what happened; no step reads them. */
module RecoveryRuns {
  import opened Prelude
  import opened SlidingWindow
  import opened AsteriskObservation
  import opened Automation
  import opened Recovery

  /** A `begin_recovery` that returned an attempt number. */
  datatype Start = Start(time: int, cancelled: bool)

  datatype Finishing = Finishing(time: int, verified: bool)

  datatype History = History(
    starts: seq<Start>,
    epoch: nat,                // starts before this index precede the last healthy reset
    finishes: seq<Finishing>,  // since the last healthy reset
    lastFinish: int)

  /** A worker thread. `start` is the index of its reservation from the moment it has one; until `wakes` it sleeps. */
  datatype Worker = Worker(phase: Phase, start: nat, wakes: int)

  /** The safety state on disk, and what has happened to it. */
  datatype Data = Data(file: File, past: History)

  /** `policyPassed`: the health thread is between `recovery_allowed` and the try-lock. */
  datatype Sys = Sys(now: int, data: Data, policyPassed: bool, lockHeld: bool, workers: seq<Worker>)

  /** Whatever the surroundings answer to the next action of a worker. */
  datatype Answer = Answer(health: Health, yes: bool, result: CommandResult)

  datatype Event =
    | Tick(seconds: nat)
    | Poll(health: Health)
    | Toggle(enabled: bool)
    | Policy(health: Health)
    | Claim(threadStarts: bool)
    | Work(index: nat, answer: Answer)
    | Dies(index: nat)
    | Restart
    | Damage

  /** The non-cancelled starts since the last healthy reset. */
  function Live(past: History): seq<int> {
    if past.epoch <= |past.starts| then Times(past.starts[past.epoch..]) else []
  }

  function Times(starts: seq<Start>): seq<int> {
    if starts == [] then []
    else
      var last := starts[|starts| - 1];
      Times(starts[..|starts| - 1]) + if last.cancelled then [] else [last.time]
  }

  /** The length of the trailing run of failures. */
  function Failures(finishes: seq<Finishing>): nat {
    if finishes == [] || finishes[|finishes| - 1].verified then 0
    else 1 + Failures(finishes[..|finishes| - 1])
  }

  function Initial(now: int): Sys {
    Sys(now, Data(Some(DEFAULT_STATE), History([], 0, [], 0)), false, false, [])
  }

  function RemoveAt<T>(s: seq<T>, i: nat): seq<T>
    requires i < |s|
  {
    s[..i] + s[i + 1..]
  }

  // ---------------------------------------------------------------------------------------------------
  // Steps. An event that is not enabled changes nothing.

  function Polled(c: Config, now: int, d: Data, h: Health): Data {
    if Load(d.file).Some? && Resets(c, d.file.value, h, now) then
      Data(AfterHealth(c, d.file, h, now), d.past.(epoch := |d.past.starts|, finishes := []))
    else
      Data(AfterHealth(c, d.file, h, now), d.past)
  }

  /** The try-lock, and the thread that starts under it or releases it. */
  function ClaimStep(s: Sys, threadStarts: bool): Sys {
    if !s.policyPassed || s.lockHeld then s.(policyPassed := false)
    else if !threadStarts then s.(policyPassed := false, lockHeld := false)
    else s.(policyPassed := false, lockHeld := true, workers := s.workers + [Worker(Entered, 0, s.now)])
  }

  /** The action that a worker in phase `p` takes now. */
  function ActionOf(c: Config, now: int, file: File, p: Phase, a: Answer): Action {
    match p
    case Entered => Check(Permits(c, file, a.health, now))
    case Permitted => Probe(a.yes)
    case StoppedOnce => Probe(a.yes)
    case StoppedTwice => Check(Permits(c, file, a.health, now))
    case Cleared => Reserve(Begins(file, now))
    case Holding => Probe(a.yes)
    case Confirmed => Command(a.result)
    case Withdrawing => Cancel
    case Verifying => Verify(a.yes)
    case Passing => Finish(true)
    case Failing => Finish(false)
    case Done => Cancel
  }

  function Begun(c: Config, now: int, d: Data): Data {
    Data(AfterBegin(c, d.file, now), d.past.(starts := d.past.starts + [Start(now, false)]))
  }

  function CancelledData(d: Data, start: nat): Data {
    if Load(d.file).None? || start >= |d.past.starts| then d
    else Data(AfterCancel(d.file),
              d.past.(starts := d.past.starts[start := d.past.starts[start].(cancelled := true)]))
  }

  function FinishedData(c: Config, now: int, d: Data, verified: bool): Data {
    if Load(d.file).None? then d
    else Data(AfterFinish(c, d.file, verified, now),
              d.past.(finishes := d.past.finishes + [Finishing(now, verified)], lastFinish := now))
  }

  /** What the action of a worker with reservation `start` does to the data. */
  function Effect(c: Config, now: int, d: Data, start: nat, action: Action, h: Health): Data {
    match action
    case Check(_) => d.(file := AfterPolicy(c, d.file, h, now))
    case Reserve(granted) => if granted then Begun(c, now, d) else d
    case Cancel => CancelledData(d, start)
    case Finish(verified) => FinishedData(c, now, d, verified)
    case _ => d
  }

  /** The worker moves on; when that ends its run, `_run` releases the lock. */
  function Move(s: Sys, i: nat, next: Worker): Sys
    requires i < |s.workers|
  {
    if next.phase.Done? then s.(workers := RemoveAt(s.workers, i), lockHeld := false)
    else s.(workers := s.workers[i := next])
  }

  /** The worker after an action; after its first probe it sleeps. */
  function Following(now: int, past: History, w: Worker, action: Action, next: Phase): Worker {
    Worker(next, if action.Reserve? then |past.starts| else w.start,
           if next.StoppedOnce? then now + PROBE_PAUSE else w.wakes)
  }

  function WorkStep(c: Config, s: Sys, i: nat, a: Answer): Sys
    requires i < |s.workers|
  {
    var w := s.workers[i];
    var action := ActionOf(c, s.now, s.data.file, w.phase, a);
    match Next(w.phase, action)
    case None => s
    case Some(next) =>
      if s.now < w.wakes then s
      else Move(s.(data := Effect(c, s.now, s.data, w.start, action, a.health)), i,
                Following(s.now, s.data.past, w, action, next))
  }

  function Step(c: Config, s: Sys, e: Event): Sys {
    match e
    case Tick(seconds) => if s.now + seconds + c.LongestPause() <= MAX_EPOCH then s.(now := s.now + seconds) else s
    case Poll(h) => s.(data := Polled(c, s.now, s.data, h))
    case Toggle(enabled) => s.(data := s.data.(file := AfterToggle(s.data.file, enabled)))
    case Policy(h) =>
      // start_if_needed up to its try-lock
      if !h.asterisk.Offline? then s.(policyPassed := false)
      else s.(data := s.data.(file := AfterPolicy(c, s.data.file, h, s.now)),
              policyPassed := Permits(c, s.data.file, h, s.now))
    case Claim(threadStarts) => ClaimStep(s, threadStarts)
    case Work(i, a) => if i < |s.workers| then WorkStep(c, s, i, a) else s
    case Dies(i) => if i < |s.workers| then Move(s, i, Worker(Phase.Done, 0, 0)) else s
    case Restart => s.(policyPassed := false, lockHeld := false, workers := [])
    case Damage => s.(data := s.data.(file := None))
  }

  function Run(c: Config, s: Sys, events: seq<Event>): Sys {
    if events == [] then s
    else Step(c, Run(c, s, events[..|events| - 1]), events[|events| - 1])
  }

  // ---------------------------------------------------------------------------------------------------
  // Configurations.

  /** No start is permitted at all, or the starts that fit the retention find room in the validator. Between the first
      permission and the reservation a run sleeps, so starts that are `maxAttempts` apart are a window and that sleep
      apart. The defaults (3 attempts an hour) need 72 of the 4096 places. */
  predicate StampsFit(c: Config) {
    || c.maxAttempts <= 0
    || (c.window >= 1 && Room(c.maxAttempts, c.window + PROBE_PAUSE, PROBE_PAUSE, c.Retention()) <= MAX_STAMPS)
  }

  predicate StartTime(c: Config, now: int) {
    0 <= now <= MAX_EPOCH - c.LongestPause()
  }

  // ---------------------------------------------------------------------------------------------------
  // The invariant.

  function Limit(c: Config): nat {
    Max(0, c.maxAttempts)
  }

  function LastStart(past: History): int {
    if past.starts == [] then 0 else past.starts[|past.starts| - 1].time
  }

  ghost predicate HistoryOk(now: int, past: History) {
    && past.epoch <= |past.starts|
    && 0 <= past.lastFinish <= now
    && 0 <= LastStart(past) <= now
    && (forall t :: t in Live(past) ==> 0 <= t <= LastStart(past))
  }

  /** What holds of the history whatever the configuration: starts are a sleep apart. */
  ghost predicate OrderOk(now: int, past: History) {
    HistoryOk(now, past) && Sorted(Live(past)) && Spaced(Live(past), 1, PROBE_PAUSE)
  }

  /** The sleep of a worker ends no earlier than a sleep after the last start and the last finish; a reservation is the
      last start. */
  ghost predicate Pacing(now: int, past: History, w: Worker) {
    && (w.phase.StoppedOnce? || w.phase.StoppedTwice? || w.phase.Cleared? ==>
          LastStart(past) + PROBE_PAUSE <= w.wakes && past.lastFinish + PROBE_PAUSE <= w.wakes)
    && (w.phase.StoppedTwice? || w.phase.Cleared? ==> w.wakes <= now)
    && (w.phase.Holding? || w.phase.Confirmed? || w.phase.Withdrawing? ==>
          && |past.starts| > 0 && w.start == |past.starts| - 1
          && !past.starts[w.start].cancelled)
  }

  ghost predicate Orderly(s: Sys) {
    && OrderOk(s.now, s.data.past)
    && |s.workers| <= 1 && (s.lockHeld <==> |s.workers| == 1)
    && (|s.workers| == 1 ==> Pacing(s.now, s.data.past, s.workers[0]))
  }

  ghost predicate WindowOk(c: Config, past: History) {
    Spaced(Live(past), Limit(c), c.window + PROBE_PAUSE)
  }

  /** What an accepted state says about the history. */
  ghost predicate StampsOk(c: Config, now: int, st: Safety, past: History) {
    Retains(st.attempts, Live(past), c.Retention(), now)
  }

  ghost predicate DataOk(c: Config, now: int, d: Data) {
    && StartTime(c, now)
    && OrderOk(now, d.past) && WindowOk(c, d.past)
    && (Load(d.file).Some? ==> StampsOk(c, now, d.file.value, d.past))
  }

  /** The first permission still stands, and after the sleep it stands for a window and the sleep. */
  ghost predicate WorkerOk(c: Config, now: int, d: Data, w: Worker) {
    Load(d.file).Some? ==>
      && (w.phase.Permitted? ==> NextFits(Live(d.past), Limit(c), c.window, now))
      && (w.phase.StoppedOnce? || w.phase.StoppedTwice? || w.phase.Cleared? ==>
            NextFits(Live(d.past), Limit(c), c.window + PROBE_PAUSE, w.wakes))
  }

  ghost predicate Invariant(c: Config, s: Sys) {
    Orderly(s) && DataOk(c, s.now, s.data) && (|s.workers| == 1 ==> WorkerOk(c, s.now, s.data, s.workers[0]))
  }

  lemma InitialInvariant(c: Config, now: int)
    requires StartTime(c, now)
    ensures Invariant(c, Initial(now))
  {
    hide Retains, Live, OrderOk;
    InitialIsOrderly(now);
    OrderIsOrderly(Initial(now));
    NothingIsSpaced();
    RetainsNothing(c.Retention(), now);
  }

  lemma InitialIsOrderly(now: int)
    requires now >= 0
    ensures Orderly(Initial(now)) && Live(Initial(now).data.past) == []
  {
  }

  // ---------------------------------------------------------------------------------------------------
  // Live starts under the changes the steps make.

  lemma TimesAppend(starts: seq<Start>, x: Start)
    ensures Times(starts + [x]) == Times(starts) + if x.cancelled then [] else [x.time]
  {
    assert (starts + [x])[..|starts|] == starts;
  }

  lemma LiveAfterStart(past: History, now: int)
    requires past.epoch <= |past.starts|
    ensures Live(past.(starts := past.starts + [Start(now, false)])) == Live(past) + [now]
  {
    assert (past.starts + [Start(now, false)])[past.epoch..] == past.starts[past.epoch..] + [Start(now, false)];
    TimesAppend(past.starts[past.epoch..], Start(now, false));
  }

  function WithLastCancelled(past: History): History
    requires |past.starts| > 0
  {
    var i := |past.starts| - 1;
    past.(starts := past.starts[i := past.starts[i].(cancelled := true)])
  }

  /** Cancelling the last start removes its own stamp from the live ones, or nothing after a reset. */
  lemma LiveAfterCancel(past: History)
    requires past.epoch <= |past.starts| && |past.starts| > 0
    requires !past.starts[|past.starts| - 1].cancelled
    ensures var after := Live(WithLastCancelled(past));
            if past.epoch < |past.starts| then Live(past) == after + [LastStart(past)] else Live(past) == after == []
  {
    var i := |past.starts| - 1;
    if past.epoch <= i {
      var before := past.starts[past.epoch..i];
      var x := past.starts[i];
      assert past.starts[past.epoch..] == before + [x];
      assert WithLastCancelled(past).starts[past.epoch..] == before + [x.(cancelled := true)];
      TimesAppend(before, x);
      TimesAppend(before, x.(cancelled := true));
    }
  }

  lemma LiveAfterReset(past: History)
    ensures Live(past.(epoch := |past.starts|, finishes := [])) == []
  {
  }

  lemma OrderFacts(now: int, past: History)
    requires OrderOk(now, past)
    ensures Sorted(Live(past)) && 0 <= past.lastFinish <= now && 0 <= LastStart(past) <= now
  {
  }

  lemma ResetOrder(now: int, past: History)
    requires OrderOk(now, past)
    ensures OrderOk(now, past.(epoch := |past.starts|, finishes := []))
  {
    LiveAfterReset(past);
  }

  lemma BeginOrder(now: int, past: History)
    requires OrderOk(now, past) && LastStart(past) + PROBE_PAUSE <= now
    ensures var after := past.(starts := past.starts + [Start(now, false)]);
            && OrderOk(now, after) && LastStart(after) == now && Live(after) == Live(past) + [now]
            && NextFits(Live(past), 1, PROBE_PAUSE, now) && (Live(past) != [] ==> Live(past)[|Live(past)| - 1] <= now)
  {
    hide Sorted, Spaced;
    var live := Live(past);
    LiveAfterStart(past, now);
    if live != [] {
      assert live[|live| - 1] in live;
    }
    SpacedExtends(live, 1, PROBE_PAUSE, now);
    hide Live;
  }

  lemma CancelOrder(now: int, past: History)
    requires OrderOk(now, past) && |past.starts| > 0 && !past.starts[|past.starts| - 1].cancelled
    ensures OrderOk(now, WithLastCancelled(past)) && LastStart(WithLastCancelled(past)) == LastStart(past)
  {
    hide Sorted, Spaced, Live;
    LiveAfterCancel(past);
    var live := Live(WithLastCancelled(past));
    if past.epoch < |past.starts| {
      PrefixKeeps(live, LastStart(past), 1, PROBE_PAUSE);
      assert forall x :: x in live ==> x in live + [LastStart(past)];
    } else {
      NothingIsSpaced();
    }
  }

  lemma NothingIsSpaced()
    ensures Sorted([]) && forall m: nat, w :: Spaced([], m, w)
  {
  }

  lemma PrefixKeeps(s: seq<int>, last: int, m: nat, w: int)
    requires Sorted(s + [last]) && Spaced(s + [last], m, w)
    ensures Sorted(s) && Spaced(s, m, w)
  {
    var all := s + [last];
    forall i, j | 0 <= i <= j < |s| ensures s[i] <= s[j] {
      assert all[i] <= all[j];
    }
    forall i, j | 0 <= i && i + m <= j < |s| ensures s[j] - s[i] >= w {
      assert all[j] - all[i] >= w;
    }
  }

  /** One action of the only worker, in any configuration. */
  lemma EffectKeepsOrder(c: Config, now: int, d: Data, w: Worker, action: Action, h: Health)
    requires OrderOk(now, d.past) && Pacing(now, d.past, w) && Next(w.phase, action).Some? && w.wakes <= now
    ensures OrderOk(now, Effect(c, now, d, w.start, action, h).past)
    ensures Next(w.phase, action).value != Phase.Done ==>
              Pacing(now, Effect(c, now, d, w.start, action, h).past,
                     Following(now, d.past, w, action, Next(w.phase, action).value))
  {
    hide AfterPolicy, AfterBegin, AfterCancel, AfterFinish, Load, OrderOk, Live;
    OrderFacts(now, d.past);
    match action
    case Reserve(granted) => if granted { BeginOrder(now, d.past); }
    case Cancel => CancelOrder(now, d.past);
    case Finish(verified) => FinishOrder(now, d.past, verified);
    case _ =>
  }

  lemma FinishOrder(now: int, past: History, verified: bool)
    requires OrderOk(now, past)
    ensures OrderOk(now, past.(finishes := past.finishes + [Finishing(now, verified)], lastFinish := now))
  {
    hide Sorted, Spaced;
  }

  lemma PolledOrder(c: Config, now: int, d: Data, h: Health)
    requires OrderOk(now, d.past)
    ensures OrderOk(now, Polled(c, now, d, h).past) && Polled(c, now, d, h).past.starts == d.past.starts
    ensures Polled(c, now, d, h).past.lastFinish == d.past.lastFinish
  {
    hide OrderOk, AfterHealth, Load, Resets;
    ResetOrder(now, d.past);
  }

  lemma LaterIsOrderly(s: Sys, now: int)
    requires Orderly(s) && s.now <= now
    ensures Orderly(s.(now := now))
  {
    hide Live, Sorted, Spaced;
  }

  lemma WorkKeepsOrder(c: Config, s: Sys, i: nat, a: Answer)
    requires Orderly(s) && i < |s.workers|
    ensures Orderly(WorkStep(c, s, i, a))
  {
    hide OrderOk, Effect, ActionOf, Pacing;
    var w := s.workers[i];
    var action := ActionOf(c, s.now, s.data.file, w.phase, a);
    if Next(w.phase, action).Some? && w.wakes <= s.now {
      EffectKeepsOrder(c, s.now, s.data, w, action, a.health);
    }
  }

  lemma PollKeepsOrder(c: Config, s: Sys, h: Health)
    requires Orderly(s)
    ensures Orderly(s.(data := Polled(c, s.now, s.data, h)))
  {
    PolledOrder(c, s.now, s.data, h);
    hide OrderOk, Polled;
  }

  lemma ClaimKeepsOrder(s: Sys, threadStarts: bool)
    requires Orderly(s)
    ensures Orderly(ClaimStep(s, threadStarts))
  {
    hide OrderOk;
  }

  /** Every step keeps the order, in any configuration. */
  lemma StepKeepsOrder(c: Config, s: Sys, e: Event)
    requires Orderly(s)
    ensures Orderly(Step(c, s, e))
  {
    hide OrderOk, Pacing, Polled, AfterPolicy, AfterToggle, Permits, Load, WorkStep, ClaimStep;
    match e
    case Tick(seconds) => LaterIsOrderly(s, s.now + seconds);
    case Poll(h) => PollKeepsOrder(c, s, h);
    case Claim(threadStarts) => ClaimKeepsOrder(s, threadStarts);
    case Work(i, a) => if i < |s.workers| { WorkKeepsOrder(c, s, i, a); }
    case _ =>
  }

  lemma {:induction false} RunIsOrderly(c: Config, now: int, events: seq<Event>)
    requires now >= 0
    ensures Orderly(Run(c, Initial(now), events))
  {
    hide Orderly, Step;
    if events == [] {
      InitialIsOrderly(now);
    } else {
      RunIsOrderly(c, now, events[..|events| - 1]);
      StepKeepsOrder(c, Run(c, Initial(now), events[..|events| - 1]), events[|events| - 1]);
    }
  }

  // ---------------------------------------------------------------------------------------------------
  // Every step keeps the invariant.

  lemma TickKeeps(c: Config, s: Sys, seconds: nat)
    requires Invariant(c, s)
    ensures Invariant(c, Step(c, s, Tick(seconds)))
  {
    hide Retains, OrderOk;
    if s.now + seconds + c.LongestPause() <= MAX_EPOCH {
      LaterIsOrderly(s, s.now + seconds);
      OrderIsOrderly(s.(now := s.now + seconds));
      if Load(s.data.file).Some? {
        RetainsLater(s.data.file.value.attempts, Live(s.data.past), c.Retention(), s.now, s.now + seconds);
      }
    }
  }

  lemma OrderIsOrderly(s: Sys)
    requires Orderly(s)
    ensures OrderOk(s.now, s.data.past)
  {
  }

  lemma PollKeeps(c: Config, now: int, d: Data, h: Health)
    requires DataOk(c, now, d)
    ensures DataOk(c, now, Polled(c, now, d, h))
    ensures Load(Polled(c, now, d, h).file).Some? <==> Load(d.file).Some?
    ensures Polled(c, now, d, h).past.starts == d.past.starts
    ensures Live(Polled(c, now, d, h).past) == Live(d.past) || Live(Polled(c, now, d, h).past) == []
  {
    hide Retains, OrderOk;
    PolledOrder(c, now, d, h);
    OrderFacts(now, d.past);
    if Load(d.file).Some? {
      var st := d.file.value;
      PollIsSaved(c, st, h, now);
      if Resets(c, st, h, now) {
        ResetKeeps(c, now, d, h);
      } else {
        var next := Observed(c, st, h, now);
        assert next == Prune(c, st, now).(mode := next.mode, healthySince := next.healthySince);
        RetainsPruned(st.attempts, Live(d.past), c.Retention(), now);
      }
    }
  }

  lemma ResetKeeps(c: Config, now: int, d: Data, h: Health)
    requires DataOk(c, now, d) && Load(d.file).Some?
    requires Resets(c, d.file.value, h, now) && Accepted(Observed(c, d.file.value, h, now))
    ensures DataOk(c, now, Polled(c, now, d, h)) && Live(Polled(c, now, d, h).past) == []
  {
    hide Retains, Within, Spaced, Accepted;
    ResetOrder(now, d.past);
    var past := d.past.(epoch := |d.past.starts|, finishes := []);
    var next := Observed(c, d.file.value, h, now);
    assert Polled(c, now, d, h) == Data(Some(next), past);
    assert next.attempts == [];
    LiveAfterReset(d.past);
    hide Live, Observed, Resets, Polled;
    RetainsNothing(c.Retention(), now);
    NothingIsSpaced();
  }

  /** Neither verdict of `recovery_allowed` adds a stamp. */
  lemma PolicyKeeps(c: Config, now: int, d: Data, h: Health)
    requires DataOk(c, now, d)
    ensures DataOk(c, now, d.(file := AfterPolicy(c, d.file, h, now)))
    ensures Load(AfterPolicy(c, d.file, h, now)).Some? <==> Load(d.file).Some?
  {
    hide Retains, Live, Within, Spaced;
    if Load(d.file).Some? && Judge(c, d.file.value, h, now).Escalate? {
      RetainsPruned(d.file.value.attempts, Live(d.past), c.Retention(), now);
    }
  }

  /** A granted permission leaves room for one more start in the window. */
  lemma PermissionMeansNextFits(c: Config, now: int, d: Data, h: Health)
    requires DataOk(c, now, d) && Permits(c, d.file, h, now)
    ensures NextFits(Live(d.past), Limit(c), c.window, now)
  {
    var live := Live(d.past);
    var pruned := Prune(c, d.file.value, now).attempts;
    RetainsPruned(d.file.value.attempts, live, c.Retention(), now);
    assert forall j :: 0 <= j < |live| - |pruned| ==> now - live[j] >= c.window;
    FewRecentMeansNextFits(live, pruned, Limit(c), c.window, now);
  }

  /** The pruned list with one more permitted stamp always fits the validator, so the reservation is saved. */
  lemma ReservationFits(c: Config, now: int, d: Data)
    requires StampsFit(c) && DataOk(c, now, d) && Load(d.file).Some?
    requires NextFits(Live(d.past), Limit(c), c.window + PROBE_PAUSE, now)
    requires LastStart(d.past) + PROBE_PAUSE <= now
    ensures Accepted(Reserved(c, d.file.value, now))
  {
    hide Spaced, Sorted, Retains, Room, Live, Within, Accepted;
    var st := d.file.value;
    var live := Live(d.past);
    assert c.maxAttempts >= 1;
    hide NextFits;
    BeginOrder(now, d.past);
    RetainsPruned(st.attempts, live, c.Retention(), now);
    RetainedShape(Prune(c, st, now).attempts, live, c.Retention(), now);
    WithinIsSubset(st.attempts, c.Retention(), now);
    var kept := Prune(c, st, now).attempts;
    forall j | 0 <= j < |kept| ensures now - kept[j] < c.Retention() {
      assert kept[j] in kept;
    }
    PrunedLength(live, kept, Limit(c), c.window + PROBE_PAUSE, PROBE_PAUSE, c.Retention(), now);
    ReservationIsSavedIff(c, st, now);
  }

  lemma BeginKeepsLists(c: Config, now: int, attempts: seq<int>, past: History)
    requires OrderOk(now, past) && WindowOk(c, past) && LastStart(past) + PROBE_PAUSE <= now
    requires NextFits(Live(past), Limit(c), c.window + PROBE_PAUSE, now)
    requires Retains(attempts, Live(past), c.Retention(), now)
    ensures var after := past.(starts := past.starts + [Start(now, false)]);
            && OrderOk(now, after) && WindowOk(c, after) && LastStart(after) == now
            && Live(after) == Live(past) + [now]
            && Retains(Within(attempts, c.Retention(), now) + [now], Live(after), c.Retention(), now)
  {
    hide Retains, Within, Live, Sorted, Spaced, NextFits, HistoryOk;
    var live := Live(past);
    BeginOrder(now, past);
    SpacedExtends(live, Limit(c), c.window + PROBE_PAUSE, now);
    RetainsPruned(attempts, live, c.Retention(), now);
    RetainsAppended(Within(attempts, c.Retention(), now), live, c.Retention(), now);
  }

  lemma BeginKeeps(c: Config, now: int, d: Data)
    requires StampsFit(c) && DataOk(c, now, d) && Begins(d.file, now) && LastStart(d.past) + PROBE_PAUSE <= now
    requires NextFits(Live(d.past), Limit(c), c.window + PROBE_PAUSE, now)
    ensures DataOk(c, now, Begun(c, now, d))
    ensures Load(Begun(c, now, d).file).Some?
  {
    hide Accepted, OrderOk, WindowOk, Live, NextFits, Retains, StampsFit, Paused;
    ReservationFits(c, now, d);
    BeginKeepsLists(c, now, d.file.value.attempts, d.past);
  }

  lemma CancelKeeps(c: Config, now: int, d: Data)
    requires DataOk(c, now, d) && |d.past.starts| > 0
    requires !d.past.starts[|d.past.starts| - 1].cancelled
    ensures DataOk(c, now, CancelledData(d, |d.past.starts| - 1))
  {
    hide OrderOk, WindowOk, StampsOk, Live, Accepted, Cancelled;
    CancelOrder(now, d.past);
    if Load(d.file).Some? {
      var st := d.file.value;
      var after := WithLastCancelled(d.past);
      CancelKeepsLists(c, now, st, d.past);
      ToggleAndCancelAreSaved(st, false);
      assert CancelledData(d, |d.past.starts| - 1) == Data(Some(Cancelled(st)), after);
    }
  }

  /** The stored and the live list lose the same stamp. */
  lemma CancelKeepsLists(c: Config, now: int, st: Safety, past: History)
    requires |past.starts| > 0 && !past.starts[|past.starts| - 1].cancelled
    requires OrderOk(now, past) && WindowOk(c, past) && StampsOk(c, now, st, past)
    ensures var after := WithLastCancelled(past);
            WindowOk(c, after) && StampsOk(c, now, Cancelled(st), after)
  {
    hide Retains, Sorted, Spaced, Live;
    var last := LastStart(past);
    LiveAfterCancel(past);
    var live := Live(WithLastCancelled(past));
    if past.epoch < |past.starts| {
      RetainsPopped(st.attempts, live, last, c.Retention(), now);
      PrefixKeeps(live, last, Limit(c), c.window + PROBE_PAUSE);
    } else {
      RetainedShape(st.attempts, [], c.Retention(), now);
      RetainsNothing(c.Retention(), now);
      NothingIsSpaced();
    }
  }

  lemma FinishKeeps(c: Config, now: int, d: Data, verified: bool)
    requires DataOk(c, now, d)
    ensures DataOk(c, now, FinishedData(c, now, d, verified))
  {
    hide Retains, Accepted, OrderOk;
    FinishOrder(now, d.past, verified);
    OrderFacts(now, d.past);
    if Load(d.file).Some? {
      assert Live(FinishedData(c, now, d, verified).past) == Live(d.past);
      hide WindowOk, Live;
    }
  }

  /** One action of the only worker. */
  lemma EffectKeeps(c: Config, now: int, d: Data, w: Worker, action: Action, h: Health)
    requires StampsFit(c) && DataOk(c, now, d) && WorkerOk(c, now, d, w) && Pacing(now, d.past, w)
    requires Next(w.phase, action).Some?
    requires action.Reserve? && action.granted ==> Begins(d.file, now)
    ensures DataOk(c, now, Effect(c, now, d, w.start, action, h))
  {
    hide DataOk, Live, StampsFit, Permits, AfterPolicy, Begun, CancelledData, FinishedData, Accepted, Paused;
    match action
    case Check(_) => PolicyKeeps(c, now, d, h);
    case Reserve(granted) => if granted { BeginKeeps(c, now, d); }
    case Cancel => CancelKeeps(c, now, d);
    case Finish(verified) => FinishKeeps(c, now, d, verified);
    case _ =>
  }

  /** A permission before the sleep is a permission for a longer window after it. */
  lemma SleepExtends(live: seq<int>, m: nat, w: int, now: int)
    requires NextFits(live, m, w, now)
    ensures NextFits(live, m, w + PROBE_PAUSE, now + PROBE_PAUSE)
  {
  }

  /** The worker's own obligation after its action. */
  lemma WorkerKeeps(c: Config, now: int, d: Data, w: Worker, action: Action, h: Health)
    requires DataOk(c, now, d) && WorkerOk(c, now, d, w)
    requires Next(w.phase, action).Some? && Next(w.phase, action).value != Phase.Done
    requires action.Check? ==> action.allowed == Permits(c, d.file, h, now)
    ensures WorkerOk(c, now, Effect(c, now, d, w.start, action, h),
                     Following(now, d.past, w, action, Next(w.phase, action).value))
  {
    hide DataOk, Live, NextFits, Permits, AfterPolicy, AfterBegin, AfterFinish, AfterCancel;
    if action.Check? {
      PolicyLoads(c, d.file, h, now);
      if action.allowed {
        PermissionMeansNextFits(c, now, d, h);
      }
    }
    if w.phase.Permitted? && Load(d.file).Some? {
      SleepExtends(Live(d.past), Limit(c), c.window, now);
    }
  }

  lemma PolicyLoads(c: Config, file: File, h: Health, now: int)
    ensures Load(AfterPolicy(c, file, h, now)).Some? ==> Load(file).Some?
  {
  }

  lemma WorkKeeps(c: Config, s: Sys, i: nat, a: Answer)
    requires StampsFit(c) && Invariant(c, s) && i < |s.workers|
    requires Orderly(WorkStep(c, s, i, a))
    ensures Invariant(c, WorkStep(c, s, i, a))
  {
    hide DataOk, WorkerOk, Effect, Permits, Begins, StampsFit, OrderOk, Pacing;
    var w := s.workers[0];
    var action := ActionOf(c, s.now, s.data.file, w.phase, a);
    if Next(w.phase, action).Some? && w.wakes <= s.now {
      EffectKeeps(c, s.now, s.data, w, action, a.health);
      if Next(w.phase, action).value != Phase.Done {
        WorkerKeeps(c, s.now, s.data, w, action, a.health);
      }
    }
  }

  lemma ToggleKeeps(c: Config, now: int, d: Data, enabled: bool)
    requires DataOk(c, now, d)
    ensures DataOk(c, now, d.(file := AfterToggle(d.file, enabled)))
    ensures Load(AfterToggle(d.file, enabled)).Some? <==> Load(d.file).Some?
  {
    hide Retains, OrderOk, WindowOk, Live;
  }

  /** A worker's obligation speaks of the live list and of whether the file is accepted, and of nothing else. */
  lemma WorkerUnmoved(c: Config, now: int, d: Data, after: Data, w: Worker)
    requires WorkerOk(c, now, d, w)
    requires Load(after.file).Some? ==> Load(d.file).Some?
    requires Live(after.past) == Live(d.past) || Live(after.past) == []
    ensures WorkerOk(c, now, after, w)
  {
  }

  lemma SharedStepKeeps(c: Config, s: Sys, after: Data)
    requires Invariant(c, s) && DataOk(c, s.now, after) && Orderly(s.(data := after))
    requires Load(after.file).Some? ==> Load(s.data.file).Some?
    requires Live(after.past) == Live(s.data.past) || Live(after.past) == []
    ensures Invariant(c, s.(data := after))
  {
    hide DataOk, Live, Load, Orderly;
    if |s.workers| == 1 {
      WorkerUnmoved(c, s.now, s.data, after, s.workers[0]);
    }
    hide WorkerOk;
  }

  lemma InvariantIgnores(c: Config, s: Sys, t: Sys)
    requires Invariant(c, s) && t.now == s.now && t.data == s.data && Orderly(t)
    requires |t.workers| == 1 ==> (|s.workers| == 1 && t.workers == s.workers) || t.workers[0].phase.Entered?
    ensures Invariant(c, t)
  {
    hide DataOk, Orderly;
  }

  lemma StepKeeps(c: Config, s: Sys, e: Event)
    requires StampsFit(c) && Invariant(c, s)
    ensures Invariant(c, Step(c, s, e))
  {
    hide DataOk, WorkerOk, Polled, WorkStep, AfterPolicy, AfterToggle, Permits, StampsFit, Live, Load, OrderOk, Pacing;
    StepKeepsOrder(c, s, e);
    match e
    case Tick(seconds) => TickKeeps(c, s, seconds);
    case Poll(h) =>
      PollKeeps(c, s.now, s.data, h);
      SharedStepKeeps(c, s, Polled(c, s.now, s.data, h));
    case Toggle(enabled) =>
      ToggleKeeps(c, s.now, s.data, enabled);
      SharedStepKeeps(c, s, s.data.(file := AfterToggle(s.data.file, enabled)));
    case Policy(h) =>
      PolicyKeeps(c, s.now, s.data, h);
      var after := s.data.(file := AfterPolicy(c, s.data.file, h, s.now));
      SharedStepKeeps(c, s, after);
      if h.asterisk.Offline? {
        InvariantIgnores(c, s.(data := after), Step(c, s, e));
      } else {
        InvariantIgnores(c, s, Step(c, s, e));
      }
    case Claim(threadStarts) => InvariantIgnores(c, s, Step(c, s, e));
    case Work(i, a) => if i < |s.workers| { WorkKeeps(c, s, i, a); }
    case Dies(i) => InvariantIgnores(c, s, Step(c, s, e));
    case Restart => InvariantIgnores(c, s, Step(c, s, e));
    case Damage => DamageKeeps(c, s);
  }

  lemma DamageKeeps(c: Config, s: Sys)
    requires Invariant(c, s)
    ensures Invariant(c, s.(data := s.data.(file := None)))
  {
    hide OrderOk;
  }

  lemma {:induction false} RunKeeps(c: Config, now: int, events: seq<Event>)
    requires StampsFit(c) && StartTime(c, now)
    ensures Invariant(c, Run(c, Initial(now), events))
  {
    hide Invariant, Step, StampsFit, StartTime;
    if events == [] {
      InitialInvariant(c, now);
    } else {
      RunKeeps(c, now, events[..|events| - 1]);
      StepKeeps(c, Run(c, Initial(now), events[..|events| - 1]), events[|events| - 1]);
    }
  }

  // ---------------------------------------------------------------------------------------------------
  // The results, for every run.

  /** At most one recovery worker exists at any time, and the coordinator's lock is held exactly while it does. */
  lemma {:induction false} OneWorkerAtATime(c: Config, now: int, events: seq<Event>)
    requires now >= 0
    ensures var s := Run(c, Initial(now), events);
            |s.workers| <= 1 && (s.lockHeld <==> |s.workers| == 1)
  {
    hide OrderOk, Pacing, Run;
    RunIsOrderly(c, now, events);
  }

  /** The health thread's last permission, which nothing of its own has followed. */
  ghost predicate PassedAt(c: Config, now: int, events: seq<Event>, k: nat) {
    && k < |events| && events[k].Policy?
    && Permits(c, Run(c, Initial(now), events[..k]).data.file, events[k].health, Run(c, Initial(now), events[..k]).now)
    && forall j :: k < j < |events| ==> !events[j].Policy? && !events[j].Claim? && events[j] != Restart
  }

  lemma PassedGrows(c: Config, now: int, init: seq<Event>, e: Event, k: nat)
    ensures k < |init| ==>
              (PassedAt(c, now, init + [e], k) <==> PassedAt(c, now, init, k) && !e.Policy? && !e.Claim? && e != Restart)
    ensures k >= |init| ==>
              (PassedAt(c, now, init + [e], k) <==>
                 k == |init| && e.Policy? && Permits(c, Run(c, Initial(now), init).data.file, e.health, Run(c, Initial(now), init).now))
  {
    hide Run, Permits;
    var events := init + [e];
    assert events[..|init|] == init && events[|init|] == e;
    if k < |init| {
      assert events[..k] == init[..k] && forall j :: 0 <= j < |init| ==> events[j] == init[j];
    }
  }

  lemma PassesNext(c: Config, s: Sys, e: Event)
    ensures Step(c, s, e).policyPassed <==>
              if e.Policy? then Permits(c, s.data.file, e.health, s.now)
              else s.policyPassed && !e.Claim? && e != Restart
  {
    hide AfterPolicy, AfterHealth, AfterToggle, Effect, ActionOf, Following, Load;
  }

  lemma {:induction false} PassedIff(c: Config, now: int, events: seq<Event>) returns (last: Option<nat>)
    ensures Run(c, Initial(now), events).policyPassed <==> last.Some?
    ensures forall k: nat :: PassedAt(c, now, events, k) <==> last == Some(k)
  {
    last := None;
    if events != [] {
      hide PassedAt, Step, Permits;
      var init, e := events[..|events| - 1], events[|events| - 1];
      assert events == init + [e];
      var before := PassedIff(c, now, init);
      var s := Run(c, Initial(now), init);
      PassesNext(c, s, e);
      last := if e.Policy? && Permits(c, s.data.file, e.health, s.now) then Some(|init|)
              else if e.Policy? || e.Claim? || e == Restart then None
              else before;
      hide Run;
      forall k: nat ensures PassedAt(c, now, events, k) <==> last == Some(k) {
        PassedGrows(c, now, init, e, k);
        PassedInside(c, now, init, k);
      }
    }
  }

  lemma PassedInside(c: Config, now: int, events: seq<Event>, k: nat)
    ensures PassedAt(c, now, events, k) ==> k < |events|
  {
  }

  /** A recovery run begins exactly when the coordinator claims a free lock right after its own permission, and the thread
      starts. */
  lemma WorkerBeginsIff(c: Config, now: int, events: seq<Event>, e: Event)
    requires now >= 0
    ensures var s := Run(c, Initial(now), events);
            |Step(c, s, e).workers| > |s.workers| <==>
            e == Claim(true) && s.workers == [] && exists k :: PassedAt(c, now, events, k)
  {
    hide Run, PassedAt, OrderOk, Pacing, Effect, ActionOf, Following, AfterPolicy, AfterHealth, AfterToggle, Permits, Load;
    var last := PassedIff(c, now, events);
    RunIsOrderly(c, now, events);
  }

  /** In any configuration, recovery starts are at least five seconds apart. */
  lemma {:induction false} StartsArePaced(c: Config, now: int, events: seq<Event>)
    requires now >= 0
    ensures Spaced(Live(Run(c, Initial(now), events).data.past), 1, PROBE_PAUSE)
  {
    hide HistoryOk, Pacing, Run, Live;
    RunIsOrderly(c, now, events);
  }

  /** Any interval of `window` and five more seconds, wherever it begins, holds at most `maxAttempts` recovery starts that
      were not cancelled, counting from the last healthy reset. */
  lemma {:induction false} StartsAreBounded(c: Config, now: int, events: seq<Event>, from: int)
    requires StampsFit(c) && StartTime(c, now)
    ensures var s := Run(c, Initial(now), events);
            && s.data.past.epoch <= |s.data.past.starts|
            && CountIn(Live(s.data.past), from, from + c.window + PROBE_PAUSE) <= Max(0, c.maxAttempts)
  {
    hide Run, StampsOk, Pacing, WorkerOk, Live, Sorted, Spaced;
    RunKeeps(c, now, events);
    SpacedBoundsEveryWindow(Live(Run(c, Initial(now), events).data.past), Limit(c), c.window + PROBE_PAUSE, from);
  }

  lemma EffectStaysAccepted(c: Config, now: int, d: Data, w: Worker, a: Answer)
    ensures var action := ActionOf(c, now, d.file, w.phase, a);
            var after := Effect(c, now, d, w.start, action, a.health);
            && (Load(d.file).Some? ==> Load(after.file).Some?)
            && (Load(d.file).None? ==> after.file == d.file && |after.past.starts| == |d.past.starts|)
  {
    if Load(d.file).Some? {
      AcceptedIsKept(c, d.file, a.health, false, w.phase.Passing?, now);
    } else {
      InvalidStateInhibits(c, d.file, a.health, false, false, now);
    }
  }

  lemma StepStaysAccepted(c: Config, s: Sys, e: Event)
    requires Load(s.data.file).Some? && e != Damage
    ensures Load(Step(c, s, e).data.file).Some?
  {
    hide Load, AfterHealth, AfterPolicy, AfterToggle, Permits, Effect, ActionOf;
    match e
    case Poll(h) => AcceptedIsKept(c, s.data.file, h, false, false, s.now);
    case Policy(h) => AcceptedIsKept(c, s.data.file, h, false, false, s.now);
    case Toggle(enabled) => AcceptedIsKept(c, s.data.file, Health(Unknown, false, false, None), enabled, false, s.now);
    case Work(i, a) => if i < |s.workers| { EffectStaysAccepted(c, s.now, s.data, s.workers[i], a); }
    case _ =>
  }

  /** Without damage from outside, the file stays accepted over every run. */
  lemma {:induction false} FileStaysAccepted(c: Config, now: int, events: seq<Event>)
    requires Damage !in events
    ensures Load(Run(c, Initial(now), events).data.file).Some?
  {
    if events != [] {
      hide Load, Step;
      var before := events[..|events| - 1];
      FileStaysAccepted(c, now, before);
      assert events[|events| - 1] in events;
      StepStaysAccepted(c, Run(c, Initial(now), before), events[|events| - 1]);
    }
  }

  /** Once the file is damaged no later event starts a recovery. */
  lemma {:induction false} DamageIsFinal(c: Config, s: Sys, events: seq<Event>)
    requires s.data.file.None?
    ensures Run(c, s, events).data.file.None?
    ensures |Run(c, s, events).data.past.starts| == |s.data.past.starts|
  {
    if events != [] {
      var before := events[..|events| - 1];
      DamageIsFinal(c, s, before);
      var t := Run(c, s, before);
      var e := events[|events| - 1];
      if e.Work? && e.index < |t.workers| {
        EffectStaysAccepted(c, t.now, t.data, t.workers[e.index], e.answer);
      }
    }
  }

  /** A cancellation pops the run's own stamp, or nothing after a reset or once the stamp is pruned away. */
  lemma {:induction false} CancelPopsItsOwnStamp(c: Config, now: int, events: seq<Event>, i: nat)
    requires StampsFit(c) && StartTime(c, now)
    ensures var s := Run(c, Initial(now), events);
            var file := s.data.file;
            i < |s.workers| && s.workers[i].phase.Withdrawing? && Load(file).Some? && file.value.attempts != [] ==>
              && s.workers[i].start < |s.data.past.starts|
              && file.value.attempts[|file.value.attempts| - 1] == s.data.past.starts[s.workers[i].start].time
  {
    hide Run, StampsFit, WindowOk, Live, Retains, Accepted;
    RunKeeps(c, now, events);
    var s := Run(c, Initial(now), events);
    var past := s.data.past;
    if i < |s.workers| && s.workers[i].phase.Withdrawing? && Load(s.data.file).Some? {
      LiveAfterCancel(past);
      if past.epoch < |past.starts| {
        RetainsPopped(s.data.file.value.attempts, Live(WithLastCancelled(past)), LastStart(past), c.Retention(), s.now);
      } else {
        RetainedShape(s.data.file.value.attempts, [], c.Retention(), s.now);
      }
    }
  }
}
