/** One recovery run (core/recovery.py): the ordered effects of `recover_asterisk` and the verification loop. */
module Recovery {
  import opened Prelude
  import opened AsteriskObservation

  /** The sleep of a run between its first two probes, in seconds. */
  const PROBE_PAUSE: nat := 5

  /** What the start command did. */
  datatype CommandResult = Succeeded | Rejected | TimedOut | NotExecuted

  /** The effects and answers of a run, in order. */
  datatype Action =
    | Check(allowed: bool)       // automation.recovery_allowed
    | Probe(stopped: bool)       // independent service evidence
    | Reserve(granted: bool)     // automation.begin_recovery
    | Command(result: CommandResult)
    | Verify(passed: bool)
    | Cancel                     // automation.cancel_recovery
    | Finish(verified: bool)     // automation.finish_recovery

  /** How far a run has come. */
  datatype Phase =
    | Entered
    | Permitted
    | StoppedOnce
    | StoppedTwice
    | Cleared
    | Holding
    | Confirmed
    | Withdrawing
    | Verifying
    | Passing
    | Failing
    | Done

  /** The next phase, or None when the run never takes this action here. */
  function Next(p: Phase, a: Action): Option<Phase> {
    match (p, a)
    case (Entered, Check(ok)) => Some(if ok then Permitted else Done)
    case (Permitted, Probe(ok)) => Some(if ok then StoppedOnce else Done)
    case (StoppedOnce, Probe(ok)) => Some(if ok then StoppedTwice else Done)
    case (StoppedTwice, Check(ok)) => Some(if ok then Cleared else Done)
    case (Cleared, Reserve(ok)) => Some(if ok then Holding else Done)
    case (Holding, Probe(ok)) => Some(if ok then Confirmed else Withdrawing)
    case (Withdrawing, Cancel) => Some(Done)
    case (Confirmed, Command(result)) => Some(if result.Succeeded? then Verifying else Failing)
    case (Verifying, Verify(ok)) => Some(if ok then Passing else Failing)
    case (Passing, Finish(ok)) => if ok then Some(Done) else None
    case (Failing, Finish(ok)) => if ok then None else Some(Done)
    case _ => None
  }

  /** The phase reached from Entered by a sequence of actions. */
  function Reached(actions: seq<Action>): Option<Phase> {
    if actions == [] then Some(Entered)
    else
      match Reached(actions[..|actions| - 1])
      case None => None
      case Some(p) => Next(p, actions[|actions| - 1])
  }

  function CountIf(actions: seq<Action>, p: Action -> bool): nat {
    if actions == [] then 0
    else CountIf(actions[..|actions| - 1], p) + if p(actions[|actions| - 1]) then 1 else 0
  }

  const IsCommand := (a: Action) => a.Command?
  const IsGrant := (a: Action) => a.Reserve? && a.granted
  const IsClose := (a: Action) => a.Cancel? || a.Finish?
  const IsStopped := (a: Action) => a.Probe? && a.stopped
  const IsRefusal := (a: Action) => a.Probe? && !a.stopped

  /** The counts that each phase implies. */
  ghost predicate Counts(actions: seq<Action>, grants: nat, closes: nat, commands: nat, stopped: nat) {
    && CountIf(actions, IsGrant) == grants
    && CountIf(actions, IsClose) == closes
    && CountIf(actions, IsCommand) == commands
    && CountIf(actions, IsStopped) == stopped
  }

  ghost predicate PhaseFacts(actions: seq<Action>, p: Phase) {
    && (p !in {Withdrawing, Done} ==> CountIf(actions, IsRefusal) == 0)
    && match p
       case Entered => Counts(actions, 0, 0, 0, 0)
       case Permitted => Counts(actions, 0, 0, 0, 0)
       case StoppedOnce => Counts(actions, 0, 0, 0, 1)
       case StoppedTwice => Counts(actions, 0, 0, 0, 2)
       case Cleared => Counts(actions, 0, 0, 0, 2)
       case Holding => Counts(actions, 1, 0, 0, 2) && actions[|actions| - 1] == Reserve(true)
       case Withdrawing => Counts(actions, 1, 0, 0, 2)
       case Confirmed => Counts(actions, 1, 0, 0, 3)
                         && |actions| >= 2 && actions[|actions| - 2..] == [Reserve(true), Probe(true)]
       case Verifying => Counts(actions, 1, 0, 1, 3)
       case Passing => Counts(actions, 1, 0, 1, 3) && actions[|actions| - 1] == Verify(true)
       case Failing => Counts(actions, 1, 0, 1, 3)
       case Done => && CountIf(actions, IsClose) == CountIf(actions, IsGrant) <= 1
                    && CountIf(actions, IsCommand) <= CountIf(actions, IsGrant)
  }

  lemma {:induction false} ReachedFacts(actions: seq<Action>)
    requires Reached(actions).Some?
    ensures PhaseFacts(actions, Reached(actions).value)
    ensures CountIf(actions, IsGrant) <= 1 && CountIf(actions, IsClose) <= CountIf(actions, IsGrant)
    ensures CountIf(actions, IsCommand) <= 1
  {
    if actions != [] {
      ReachedFacts(actions[..|actions| - 1]);
    }
  }

  /** A prefix of a legal run is a legal run. */
  lemma {:induction false} PrefixReached(actions: seq<Action>, k: nat)
    requires Reached(actions).Some? && k <= |actions|
    ensures Reached(actions[..k]).Some?
  {
    if k < |actions| {
      PrefixReached(actions[..|actions| - 1], k);
      assert actions[..|actions| - 1][..k] == actions[..k];
    } else {
      assert actions[..k] == actions;
    }
  }

  /** Every run issues the start command at most once; when it does, three probes before it confirmed the
      stopped service, none denied it, and the last of them came directly after the granted reservation. */
  lemma StartCommandIsGuarded(actions: seq<Action>, i: nat)
    requires Reached(actions).Some? && i < |actions| && actions[i].Command?
    ensures CountIf(actions, IsCommand) == 1
    ensures CountIf(actions[..i], IsStopped) == 3 && CountIf(actions[..i], IsRefusal) == 0
    ensures i >= 2 && actions[i - 2] == Reserve(true) && actions[i - 1] == Probe(true)
  {
    PrefixReached(actions, i);
    PrefixReached(actions, i + 1);
    ReachedFacts(actions[..i]);
    ReachedFacts(actions);
    assert actions[..i + 1][..i] == actions[..i];
    assert Reached(actions[..i]) == Some(Confirmed);
    assert actions[..i][i - 2..] == [actions[i - 2], actions[i - 1]];
    CountGrows(actions, i + 1, IsCommand);
  }

  lemma {:induction false} CountGrows(actions: seq<Action>, k: nat, p: Action -> bool)
    requires k <= |actions|
    ensures CountIf(actions[..k], p) <= CountIf(actions, p)
  {
    if k < |actions| {
      CountGrows(actions[..|actions| - 1], k, p);
      assert actions[..|actions| - 1][..k] == actions[..k];
    } else {
      assert actions[..k] == actions;
    }
  }

  /** A completed run closes a granted reservation exactly once, and closes nothing without one. */
  lemma ReservationIsClosedOnce(actions: seq<Action>)
    requires Reached(actions) == Some(Done)
    ensures CountIf(actions, IsClose) == CountIf(actions, IsGrant)
  {
    ReachedFacts(actions);
  }

  /** A success is recorded only after a successful start command and a passed verification. */
  lemma SuccessIsVerified(actions: seq<Action>, i: nat)
    requires Reached(actions).Some? && i < |actions| && actions[i] == Finish(true)
    ensures i >= 2 && actions[i - 1] == Verify(true) && actions[i - 2] == Command(Succeeded)
  {
    PrefixReached(actions, i);
    PrefixReached(actions, i + 1);
    assert actions[..i + 1][..i] == actions[..i];
    assert Reached(actions[..i]) == Some(Passing);
    assert i > 0;
    PrefixReached(actions, i - 1);
    assert actions[..i][..i - 1] == actions[..i - 1];
    assert Reached(actions[..i - 1]) == Some(Verifying);
    assert i > 1;
    PrefixReached(actions, i - 2);
    assert actions[..i - 1][..i - 2] == actions[..i - 2];
  }

  // ---------------------------------------------------------------------------------------------------

  /** Everything one run reads from its surroundings. */
  datatype Surroundings = Surroundings(
    enabled: bool, stateOffline: bool,
    allowed: bool, allowedAgain: bool, granted: bool,
    first: Service, firstAt: int,
    second: Service, secondAt: int, answersQuery: bool,
    final: Service, finalAt: int,
    result: CommandResult, verified: bool)

  predicate ReservationReached(w: Surroundings) {
    && w.allowed && ConfirmedStopped(w.first, w.firstAt)
    && ConfirmedStopped(w.second, w.secondAt) && !w.answersQuery
    && w.allowedAgain && w.granted
  }

  predicate CommandReached(w: Surroundings) {
    ReservationReached(w) && ConfirmedStopped(w.final, w.finalAt)
  }

  /** The action at place `i` carries the answer of the surroundings there. */
  ghost predicate TruthfulAt(w: Surroundings, i: nat, a: Action) {
    match a
    case Check(ok) => (i == 0 && ok == w.allowed) || (i == 3 && ok == w.allowedAgain)
    case Probe(ok) =>
      || (i == 1 && ok == ConfirmedStopped(w.first, w.firstAt))
      || (i == 2 && ok == (ConfirmedStopped(w.second, w.secondAt) && !w.answersQuery))
      || (i == 5 && ok == ConfirmedStopped(w.final, w.finalAt))
    case Reserve(ok) => i == 4 && ok == w.granted
    case Command(result) => i == 6 && result == w.result
    case Verify(ok) => i == 7 && ok == w.verified
    case Cancel => i == 6
    case Finish(_) => i == 7 || i == 8
  }

  ghost predicate Truthful(w: Surroundings, actions: seq<Action>) {
    forall i :: 0 <= i < |actions| ==> TruthfulAt(w, i, actions[i])
  }

  /** What a run leaves behind, read off its surroundings. */
  ghost predicate Outcome(w: Surroundings, actions: seq<Action>) {
    && (Finish(true) in actions <==> CommandReached(w) && w.result.Succeeded? && w.verified)
    && (Finish(false) in actions <==> CommandReached(w) && !(w.result.Succeeded? && w.verified))
    && (Cancel in actions <==> ReservationReached(w) && !ConfirmedStopped(w.final, w.finalAt))
    && ((exists x :: Command(x) in actions) <==> CommandReached(w))
    && ((exists ok :: Verify(ok) in actions) <==> CommandReached(w) && w.result.Succeeded?)
    && (Reserve(true) in actions <==> ReservationReached(w))
  }

  /** The run whose guards all pass, up to its reservation. */
  const ATTEMPT := [Check(true), Probe(true), Probe(true), Check(true), Reserve(true)]

  predicate IsGuard(a: Action) {
    a.Check? || a.Probe? || a == Reserve(false)
  }

  /** One effect of a run. */
  method Take(actions: seq<Action>, ghost p: Phase, a: Action) returns (more: seq<Action>)
    requires Reached(actions) == Some(p) && Next(p, a).Some?
    ensures more == actions + [a] && Reached(more) == Next(p, a)
  {
    more := actions + [a];
    assert more[..|more| - 1] == actions;
  }

  /** The run up to its reservation: it is done, or it holds one. */
  method ReserveAttempt(w: Surroundings) returns (actions: seq<Action>, held: bool)
    ensures held == ReservationReached(w)
    ensures Reached(actions) == Some(if held then Holding else Done) && Truthful(w, actions)
    ensures if held then actions == ATTEMPT else forall a :: a in actions ==> IsGuard(a)
  {
    hide Reached, ConfirmedStopped;
    held, actions := false, [];
    NothingReached();
    actions := Take(actions, Entered, Check(w.allowed));
    if !w.allowed {
      return;
    }
    var stopped := ConfirmedStopped(w.first, w.firstAt);
    actions := Take(actions, Permitted, Probe(stopped));
    if !stopped {
      return;
    }
    stopped := ConfirmedStopped(w.second, w.secondAt) && !w.answersQuery;
    actions := Take(actions, StoppedOnce, Probe(stopped));
    if !stopped {
      return;
    }
    actions := Take(actions, StoppedTwice, Check(w.allowedAgain));
    if !w.allowedAgain {
      return;
    }
    actions := Take(actions, Cleared, Reserve(w.granted));
    held := w.granted;
  }

  lemma NothingReached()
    ensures Reached([]) == Some(Entered)
  {
  }

  /** `recover_asterisk`. Its effects form a complete legal run, so the lemmas above hold of them; each carries its own
      answer of the surroundings, which decide the outcome. A run that is switched off, or that reads a state other than
      offline, does nothing at all. */
  method RecoverAsterisk(w: Surroundings) returns (actions: seq<Action>)
    ensures !w.enabled || !w.stateOffline ==> actions == []
    ensures w.enabled && w.stateOffline ==> Reached(actions) == Some(Done) && Truthful(w, actions) && Outcome(w, actions)
  {
    hide Reached, ReservationReached, ConfirmedStopped, Outcome;
    if !w.enabled || !w.stateOffline {
      return [];
    }
    var held;
    actions, held := ReserveAttempt(w);
    if !held {
      GuardsLeaveNothing(w, actions);
      return;
    }
    var stopped := ConfirmedStopped(w.final, w.finalAt);
    actions := Take(actions, Holding, Probe(stopped));
    if !stopped {
      actions := Take(actions, Withdrawing, Cancel);
      assert Outcome(w, actions) by { TailDecides(w, actions, [Probe(false), Cancel]); }
      return;
    }
    actions := Take(actions, Confirmed, Command(w.result));
    if !w.result.Succeeded? {
      actions := Take(actions, Failing, Finish(false));
      assert Outcome(w, actions) by { TailDecides(w, actions, [Probe(true), Command(w.result), Finish(false)]); }
      return;
    }
    actions := Take(actions, Verifying, Verify(w.verified));
    actions := Take(actions, if w.verified then Passing else Failing, Finish(w.verified));
    assert Outcome(w, actions) by {
      TailDecides(w, actions, [Probe(true), Command(w.result), Verify(w.verified), Finish(w.verified)]);
    }
  }

  lemma GuardsLeaveNothing(w: Surroundings, actions: seq<Action>)
    requires !ReservationReached(w) && forall a :: a in actions ==> IsGuard(a)
    ensures Outcome(w, actions)
  {
  }

  /** After the reservation, the rest of the run decides its outcome. */
  lemma TailDecides(w: Surroundings, actions: seq<Action>, tail: seq<Action>)
    requires ReservationReached(w) && actions == ATTEMPT + tail
    requires var stopped := ConfirmedStopped(w.final, w.finalAt);
             tail == if !stopped then [Probe(false), Cancel]
                     else if !w.result.Succeeded? then [Probe(true), Command(w.result), Finish(false)]
                     else [Probe(true), Command(w.result), Verify(w.verified), Finish(w.verified)]
    ensures Outcome(w, actions)
  {
    hide ReservationReached, ConfirmedStopped;
    assert forall a :: a in actions <==> a in ATTEMPT || a in tail;
    assert Command(w.result) in tail <==> ConfirmedStopped(w.final, w.finalAt);
  }

  lemma SameNext(w: Surroundings, p: Phase, a: Action, b: Action, i: nat)
    requires Next(p, a).Some? && Next(p, b).Some? && TruthfulAt(w, i, a) && TruthfulAt(w, i, b)
    ensures a == b
  {
    hide ConfirmedStopped;
  }

  lemma {:induction false} PrefixesAgree(w: Surroundings, a: seq<Action>, b: seq<Action>, n: nat)
    requires Reached(a).Some? && Reached(b).Some? && Truthful(w, a) && Truthful(w, b)
    requires n <= |a| && n <= |b|
    ensures a[..n] == b[..n]
  {
    hide Next, TruthfulAt;
    if n > 0 {
      PrefixesAgree(w, a, b, n - 1);
      PrefixReached(a, n);
      PrefixReached(b, n);
      assert a[..n][..n - 1] == a[..n - 1] && b[..n][..n - 1] == b[..n - 1];
      SameNext(w, Reached(a[..n - 1]).value, a[n - 1], b[n - 1], n - 1);
      assert a[..n] == a[..n - 1] + [a[n - 1]] && b[..n] == b[..n - 1] + [b[n - 1]];
    }
  }

  lemma DoneIsLast(a: seq<Action>, n: nat)
    requires Reached(a).Some? && n <= |a| && Reached(a[..n]) == Some(Done)
    ensures n == |a|
  {
    if n < |a| {
      assert a[..n + 1][..n] == a[..n];
      PrefixReached(a, n + 1);
    }
  }

  /** The surroundings determine a complete run: it is legal, complete and truthful in one way only. */
  lemma RunIsDetermined(w: Surroundings, a: seq<Action>, b: seq<Action>)
    requires Reached(a) == Reached(b) == Some(Done) && Truthful(w, a) && Truthful(w, b)
    ensures a == b
  {
    hide TruthfulAt, Next;
    var n := Min(|a|, |b|);
    PrefixesAgree(w, a, b, n);
    assert a[..|a|] == a && b[..|b|] == b;
    if |a| < |b| {
      DoneIsLast(b, n);
    } else {
      DoneIsLast(a, n);
    }
  }

  // ---------------------------------------------------------------------------------------------------

  /** One pass of the verification loop: the monotonic clock at its test and what it observed. */
  datatype Pass = Pass(clock: int, service: Service, serviceAt: int, cliOnline: bool,
                       systemOnline: bool, componentNormal: bool,
                       collected: Service, collectedAt: int, collectedQuery: bool, collectedNode: bool,
                       allstarReachable: bool, observedAt: int, intelligenceAt: Option<int>, allstarValid: bool)

  predicate HealthyPass(p: Pass, startedAt: int) {
    && Fresh(p.service.observedAt, p.serviceAt) && p.service.status.Online?
    && p.cliOnline
    && p.systemOnline && p.componentNormal
    && Fresh(p.collected.observedAt, p.collectedAt) && p.collected.status.Online?
    && p.collected.observedAt >= startedAt
    && p.collectedQuery && p.collectedNode
    && p.allstarReachable && p.observedAt >= startedAt
    && p.intelligenceAt.Some? && p.intelligenceAt.value >= startedAt
    && p.allstarValid
  }

  /** What a healthy pass has seen: systemd at most thirty seconds ago with a running process, a command line that
      answers, and a health record, a collected answer of systemd, intelligence and status files that all come from
      after the start. */
  lemma HealthyPassIff(p: Pass, startedAt: int)
    ensures HealthyPass(p, startedAt) <==>
              && p.service.observedAt <= p.serviceAt <= p.service.observedAt + 30 && p.service.status == Online
              && p.cliOnline && p.allstarReachable && p.allstarValid
              && p.systemOnline && p.componentNormal && startedAt <= p.observedAt
              && p.collected.observedAt <= p.collectedAt <= p.collected.observedAt + 30
              && p.collected.status == Online && startedAt <= p.collected.observedAt
              && p.collectedQuery && p.collectedNode
              && p.intelligenceAt.Some? && startedAt <= p.intelligenceAt.value
  {
  }

  /** The passes up to `i` all began by the deadline and the last `k` of them were healthy. */
  ghost predicate StableAt(passes: seq<Pass>, i: nat, k: nat, deadline: int, startedAt: int) {
    && k >= 1 && k - 1 <= i < |passes|
    && (forall j :: 0 <= j <= i ==> passes[j].clock <= deadline)
    && (forall j :: i - k < j <= i ==> HealthyPass(passes[j], startedAt))
  }

  /** The verdict is True exactly when some pass within the deadline completes `max(1, stableChecks)` healthy
      passes in a row. Every pass sleeps, so the clock eventually passes the deadline. */
  method VerifyRecovery(passes: seq<Pass>, startedAt: int, deadline: int, stableChecks: int)
    returns (verified: bool)
    requires exists i :: 0 <= i < |passes| && passes[i].clock > deadline
    ensures verified <==> exists i: nat :: StableAt(passes, i, Max(1, stableChecks), deadline, startedAt)
  {
    var need := Max(1, stableChecks);
    var stable := 0;
    var n := 0;
    while passes[n].clock <= deadline
      invariant 0 <= n < |passes|
      invariant 0 <= stable < need && stable <= n
      invariant forall j :: 0 <= j < n ==> passes[j].clock <= deadline
      invariant forall j :: n - stable <= j < n ==> HealthyPass(passes[j], startedAt)
      invariant stable < n ==> !HealthyPass(passes[n - stable - 1], startedAt)
      invariant forall i: nat :: i < n ==> !StableAt(passes, i, need, deadline, startedAt)
      decreases |passes| - n
    {
      var service := passes[n].service;
      if !(Fresh(service.observedAt, passes[n].serviceAt) && service.status.Online?) {
        stable := 0;
      } else if !passes[n].cliOnline {
        stable := 0;
      } else if HealthyPass(passes[n], startedAt) {
        stable := stable + 1;
        if stable >= need {
          assert StableAt(passes, n, need, deadline, startedAt);
          return true;
        }
      } else {
        stable := 0;
      }
      n := n + 1;
    }
    return false;
  }
}
