/** What the mode of the safety state and a maintenance episode leave unchanged (core/automation.py). */
module RecoveryModes {
  import opened Prelude
  import opened SlidingWindow
  import opened AsteriskObservation
  import opened Automation
  import opened Recovery
  import opened RecoveryRuns

  /** Two accepted states that differ at most in their mode, or the same file. */
  predicate Alike(f: File, g: File) {
    f == g || (Load(f).Some? && Load(g).Some? && g.value == f.value.(mode := g.value.mode))
  }

  predicate AlikeSys(s: Sys, t: Sys) {
    t == s.(data := s.data.(file := t.data.file)) && Alike(s.data.file, t.data.file)
  }

  lemma HealthAlike(c: Config, f: File, g: File, h: Health, now: int)
    requires Alike(f, g)
    ensures Alike(AfterHealth(c, f, h, now), AfterHealth(c, g, h, now))
    ensures Load(f).Some? ==> Resets(c, f.value, h, now) == Resets(c, g.value, h, now)
  {
    if f != g {
      PollIsSaved(c, f.value, h, now);
      PollIsSaved(c, g.value, h, now);
    }
    hide Within, Accepted;
  }

  lemma PolicyAlike(c: Config, f: File, g: File, h: Health, now: int)
    requires Alike(f, g)
    ensures Alike(AfterPolicy(c, f, h, now), AfterPolicy(c, g, h, now)) && Permits(c, f, h, now) == Permits(c, g, h, now)
  {
    if f != g {
      EscalationIsSavedIff(c, f.value, now);
      EscalationIsSavedIff(c, g.value, now);
    }
    hide Within, Accepted, AsteriskObservation.ConfirmedStopped;
  }

  lemma ToggleAlike(f: File, g: File, enabled: bool)
    requires Alike(f, g)
    ensures Alike(AfterToggle(f, enabled), AfterToggle(g, enabled))
  {
    if f != g {
      ToggleAndCancelAreSaved(f.value, enabled);
      ToggleAndCancelAreSaved(g.value, enabled);
    }
    hide Accepted;
  }

  lemma BeginAlike(c: Config, f: File, g: File, now: int)
    requires Alike(f, g)
    ensures Alike(AfterBegin(c, f, now), AfterBegin(c, g, now)) && Begins(f, now) == Begins(g, now)
  {
    if f != g {
      ReservationIsSavedIff(c, f.value, now);
      ReservationIsSavedIff(c, g.value, now);
    }
    hide Within, Accepted;
  }

  lemma CancelAlike(f: File, g: File)
    requires Alike(f, g)
    ensures Alike(AfterCancel(f), AfterCancel(g))
  {
    if f != g {
      ToggleAndCancelAreSaved(f.value, false);
      ToggleAndCancelAreSaved(g.value, false);
    }
    hide Accepted;
  }

  lemma FinishAlike(c: Config, f: File, g: File, verified: bool, now: int)
    requires Alike(f, g)
    ensures Alike(AfterFinish(c, f, verified, now), AfterFinish(c, g, verified, now))
  {
    if f != g {
      VerifiedFinishIsSavedIff(c, f.value, now);
      VerifiedFinishIsSavedIff(c, g.value, now);
      FailedFinishIsSavedIff(c, f.value, now);
      FailedFinishIsSavedIff(c, g.value, now);
    }
    hide Within, Accepted, Doubled;
  }

  /** An action of a worker, on two files that are alike. */
  lemma EffectAlike(c: Config, now: int, d: Data, g: File, start: nat, action: Action, h: Health)
    requires Alike(d.file, g)
    ensures var a, b := Effect(c, now, d, start, action, h), Effect(c, now, d.(file := g), start, action, h);
            a.past == b.past && Alike(a.file, b.file)
  {
    hide Alike, AfterPolicy, AfterBegin, AfterCancel, AfterFinish, Load, Permits, Begins;
    LoadAlike(d.file, g);
    PolicyAlike(c, d.file, g, h, now);
    BeginAlike(c, d.file, g, now);
    CancelAlike(d.file, g);
    if action.Finish? {
      FinishAlike(c, d.file, g, action.verified, now);
    }
  }

  lemma LoadAlike(f: File, g: File)
    requires Alike(f, g)
    ensures Load(f).Some? == Load(g).Some?
  {
  }

  lemma WorkAlike(c: Config, s: Sys, t: Sys, i: nat, a: Answer)
    requires AlikeSys(s, t) && i < |s.workers|
    ensures AlikeSys(WorkStep(c, s, i, a), WorkStep(c, t, i, a))
  {
    hide Alike, Effect, ActionOf, Next, Following;
    var w := s.workers[i];
    ActionAlike(c, s.now, s.data.file, t.data.file, w.phase, a);
    var action := ActionOf(c, s.now, s.data.file, w.phase, a);
    EffectAlike(c, s.now, s.data, t.data.file, w.start, action, a.health);
  }

  lemma ActionAlike(c: Config, now: int, f: File, g: File, p: Phase, a: Answer)
    requires Alike(f, g)
    ensures ActionOf(c, now, f, p, a) == ActionOf(c, now, g, p, a)
  {
    hide Alike, Permits, Begins;
    PolicyAlike(c, f, g, a.health, now);
    BeginAlike(c, f, g, now);
  }

  /** The mode decides nothing: states that differ only in it stay so, whatever happens. */
  lemma StepAlike(c: Config, s: Sys, t: Sys, e: Event)
    requires AlikeSys(s, t)
    ensures AlikeSys(Step(c, s, e), Step(c, t, e))
  {
    hide Alike, AfterHealth, AfterPolicy, AfterToggle, WorkStep, Load, Permits, Resets;
    var f, g := s.data.file, t.data.file;
    LoadAlike(f, g);
    match e
    case Poll(h) => HealthAlike(c, f, g, h, s.now);
    case Toggle(enabled) => ToggleAlike(f, g, enabled);
    case Policy(h) => PolicyAlike(c, f, g, h, s.now);
    case Work(i, a) => if i < |s.workers| { WorkAlike(c, s, t, i, a); }
    case Damage => SameIsAlike(None);
    case _ =>
  }

  lemma SameIsAlike(f: File)
    ensures Alike(f, f)
  {
  }

  lemma {:induction false} RunAlike(c: Config, s: Sys, t: Sys, events: seq<Event>)
    requires AlikeSys(s, t)
    ensures AlikeSys(Run(c, s, events), Run(c, t, events))
  {
    hide AlikeSys, Step;
    if events != [] {
      RunAlike(c, s, t, events[..|events| - 1]);
      StepAlike(c, Run(c, s, events[..|events| - 1]), Run(c, t, events[..|events| - 1]), events[|events| - 1]);
    }
  }

  /** Maintenance changes no stamp, no failure count and no pause, and leaves nothing behind: after an episode in which
      nothing else happens, every run goes on with the same starts, permissions and pauses as without it. */
  lemma MaintenanceLeavesNothing(c: Config, s: Sys, events: seq<Event>)
    requires Load(s.data.file).Some? && !s.data.file.value.maintenance
    ensures var t := Step(c, Step(c, s, Toggle(true)), Toggle(false));
            AlikeSys(s, t) && AlikeSys(Run(c, s, events), Run(c, t, events))
  {
    hide Run;
    ToggleAndCancelAreSaved(s.data.file.value, true);
    ToggleAndCancelAreSaved(Toggled(s.data.file.value, true), false);
    var t := Step(c, Step(c, s, Toggle(true)), Toggle(false));
    assert AlikeSys(s, t);
    RunAlike(c, s, t, events);
  }
}
