/** The persisted safety state of automatic recovery (core/automation.py).

    Times are whole seconds. Message texts, the connectivity summary and the event log are left out; every
    field that can permit or inhibit a recovery is here. */
module Automation {
  import opened Prelude
  import opened SlidingWindow
  import opened AsteriskObservation

  const MAX_EPOCH := 253402214400
  const MAX_STAMPS := 4096
  const MAX_FAILURES := 1000
  const DAY_SECONDS := 86400

  datatype Config = Config(window: int, maxAttempts: int, minCooldown: int, maxBackoff: int, healthyReset: int) {
    /** How long `_prune` retains a stamp. */
    function Retention(): int {
      Max(DAY_SECONDS, window)
    }

    /** The pause after the k-th consecutive failure. */
    function Backoff(failures: int): int {
      Min(maxBackoff, Doubled(minCooldown, Min(30, Max(0, failures - 1))))
    }

    /** The latest a deadline can lie ahead. */
    function LongestPause(): nat {
      Max(0, Max(minCooldown, maxBackoff))
    }
  }

  /** `x` doubled `n` times. */
  function Doubled(x: int, n: int): int
    decreases n
  {
    if n <= 0 then x else 2 * Doubled(x, n - 1)
  }

  datatype Mode = Active | Maintenance | Recovering | Recovered | Attention

  datatype Safety = Safety(mode: Mode, maintenance: bool, attempts: seq<int>, failures: int,
                           cooldownUntil: int, backoffUntil: int, healthySince: Option<int>)

  /** The JSON file. None stands for a file that is missing, unreadable or has a field of the wrong type. */
  type File = Option<Safety>

  datatype Health = Health(asterisk: Status, queryNormal: bool, nodeNormal: bool, evidence: Option<Evidence>) {
    predicate Healthy() {
      asterisk.Online? && queryNormal && nodeNormal
    }

    predicate OutageConfirmed(now: int) {
      && evidence.Some?
      && ConfirmedStopped(evidence.value.service, now)
      && !evidence.value.queryAvailable
      && asterisk.Offline?
    }
  }

  const DEFAULT_STATE := Safety(Active, false, [], 0, 0, 0, None)

  predicate IsStamp(t: int) {
    0 <= t <= MAX_EPOCH
  }

  /** What `_normalized` accepts. */
  predicate Accepted(s: Safety) {
    && (s.mode.Maintenance? ==> s.maintenance)
    && IsStamp(s.cooldownUntil)
    && IsStamp(s.backoffUntil)
    && 0 <= s.failures <= MAX_FAILURES
    && |s.attempts| <= MAX_STAMPS
    && (forall t :: t in s.attempts ==> IsStamp(t))
  }

  /** None is the fail-closed `invalid_state`. */
  function Load(file: File): File {
    if file.Some? && Accepted(file.value) then file else None
  }

  /** A state that `_normalized` would refuse never reaches the disk. */
  function Save(file: File, s: Safety): File {
    if Accepted(s) then Some(s) else file
  }

  // ---------------------------------------------------------------------------------------------------
  // The transitions, as functions of the loaded state.

  function Prune(c: Config, s: Safety, now: int): Safety {
    s.(attempts := Within(s.attempts, c.Retention(), now))
  }

  function RestingMode(s: Safety): Mode {
    if s.maintenance then Maintenance else Active
  }

  /** Sustained health with something to forget. */
  predicate Resets(c: Config, s: Safety, h: Health, now: int) {
    && h.Healthy()
    && now - s.healthySince.GetOr(now) >= c.healthyReset
    && (|Prune(c, s, now).attempts| > 0 || s.failures != 0 || s.backoffUntil != 0 || s.cooldownUntil != 0)
  }

  function Observed(c: Config, s: Safety, h: Health, now: int): Safety {
    var p := Prune(c, s, now);
    var since := if h.Healthy() then Some(s.healthySince.GetOr(now)) else None;
    var q :=
      if Resets(c, s, h, now) then
        Safety(RestingMode(s), s.maintenance, [], 0, 0, 0, since)
      else if h.Healthy() && s.mode.Recovered? && now - since.value >= c.healthyReset then
        p.(mode := RestingMode(s), healthySince := since)
      else
        p.(healthySince := since);
    if s.maintenance then q.(mode := Maintenance) else q
  }

  function Toggled(s: Safety, enabled: bool): Safety {
    if s.maintenance == enabled then s
    else s.(maintenance := enabled, mode := if enabled then Maintenance else Active)
  }

  datatype Verdict = Permit | Refuse | Escalate

  predicate Paused(s: Safety, now: int) {
    s.maintenance || s.backoffUntil > now || s.cooldownUntil > now
  }

  function Judge(c: Config, s: Safety, h: Health, now: int): Verdict {
    if !h.OutageConfirmed(now) || Paused(s, now) then Refuse
    else if |Within(Prune(c, s, now).attempts, c.window, now)| >= c.maxAttempts then Escalate
    else Permit
  }

  function Escalated(c: Config, s: Safety, now: int): Safety {
    Prune(c, s, now).(backoffUntil := now + c.maxBackoff, mode := Attention)
  }

  function Reserved(c: Config, s: Safety, now: int): Safety {
    var p := Prune(c, s, now);
    p.(attempts := p.attempts + [now], mode := Recovering, healthySince := None)
  }

  function Cancelled(s: Safety): Safety {
    s.(attempts := if s.attempts == [] then [] else s.attempts[..|s.attempts| - 1], mode := RestingMode(s))
  }

  function Finished(c: Config, s: Safety, verified: bool, now: int): Safety {
    var full := |Within(s.attempts, c.window, now)| >= c.maxAttempts;
    if verified then
      var q := s.(healthySince := Some(now), failures := 0, cooldownUntil := now + c.minCooldown);
      if full then q.(mode := Attention, backoffUntil := now + c.maxBackoff) else q.(mode := Recovered)
    else
      var k := s.failures + 1;
      var q := s.(failures := k, cooldownUntil := now + c.Backoff(k));
      if k >= 2 || full then q.(mode := Attention, backoffUntil := now + c.Backoff(k)) else q.(mode := Active)
  }

  // ---------------------------------------------------------------------------------------------------
  // The same transitions on the file: load, decide, save.

  function AfterHealth(c: Config, file: File, h: Health, now: int): File {
    match Load(file)
    case None => file
    case Some(s) => Save(file, Observed(c, s, h, now))
  }

  function AfterToggle(file: File, enabled: bool): File {
    match Load(file)
    case None => file
    case Some(s) => Save(file, Toggled(s, enabled))
  }

  predicate Permits(c: Config, file: File, h: Health, now: int) {
    Load(file).Some? && Judge(c, file.value, h, now).Permit?
  }

  function AfterPolicy(c: Config, file: File, h: Health, now: int): File {
    match Load(file)
    case None => file
    case Some(s) => if Judge(c, s, h, now).Escalate? then Save(file, Escalated(c, s, now)) else file
  }

  predicate Begins(file: File, now: int) {
    Load(file).Some? && !Paused(file.value, now)
  }

  function AfterBegin(c: Config, file: File, now: int): File {
    if Begins(file, now) then Save(file, Reserved(c, file.value, now)) else file
  }

  function AfterCancel(file: File): File {
    match Load(file)
    case None => file
    case Some(s) => Save(file, Cancelled(s))
  }

  function AfterFinish(c: Config, file: File, verified: bool, now: int): File {
    match Load(file)
    case None => file
    case Some(s) => Save(file, Finished(c, s, verified, now))
  }

  // ---------------------------------------------------------------------------------------------------
  // The store: each method updates the loaded record field by field under the state lock.

  class SafetyStore {
    const config: Config
    var file: File

    constructor (config: Config)
      ensures this.config == config && file == Some(DEFAULT_STATE)
    {
      this.config := config;
      file := Some(DEFAULT_STATE);
    }

    method SaveState(state: Safety)
      modifies this
      ensures file == Save(old(file), state)
    {
      if Accepted(state) {
        file := Some(state);
      }
    }

    method ObserveHealth(h: Health, now: int)
      modifies this
      ensures file == AfterHealth(config, old(file), h, now)
    {
      var loaded := Load(file);
      if loaded.None? {
        return;
      }
      var state := Prune(config, loaded.value, now);
      if h.Healthy() {
        if state.healthySince.None? {
          state := state.(healthySince := Some(now));
        }
        var since := state.healthySince.value;
        if now - since >= config.healthyReset
           && (|state.attempts| > 0 || state.failures != 0 || state.backoffUntil != 0 || state.cooldownUntil != 0)
        {
          state := state.(attempts := []);
          state := state.(failures := 0);
          state := state.(backoffUntil := 0);
          state := state.(cooldownUntil := 0);
          state := state.(mode := if state.maintenance then Maintenance else Active);
        } else if state.mode.Recovered? && now - since >= config.healthyReset {
          state := state.(mode := if state.maintenance then Maintenance else Active);
        }
      } else {
        state := state.(healthySince := None);
      }
      if state.maintenance {
        state := state.(mode := Maintenance);
      }
      SaveState(state);
    }

    method SetMaintenance(enabled: bool)
      modifies this
      ensures file == AfterToggle(old(file), enabled)
    {
      var loaded := Load(file);
      if loaded.None? {
        return;
      }
      var state := loaded.value;
      if state.maintenance != enabled {
        state := state.(maintenance := enabled);
        state := state.(mode := if enabled then Maintenance else Active);
      }
      SaveState(state);
    }

    method RecoveryAllowed(h: Health, now: int) returns (allowed: bool)
      modifies this
      ensures allowed == Permits(config, old(file), h, now)
      ensures file == AfterPolicy(config, old(file), h, now)
    {
      var loaded := Load(file);
      if loaded.None? {
        return false;
      }
      var state := Prune(config, loaded.value, now);
      if h.evidence.None? || !ConfirmedStopped(h.evidence.value.service, now) || h.evidence.value.queryAvailable {
        return false;
      }
      if !h.asterisk.Offline? || state.maintenance {
        return false;
      }
      if state.backoffUntil > now || state.cooldownUntil > now {
        return false;
      }
      if |Within(state.attempts, config.window, now)| >= config.maxAttempts {
        state := state.(backoffUntil := now + config.maxBackoff);
        state := state.(mode := Attention);
        SaveState(state);
        return false;
      }
      return true;
    }

    method BeginRecovery(now: int) returns (attempt: Option<nat>)
      modifies this
      ensures attempt.Some? == Begins(old(file), now)
      ensures attempt.Some? ==>
                attempt.value == |Within(Reserved(config, old(file).value, now).attempts, config.window, now)|
      ensures file == AfterBegin(config, old(file), now)
    {
      var loaded := Load(file);
      if loaded.None? {
        return None;
      }
      var state := Prune(config, loaded.value, now);
      if state.maintenance || state.backoffUntil > now || state.cooldownUntil > now {
        return None;
      }
      state := state.(attempts := state.attempts + [now]);
      attempt := Some(|Within(state.attempts, config.window, now)|);
      state := state.(mode := Recovering);
      state := state.(healthySince := None);
      SaveState(state);
    }

    method CancelRecovery()
      modifies this
      ensures file == AfterCancel(old(file))
    {
      var loaded := Load(file);
      if loaded.None? {
        return;
      }
      var state := loaded.value;
      if |state.attempts| > 0 {
        state := state.(attempts := state.attempts[..|state.attempts| - 1]);
      }
      state := state.(mode := if state.maintenance then Maintenance else Active);
      SaveState(state);
    }

    method FinishRecovery(verified: bool, now: int)
      modifies this
      ensures file == AfterFinish(config, old(file), verified, now)
    {
      var loaded := Load(file);
      if loaded.None? {
        return;
      }
      var state := loaded.value;
      if verified {
        state := state.(healthySince := Some(now));
        state := state.(failures := 0);
        state := state.(cooldownUntil := now + config.minCooldown);
        if |Within(state.attempts, config.window, now)| >= config.maxAttempts {
          state := state.(mode := Attention);
          state := state.(backoffUntil := now + config.maxBackoff);
        } else {
          state := state.(mode := Recovered);
        }
      } else {
        state := state.(failures := state.failures + 1);
        var backoff := config.Backoff(state.failures);
        state := state.(cooldownUntil := now + backoff);
        if state.failures >= 2 || |Within(state.attempts, config.window, now)| >= config.maxAttempts {
          state := state.(mode := Attention);
          state := state.(backoffUntil := now + backoff);
        } else {
          state := state.(mode := Active);
        }
      }
      SaveState(state);
    }
  }

  // ---------------------------------------------------------------------------------------------------
  // Which transitions reach the disk.

  lemma {:induction false} WithinIsSubset(s: seq<int>, span: int, now: int)
    ensures |Within(s, span, now)| <= |s|
    ensures forall t :: t in Within(s, span, now) ==> t in s && now - t < span
  {
    if s != [] {
      WithinIsSubset(s[1..], span, now);
    }
  }

  /** Health polls of an accepted state are always saved. */
  lemma PollIsSaved(c: Config, s: Safety, h: Health, now: int)
    requires Accepted(s)
    ensures Accepted(Observed(c, s, h, now))
  {
    WithinIsSubset(s.attempts, c.Retention(), now);
  }

  /** So are maintenance toggles and cancellations. */
  lemma ToggleAndCancelAreSaved(s: Safety, enabled: bool)
    requires Accepted(s)
    ensures Accepted(Toggled(s, enabled)) && Accepted(Cancelled(s))
  {
    assert forall t :: t in Cancelled(s).attempts ==> t in s.attempts;
  }

  /** An escalation is saved exactly when its deadline is representable. */
  lemma EscalationIsSavedIff(c: Config, s: Safety, now: int)
    requires Accepted(s)
    ensures Accepted(Escalated(c, s, now)) <==> IsStamp(now + c.maxBackoff)
  {
    WithinIsSubset(s.attempts, c.Retention(), now);
  }

  /** `begin_recovery` reports an attempt number without looking at what `save_state` did. The reservation is on
      disk exactly when the pruned list has room for one more stamp. */
  lemma ReservationIsSavedIff(c: Config, s: Safety, now: int)
    requires Accepted(s)
    ensures Accepted(Reserved(c, s, now))
            <==> IsStamp(now) && |Prune(c, s, now).attempts| < MAX_STAMPS
  {
    WithinIsSubset(s.attempts, c.Retention(), now);
    var r := Reserved(c, s, now);
    assert r.attempts[|r.attempts| - 1] == now;
  }

  /** A verified finish is saved exactly when its deadlines are representable. */
  lemma VerifiedFinishIsSavedIff(c: Config, s: Safety, now: int)
    requires Accepted(s)
    ensures Accepted(Finished(c, s, true, now))
            <==> && IsStamp(now + c.minCooldown)
                 && (|Within(s.attempts, c.window, now)| >= c.maxAttempts ==> IsStamp(now + c.maxBackoff))
  {
  }

  /** A failed finish is saved exactly when the failure counter is below its limit and the pause is
      representable: the thousand-and-first consecutive failure leaves the disk as it was. */
  lemma FailedFinishIsSavedIff(c: Config, s: Safety, now: int)
    requires Accepted(s)
    ensures Accepted(Finished(c, s, false, now))
            <==> s.failures < MAX_FAILURES && IsStamp(now + c.Backoff(s.failures + 1))
  {
  }

  /** The default configuration and a state at the failure limit: the failed run leaves no new cooldown. */
  lemma FailureAtTheLimitIsForgotten()
    ensures var c := Config(3600, 3, 600, 3600, 900);
            var file := Some(DEFAULT_STATE.(failures := 1000, mode := Recovering, attempts := [5000]));
            && AfterFinish(c, file, false, 5030) == file
            && Begins(file, 5030)
  {
    var c := Config(3600, 3, 600, 3600, 900);
    var s := DEFAULT_STATE.(failures := 1000, mode := Recovering, attempts := [5000]);
    assert Accepted(s);
    FailedFinishIsSavedIff(c, s, 5030);
  }

  /** A file that is missing or fails validation inhibits recovery, and nothing overwrites it. */
  lemma InvalidStateInhibits(c: Config, file: File, h: Health, enabled: bool, verified: bool, now: int)
    requires Load(file).None?
    ensures !Permits(c, file, h, now) && !Begins(file, now)
    ensures AfterHealth(c, file, h, now) == AfterToggle(file, enabled) == AfterPolicy(c, file, h, now) == file
    ensures AfterBegin(c, file, now) == AfterCancel(file) == AfterFinish(c, file, verified, now) == file
  {
  }

  /** Every operation turns an accepted file into an accepted file. */
  lemma AcceptedIsKept(c: Config, file: File, h: Health, enabled: bool, verified: bool, now: int)
    requires Load(file).Some?
    ensures Load(AfterHealth(c, file, h, now)).Some? && Load(AfterToggle(file, enabled)).Some?
    ensures Load(AfterPolicy(c, file, h, now)).Some? && Load(AfterBegin(c, file, now)).Some?
    ensures Load(AfterCancel(file)).Some? && Load(AfterFinish(c, file, verified, now)).Some?
  {
  }

  lemma {:induction false} DoubledIsNotNegative(x: int, n: int)
    requires x >= 0
    ensures Doubled(x, n) >= 0
    decreases n
  {
    if n > 0 {
      DoubledIsNotNegative(x, n - 1);
    }
  }

  lemma BackoffIsBounded(c: Config, failures: int)
    requires c.minCooldown >= 0 && c.maxBackoff >= 0
    ensures 0 <= c.Backoff(failures) <= c.maxBackoff
  {
    DoubledIsNotNegative(c.minCooldown, Min(30, Max(0, failures - 1)));
  }
}
