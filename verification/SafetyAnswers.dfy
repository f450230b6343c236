/** What each operation of the safety state answers and leaves behind, read off the fields (core/automation.py). The
    theorems about runs say what never happens; these laws say what does. */
module SafetyAnswers {
  import opened Prelude
  import opened SlidingWindow
  import opened AsteriskObservation
  import opened Automation

  /** Exactly what passes validation. */
  lemma AcceptedIff(file: File)
    ensures Load(file).Some? <==>
              && file.Some?
              && (file.value.mode == Maintenance ==> file.value.maintenance)
              && 0 <= file.value.cooldownUntil <= 253402214400 && 0 <= file.value.backoffUntil <= 253402214400
              && 0 <= file.value.failures <= 1000 && |file.value.attempts| <= 4096
              && forall t :: t in file.value.attempts ==> 0 <= t <= 253402214400
    ensures Load(file).Some? ==> Load(file) == file
  {
  }

  /** `systemctl` was asked at most thirty seconds ago and says that the loaded unit is dead or failed, without a
      process; the command line does not answer, and the health check says offline. */
  predicate ProvenDown(h: Health, now: int) {
    && h.asterisk == Offline && h.evidence.Some? && !h.evidence.value.queryAvailable
    && var s := h.evidence.value.service;
       && s.observedAt <= now <= s.observedAt + 30
       && s.status == Offline && s.mainPid == Some(0) && s.loaded && s.unit in {InactiveDead, FailedFailed}
  }

  /** Nothing holds recovery back. */
  predicate Unpaused(s: Safety, now: int) {
    !s.maintenance && s.backoffUntil <= now && s.cooldownUntil <= now
  }

  /** The stamps of the attempt window. */
  function Recent(c: Config, s: Safety, now: int): nat {
    |Within(s.attempts, c.window, now)|
  }

  lemma RecentSurvivePruning(c: Config, s: Safety, now: int)
    ensures Within(Prune(c, s, now).attempts, c.window, now) == Within(s.attempts, c.window, now)
  {
    WithinWithin(s.attempts, c.Retention(), c.window, now);
  }

  /** Exactly when a recovery is permitted, and when the attempt limit is met instead. */
  lemma PermittedIff(c: Config, file: File, h: Health, now: int)
    ensures Permits(c, file, h, now) <==>
              && Load(file).Some? && ProvenDown(h, now) && Unpaused(file.value, now)
              && Recent(c, file.value, now) < c.maxAttempts
  {
    if Load(file).Some? {
      RecentSurvivePruning(c, file.value, now);
    }
    hide Accepted, Within;
  }

  /** `recovery_allowed` changes the file exactly when only the attempt limit forbids the recovery: a pause of the longest
      backoff begins, and the mode asks for attention. */
  lemma EscalatedMeans(c: Config, s: Safety, h: Health, now: int)
    requires Accepted(s) && 0 <= now + c.maxBackoff <= 253402214400
    ensures var after := AfterPolicy(c, Some(s), h, now);
            if ProvenDown(h, now) && Unpaused(s, now) && Recent(c, s, now) >= c.maxAttempts then
              after == Some(s.(attempts := Within(s.attempts, Max(86400, c.window), now),
                               backoffUntil := now + c.maxBackoff, mode := Attention))
            else after == Some(s)
  {
    RecentSurvivePruning(c, s, now);
    EscalationIsSavedIff(c, s, now);
    hide Accepted, Within;
  }

  /** A health poll. Health that has lasted forgives everything; without it only old stamps go. */
  lemma PolledMeans(c: Config, s: Safety, h: Health, now: int)
    requires Accepted(s)
    ensures var well := h.asterisk == Online && h.queryNormal && h.nodeNormal;
            var since := if s.healthySince.Some? then s.healthySince.value else now;
            var lasting := well && now - since >= c.healthyReset;
            var kept := Within(s.attempts, Max(86400, c.window), now);
            var noted := kept != [] || s.failures != 0 || s.cooldownUntil != 0 || s.backoffUntil != 0;
            var file := AfterHealth(c, Some(s), h, now);
            && file.Some? && file.value.maintenance == s.maintenance
            && file.value.healthySince == (if well then Some(since) else None)
            && file.value.attempts == (if lasting then [] else kept)
            && file.value.failures == (if lasting then 0 else s.failures)
            && file.value.cooldownUntil == (if lasting then 0 else s.cooldownUntil)
            && file.value.backoffUntil == (if lasting then 0 else s.backoffUntil)
            && file.value.mode == (if s.maintenance then Maintenance
                                   else if lasting && (noted || s.mode == Recovered) then Active
                                   else s.mode)
            && (Resets(c, s, h, now) <==> lasting && noted)
  {
    PollIsSaved(c, s, h, now);
    hide Accepted, Within;
  }

  /** A toggle that changes nothing leaves the mode, and no toggle touches stamps, failures or pauses. */
  lemma ToggledMeans(s: Safety, enabled: bool)
    requires Accepted(s)
    ensures var file := AfterToggle(Some(s), enabled);
            && file == Some(s.(maintenance := enabled, mode := file.value.mode))
            && file.value.mode == if s.maintenance == enabled then s.mode else if enabled then Maintenance else Active
  {
    ToggleAndCancelAreSaved(s, enabled);
    hide Accepted;
  }

  /** A reservation is granted unless maintenance or a pause stands, and adds its stamp to the young ones. */
  lemma BegunMeans(c: Config, s: Safety, now: int)
    requires Accepted(s)
    ensures var kept := Within(s.attempts, Max(86400, c.window), now);
            && (Begins(Some(s), now) <==> Unpaused(s, now))
            && AfterBegin(c, Some(s), now) ==
               if Unpaused(s, now) && |kept| < 4096 && 0 <= now <= 253402214400 then
                 Some(s.(attempts := kept + [now], mode := Recovering, healthySince := None))
               else Some(s)
  {
    ReservationIsSavedIff(c, s, now);
    hide Accepted, Within;
  }

  /** A cancellation takes back the last stamp and rests. */
  lemma CancelledMeans(s: Safety)
    requires Accepted(s)
    ensures var file := AfterCancel(Some(s));
            && file.Some? && file.value == s.(attempts := file.value.attempts, mode := file.value.mode)
            && (if s.attempts == [] then file.value.attempts == []
                else s.attempts == file.value.attempts + [s.attempts[|s.attempts| - 1]])
            && file.value.mode == if s.maintenance then Maintenance else Active
  {
    ToggleAndCancelAreSaved(s, false);
    hide Accepted;
  }

  /** A verified run clears the failures, begins the shortest cooldown and counts as seen healthy; with the window full
      it also begins the longest backoff. */
  lemma VerifiedFinishMeans(c: Config, s: Safety, now: int)
    requires Accepted(s) && 0 <= now + c.minCooldown <= 253402214400 && 0 <= now + c.maxBackoff <= 253402214400
    ensures var full := Recent(c, s, now) >= c.maxAttempts;
            AfterFinish(c, Some(s), true, now) ==
            Some(s.(failures := 0, cooldownUntil := now + c.minCooldown, healthySince := Some(now),
                    backoffUntil := if full then now + c.maxBackoff else s.backoffUntil,
                    mode := if full then Attention else Recovered))
  {
    VerifiedFinishIsSavedIff(c, s, now);
    hide Accepted, Within;
  }

  /** A failed run counts and begins the pause of its number; from the second on, or with the window full, that is also a
      backoff. */
  lemma FailedFinishMeans(c: Config, s: Safety, now: int)
    requires Accepted(s) && s.failures < 1000 && 0 <= now + c.Backoff(s.failures + 1) <= 253402214400
    ensures var pause := now + c.Backoff(s.failures + 1);
            var escalates := s.failures >= 1 || Recent(c, s, now) >= c.maxAttempts;
            AfterFinish(c, Some(s), false, now) ==
            Some(s.(failures := s.failures + 1, cooldownUntil := pause,
                    backoffUntil := if escalates then pause else s.backoffUntil,
                    mode := if escalates then Attention else Active))
  {
    FailedFinishIsSavedIff(c, s, now);
    hide Accepted, Within, Doubled;
  }

  /** The pause begins at the shortest cooldown, doubles up to thirty times, and never exceeds the longest backoff. */
  lemma BackoffDoubles(c: Config, k: nat)
    requires c.maxBackoff >= 0 && k >= 1
    ensures c.Backoff(1) == Min(c.minCooldown, c.maxBackoff)
    ensures k <= 30 && c.minCooldown >= 0 ==> c.Backoff(k + 1) == Min(2 * c.Backoff(k), c.maxBackoff)
    ensures k >= 31 ==> c.Backoff(k) == c.Backoff(31)
  {
    if c.minCooldown >= 0 {
      DoubledIsNotNegative(c.minCooldown, Min(30, Max(0, k - 1)));
    }
  }
}
