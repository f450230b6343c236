/** Independent service evidence (core/asterisk_observation.py): what counts as proof that Asterisk is stopped. */
module AsteriskObservation {
  import opened Prelude

  const MAX_AGE_SECONDS := 30

  datatype Status = Online | Offline | Unknown

  /** The pairs of systemd ActiveState and SubState that the code tells apart. */
  datatype Unit = ActiveRunning | InactiveDead | FailedFailed | OtherUnit

  /** What `systemctl show` answered. `pid` is None when MainPID is not a string of digits. */
  datatype ServiceProbe = ProbeFailed | Fields(loaded: bool, unit: Unit, pid: Option<nat>)

  datatype Service = Service(status: Status, observedAt: int, mainPid: Option<nat>,
                             loaded: bool, unit: Unit)

  datatype Evidence = Evidence(service: Service, queryAvailable: bool)

  function ServiceEvidence(probe: ServiceProbe, at: int): Service {
    match probe
    case ProbeFailed => Service(Unknown, at, None, false, OtherUnit)
    case Fields(loaded, unit, pid) =>
      if pid.None? then Service(Unknown, at, None, false, OtherUnit)
      else if !loaded then Service(Unknown, at, pid, false, unit)
      else if unit.ActiveRunning? && pid.value > 0 then Service(Online, at, pid, true, unit)
      else if pid.value == 0 && (unit.InactiveDead? || unit.FailedFailed?) then Service(Offline, at, pid, true, unit)
      else Service(Unknown, at, pid, true, unit)
  }

  predicate Fresh(observedAt: int, now: int) {
    0 <= now - observedAt <= MAX_AGE_SECONDS
  }

  predicate ConfirmedStopped(service: Service, now: int) {
    && Fresh(service.observedAt, now)
    && service.status.Offline?
    && service.mainPid == Some(0)
    && service.loaded
    && (service.unit.InactiveDead? || service.unit.FailedFailed?)
  }

  /** A stopped service whose command line still answers is a conflict, and a conflict is not an outage. */
  function Collect(probe: ServiceProbe, queryAvailable: bool, at: int): Evidence {
    var service := ServiceEvidence(probe, at);
    Evidence(if service.status.Offline? && queryAvailable then service.(status := Unknown) else service,
             queryAvailable)
  }

  /** Collected evidence confirms an outage exactly when systemd was asked recently, answered that the loaded
      unit has no process and is dead or failed, and the Asterisk command line did not answer. */
  lemma OutageConfirmedIff(probe: ServiceProbe, queryAvailable: bool, at: int, now: int)
    ensures ConfirmedStopped(Collect(probe, queryAvailable, at).service, now)
            <==> && at <= now <= at + MAX_AGE_SECONDS
                 && probe.Fields? && probe.loaded && probe.pid == Some(0)
                 && probe.unit in {InactiveDead, FailedFailed}
                 && !queryAvailable
  {
  }

  /** What a probe tells of the service: it runs with a process of its own, it is dead or failed without one, or nothing is
      known; the fields are handed on as they were read. */
  lemma ServiceTellsProbe(probe: ServiceProbe, at: int)
    ensures var s := ServiceEvidence(probe, at);
            && s.observedAt == at
            && (s.status == Online <==>
                  probe.Fields? && probe.loaded && probe.unit == ActiveRunning && probe.pid.Some? && probe.pid.value >= 1)
            && (s.status == Offline <==>
                  probe.Fields? && probe.loaded && probe.unit in {InactiveDead, FailedFailed} && probe.pid == Some(0))
            && (if probe.Fields? && probe.pid.Some?
                then s.loaded == probe.loaded && s.unit == probe.unit && s.mainPid == probe.pid
                else !s.loaded && s.unit == OtherUnit && s.mainPid == None)
  {
  }

  /** Evidence confirms a stop exactly if it is what a probe at most thirty seconds ago, and not in the future, gives of a
      stopped service: nothing else can be made to look like it. */
  lemma ConfirmedIsProbed(s: Service, now: int)
    ensures ConfirmedStopped(s, now) <==>
              && s.observedAt <= now <= s.observedAt + 30 && s.status == Offline
              && exists probe :: s == ServiceEvidence(probe, s.observedAt)
  {
    if ConfirmedStopped(s, now) {
      assert s == ServiceEvidence(Fields(true, s.unit, Some(0)), s.observedAt);
    }
  }
}
