# BlueNode verification

A Dafny model of the persisted state machines and bounded logs of BlueNode, the monitor and recovery service of an
AllStar node, with proofs about every run of them. `dafny verify dfyconfig.toml` checks the whole project.

| module | what it models | source |
|---|---|---|
| `Automation`, `Recovery`, `RecoveryRuns`, `RecoveryPauses`, `RecoveryCapacity`, `RecoveryReservations`, `RecoveryFailures`, `RecoveryEvidence`, `RecoveryModes`, `SafetyAnswers` | automatic recovery: the safety state, one recovery run, every interleaving of polls, toggles, the coordinator and its worker, what such a run has seen, and where its limits end | `core/automation.py`, `core/recovery.py`, `core/monitor.py`, `core/asterisk_observation.py` |
| `Intelligence`, `IncidentEngine`, `IncidentHistory` | outages as intervals of the event log, the second engine, and closures that survive rebuilds | `core/intelligence.py`, `core/incident.py` |
| `RuntimeIo` | bounded logs with rotation | `core/runtime_io.py` |
| `Connectivity`, `RadioActivity`, `AllstarStatus` | observers that keep a small record of their history | `core/connectivity.py`, `core/radio_activity.py`, `core/allstar_status.py`, `core/rpt_link_status.py`, `core/connection_state.py` |
| `NodeControls` | observe, command, verify | `core/node_controls.py` |
| `LoginGate`, `LineEditor` | login limiter and sessions, hidden line input | `core/remote_admin.py` |
| `SoftRadio`, `Tickets` | WebSocket frames (RFC 6455, sections 5.2 and 5.3), listener queue, one-time tickets | `core/soft_radio.py` |
| `Favorites` | the revision-checked list | `core/favorites.py` |
| `SlidingWindow`, `Prelude`, `Bytes` | shared vocabulary | |

How the modules are built: what the code updates in place is a class whose methods follow its branches and loops, each
proved equal to a specification function of the old state; the theorems are about all runs of those functions. Time is
a whole number of seconds, in `NodeControls` a whole number of ticks with any number of ticks to the second. Probes,
subprocesses, the disk and the clock are parameters or events, so a theorem about all runs is one about all their
answers. Files are published atomically.

Where the code does not do what it seems meant to do, the model follows the code, a lemma gives the input, and the
property is proved under the exact condition, in both directions:

* `begin_recovery` reports a reservation without asking whether `save_state` refused it. Every granted reservation is
  saved, and every cancellation pops its own stamp, if and only if no attempt is permitted at all or the starts that fit
  the retention find room in the 4096 stamps, as the 72 of the defaults do. With three attempts in half a minute a cancellation pops the stamp of
  another run (`ReservationsAreSavedIff`, `CancelsPopTheirOwnIff`, `ThreeInHalfAMinute`).
* For the same reason the starts are bounded in all runs if and only if that room suffices or the five seconds that every
  run sleeps leave a window no time for more (`StartsAreBoundedIff`, `TooManyStarts`).
* The failed finish at 1000 consecutive failures is refused, so from the next failure on there is no pause. Every start
  waits out the pause before it if and only if no pause outlasts the five-second sleep or no recovery is permitted at all
  (`FailedFinishIsSavedIff`, `LaterPausesAreForgotten`, `EveryPauseIsWaitedOutIff`).
* A closure of the Internet can also close a later outage of it that the log did not hold before, without a health check
  of its own (`ReplayedIntoLater`, `NewClosureIsSeen`).
* The verification of a node command tests its deadline before the pause and not after it, so an observation can begin
  up to a second after the deadline (`OverrunIff`, `OverrunsByHalfASecond`, `PacedIsBounded`).
* With no archives `append_bounded` exceeds its maximum (`NoArchivesNoBound`, `AppendIsBoundedIff`).
* `events.index` gives equal OFFLINE records one incident, which is wrong unless they end alike
  (`EqualRecordsShareAnIncident`, `IncidentsArePlainIff`).
* The two incident engines differ on a HEALTH.ASTERISK.NORMAL that no ONLINE of the same second follows
  (`EnginesDifferOnNormal`, `EnginesAgreeIff`).
* The legacy internet field holds "offline" only on the first healthy observation of a recovery
  (`LegacyDropsAtThree`, `LegacyHoldsOfflineIff`).
* The layer of a registration failure is "blocked" when the service probe was not made (`FailureIsInItsLayer`).
* `login` reads its clock outside the lock. With clocks up to d seconds behind, the limit holds for intervals of up to
  `window - d` seconds and for no longer ones (`StaleClockEscapesBound`, `LimitHoldsIff`).
* A node linked to itself can be active since later than its origin (`SelfLinkDefeatsOrder`, `StartPrecedesOriginIff`).
* After a clock step to before a saved session the saved links are refused and announced again
  (`ClockStepReannounces`, `SessionsAreConservedIff`).

Where the attempt limit fails the pauses still hold: in every configuration a start waits out the pause after up to 1000
failures, and no run is locked out of recovery for good, even when the longest backoff does not exceed the attempt window
(`StartWaitsForBackoff`, `NeverLockedOut`, `PausesRunOut`). Nor does an episode of maintenance leave anything behind
(`MaintenanceLeavesNothing`).

## Model

| member | source | states |
|---|---|---|
| AsteriskObservation.OutageConfirmedIff | core/asterisk_observation.py:28-121 | a stop is confirmed exactly by a recent answer of a loaded, dead unit without a process, and only when the command line does not answer |
| AsteriskObservation.ServiceTellsProbe | core/asterisk_observation.py:28-51 | the service is online, offline or unknown exactly as systemd answered, and the fields are handed on as they were read |
| AsteriskObservation.ConfirmedIsProbed | core/asterisk_observation.py:54-66 | evidence confirms a stop exactly if it is what a probe at most thirty seconds ago gives of a stopped service |
| SlidingWindow.SpacedBoundsEveryWindow | core/automation.py:198-200 | stamps whose m-th successors are a window apart put at most m into any window, wherever it begins |
| SlidingWindow.SpacedBoundsLength | core/automation.py:191-195 | pigeonhole: a list of young stamps, spaced over windows and by a gap between neighbours, is no longer than the room of the span |
| SlidingWindow.RoomCountsWindows | core/automation.py:191-200 | that room is m for each window that fits the span, and for the rest of it m or as many as the gap leaves time for |
| SlidingWindow.PrunedLength | core/automation.py:191-195 | a pruned list with room for one more stamp leaves one of its own places free |
| SlidingWindow.FewRecentMeansNextFits | core/automation.py:198-200 | counting only the retained recent stamps decides correctly whether one more fits the whole history |
| Automation.SafetyStore.SaveState | core/automation.py:169-188 | a state the validator refuses never reaches the disk |
| Automation.SafetyStore.ObserveHealth | core/automation.py:234-280 | the poll loads, decides and saves as specified, field by field |
| Automation.SafetyStore.SetMaintenance | core/automation.py:283-299 | the toggle, likewise |
| Automation.SafetyStore.RecoveryAllowed | core/automation.py:302-333 | permission, refusal or escalation, and what each leaves on disk |
| Automation.SafetyStore.BeginRecovery | core/automation.py:336-353 | the reservation, and the attempt number it reports even when the save is refused |
| Automation.SafetyStore.CancelRecovery | core/automation.py:356-368 | the last stamp is taken back |
| Automation.SafetyStore.FinishRecovery | core/automation.py:371-415 | cooldown, doubled backoff and escalation after a run |
| Automation.PollIsSaved | core/automation.py:234-280 | a poll of an accepted state saves an accepted state |
| Automation.ToggleAndCancelAreSaved | core/automation.py:283-368 | so do a toggle and a cancellation |
| Automation.EscalationIsSavedIff | core/automation.py:318-330 | an escalation is accepted exactly when its deadline is representable |
| Automation.ReservationIsSavedIff | core/automation.py:336-353 | a reservation is accepted exactly when the pruned list has a free place and the time is representable |
| Automation.VerifiedFinishIsSavedIff | core/automation.py:371-400 | the same for a verified finish |
| Automation.FailedFinishIsSavedIff | core/automation.py:401-415 | a failed finish is accepted exactly below 1000 failures with a representable pause |
| Automation.FailureAtTheLimitIsForgotten | core/automation.py:99-146 | at 1000 failures a failed finish changes nothing and the next start is allowed at once |
| Automation.InvalidStateInhibits | core/automation.py:99-146 | a file that fails validation permits no recovery and is never overwritten |
| Automation.AcceptedIsKept | core/automation.py:169-415 | every operation turns an accepted file into an accepted file |
| Automation.BackoffIsBounded | core/automation.py:401-415 | a pause is never negative and never above the longest backoff |
| SafetyAnswers.AcceptedIff | core/automation.py:99-146 | exactly which files pass validation, on their fields |
| SafetyAnswers.PermittedIff | core/automation.py:302-333 | a recovery is permitted exactly on evidence of a stop at most thirty seconds old, an unanswering command line and an offline check, without maintenance or a pause, and with fewer attempts in the window than permitted |
| SafetyAnswers.EscalatedMeans | core/automation.py:318-330 | the file changes exactly when only the attempt limit forbids the recovery: the longest backoff begins |
| SafetyAnswers.PolledMeans | core/automation.py:234-280 | every field after a poll: health that has lasted the reset time forgives attempts, failures and pauses and rests the mode, and nothing else does |
| SafetyAnswers.ToggledMeans | core/automation.py:283-299 | a toggle changes the flag and, if that changed, the mode, and no stamp, failure or pause |
| SafetyAnswers.BegunMeans | core/automation.py:336-353 | when a reservation is granted, when it is saved, and every field after it |
| SafetyAnswers.CancelledMeans | core/automation.py:356-368 | exactly the last stamp goes |
| SafetyAnswers.VerifiedFinishMeans | core/automation.py:371-400 | every field after a verified run |
| SafetyAnswers.FailedFinishMeans | core/automation.py:401-415 | every field after a failed run: from the second failure on, or with the window full, its pause is a backoff |
| SafetyAnswers.BackoffDoubles | core/automation.py:401-415 | the pause is the shortest cooldown at first, doubles with each failure up to the thirty-first, and is capped by the longest backoff |
| Recovery.RecoverAsterisk | core/recovery.py:134-189 | for every combination of answers the effects are a complete legal run in which every check, probe, reservation, command and verification carries its own answer; it records a success exactly if the command was reached and succeeded and the verification passed, a failure exactly if it was reached and one of them failed, and a cancellation exactly if a held reservation met a last probe that did not confirm |
| Recovery.RunIsDetermined | core/recovery.py:134-189 | the answers determine the run: there is one complete, legal and truthful sequence of effects |
| Recovery.ReserveAttempt | core/recovery.py:134-155 | the run up to its reservation, held exactly when all guards pass |
| Recovery.VerifyRecovery | core/recovery.py:80-125 | True exactly when max(1, stable checks) consecutive healthy passes fit the deadline |
| Recovery.HealthyPassIff | core/recovery.py:88-120 | exactly what a pass must have seen, and how fresh |
| Recovery.StartCommandIsGuarded | core/recovery.py:134-189 | at most one start command, after exactly three confirming probes, the last one after the reservation |
| Recovery.ReservationIsClosedOnce | core/recovery.py:153-189 | a completed run closes a granted reservation exactly once and none otherwise |
| Recovery.SuccessIsVerified | core/recovery.py:167-189 | a success is recorded only after a successful command and a passed verification |
| RecoveryRuns.StepKeeps | core/monitor.py:31-61 | where the starts fit the stamps, every step of the whole system keeps what the stored stamps say about all starts |
| RecoveryRuns.PermissionMeansNextFits | core/automation.py:302-333 | a granted permission leaves room in every window, although only stored stamps are counted |
| RecoveryRuns.ReservationFits | core/automation.py:336-353 | where the starts fit the stamps, the permitted reservation under the lock is accepted by the validator |
| RecoveryReservations.ReservationsAreSavedIff | core/automation.py:120-353 | every reservation granted in any run is on disk, if and only if no attempt is permitted at all or the starts that fit the retention find room in the 4096 stamps |
| RecoveryPauses.EscalationIsEarly | core/automation.py:318-330 | escalations happen within a window of the last start |
| RecoveryRuns.OneWorkerAtATime | core/monitor.py:31-61 | in any run of any configuration at most one recovery worker exists, and the lock is held exactly while it does |
| RecoveryRuns.WorkerBeginsIff | core/monitor.py:31-61 | a recovery run begins exactly when the coordinator claims a free lock right after its own permission |
| RecoveryRuns.StartsArePaced | core/recovery.py:134-155 | in any run of any configuration the starts that count are at least five seconds apart |
| RecoveryRuns.StartsAreBounded | core/automation.py:191-353 | over every interleaving, any window and even one five seconds longer holds at most the permitted number of non-cancelled starts since the last healthy reset, when the starts that fit the retention find room in the validator |
| RecoveryCapacity.StartsAreBoundedIff | core/automation.py:120-353 | in all runs any window holds at most the permitted starts, if and only if the five-second sleeps leave a window no time for more or the starts that fit the retention find room in the 4096 stamps |
| RecoveryCapacity.TooManyStarts | core/automation.py:120-353 | otherwise, and for every gap of five seconds or more that leaves a window time for one start too many, a run from the initial state with its starts that gap apart puts more of them into one window than permitted |
| RecoveryCapacity.Fill | core/automation.py:302-353 | any number of stamps that the schedule of starts places within the retention is reached by a run whose workers die after their reservation |
| RecoveryCapacity.ReservationIsDue | core/recovery.py:134-155 | a permitted outage leads to a reservation: wherever it is permitted at some time and five seconds before, a run gets to its reservation then |
| RecoveryCapacity.RoomIsSchedule | core/automation.py:191-200 | the room of a span is exactly the number of starts that the densest permitted schedule begins within it |
| RecoveryCapacity.UncountedStartWithoutCapacity | core/automation.py:336-353 | for such a configuration and gap a full list is reached, and then a start that is granted and reported while the stamps on disk do not change |
| RecoveryPauses.StartWaitsForBackoff | core/automation.py:336-415 | in every configuration and run the start after the k-th consecutive failure, k up to 1000, waits min(longest backoff, cooldown doubled k-1 times) |
| RecoveryFailures.LaterPausesAreForgotten | core/automation.py:401-415 | and for every k above 1000 there is a run that starts again five seconds after the k-th failure, before that pause is over |
| RecoveryFailures.EveryPauseIsWaitedOutIff | core/automation.py:336-415 | so every start of every run waits out the pause before it, after any number of failures, if and only if no pause can outlast the five-second sleep or no attempt is permitted at all |
| RecoveryPauses.StepKeepsPauses | core/automation.py:234-415 | in every configuration every step keeps the counter in step with the failures, the deadlines within the longest pause, and the stored stamps in order |
| RecoveryPauses.NeverLockedOut | core/automation.py:302-333 | in every configuration and run, once the pauses have passed since the last finish and start, a confirmed outage outside maintenance is permitted exactly if the configuration permits any attempt |
| RecoveryEvidence.PausesRunOut | core/automation.py:302-353 | the same measured from the last start, finish and escalation: when the longest pause covers the window, once it has passed since all three |
| RecoveryEvidence.BackoffIsExplained | core/automation.py:318-411 | over every run of every configuration each backoff comes from a finished run or an escalation, and outlasts it by at most the longest pause |
| RecoveryEvidence.EscalationTakesHold | core/automation.py:318-330 | whoever meets the attempt limit, the longest backoff begins there and then |
| RecoveryEvidence.ResetNeedsSustainedHealth | core/automation.py:250-280 | over every run attempts and failures are forgotten only when everything seen for at least the healthy-reset time was healthy, and by no other step |
| RecoveryEvidence.SustainedHealthIsForgiven | core/automation.py:250-280 | the converse over every run: when every poll since some time saw Asterisk, its query and its node well and no worker acted in between, the poll that comes the healthy-reset time later leaves no attempt, failure or pause |
| RecoveryEvidence.StampsAreBounded | core/automation.py:120-200 | in every reachable state of every configuration the stored list is sorted and no longer than the validator allows and the room of the retention |
| RecoveryModes.RunAlike | core/automation.py:283-415 | states that differ only in their mode stay so in every run, with the same starts, workers and lock: the mode decides nothing |
| RecoveryModes.MaintenanceLeavesNothing | core/automation.py:283-299 | after maintenance is switched on and off again every later run is the same, but for the mode, as without it |
| RecoveryRuns.FileStaysAccepted | core/automation.py:99-188 | over every run without outside damage the file passes validation |
| RecoveryRuns.DamageIsFinal | core/automation.py:87-97 | once damaged, the file stays refused and no run starts again |
| RecoveryRuns.CancelPopsItsOwnStamp | core/automation.py:356-368 | where the starts fit the stamps, the stamp that a cancellation pops is in every reachable state the one that worker reserved |
| RecoveryReservations.CancelsPopTheirOwnIff | core/automation.py:356-368 | every cancellation of every run pops the stamp of its own run or nothing, if and only if no attempt is permitted at all or the starts that fit the retention find room in the 4096 stamps |
| RecoveryReservations.PopsAnother | core/automation.py:336-368 | in every other configuration a run from the initial state leads to a cancellation that pops an earlier run's stamp |
| RecoveryReservations.ThreeInHalfAMinute | core/automation.py:336-368 | three attempts in half a minute are such a configuration; the defaults are not, with 72 stamps |
| Intelligence.SortIsStable | core/intelligence.py:668-674 | the sort is a permutation in time order that keeps equal times in order |
| Intelligence.DedupeEvents | core/intelligence.py:678-692 | the loop drops an OFFLINE exactly during an open outage of its component |
| Intelligence.ScanOutage | core/intelligence.py:702-884 | the inner loop, located by `events.index`, with its time test and break |
| Intelligence.BuildIncidentRecords | core/intelligence.py:636-1002 | the Asterisk and Internet records of a log |
| Intelligence.IncidentsArePlainIff | core/intelligence.py:702-1002 | the quadratic scan equals a single reading in which each outage ends at its next closing event, exactly on the logs in which equal outages end alike: the later one in its own second, the same way and with the same notes |
| Intelligence.IncidentsArePlain | core/intelligence.py:702-1002 | in particular when no OFFLINE record repeats, whatever else does |
| Intelligence.LaterOutageBreakIsDead | core/intelligence.py:702-1002 | on every log the "later outage" breaks and the time test never decide anything after de-duplication |
| Intelligence.ScanIsEpisode | core/intelligence.py:702-884 | what a scan reports can be read off the events up to the first closing one: whether there was an attempt, and the last outcome |
| Intelligence.IncidentsAreIntervals | core/intelligence.py:636-1002 | on every log, equal records or not, incidents of a component are ordered, do not overlap, all but the last are resolved, and durations are end minus start and not negative |
| Intelligence.EqualRecordsShareAnIncident | core/intelligence.py:702-720 | equal records that do not end alike: the second outage takes the end of the first |
| IncidentEngine.BuildAsteriskIncidents | core/incident.py:42-172 | the one-pass loop |
| IncidentEngine.PassIsEpisode | core/incident.py:42-172 | the pass reports an outage as read off the events up to its ONLINE |
| IncidentEngine.EnginesAgreeIff | core/incident.py:42-172 | on every log in time order both engines give the same starts, ends, durations, attempts and outcomes exactly if, in each outage, no OFFLINE follows a NORMAL before the ONLINE, both see it end in the same second or not at all, and both note the same |
| IncidentEngine.EnginesAgreeOwnIff | core/incident.py:42-172 | where equal outages end alike, each outage is judged by its own events |
| IncidentEngine.EnginesAgree | core/health.py:560-646 | the engines agree on the logs the health loop writes, where a NORMAL that ends an outage precedes the ONLINE of the same second |
| IncidentEngine.EnginesDifferOnNormal | core/incident.py:42-172 | a NORMAL that no ONLINE follows closes the outage for one engine only |
| IncidentHistory.InsertTransition | core/intelligence.py:1195-1240 | the closure goes before the first event that is not earlier |
| IncidentHistory.RestoreInferredResolutions | core/intelligence.py:1195-1240 | exactly the prior closures whose outage is still logged are replayed |
| IncidentHistory.ReconcileIncidents | core/intelligence.py:1655-1705 | prior closures, then closures by a fresh healthy observation |
| IncidentHistory.ObservationClosesIff | core/intelligence.py:1681-1705 | a record that no event and no prior closure has resolved is closed by a health check exactly if that saw the record's own component online, no earlier than it began, and it ends at the check |
| IncidentHistory.OthersAreSettled | core/intelligence.py:1655-1679 | a record with a prior closure ends as that says, and any other resolved record is left alone |
| IncidentHistory.KeptIff | core/intelligence.py:678-692 | de-duplication keeps an OFFLINE exactly if its component was not already offline |
| IncidentHistory.OpenInsert | core/intelligence.py:1195-1240 | an inserted NORMAL ends the outage exactly when no later OFFLINE of its component follows it |
| IncidentHistory.OpenRestored | core/intelligence.py:1195-1240 | the same for the replay of all prior closures |
| IncidentHistory.OwnIncidentIff | core/intelligence.py:678-1240 | exactly which outages have an incident of their own |
| IncidentHistory.KeptStaysKept | core/intelligence.py:678-1240 | a longer log and more closures never make de-duplication drop an OFFLINE, recorded once, that it kept |
| IncidentHistory.KeyStaysKept | core/intelligence.py:678-1240 | and on every log in time order, whatever repeats, an outage that has a record of its component and start keeps having one |
| IncidentHistory.PriorClosureSurvives | core/intelligence.py:1655-1679 | a prior closure of a kept outage comes out of the build unchanged |
| IncidentHistory.NewClosureIsAnchored | core/intelligence.py:1655-1705 | every closure a build publishes belongs to a logged outage with its own record, and does not precede it |
| IncidentHistory.BuildClosesIff | core/intelligence.py:1655-1705 | a build closes an outage that its log leaves open, and publishes the closure, exactly if the health check sees its component online since |
| IncidentHistory.NewClosureIsSeen | core/intelligence.py:1195-1705 | a closure that no build before had ends at the health check, which saw its component online, if the log leaves the outage open; otherwise it is one of the Internet and ends with a prior closure that is replayed into it |
| IncidentHistory.ReplayedIntoLater | core/intelligence.py:1195-1240 | a log on which the second happens |
| IncidentHistory.EarlierIsNotInferred | core/intelligence.py:636-1002 | of two kept outages of a component in one second the earlier one ends by itself, not by a health observation |
| IncidentHistory.SameKeySameEnd | core/intelligence.py:1655-1705 | so the inferred records of one component and start end alike |
| IncidentHistory.BuildLinks | core/intelligence.py:1804-1902 | one more build over a log that has grown keeps all closures, anchors each of them in a logged outage and gives none two ends |
| IncidentHistory.ClosuresPersist | core/intelligence.py:1804-1902 | over any sequence of builds on a growing log in time order the set of closures only grows and each keeps its end, however many outages begin in one second |
| IncidentHistory.LaterOutageHasOwnIncident | core/intelligence.py:1195-1240 | the first OFFLINE of a component at or after a closure of it has a record of its own start |
| RuntimeIo.LogDirectory.Rotate | core/runtime_io.py:54-78 | the renames shift every archive by one and drop the oldest |
| RuntimeIo.LogDirectory.AppendBounded | core/runtime_io.py:54-78 | the append, with its refusal of oversized records and the cut of an oversized log |
| RuntimeIo.LogDirectory.ReadTail | core/runtime_io.py:18-34 | the tail of all files, oldest first |
| RuntimeIo.RotationConserves | core/runtime_io.py:54-78 | rotation loses nothing but the oldest archive, and that exactly when another file takes its place |
| RuntimeIo.StrippedIs | core/runtime_io.py:54-78 | a record is the line without the newlines at its end, and one newline |
| RuntimeIo.TailIs | core/runtime_io.py:18-34 | the tail of an oversized file begins behind the first newline of its last bytes, or is those bytes if they hold none |
| RuntimeIo.BoundedIsTail | core/runtime_io.py:54-78 | an oversized log of whole lines is cut down to its tail, byte for byte |
| RuntimeIo.AppendIsBoundedIff | core/runtime_io.py:54-78 | with an archive the log and the rotated file are within the maximum whatever they were; without one exactly when the record still fits |
| RuntimeIo.AppendRefines | core/runtime_io.py:54-78 | on the bytes of whole records, rotation is a step on groups of records |
| RuntimeIo.RotationRefinesStream | core/runtime_io.py:54-78 | after any run the files hold a suffix of the records, cut at a record boundary, every file is within the maximum, and anything dropped leaves more than the maximum behind |
| RuntimeIo.TailReadsRetained | core/runtime_io.py:18-34 | reading all files returns exactly the retained records in order |
| RuntimeIo.NoArchivesNoBound | core/runtime_io.py:54-78 | without archives one append exceeds the maximum |
| Connectivity.DiagnosticLayers | core/connectivity.py:234-329 | filling the chain step by step gives each layer its own status |
| Connectivity.FailureIsInItsLayer | core/connectivity.py:146-329 | for all gated probes the layer of the failure domain fails, with the one registration exception |
| Connectivity.NetworkDomainIff | core/connectivity.py:146-183 | exactly when each failure up to the AllStar service is reported, on the probes: the first that fails, with the Internet before DNS |
| Connectivity.NodeDomainIff | core/connectivity.py:146-193 | the same for Asterisk, registration, IAX and links, behind a network in which no probe fails |
| Connectivity.NoFailureIff | core/connectivity.py:173-201 | healthy exactly when nothing fails and every probe answers, unavailable exactly when nothing fails and one does not |
| Connectivity.LayersTellProbes | core/connectivity.py:234-329 | a layer is blocked exactly when a probe that it needs does not answer yes, and otherwise is its own probe's answer |
| Connectivity.LinksTellRows | core/connectivity.py:116-329 | the links fail exactly when some readable row over a running IAX layer is still connecting |
| Connectivity.HealthyIffLayersWork | core/connectivity.py:146-329 | the domain is healthy exactly when no layer that counts fails or is blocked |
| Connectivity.Observer.Update | core/connectivity.py:349-417 | one observation: counters, diagnosis and the event |
| Connectivity.StateIsFunctionOfHistory | core/connectivity.py:349-417 | after any history the counters are trailing runs, and sustained, diagnosis, status and the domain recovered from hold exactly when the history says so |
| Connectivity.EventsAreDiagnosisChanges | core/connectivity.py:349-417 | the events are exactly the changes of the diagnosis of the history |
| Connectivity.LegacyHoldsOfflineIff | core/connectivity.py:440-452 | while recovering the legacy field is "offline" exactly on the first healthy observation after a network failure |
| Connectivity.LegacyFieldIff | core/connectivity.py:440-452 | exactly when the field is offline, unknown or online, over every history |
| Connectivity.LegacyHoldsUpToTwo | core/connectivity.py:440-452 | so thresholds up to two hold it for the whole recovery |
| Connectivity.LegacyDropsAtThree | core/connectivity.py:440-452 | and a threshold of three does not |
| RadioActivity.Tracker.Update | core/radio_activity.py:207-254 | one sample: the saved record and the transition events |
| RadioActivity.KeyedReads | core/radio_activity.py:71-73 | a link counts as keyed audio exactly when it is keyed and established in either mode |
| RadioActivity.StatusIff | core/radio_activity.py:60-85 | exactly which sample has which status and nodes |
| RadioActivity.OriginIff | core/radio_activity.py:86-125 | the origin is ambiguous exactly with two or more sources, which it names; a single source is named alone |
| RadioActivity.LogIsBracketed | core/radio_activity.py:192-254 | over every run each START is closed once, by the same identity, before the next START |
| RadioActivity.ClosingEventIff | core/radio_activity.py:207-254 | END exactly across a trusted gap towards an available sample, INTERRUPTED exactly otherwise |
| RadioActivity.StartEventIff | core/radio_activity.py:207-254 | START exactly for an audible activity that was not on the air before |
| RadioActivity.LastActiveIff | core/radio_activity.py:207-254 | `last_active_at` is the time of the last active sample, and is forgotten exactly if the clock has been before it since |
| RadioActivity.StartIsSuffixStart | core/radio_activity.py:207-254 | `started_at` is the time of the first sample of the maximal same-identity suffix without a larger gap |
| RadioActivity.OriginStartIsSuffixStart | core/radio_activity.py:207-254 | `tx_origin.started_at` is the time of the first sample of the maximal same-origin suffix without a larger gap |
| RadioActivity.OriginDecidesIdentityIff | core/radio_activity.py:60-189 | two samples have one active origin but different identities exactly if one keys the receiver with some links and the other hears the local node over a link before the same links |
| RadioActivity.UpdateKeepsOrderIff | core/radio_activity.py:207-254 | one update keeps the activity from starting after its origin exactly if it does not meet such an alias across a trusted gap |
| RadioActivity.StartPrecedesOriginIff | core/radio_activity.py:207-254 | over every run the activity never starts after its origin exactly if no observation meets an alias of the one before |
| RadioActivity.DefeatedLater | core/radio_activity.py:207-254 | when the clock has moved on, the two observations alone decide that |
| RadioActivity.SelfLinkDefeatsOrder | core/radio_activity.py:177-254 | a self-link breaks that order |
| NodeControls.Session.PerformLocked | core/node_controls.py:105-208 | one phase, equal to its specification function on the answers of the node: at most one command, only after a fresh observation that neither achieves the goal nor shows it pending; what follows verifies at its pace; success exactly if the last observation achieves the goal |
| NodeControls.Session.Verify | core/node_controls.py:192-208 | the loop makes exactly the observations that observing, testing the deadline and pausing for a second give, and it reports success exactly if the last of them achieves the goal |
| NodeControls.PollsArePaced | core/node_controls.py:192-208 | each of them begins a second after the one before, which ended without the goal and before the deadline; the last achieves the goal or ends no earlier than the deadline |
| NodeControls.PacedIsBounded | core/node_controls.py:192-208 | so there are at most eleven, and each begins less than a second after the deadline |
| NodeControls.OverrunIff | core/node_controls.py:197-208 | one begins after the deadline exactly if one ends without the goal, before the deadline and less than a second ahead of it |
| NodeControls.OverrunsByHalfASecond | core/node_controls.py:197-208 | half-second observations that never confirm: the seventh ends half a second before the deadline and the eighth begins half a second after it |
| NodeControls.Session.Switch | core/node_controls.py:72-102 | a switch, equal to its specification function: disconnect source, then connect target, the connect only after a fresh observation without the source |
| NodeControls.Session.ConnectReplacingCurrent | core/node_controls.py:49-69 | a replacement, equal to its specification function: connects, or switches only away from the single peer that was observed, whose absence is observed before the target is connected |
| NodeControls.Session.Perform | core/node_controls.py:36-46 | one control at a time, served as the phase, switch or replacement that it asks for, with the effects and the reply that its specification function gives |
| NodeControls.PhaseAccount | core/node_controls.py:105-208 | the command goes out exactly if the node answers, the link is neither as requested nor pending, and it can be executed; a rejected, timed out or unexecuted command ends the phase with its own reply, and an accepted one is verified |
| NodeControls.SwitchAccount | core/node_controls.py:72-102 | exactly which commands a switch sends, and that it is verified exactly if a last look shows the target and not the source |
| NodeControls.ReplaceAccount | core/node_controls.py:49-69 | exactly when a replacement connects, switches, asks to choose or sends nothing, read off its first observation |
| NodeControls.PerformRunIsServed | core/node_controls.py:36-46 | every control is a phase, a switch or a replacement, sends at most two commands, and succeeds only when its last observation shows it |
| NodeControls.PerformLooksInOrder | core/node_controls.py:36-208 | its observations are the answers of the node in order, none left out |
| NodeControls.PhaseCommands | core/node_controls.py:105-208 | a phase sends nothing or the requested command |
| NodeControls.PhasesAreSwitch | core/node_controls.py:72-102 | two phases in sequence make a switch |
| NodeControls.FinalObservation | core/node_controls.py:86-102 | the final observation decides the outcome of a switch |
| NodeControls.SwitchIsReplacement | core/node_controls.py:49-69 | a switch from the only peer is a replacement that names no third node |
| LineEditor.ReadHiddenSecret | core/remote_admin.py:176-206 | the byte loop |
| LineEditor.EraseRemovesOneCharacter | core/remote_admin.py:187-195 | erasing removes exactly the bytes of the last code point (section 3 of RFC 3629) |
| LineEditor.EditingRespectsCharacters | core/remote_admin.py:176-206 | for all keys the bytes read are the encoding of the character-level edit, or the input is refused exactly when some intermediate text is too long |
| LineEditor.EndsAtLineEnd | core/remote_admin.py:176-206 | whatever the bytes, the input ends at the first line end, 10 or 13, and what follows stays unread |
| LineEditor.EncodeMeans | core/remote_admin.py:187-206 | the reference encoding is the shortest one, and its bits are those of the code point |
| LoginGate.Gate.Reserve | core/remote_admin.py:269-287 | the first locked section, loop by loop |
| LoginGate.Gate.OpenSession | core/remote_admin.py:296-307 | the second locked section |
| LoginGate.Gate.Authenticate | core/remote_admin.py:231-254 | expired sessions go, a disabled console revokes all and a changed policy the one presented, and a token is known exactly otherwise |
| LoginGate.SessionsAreHistory | core/remote_admin.py:231-315 | over every run a session is in the table exactly if a login that found room issued it, for the configured duration from the time read at first, and nothing has ended it since |
| LoginGate.KnownIff | core/remote_admin.py:237-254 | a request is let in exactly with such a session, unexpired, under the policy that still stands, while the console is enabled |
| LoginGate.PoppingRemovesExpiredIff | core/remote_admin.py:272-274 | popping from the left removes exactly the expired stamps if and only if none stands behind a young one |
| LoginGate.TablesStayBounded | core/remote_admin.py:260-310 | over every run the tables respect their limits and no empty history survives |
| LoginGate.VerificationsAreBounded | core/remote_admin.py:260-310 | with clocks at most d seconds behind the latest, any interval of window - d seconds of a client holds at most the permitted verifications since its last success |
| LoginGate.LimitHoldsIff | core/remote_admin.py:260-310 | and that holds for no longer interval: the guarantee of the limiter, exactly, for every d |
| LoginGate.StaleClockEscapesBound | core/remote_admin.py:269-287 | for every configuration, d and longer interval, a run in which a clock read d seconds before the lock escapes the limit |
| SoftRadio.Socket.ReadExact | core/soft_radio.py:97-104 | exactly the requested bytes, however the stream delivers them |
| SoftRadio.Socket.ReadFrame | core/soft_radio.py:107-123 | the frame is the decoding of the stream, however it arrives |
| SoftRadio.BigEndianRoundTrip | core/soft_radio.py:107-134 | lengths survive their big-endian form |
| SoftRadio.UnmaskTwice | core/soft_radio.py:107-123 | unmasking inverts masking |
| SoftRadio.FrameRoundTrip | core/soft_radio.py:107-123 | any opcode, mask, length form and payload within the limits is read back and the rest of the stream is untouched; beyond them the frame is refused |
| SoftRadio.RejectedIff | core/soft_radio.py:107-123 | exactly which headers are refused: all but a whole, unreserved, masked text, binary, close, ping or pong frame |
| SoftRadio.DecodedIsEncoded | core/soft_radio.py:107-123 | conversely, a stream is read as a frame only if it begins with an encoding of that frame, in some length form and under some mask, and the frame is within the limits |
| SoftRadio.StreamRoundTrip | core/soft_radio.py:107-123 | any concatenation of frames parses back |
| SoftRadio.ServerFrameRoundTrip | core/soft_radio.py:126-134 | a client's decoder inverts `make_frame` in all three length forms |
| SoftRadio.BrowserClient.Enqueue | core/soft_radio.py:151-156 | the queue is always the newest payloads offered, and the rest is counted as dropped |
| SoftRadio.BrowserClient.Drain | core/soft_radio.py:158-163 | exactly the newest payloads go out, in order |
| SoftRadio.DrainedReadsBack | core/soft_radio.py:126-163 | what is drained reads back as binary frames, one for each payload in order |
| Tickets.Broker.IssueTicket | core/soft_radio.py:200-215 | a ticket is stored unless the receiver is off or the table full |
| Tickets.Broker.ConsumeTicket | core/soft_radio.py:222-231 | presenting a ticket removes it, whoever presents it |
| Tickets.Broker.DisconnectSession | core/soft_radio.py:233-235 | the tickets of a session go with it |
| Tickets.Broker.PurgeTickets | core/soft_radio.py:217-220 | exactly the expired tickets go |
| Tickets.TableIsHistory | core/soft_radio.py:200-235 | after any run the table holds a ticket exactly when a call issued it and none has ended it since |
| Tickets.AdmittedIff | core/soft_radio.py:222-231 | a listener is admitted exactly with an outstanding, unexpired ticket of its own session, of at most 128 ASCII characters |
| Tickets.TicketAdmitsOnce | core/soft_radio.py:222-231 | a ticket presented once admits nobody again |
| Tickets.TableIsBounded | core/soft_radio.py:209-213 | never more than 256 tickets |
| AllstarStatus.Reconcile | core/rpt_link_status.py:13-30 | refusal exactly for malformed or inconsistent tables; otherwise exactly the nodes of the transport, connected or keyed only where established |
| AllstarStatus.ConnectedAreEstablished | core/allstar_status.py:78-82 | connected nodes are exactly established ones that telemetry connects, so their numbers are valid |
| AllstarStatus.Monitor.CheckChanges | core/allstar_status.py:200-284 | the events of each node and the saved state after one poll |
| AllstarStatus.PollKeepsSessionsIff | core/allstar_status.py:200-284 | a poll keeps every node's sessions accounted for exactly if the validator accepts the saved state then (and, for their order, no node comes up before its last session ended) |
| AllstarStatus.SessionsAreConservedIff | core/allstar_status.py:138-284 | over every run, whatever the clock does: CONNECTED and DISCONNECTED alternate, each record begins when its session did and what is open is what is saved, exactly if every poll finds the saved state accepted; and the records are ordered without overlap exactly if, besides, no node comes up early |
| AllstarStatus.SessionsAreConserved | core/connection_state.py:37-58 | all of this holds when the clock does not go back, and then the next poll accepts the state |
| AllstarStatus.UnavailableChangesNothing | core/allstar_status.py:200-204 | a poll without telemetry changes no session |
| AllstarStatus.ClockStepReannounces | core/connection_state.py:51-55 | a clock step back makes the validator refuse the state and the link is announced again |
| Favorites.Store.Update | core/favorites.py:54-100 | the answer and the file after it; whatever is not accepted leaves the file alone |
| Favorites.RequestIff | core/favorites.py:54-71 | exactly which requests are well formed, on their fields |
| Favorites.ReadableIff | core/favorites.py:24-51 | exactly which files are read, and as what; a missing one is the empty list at revision zero |
| Favorites.AppliedMeans | core/favorites.py:79-92 | what each operation makes of a list, label by label |
| Favorites.InListOrder | core/favorites.py:87-92 | removing and importing keep the order of the lists |
| Favorites.SaveMeaning | core/favorites.py:80-86 | saving replaces one label in place or appends one node |
| Favorites.RemoveMeaning | core/favorites.py:87-88 | removing takes out exactly one node |
| Favorites.ImportMeaning | core/favorites.py:89-92 | importing appends the new nodes and keeps the labels of the old ones |
| Favorites.StripMeaning | core/favorites.py:80-92 | stripping cuts all outer spaces and nothing else |
| Favorites.AppliedIsValid | core/favorites.py:17-92 | an operation keeps nodes unique, non-local and valid |
| Favorites.AcceptedIff | core/favorites.py:54-100 | when an update is accepted, that it is computed from the revision it names, and that the next revision is valid |
| Favorites.WrittenIsReadable | core/favorites.py:24-43 | the text of every valid state whose revision has at most 20000 digits is within 32768 bytes and passes the reader |
| Favorites.EscapedLength | core/favorites.py:94-96 | how many bytes each character of a label takes in the file |
| Favorites.DecimalMeans | core/favorites.py:94-96 | the revision is written as its decimal numeral |
| Favorites.RunKeeps | core/favorites.py:24-100 | over every run of any number of clients revisions rise by one and the file stays readable |
| Favorites.AcceptedSawTheFile | core/favorites.py:54-100 | an operation is accepted only if the file still is what its client saw last |
| Favorites.FreshOperationIsAccepted | core/favorites.py:46-100 | a client that has just fetched the list gets every well-formed operation accepted that leaves at most twenty nodes |
| Favorites.RunIsSerial | core/favorites.py:54-100 | the final list is the accepted operations applied one after another to the first |

## Left out

- Texts and formats: event messages, ISO timestamps and JSON text (except the size of the favorites file), because the state machines do not read them; times are whole seconds.
- Effects: subprocesses, sockets, threads, HTTP and disk errors are answers or events of the model; `Favorites` keeps the disk error because the reply depends on it.
- Recovery records: `record_recovery_result` and its file, which no decision reads.
- RecoveryPauses.StartWaitsForBackoff: speaks of failures that were saved, so of at most 1000 in a row; the pause after a later one is not kept (`RecoveryFailures.EveryPauseIsWaitedOutIff`).
- RecoveryRuns: the clock does not go back and leaves the deadlines room before the year 10000.
- RecoveryCapacity.StartsAreBoundedIff: in the runs that break the bound the monitor is started for each recovery start, polls at once and goes down after the reservation. How soon a service manager starts it again (systemd/nodesmart.service:24 waits five seconds after a crash) is not modelled, so that where every restart is automatic the bound may also hold for windows somewhat longer than the condition allows; `TooManyStarts` gives a breaking run with its starts any longer gap apart.
- IncidentHistory.ClosuresPersist: speaks of logs that grow; the rotation that drops the oldest records is modelled in `RuntimeIo` only. A log as it is read holds no restored transition, since these are inserted into a copy.
- LineEditor.ReadHiddenSecret: the terminal settings, the prompt and the final UTF-8 decoding are not modelled.
- Other incident types (CPU, memory, disk, node), the final merge of all records by start time and the older `incidents` fallback: more instances of the same loop.
- IncidentEngine.EnginesAgreeIff: speaks of logs in time order, because the one-pass engine does not sort.
- NodeControls.Session.Perform: a pause lasts exactly a second and takes no time besides; the freshness of evidence is one bit of the observation, and the failure log and the mapping of actions to Asterisk commands are not modelled; a command that could not be executed counts as none.
- AllstarStatus.Reconcile: the order of the links that only the transport knows is left open, and the text of the table is read into rows beforehand.
- RuntimeIo.LogDirectory.ReadTail: lines are bytes between newlines; `splitlines` also splits at other separators, and bytes that are not UTF-8 are replaced when they are decoded.
- RuntimeIo.LogDirectory.AppendBounded: that replacement is also not modelled where an oversized log of an earlier version is cut down.
- RadioActivity: names and other metadata of nodes, and `public_state`.
- Tickets: keyed by the ticket instead of its digest, so hash collisions are not modelled.
- Login: password hashing, cookies, CSRF tokens and the audit log; the policy of a session is a number that stands for its digest.
- Favorites: a file replaced by hand between two requests, and Python's limit on the digits of a printed integer.
- Wide but shallow: `build_summary`, `build_recommendation`, statistics, weather alerts, node metadata, the web server, the desktop and the installers.
