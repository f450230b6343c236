/** Exactly which configurations keep the stored reservations in step with the recovery runs (core/automation.py). Where the
    4096 stamps of the safety state can fill up, a granted reservation is lost, and the run that holds it pops the stamp of
    another run when it is cancelled. */
module RecoveryReservations {
  import opened Prelude
  import opened SlidingWindow
  import opened AsteriskObservation
  import opened Automation
  import opened Recovery
  import opened RecoveryRuns
  import opened RecoveryPauses
  import opened RecoveryCapacity

  // ---------------------------------------------------------------------------------------------------
  // A full list.

  lemma {:induction false} OneEvery(w: nat, n: nat)
    ensures Off(1, w, w, n) == w * n
  {
    if n > 0 {
      OneEvery(w, n - 1);
      assert w + w * (n - 1) == w * n;
    } else {
      assert w * 0 == 0;
    }
  }

  lemma SpacedForLess(s: seq<int>, m: nat, w: int, less: int)
    requires Spaced(s, m, w) && less <= w
    ensures Spaced(s, m, less)
  {
  }

  /** Where the stamps do not fit, more starts than there are places are permitted one after the other, and none of them
      is forgotten: the densest schedule of the windows, or one start every five seconds where a window has no time for
      all its attempts. */
  lemma TimesToFill(c: Config, start: int) returns (times: seq<int>)
    requires !StampsFit(c)
    ensures Startable(c, start, times) && |times| == MAX_STAMPS + 1
  {
    hide Room, Off, Spaced, Sorted;
    var base, m, w := start + PROBE_PAUSE, c.maxAttempts, c.window + PROBE_PAUSE;
    if c.window >= 1 && PROBE_PAUSE * m <= w {
      RoomIsSchedule(m, w, PROBE_PAUSE, c.Retention(), MAX_STAMPS);
      ScheduleIsSpaced(m, w, PROBE_PAUSE, base, MAX_STAMPS + 1);
      times := Schedule(m, w, PROBE_PAUSE, base, MAX_STAMPS + 1);
    } else {
      OneEvery(PROBE_PAUSE, MAX_STAMPS);
      ScheduleIsSpaced(1, PROBE_PAUSE, PROBE_PAUSE, base, MAX_STAMPS + 1);
      times := Schedule(1, PROBE_PAUSE, PROBE_PAUSE, base, MAX_STAMPS + 1);
      SpacedMultiplies(times, PROBE_PAUSE, m);
      SpacedForLess(times, m, PROBE_PAUSE * m, w);
    }
  }

  /** The next start is permitted, and the list is full of stamps that are earlier and not yet forgotten. */
  ghost predicate Full(c: Config, s: Sys) {
    && MayStart(c, s) && Load(s.data.file).Some?
    && |s.data.file.value.attempts| == MAX_STAMPS
    && Within(s.data.file.value.attempts, c.Retention(), s.now) == s.data.file.value.attempts
    && s.data.file.value.attempts[MAX_STAMPS - 1] < s.now
  }

  lemma DueOnFullList(c: Config, start: int) returns (s: Sys)
    requires !StampsFit(c) && ClockLasts(c, start)
    ensures Full(c, s) && Reachable(c, start, WithWorker(s, Phase.Cleared, s.now))
  {
    hide Reachable, StampsFit, Startable, Within, NextFits, Spaced, MayStart;
    var times := TimesToFill(c, start);
    var stamps, at := times[..MAX_STAMPS], times[MAX_STAMPS];
    StartableLast(c, start, times);
    StartableIsSorted(c, start, times);
    var before := FillList(c, start, stamps);
    PrefixSorted(times, MAX_STAMPS);
    hide Sorted;
    NextFitsLater(stamps, Limit(c), c.window, at - PROBE_PAUSE, at);
    HoldsPermits(c, start, before, stamps, stamps, at - PROBE_PAUSE);
    HoldsPermits(c, start, before, stamps, stamps, at);
    ReservationIsDue(c, start, before, at);
    s := before.(now := at);
    hide Live;
  }

  lemma StartableIsSorted(c: Config, start: int, times: seq<int>)
    requires Startable(c, start, times)
    ensures Sorted(times)
    ensures forall i :: 0 <= i < |times| ==> start + PROBE_PAUSE <= times[i] < start + PROBE_PAUSE + c.Retention()
  {
  }

  lemma LostReservation(c: Config, s: Sys)
    requires Full(c, s)
    ensures Begun(c, s.now, s.data) == Data(s.data.file, s.data.past.(starts := s.data.past.starts + [Start(s.now, false)]))
    ensures Reserved(c, s.data.file.value, s.now) != s.data.file.value
  {
    ReservationIsSavedIff(c, s.data.file.value, s.now);
    hide Accepted, Within, Permits;
  }

  // ---------------------------------------------------------------------------------------------------
  // Reservations that are not saved.

  /** If the step grants a reservation, it is on disk. */
  ghost predicate Saved(c: Config, s: Sys, e: Event) {
    |Step(c, s, e).data.past.starts| > |s.data.past.starts| ==>
      s.data.file.Some? && Step(c, s, e).data.file == Some(Reserved(c, s.data.file.value, s.now))
  }

  lemma UnsavedReservation(c: Config, start: int) returns (events: seq<Event>, e: Event)
    requires !StampsFit(c) && ClockLasts(c, start)
    ensures !Saved(c, Run(c, Initial(start), events), e)
  {
    hide Run, StampsFit, Step, Full, Begun, Reserved;
    var s := DueOnFullList(c, start);
    LostReservation(c, s);
    FullMayStart(c, s);
    ReservesNow(c, s);
    events := RunTo(c, start, WithWorker(s, Phase.Cleared, s.now));
    e := Work(0, Going(s.now));
  }

  lemma FullMayStart(c: Config, s: Sys)
    requires Full(c, s)
    ensures MayStart(c, s) && s.data.file.Some?
  {
  }

  lemma FitReservationIsSaved(c: Config, now: int, events: seq<Event>, e: Event)
    requires StampsFit(c) && StartTime(c, now)
    ensures Saved(c, Run(c, Initial(now), events), e)
  {
    hide Run, Step, StampsFit, DataOk, OrderOk, Live, NextFits, Accepted, Reserved, Paused;
    RunKeeps(c, now, events);
    var s := Run(c, Initial(now), events);
    if |Step(c, s, e).data.past.starts| > |s.data.past.starts| {
      OnlyWorkersReserve(c, s, e);
      var w := s.workers[e.index];
      NextFitsLater(Live(s.data.past), Limit(c), c.window + PROBE_PAUSE, w.wakes, s.now);
      ReservationFits(c, s.now, s.data);
    }
  }

  /** Exactly the configurations whose starts fit the stamps save every reservation that they grant. */
  lemma ReservationsAreSavedIff(c: Config, start: int)
    requires ClockLasts(c, start)
    ensures (forall events, e :: Saved(c, Run(c, Initial(start), events), e)) <==> StampsFit(c)
  {
    hide Run, StampsFit, Saved;
    if StampsFit(c) {
      forall events, e ensures Saved(c, Run(c, Initial(start), events), e) {
        FitReservationIsSaved(c, start, events, e);
      }
    } else {
      var events, e := UnsavedReservation(c, start);
    }
  }

  // ---------------------------------------------------------------------------------------------------
  // Cancellations that pop another stamp.

  /** A cancellation that is due pops the stamp of its own reservation, or nothing. */
  ghost predicate PopsOwnStamp(s: Sys) {
    forall i: nat :: i < |s.workers| && s.workers[i].phase.Withdrawing? && Load(s.data.file).Some?
                     && s.data.file.value.attempts != [] ==>
      && s.workers[i].start < |s.data.past.starts|
      && s.data.file.value.attempts[|s.data.file.value.attempts| - 1] == s.data.past.starts[s.workers[i].start].time
  }

  /** The outage is over at the last probe. */
  function Over(now: int): Answer {
    Answer(Stopped(now), false, Succeeded)
  }

  /** The reservation finds the list full and the last probe withdraws it: the stamp to be popped is an earlier one. */
  lemma PopsAnother(c: Config, start: int) returns (events: seq<Event>)
    requires !StampsFit(c) && ClockLasts(c, start)
    ensures !PopsOwnStamp(Run(c, Initial(start), events))
  {
    hide Run, StampsFit, Full, Begun, Reserved, Step, Reachable;
    var s := DueOnFullList(c, start);
    LostReservation(c, s);
    FullMayStart(c, s);
    ReservesNow(c, s);
    ReachesNext(c, start, WithWorker(s, Phase.Cleared, s.now), Work(0, Going(s.now)));
    var holding := WithReservation(c, s);
    ReachesNext(c, start, holding, Work(0, Over(s.now)));
    Withdraws(c, s);
    events := RunTo(c, start, Step(c, holding, Work(0, Over(s.now))));
    WithdrawnPopsAnother(c, s);
  }

  function WithWithdrawal(c: Config, s: Sys): Sys {
    WithReservation(c, s).(workers := [Worker(Phase.Withdrawing, |s.data.past.starts|, s.now)])
  }

  lemma Withdraws(c: Config, s: Sys)
    ensures Step(c, WithReservation(c, s), Work(0, Over(s.now))) == WithWithdrawal(c, s)
  {
    hide Begun;
  }

  lemma WithdrawnPopsAnother(c: Config, s: Sys)
    requires Full(c, s)
    ensures !PopsOwnStamp(WithWithdrawal(c, s))
  {
    LostReservation(c, s);
    hide Within, Permits, MayStart, Begun, Reserved;
    var t := WithWithdrawal(c, s);
    assert t.workers[0].phase.Withdrawing?;
    assert t.data.past.starts[t.workers[0].start].time == s.now;
  }

  lemma FitCancelPopsOwn(c: Config, now: int, events: seq<Event>)
    requires StampsFit(c) && StartTime(c, now)
    ensures PopsOwnStamp(Run(c, Initial(now), events))
  {
    hide Run, StampsFit;
    var s := Run(c, Initial(now), events);
    forall i: nat | i < |s.workers| && s.workers[i].phase.Withdrawing? && Load(s.data.file).Some?
                    && s.data.file.value.attempts != []
      ensures s.workers[i].start < |s.data.past.starts|
      ensures s.data.file.value.attempts[|s.data.file.value.attempts| - 1] == s.data.past.starts[s.workers[i].start].time
    {
      CancelPopsItsOwnStamp(c, now, events, i);
    }
  }

  /** Exactly the configurations whose starts fit the stamps let every cancellation pop its own stamp. */
  lemma CancelsPopTheirOwnIff(c: Config, start: int)
    requires ClockLasts(c, start)
    ensures (forall events :: PopsOwnStamp(Run(c, Initial(start), events))) <==> StampsFit(c)
  {
    hide Run, StampsFit, PopsOwnStamp;
    if StampsFit(c) {
      forall events ensures PopsOwnStamp(Run(c, Initial(start), events)) {
        FitCancelPopsOwn(c, start, events);
      }
    } else {
      var events := PopsAnother(c, start);
    }
  }

  /** Three attempts in half a minute do not fit, so some cancellation pops another run's stamp; the defaults do fit. */
  lemma ThreeInHalfAMinute(start: int) returns (events: seq<Event>)
    requires ClockLasts(Config(30, 3, 600, 3600, 900), start)
    ensures !PopsOwnStamp(Run(Config(30, 3, 600, 3600, 900), Initial(start), events))
    ensures StampsFit(Config(3600, 3, 600, 3600, 900)) && Room(3, 3605, PROBE_PAUSE, DAY_SECONDS) == 72
  {
    RoomForThree(30, 2469);
    RoomForThree(3600, 24);
    hide Room;
    events := PopsAnother(Config(30, 3, 600, 3600, 900), start);
  }

  lemma RoomForThree(window: int, q: nat)
    requires window >= 10 && q >= 1 && (window + 5) * (q - 1) + 10 < DAY_SECONDS <= (window + 5) * q
    ensures Room(3, window + 5, PROBE_PAUSE, DAY_SECONDS) == 3 * q
  {
    RoomCountsWindows(3, window + 5, PROBE_PAUSE, DAY_SECONDS, q);
    StepsIff(DAY_SECONDS - (window + 5) * (q - 1), PROBE_PAUSE, 3);
    hide Room, Steps;
  }
}
