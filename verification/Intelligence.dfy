/** Incident correlation (core/intelligence.py): the event log becomes outage intervals, and closures inferred
    from health observations survive later builds. The one-pass engine of core/incident.py is compared with it.

    Times are whole seconds. The CPU, memory and disk incidents and the texts are left out. */
module Intelligence {
  import opened Prelude

  datatype Component = Asterisk | Internet

  datatype Kind =
    | Offline(component: Component)
    | Online(component: Component)
    | Normal(component: Component, inferred: bool)  // HEALTH.<component>.NORMAL, logged or restored
    | Attempt                                       // RECOVERY.ASTERISK.ATTEMPT and its outcomes
    | Success
    | Failed
    | Withdrawn
    | Unrelated

  /** A parsed log record; two records are equal when all their fields are. */
  datatype Event = Event(time: int, kind: Kind, message: string)

  datatype Outcome = Recovered | NotRecovered | Cancelled

  datatype Incident = Incident(
    component: Component, startedAt: int,
    attempted: bool, outcome: Option<Outcome>, recoveryAt: Option<int>,
    resolvedAt: Option<int>, duration: Option<int>, inferred: bool)

  function Fresh(c: Component, startedAt: int): Incident {
    Incident(c, startedAt, false, None, None, None, None, false)
  }

  predicate Opens(e: Event, c: Component) {
    e.kind == Offline(c)
  }

  predicate Closes(e: Event, c: Component) {
    (e.kind.Online? || e.kind.Normal?) && e.kind.component == c
  }

  // ---------------------------------------------------------------------------------------------------
  // Stable sorting by time.

  ghost predicate NoneBefore(es: seq<Event>, t: int) {
    forall e :: e in es ==> t <= e.time
  }

  ghost predicate Sorted(es: seq<Event>) {
    es == [] || (NoneBefore(es[1..], es[0].time) && Sorted(es[1..]))
  }

  /** Before the first event that is not earlier. */
  function Insert(es: seq<Event>, e: Event): seq<Event> {
    if es == [] || es[0].time >= e.time then [e] + es
    else [es[0]] + Insert(es[1..], e)
  }

  function Sort(es: seq<Event>): seq<Event> {
    if es == [] then [] else Insert(Sort(es[1..]), es[0])
  }

  function AtTime(es: seq<Event>, t: int): seq<Event> {
    if es == [] then [] else (if es[0].time == t then [es[0]] else []) + AtTime(es[1..], t)
  }

  lemma {:induction false} InsertContents(es: seq<Event>, e: Event)
    ensures multiset(Insert(es, e)) == multiset(es) + multiset{e}
    ensures forall x :: x in Insert(es, e) <==> x in es || x == e
  {
    if es == [] || es[0].time >= e.time {
      assert multiset([e] + es) == multiset{e} + multiset(es);
    } else {
      InsertContents(es[1..], e);
      assert es == [es[0]] + es[1..];
    }
  }

  lemma {:induction false} InsertKeepsSorted(es: seq<Event>, e: Event)
    requires Sorted(es)
    ensures Sorted(Insert(es, e))
  {
    if es == [] || es[0].time >= e.time {
      assert ([e] + es)[1..] == es;
      assert es != [] ==> forall x :: x in es ==> x == es[0] || x in es[1..];
    } else {
      InsertKeepsSorted(es[1..], e);
      InsertContents(es[1..], e);
      assert Insert(es, e)[1..] == Insert(es[1..], e);
    }
  }

  lemma AtTimeCons(e: Event, rest: seq<Event>, t: int)
    ensures AtTime([e] + rest, t) == (if e.time == t then [e] else []) + AtTime(rest, t)
  {
    assert ([e] + rest)[1..] == rest;
  }

  lemma {:induction false} InsertAtTime(es: seq<Event>, e: Event, t: int)
    ensures AtTime(Insert(es, e), t) == (if e.time == t then [e] else []) + AtTime(es, t)
  {
    if es == [] || es[0].time >= e.time {
      AtTimeCons(e, es, t);
    } else {
      InsertAtTime(es[1..], e, t);
      AtTimeCons(es[0], Insert(es[1..], e), t);
      if es[0].time == t {
        assert AtTime(Insert(es[1..], e), t) == AtTime(es[1..], t);
      }
    }
  }

  /** `Sort` is a stable sort. */
  lemma {:induction false} SortIsStable(es: seq<Event>)
    ensures Sorted(Sort(es)) && multiset(Sort(es)) == multiset(es)
    ensures forall t :: AtTime(Sort(es), t) == AtTime(es, t)
  {
    if es != [] {
      SortIsStable(es[1..]);
      InsertKeepsSorted(Sort(es[1..]), es[0]);
      InsertContents(Sort(es[1..]), es[0]);
      assert es == [es[0]] + es[1..];
      forall t ensures AtTime(Sort(es), t) == AtTime(es, t) {
        InsertAtTime(Sort(es[1..]), es[0], t);
      }
    }
  }

  lemma {:induction false} SortOfSorted(es: seq<Event>)
    requires Sorted(es)
    ensures Sort(es) == es
  {
    if es != [] {
      SortOfSorted(es[1..]);
      assert es == [es[0]] + es[1..];
      assert es[1..] != [] ==> es[1..][0] in es[1..];
    }
  }

  // ---------------------------------------------------------------------------------------------------
  // De-duplication: an OFFLINE during an open outage of its component is dropped.

  function ActiveAfter(e: Event, active: set<Component>): set<Component> {
    match e.kind
    case Offline(c) => active + {c}
    case Online(c) => active - {c}
    case Normal(c, _) => active - {c}
    case _ => active
  }

  predicate Dropped(e: Event, active: set<Component>) {
    e.kind.Offline? && e.kind.component in active
  }

  function Dedupe(es: seq<Event>, active: set<Component>): seq<Event> {
    if es == [] then []
    else (if Dropped(es[0], active) then [] else [es[0]]) + Dedupe(es[1..], ActiveAfter(es[0], active))
  }

  // ---------------------------------------------------------------------------------------------------
  // The scan that closes one outage.

  function NoteRecovery(r: Incident, e: Event): Incident {
    match e.kind
    case Attempt => r.(attempted := true)
    case Success => r.(outcome := Some(Recovered), recoveryAt := Some(e.time))
    case Failed => r.(outcome := Some(NotRecovered), recoveryAt := Some(e.time))
    case _ => r
  }

  /** Recovery events belong to Asterisk outages. */
  function Noted(r: Incident, e: Event): Incident {
    if r.component.Asterisk? then NoteRecovery(r, e) else r
  }

  function Close(r: Incident, e: Event): Incident {
    r.(resolvedAt := Some(e.time), duration := Some(e.time - r.startedAt),
       inferred := r.component.Internet? && e.kind.Normal? && e.kind.inferred)
  }

  /** The inner loop, with its time test and its "later outage" break. */
  function Scan(r: Incident, rest: seq<Event>): Incident
    decreases rest
  {
    if rest == [] then r
    else
      var e := rest[0];
      var c := r.component;
      if e.time < r.startedAt then Scan(r, rest[1..])
      else if Opens(e, c) && (c.Internet? || e.time > r.startedAt) then r
      else if Closes(e, c) then Close(r, e)
      else Scan(Noted(r, e), rest[1..])
  }

  function FirstIndex(es: seq<Event>, e: Event): (i: nat)
    requires e in es
    ensures i < |es| && es[i] == e && e !in es[..i]
  {
    if es[0] == e then 0 else FirstIndex(es[1..], e) + 1
  }

  /** The incident of one outage, located by `events.index`. */
  function IncidentOf(es: seq<Event>, e: Event): Incident
    requires e in es && e.kind.Offline?
  {
    Scan(Fresh(e.kind.component, e.time), es[FirstIndex(es, e) + 1..])
  }

  function IncidentsFrom(c: Component, es: seq<Event>, k: nat): seq<Incident>
    requires k <= |es|
    decreases |es| - k
  {
    if k == |es| then []
    else (if Opens(es[k], c) then [IncidentOf(es, es[k])] else []) + IncidentsFrom(c, es, k + 1)
  }

  /** `build_incident_records` for one component. */
  function Incidents(c: Component, log: seq<Event>): seq<Incident> {
    IncidentsFrom(c, Dedupe(Sort(log), {}), 0)
  }

  // ---------------------------------------------------------------------------------------------------
  // A simpler reading: every outage is scanned from its own position, with no time test and no break.

  function PlainScan(r: Incident, rest: seq<Event>): Incident
    decreases rest
  {
    if rest == [] then r
    else if Closes(rest[0], r.component) then Close(r, rest[0])
    else PlainScan(Noted(r, rest[0]), rest[1..])
  }

  function PlainIncidents(c: Component, es: seq<Event>): seq<Incident> {
    if es == [] then []
    else (if Opens(es[0], c) then [PlainScan(Fresh(c, es[0].time), es[1..])] else []) + PlainIncidents(c, es[1..])
  }

  lemma {:induction false} DedupeIsSubsequence(es: seq<Event>, active: set<Component>)
    ensures forall e :: e in Dedupe(es, active) ==> e in es
  {
    if es != [] {
      DedupeIsSubsequence(es[1..], ActiveAfter(es[0], active));
      var rest := Dedupe(es[1..], ActiveAfter(es[0], active));
      assert ([es[0]] + rest)[1..] == rest;
      assert Dedupe(es, active) == if Dropped(es[0], active) then rest else [es[0]] + rest;
      assert forall e :: e in es[1..] ==> e in es;
    }
  }

  lemma DedupeStep(es: seq<Event>, active: set<Component>)
    requires es != []
    ensures var rest := Dedupe(es[1..], ActiveAfter(es[0], active));
            Dedupe(es, active) == if Dropped(es[0], active) then rest else [es[0]] + rest
  {
  }

  lemma ScanCons(r: Incident, e: Event, rest: seq<Event>)
    requires r.startedAt <= e.time && !Opens(e, r.component)
    ensures Scan(r, [e] + rest) == if Closes(e, r.component) then Close(r, e) else Scan(Noted(r, e), rest)
  {
    assert ([e] + rest)[1..] == rest;
  }

  lemma PlainScanCons(r: Incident, e: Event, rest: seq<Event>)
    ensures PlainScan(r, [e] + rest) ==
            if Closes(e, r.component) then Close(r, e) else PlainScan(Noted(r, e), rest)
  {
    assert ([e] + rest)[1..] == rest;
  }

  lemma PlainIncidentsCons(c: Component, e: Event, rest: seq<Event>)
    ensures PlainIncidents(c, [e] + rest) ==
            if Opens(e, c) then [PlainScan(Fresh(c, e.time), rest)] + PlainIncidents(c, rest)
            else PlainIncidents(c, rest)
  {
    assert ([e] + rest)[1..] == rest;
  }

  /** After de-duplication an open outage meets its closing event before any other outage of its component, so
      the time test and the break of the inner loop never fire. */
  lemma {:induction false} ScanIsPlain(r: Incident, es: seq<Event>, active: set<Component>)
    requires Sorted(es) && NoneBefore(es, r.startedAt)
    requires r.component in active
    ensures Scan(r, Dedupe(es, active)) == PlainScan(r, Dedupe(es, active))
    decreases es
  {
    if es != [] {
      var e, tail, next := es[0], es[1..], ActiveAfter(es[0], active);
      var rest := Dedupe(tail, next);
      assert e in es && NoneBefore(tail, r.startedAt);
      DedupeStep(es, active);
      hide Dedupe, Scan, PlainScan;
      if Dropped(e, active) {
        ScanIsPlain(r, tail, next);
      } else {
        ScanCons(r, e, rest);
        PlainScanCons(r, e, rest);
        if !Closes(e, r.component) {
          ScanIsPlain(Noted(r, e), tail, next);
        }
      }
    }
  }

  /** What follows a kept outage was de-duplicated with its component active: wherever the outage stands, neither the
      break for a later outage nor the time test decides anything. */
  lemma {:induction false} SplitDedupe(es: seq<Event>, active: set<Component>, before: seq<Event>, e: Event, after: seq<Event>)
    requires Sorted(es) && e.kind.Offline?
    requires Dedupe(es, active) == before + [e] + after
    ensures Scan(Fresh(e.kind.component, e.time), after) == PlainScan(Fresh(e.kind.component, e.time), after)
    ensures FreeAfter(PlainScan(Fresh(e.kind.component, e.time), after), e.kind.component, e.time, after)
    decreases es
  {
    if es != [] {
      var next := ActiveAfter(es[0], active);
      var rest := Dedupe(es[1..], next);
      DedupeStep(es, active);
      hide Scan, PlainScan, FreeAfter, Dedupe;
      if Dropped(es[0], active) {
        SplitDedupe(es[1..], next, before, e, after);
      } else {
        assert rest == (before + [e] + after)[1..];
        if before == [] {
          assert before + [e] + after == [e] + after;
          assert es[0] == e && rest == after;
          ScanIsPlain(Fresh(e.kind.component, e.time), es[1..], next);
          ClosesBeforeNext(Fresh(e.kind.component, e.time), es[1..], next, e.time);
        } else {
          assert rest == before[1..] + [e] + after;
          SplitDedupe(es[1..], next, before[1..], e, after);
        }
      }
    }
  }

  /** A resolved incident lasts from its start to its end; an open one has no end and no duration. */
  predicate WellClosed(r: Incident) {
    match r.resolvedAt
    case None => r.duration.None?
    case Some(end) => r.startedAt <= end && r.duration == Some(end - r.startedAt)
  }

  ghost predicate IsOpen(r: Incident, c: Component) {
    r.component == c && r.resolvedAt.None? && r.duration.None?
  }

  /** The outage from `t` has ended by the time any later outage of its component begins. */
  ghost predicate FreeAfter(r: Incident, c: Component, t: int, after: seq<Event>) {
    && r.component == c && r.startedAt == t && WellClosed(r)
    && forall x :: x in after && Opens(x, c) ==> r.resolvedAt.Some? && r.resolvedAt.value <= x.time
  }

  lemma FreeAfterCons(r: Incident, c: Component, t: int, e: Event, after: seq<Event>)
    requires FreeAfter(r, c, t, after) && !Opens(e, c)
    ensures FreeAfter(r, c, t, [e] + after)
  {
    assert forall x :: x in [e] + after <==> x == e || x in after;
  }

  lemma EndsOutage(r: Incident, c: Component, t: int, e: Event, after: seq<Event>)
    requires IsOpen(r, c) && r.startedAt == t <= e.time && Closes(e, c) && NoneBefore(after, e.time)
    ensures FreeAfter(Close(r, e), c, t, [e] + after)
  {
    assert forall x :: x in [e] + after <==> x == e || x in after;
  }

  lemma StaysOpen(r: Incident, e: Event, active: set<Component>)
    requires IsOpen(r, r.component) && r.component in active
    ensures !Closes(e, r.component) ==>
              var q := Noted(r, e);
              && IsOpen(q, q.component) && q.component == r.component && q.startedAt == r.startedAt
              && r.component in ActiveAfter(e, active)
    ensures Dropped(e, active) ==> r.component in ActiveAfter(e, active)
  {
  }

  lemma {:induction false} ClosesBeforeNext(r: Incident, es: seq<Event>, active: set<Component>, t: int)
    requires Sorted(es) && NoneBefore(es, t) && r.startedAt == t && IsOpen(r, r.component) && r.component in active
    ensures FreeAfter(PlainScan(r, Dedupe(es, active)), r.component, t, Dedupe(es, active))
    decreases es
  {
    if es != [] {
      var e, tail, next := es[0], es[1..], ActiveAfter(es[0], active);
      var rest := Dedupe(tail, next);
      assert e in es && t <= e.time && NoneBefore(tail, t);
      DedupeStep(es, active);
      DedupeIsSubsequence(tail, next);
      assert NoneBefore(rest, e.time);
      StaysOpen(r, e, active);
      hide Dedupe, PlainScan, FreeAfter, NoneBefore, Noted, ActiveAfter, IsOpen;
      if Dropped(e, active) {
        ClosesBeforeNext(r, tail, next, t);
      } else {
        PlainScanCons(r, e, rest);
        if Closes(e, r.component) {
          EndsOutage(r, r.component, t, e, rest);
        } else {
          ClosesBeforeNext(Noted(r, e), tail, next, t);
          FreeAfterCons(PlainScan(Noted(r, e), rest), r.component, t, e, rest);
        }
      }
    }
  }

  /** The break for a later outage is dead code, on every log: the inner loop reads the same without it and without its
      time test, from the first record equal to the outage on. */
  lemma LaterOutageBreakIsDead(es: seq<Event>, e: Event)
    requires Sorted(es) && e in Dedupe(es, {}) && e.kind.Offline?
    ensures var kept, c := Dedupe(es, {}), e.kind.component;
            var after := kept[FirstIndex(kept, e) + 1..];
            && IncidentOf(kept, e) == PlainScan(Fresh(c, e.time), after)
            && FreeAfter(IncidentOf(kept, e), c, e.time, after)
  {
    var kept := Dedupe(es, {});
    var i := FirstIndex(kept, e);
    hide Dedupe, Scan, PlainScan, FirstIndex, FreeAfter, Sorted;
    SplitHere(kept, i);
    SplitDedupe(es, {}, kept[..i], e, kept[i + 1..]);
  }

  lemma SplitHere<T>(s: seq<T>, i: nat)
    requires i < |s|
    ensures s == s[..i] + [s[i]] + s[i + 1..]
  {
  }

  lemma {:induction false} FirstIsNotLater(es: seq<Event>, m: nat)
    requires m < |es|
    ensures FirstIndex(es, es[m]) <= m
  {
    if es[0] != es[m] {
      FirstIsNotLater(es[1..], m - 1);
    }
  }

  // ---------------------------------------------------------------------------------------------------
  // Outages of one component are ordered intervals.

  /** The i-th incident and the one after it come from outages in this order. */
  lemma {:induction false} IncidentByIndex(c: Component, es: seq<Event>, k: nat, i: nat) returns (m: nat, n: nat)
    requires k <= |es| && i < |IncidentsFrom(c, es, k)|
    ensures k <= m < |es| && Opens(es[m], c) && IncidentsFrom(c, es, k)[i] == IncidentOf(es, es[m])
    ensures i + 1 < |IncidentsFrom(c, es, k)| ==>
              m < n < |es| && Opens(es[n], c) && IncidentsFrom(c, es, k)[i + 1] == IncidentOf(es, es[n])
    decreases |es| - k
  {
    hide IncidentOf;
    var rest := IncidentsFrom(c, es, k + 1);
    if !Opens(es[k], c) {
      assert IncidentsFrom(c, es, k) == [] + rest == rest;
      m, n := IncidentByIndex(c, es, k + 1, i);
    } else if i > 0 {
      m, n := IncidentByIndex(c, es, k + 1, i - 1);
    } else {
      m, n := k, k;
      if rest != [] {
        var after: nat;
        n, after := IncidentByIndex(c, es, k + 1, 0);
      }
    }
  }

  /** Outage `m` is over when outage `n` begins. */
  lemma OneAfterAnother(c: Component, es: seq<Event>, m: nat, n: nat)
    requires Sorted(es) && m < |Dedupe(es, {})| && Opens(Dedupe(es, {})[m], c)
    ensures var kept := Dedupe(es, {});
            var r := IncidentOf(kept, kept[m]);
            && WellClosed(r)
            && (m < n < |kept| && Opens(kept[n], c) ==>
                  r.resolvedAt.Some? && r.resolvedAt.value <= IncidentOf(kept, kept[n]).startedAt)
  {
    var kept := Dedupe(es, {});
    var first := OutageTail(c, es, m);
    hide *;
    if m < n < |kept| && Opens(kept[n], c) {
      var later := OutageTail(c, es, n);
      FreeAfterUse(IncidentOf(kept, kept[n]), c, kept[n].time, kept[later + 1..], 0);
      assert kept[first + 1..][n - first - 1] == kept[n];
    }
    FreeAfterUse(IncidentOf(kept, kept[m]), c, kept[m].time, kept[first + 1..], n - first - 1);
  }

  /** The tail of the events that the scan of outage `m` reads. */
  lemma OutageTail(c: Component, es: seq<Event>, m: nat) returns (first: nat)
    requires Sorted(es) && m < |Dedupe(es, {})| && Opens(Dedupe(es, {})[m], c)
    ensures var kept := Dedupe(es, {});
            && first <= m && kept[first] == kept[m] && first == FirstIndex(kept, kept[m])
            && IncidentOf(kept, kept[m]) == PlainScan(Fresh(c, kept[m].time), kept[first + 1..])
            && FreeAfter(IncidentOf(kept, kept[m]), c, kept[m].time, kept[first + 1..])
  {
    var kept := Dedupe(es, {});
    first := FirstIndex(kept, kept[m]);
    hide Dedupe, FirstIndex, IncidentOf, PlainScan, FreeAfter, Sorted;
    FirstIsNotLater(kept, m);
    LaterOutageBreakIsDead(es, kept[m]);
  }

  lemma FreeAfterUse(r: Incident, c: Component, t: int, after: seq<Event>, k: int)
    requires FreeAfter(r, c, t, after)
    ensures r.startedAt == t && WellClosed(r)
    ensures 0 <= k < |after| && Opens(after[k], c) ==> r.resolvedAt.Some? && r.resolvedAt.value <= after[k].time
  {
  }

  /** On every log, in whatever order it was written and whatever records it repeats, the incidents of a component are
      consecutive intervals: each ends before the next begins, and only the last may be unresolved. */
  lemma IncidentsAreIntervals(c: Component, log: seq<Event>, i: nat)
    requires i < |Incidents(c, log)|
    ensures var rs := Incidents(c, log);
            && WellClosed(rs[i])
            && (i + 1 < |rs| ==> rs[i].resolvedAt.Some? && rs[i].resolvedAt.value <= rs[i + 1].startedAt)
  {
    var kept := Dedupe(Sort(log), {});
    SortIsStable(log);
    var m, n := IncidentByIndex(c, kept, 0, i);
    hide *;
    OneAfterAnother(c, Sort(log), m, n);
  }

  // ---------------------------------------------------------------------------------------------------
  // When the quadratic scan is the plain reading.

  /** The events of an outage up to the one that ends it. */
  function Episode(c: Component, rest: seq<Event>): seq<Event> {
    if rest == [] || Closes(rest[0], c) then [] else [rest[0]] + Episode(c, rest[1..])
  }

  /** The event that ends it. */
  function Closing(c: Component, rest: seq<Event>): Option<Event> {
    if rest == [] then None else if Closes(rest[0], c) then Some(rest[0]) else Closing(c, rest[1..])
  }

  /** The last outcome of a recovery. */
  function Verdict(es: seq<Event>): Option<Event> {
    if es == [] then None
    else if Verdict(es[1..]).Some? then Verdict(es[1..])
    else if es[0].kind.Success? || es[0].kind.Failed? then Some(es[0])
    else None
  }

  ghost predicate HasAttempt(es: seq<Event>) {
    exists e :: e in es && e.kind.Attempt?
  }

  function VerdictKind(es: seq<Event>): Option<Kind> {
    match Verdict(es)
    case None => None
    case Some(e) => Some(e.kind)
  }

  /** The later of two equal outages ends in its own second, in the same way and with the same notes. */
  ghost predicate EndsAlike(c: Component, kept: seq<Event>, i: nat, k: nat)
    requires i < |kept| && k < |kept|
  {
    var a, b := kept[i + 1..], kept[k + 1..];
    && Closing(c, b).Some? && Closing(c, b).value.time == kept[k].time
    && Close(Fresh(c, 0), Closing(c, b).value).inferred ==
       (Closing(c, a).Some? && Close(Fresh(c, 0), Closing(c, a).value).inferred)
    && (c.Asterisk? ==>
          && (HasAttempt(Episode(c, a)) <==> HasAttempt(Episode(c, b)))
          && VerdictKind(Episode(c, a)) == VerdictKind(Episode(c, b)))
  }

  /** Equal outages end alike. */
  ghost predicate RepeatsEndAlike(c: Component, kept: seq<Event>) {
    forall i, k :: 0 <= i < k < |kept| && Opens(kept[i], c) && kept[i] == kept[k] ==> EndsAlike(c, kept, i, k)
  }

  /** The record with everything an episode notes in it. */
  ghost function NotedAll(r: Incident, es: seq<Event>): Incident {
    if r.component.Internet? then r
    else
      var q := r.(attempted := r.attempted || HasAttempt(es));
      match Verdict(es)
      case None => q
      case Some(e) => q.(outcome := Some(if e.kind.Success? then Recovered else NotRecovered), recoveryAt := Some(e.time))
  }

  lemma NotedAllCons(r: Incident, e: Event, es: seq<Event>)
    ensures NotedAll(r, [e] + es) == NotedAll(Noted(r, e), es)
  {
    hide HasAttempt, Verdict;
    HasAttemptCons(e, es);
    VerdictCons(e, es);
    VerdictIsOutcome(es);
  }

  lemma HasAttemptCons(e: Event, es: seq<Event>)
    ensures HasAttempt([e] + es) <==> e.kind.Attempt? || HasAttempt(es)
  {
    assert forall x :: x in [e] + es <==> x == e || x in es;
  }

  lemma VerdictCons(e: Event, es: seq<Event>)
    ensures Verdict([e] + es) ==
            if Verdict(es).Some? then Verdict(es) else if e.kind.Success? || e.kind.Failed? then Some(e) else None
  {
    assert ([e] + es)[1..] == es;
  }

  lemma {:induction false} VerdictIsOutcome(es: seq<Event>)
    ensures Verdict(es).Some? ==> Verdict(es).value in es && (Verdict(es).value.kind.Success? || Verdict(es).value.kind.Failed?)
  {
    if es != [] {
      VerdictIsOutcome(es[1..]);
    }
  }

  ghost function FromEpisode(r: Incident, rest: seq<Event>): Incident {
    var noted := NotedAll(r, Episode(r.component, rest));
    match Closing(r.component, rest)
    case None => noted
    case Some(e) => Close(noted, e)
  }

  lemma NothingNoted(r: Incident)
    ensures NotedAll(r, []) == r
  {
  }

  /** A scan can be read off its episode. */
  lemma {:induction false} ScanIsEpisode(r: Incident, rest: seq<Event>)
    ensures PlainScan(r, rest) == FromEpisode(r, rest)
    decreases rest
  {
    hide NotedAll;
    NothingNoted(r);
    if rest != [] && !Closes(rest[0], r.component) {
      ScanIsEpisode(Noted(r, rest[0]), rest[1..]);
      NotedAllCons(r, rest[0], Episode(r.component, rest[1..]));
    }
  }

  /** An episode lies between its start and its end, and its verdict in it. */
  lemma {:induction false} EpisodeTimes(c: Component, rest: seq<Event>, t: int)
    requires Sorted(rest) && NoneBefore(rest, t)
    ensures Closing(c, rest).Some? ==> t <= Closing(c, rest).value.time
    ensures Verdict(Episode(c, rest)).Some? ==>
              var e := Verdict(Episode(c, rest)).value;
              && t <= e.time && (e.kind.Success? || e.kind.Failed?)
              && (Closing(c, rest).Some? ==> e.time <= Closing(c, rest).value.time)
  {
    if rest != [] {
      assert rest[0] in rest && NoneBefore(rest[1..], t);
      EpisodeTimes(c, rest[1..], t);
      EpisodeTimesFrom(c, rest);
      if !Closes(rest[0], c) {
        assert ([rest[0]] + Episode(c, rest[1..]))[1..] == Episode(c, rest[1..]);
      }
    }
  }

  lemma {:induction false} EpisodeTimesFrom(c: Component, rest: seq<Event>)
    requires Sorted(rest) && rest != []
    ensures Closing(c, rest).Some? ==> rest[0].time <= Closing(c, rest).value.time
  {
    if !Closes(rest[0], c) && rest[1..] != [] {
      assert rest[1..][0] in rest[1..];
      EpisodeTimesFrom(c, rest[1..]);
    }
  }

  lemma {:induction false} SuffixOfSorted(es: seq<Event>, k: nat)
    requires Sorted(es) && k < |es|
    ensures Sorted(es[k + 1..]) && NoneBefore(es[k + 1..], es[k].time)
  {
    if k > 0 {
      SuffixOfSorted(es[1..], k - 1);
      assert es[k + 1..] == es[1..][k..];
    }
  }

  /** What a plain scan says, part by part: how it ends, whether there was an attempt, and the last outcome. */
  ghost predicate HasParts(r: Incident, c: Component, t: int, closing: Option<Event>, attempt: bool, verdict: Option<Kind>) {
    && r.component == c && r.startedAt == t
    && (match closing
        case None => r.resolvedAt.None? && r.duration.None? && !r.inferred
        case Some(e) => t <= e.time && r.resolvedAt == Some(e.time) && r.duration == Some(e.time - t)
                        && r.inferred == Close(Fresh(c, 0), e).inferred)
    && (r.attempted <==> c.Asterisk? && attempt)
    && (if c.Asterisk? && verdict.Some? then
          && (verdict.value.Success? || verdict.value.Failed?)
          && r.outcome == Some(if verdict.value.Success? then Recovered else NotRecovered)
          && r.recoveryAt.Some? && t <= r.recoveryAt.value
          && (r.resolvedAt.Some? ==> r.recoveryAt.value <= r.resolvedAt.value)
        else r.outcome.None? && r.recoveryAt.None?)
  }

  lemma ScanParts(c: Component, t: int, rest: seq<Event>)
    requires Sorted(rest) && NoneBefore(rest, t)
    ensures HasParts(PlainScan(Fresh(c, t), rest), c, t, Closing(c, rest), HasAttempt(Episode(c, rest)),
                     VerdictKind(Episode(c, rest)))
  {
    ScanIsEpisode(Fresh(c, t), rest);
    EpisodeTimes(c, rest, t);
    hide PlainScan, Episode, Closing, Verdict, HasAttempt, Sorted, NoneBefore;
  }

  lemma PartsDecide(c: Component, t: int, r: Incident, closing: Option<Event>, attempt: bool, verdict: Option<Kind>,
                    q: Incident, itsClosing: Option<Event>, itsAttempt: bool, itsVerdict: Option<Kind>)
    requires HasParts(r, c, t, closing, attempt, verdict) && HasParts(q, c, t, itsClosing, itsAttempt, itsVerdict)
    requires r.resolvedAt == Some(t)
    ensures r == q <==>
            && itsClosing.Some? && itsClosing.value.time == t
            && Close(Fresh(c, 0), itsClosing.value).inferred ==
               (closing.Some? && Close(Fresh(c, 0), closing.value).inferred)
            && (c.Asterisk? ==> attempt == itsAttempt && verdict == itsVerdict)
  {
  }

  lemma SameScanIff(c: Component, kept: seq<Event>, i: nat, k: nat)
    requires Sorted(kept) && i < k < |kept| && kept[i] == kept[k]
    requires PlainScan(Fresh(c, kept[i].time), kept[i + 1..]).resolvedAt == Some(kept[i].time)
    ensures PlainScan(Fresh(c, kept[i].time), kept[i + 1..]) == PlainScan(Fresh(c, kept[k].time), kept[k + 1..])
            <==> EndsAlike(c, kept, i, k)
  {
    SuffixOfSorted(kept, i);
    SuffixOfSorted(kept, k);
    var t, a, b := kept[i].time, kept[i + 1..], kept[k + 1..];
    ScanParts(c, t, a);
    ScanParts(c, t, b);
    hide PlainScan, Episode, Closing, VerdictKind, HasAttempt, Sorted, NoneBefore, Close, HasParts;
    PartsDecide(c, t, PlainScan(Fresh(c, t), a), Closing(c, a), HasAttempt(Episode(c, a)), VerdictKind(Episode(c, a)),
                PlainScan(Fresh(c, t), b), Closing(c, b), HasAttempt(Episode(c, b)), VerdictKind(Episode(c, b)));
  }

  /** Between two equal outages that were both kept, the first ends, in the same second. */
  lemma RepeatEndsAtOnce(c: Component, es: seq<Event>, i: nat, k: nat)
    requires Sorted(es) && i < k < |Dedupe(es, {})|
    requires Opens(Dedupe(es, {})[i], c) && Dedupe(es, {})[i] == Dedupe(es, {})[k]
    ensures var kept := Dedupe(es, {});
            PlainScan(Fresh(c, kept[i].time), kept[i + 1..]).resolvedAt == Some(kept[i].time)
  {
    hide Dedupe, PlainScan, FreeAfter, Sorted, Scan;
    var kept := Dedupe(es, {});
    SplitHere(kept, i);
    SplitDedupe(es, {}, kept[..i], kept[i], kept[i + 1..]);
    assert kept[i + 1..][k - i - 1] == kept[k];
    FreeAfterUse(PlainScan(Fresh(c, kept[i].time), kept[i + 1..]), c, kept[i].time, kept[i + 1..], k - i - 1);
  }

  lemma {:induction false} DedupeIsSorted(es: seq<Event>, active: set<Component>)
    requires Sorted(es)
    ensures Sorted(Dedupe(es, active))
  {
    if es != [] {
      DedupeIsSorted(es[1..], ActiveAfter(es[0], active));
      DedupeIsSubsequence(es[1..], ActiveAfter(es[0], active));
      DedupeStep(es, active);
      var rest := Dedupe(es[1..], ActiveAfter(es[0], active));
      assert ([es[0]] + rest)[1..] == rest;
    }
  }

  ghost predicate ScannedPlainly(c: Component, kept: seq<Event>, m: nat)
    requires m < |kept|
  {
    Opens(kept[m], c) ==> IncidentOf(kept, kept[m]) == PlainScan(Fresh(c, kept[m].time), kept[m + 1..])
  }

  lemma {:induction false} ListsAgreeIff(c: Component, kept: seq<Event>, k: nat)
    requires k <= |kept|
    ensures IncidentsFrom(c, kept, k) == PlainIncidents(c, kept[k..])
            <==> forall m :: k <= m < |kept| ==> ScannedPlainly(c, kept, m)
    ensures |IncidentsFrom(c, kept, k)| == |PlainIncidents(c, kept[k..])|
    decreases |kept| - k
  {
    hide IncidentOf, PlainScan, ScannedPlainly;
    if k < |kept| {
      ListsAgreeIff(c, kept, k + 1);
      assert kept[k..][1..] == kept[k + 1..];
      var a, b := IncidentsFrom(c, kept, k + 1), PlainIncidents(c, kept[k + 1..]);
      if Opens(kept[k], c) {
        var x, y := IncidentOf(kept, kept[k]), PlainScan(Fresh(c, kept[k].time), kept[k + 1..]);
        assert IncidentsFrom(c, kept, k) == [x] + a && PlainIncidents(c, kept[k..]) == [y] + b;
        OutageIs(c, kept, k, x, y);
        SameHeads(x, a, y, b);
      } else {
        NotAnOutage(c, kept, k);
        assert IncidentsFrom(c, kept, k) == [] + a == a && PlainIncidents(c, kept[k..]) == [] + b == b;
      }
      assert (forall m :: k <= m < |kept| ==> ScannedPlainly(c, kept, m))
          <==> ScannedPlainly(c, kept, k) && forall m :: k + 1 <= m < |kept| ==> ScannedPlainly(c, kept, m);
    }
  }

  lemma OutageIs(c: Component, kept: seq<Event>, m: nat, x: Incident, y: Incident)
    requires m < |kept| && Opens(kept[m], c)
    requires x == IncidentOf(kept, kept[m]) && y == PlainScan(Fresh(c, kept[m].time), kept[m + 1..])
    ensures ScannedPlainly(c, kept, m) <==> x == y
  {
  }

  lemma NotAnOutage(c: Component, kept: seq<Event>, m: nat)
    requires m < |kept| && !Opens(kept[m], c)
    ensures ScannedPlainly(c, kept, m)
  {
  }

  lemma SameHeads(x: Incident, a: seq<Incident>, y: Incident, b: seq<Incident>)
    ensures [x] + a == [y] + b <==> x == y && a == b
  {
    assert ([x] + a)[0] == x && ([y] + b)[0] == y;
    assert ([x] + a)[1..] == a && ([y] + b)[1..] == b;
  }

  /** Outage `m` is scanned plainly exactly if it ends like the first record equal to it. */
  lemma ScannedPlainlyIff(c: Component, es: seq<Event>, m: nat)
    requires Sorted(es) && m < |Dedupe(es, {})| && Opens(Dedupe(es, {})[m], c)
    ensures var kept := Dedupe(es, {});
            var first := FirstIndex(kept, kept[m]);
            && first <= m
            && (ScannedPlainly(c, kept, m) <==> first == m || EndsAlike(c, kept, first, m))
  {
    var kept := Dedupe(es, {});
    var first := OutageTail(c, es, m);
    DedupeIsSorted(es, {});
    if first < m {
      RepeatEndsAtOnce(c, es, first, m);
      hide Dedupe, FirstIndex, IncidentOf, PlainScan, FreeAfter, Sorted, EndsAlike;
      SameScanIff(c, kept, first, m);
    }
  }

  /** Two equal outages that are both scanned plainly end alike. */
  lemma PlainRepeatsAgree(c: Component, es: seq<Event>, i: nat, k: nat)
    requires Sorted(es) && i < k < |Dedupe(es, {})|
    requires Opens(Dedupe(es, {})[i], c) && Dedupe(es, {})[i] == Dedupe(es, {})[k]
    requires ScannedPlainly(c, Dedupe(es, {}), i) && ScannedPlainly(c, Dedupe(es, {}), k)
    ensures EndsAlike(c, Dedupe(es, {}), i, k)
  {
    var kept := Dedupe(es, {});
    DedupeIsSorted(es, {});
    RepeatEndsAtOnce(c, es, i, k);
    SameScanIff(c, kept, i, k);
  }

  /** The quadratic scan computes the plain incidents exactly on the logs in which equal outages end alike: the later one
      in its own second, in the same way and with the same notes. */
  lemma IncidentsArePlainIff(c: Component, log: seq<Event>)
    ensures var kept := Dedupe(Sort(log), {});
            Incidents(c, log) == PlainIncidents(c, kept) <==> RepeatsEndAlike(c, kept)
  {
    hide Dedupe, IncidentsFrom, PlainIncidents, ScannedPlainly, EndsAlike, FirstIndex, Sorted, Sort, AtTime;
    SortIsStable(log);
    var es := Sort(log);
    var kept := Dedupe(es, {});
    ListsAgreeIff(c, kept, 0);
    assert kept[0..] == kept;
    if RepeatsEndAlike(c, kept) {
      forall m: nat | m < |kept| ensures ScannedPlainly(c, kept, m) {
        if Opens(kept[m], c) {
          ScannedPlainlyIff(c, es, m);
        } else {
          NotAnOutage(c, kept, m);
        }
      }
    }
    if forall m :: 0 <= m < |kept| ==> ScannedPlainly(c, kept, m) {
      forall i: nat, k: nat | i < k < |kept| && Opens(kept[i], c) && kept[i] == kept[k] ensures EndsAlike(c, kept, i, k) {
        PlainRepeatsAgree(c, es, i, k);
      }
    }
  }

  /** No OFFLINE record of `c` occurs twice. */
  ghost predicate OutagesOnce(c: Component, log: seq<Event>) {
    forall e :: e in log && Opens(e, c) ==> multiset(log)[e] == 1
  }

  lemma {:induction false} DedupeCounts(es: seq<Event>, active: set<Component>, e: Event)
    ensures multiset(Dedupe(es, active))[e] <= multiset(es)[e]
  {
    if es != [] {
      DedupeCounts(es[1..], ActiveAfter(es[0], active), e);
      assert es == [es[0]] + es[1..];
    }
  }

  lemma TwiceCounts(es: seq<Event>, i: nat, k: nat)
    requires i < k < |es| && es[i] == es[k]
    ensures multiset(es)[es[k]] >= 2
  {
    assert es == es[..i] + [es[i]] + (es[i + 1..k] + [es[k]] + es[k + 1..]);
  }

  /** In particular it does so when no outage is recorded twice; other records may repeat. */
  lemma IncidentsArePlain(c: Component, log: seq<Event>)
    requires OutagesOnce(c, log)
    ensures Incidents(c, log) == PlainIncidents(c, Dedupe(Sort(log), {}))
  {
    IncidentsArePlainIff(c, log);
    hide Incidents, PlainIncidents, EndsAlike, Dedupe;
    var kept := Dedupe(Sort(log), {});
    forall i: nat, k: nat | i < k < |kept| && Opens(kept[i], c) ensures kept[i] != kept[k] {
      KeptOnce(c, log, i, k);
    }
  }

  lemma KeptOnce(c: Component, log: seq<Event>, i: nat, k: nat)
    requires OutagesOnce(c, log) && i < k < |Dedupe(Sort(log), {})| && Opens(Dedupe(Sort(log), {})[i], c)
    ensures Dedupe(Sort(log), {})[i] != Dedupe(Sort(log), {})[k]
  {
    SortIsStable(log);
    var kept := Dedupe(Sort(log), {});
    DedupeCounts(Sort(log), {}, kept[i]);
    hide Dedupe, Sort, Sorted;
    assert multiset(kept)[kept[i]] > 0;
    assert kept[i] in log;
    if kept[i] == kept[k] {
      TwiceCounts(kept, i, k);
    }
  }

  /** Equal outages that do not end alike defeat `events.index`: the second outage of this log never ended, and takes
      the end of the first. */
  lemma EqualRecordsShareAnIncident()
    ensures var off := Event(5, Offline(Asterisk), "");
            var log := [off, Event(5, Online(Asterisk), ""), off];
            && Incidents(Asterisk, log) != PlainIncidents(Asterisk, Dedupe(Sort(log), {}))
            && |Incidents(Asterisk, log)| == 2 && Incidents(Asterisk, log)[1].resolvedAt == Some(5)
  {
    var off := Event(5, Offline(Asterisk), "");
    var on := Event(5, Online(Asterisk), "");
    var log := [off, on, off];
    hide Dedupe, Sort, IncidentOf, Scan, FirstIndex, EndsAlike, PlainIncidents, IncidentsFrom;
    ThreeRecords(off, on);
    SharedScan(off, on);
    NeverEnds(off, on);
    IncidentsArePlainIff(Asterisk, log);
    assert Opens(log[0], Asterisk) && log[0] == log[2];
    NoMoreIncidents(Asterisk, log);
    IncidentsStep(Asterisk, log, 2);
    IncidentsStep(Asterisk, log, 1);
    IncidentsStep(Asterisk, log, 0);
    assert [IncidentOf(log, off)] + [] == [IncidentOf(log, off)];
  }

  lemma NeverEnds(off: Event, on: Event)
    ensures !EndsAlike(Asterisk, [off, on, off], 0, 2)
  {
    assert [off, on, off][3..] == [];
  }

  lemma ThreeRecords(off: Event, on: Event)
    requires off.kind == Offline(Asterisk) && on.kind == Online(Asterisk) && off.time == on.time
    ensures Dedupe(Sort([off, on, off]), {}) == [off, on, off]
  {
    var log := [off, on, off];
    assert log[1..] == [on, off] && log[2..] == [off] && [on, off][1..] == [off];
    assert Sort([off]) == [off];
    assert Sort([on, off]) == [on, off];
    assert Sort(log) == log;
    assert ActiveAfter(off, {}) == {Asterisk} && ActiveAfter(on, {Asterisk}) == {};
    hide Sort;
    assert Dedupe([off], {}) == [off];
    assert Dedupe([on, off], {Asterisk}) == [on, off];
    DedupeStep(log, {});
  }

  lemma SharedScan(off: Event, on: Event)
    requires off.kind == Offline(Asterisk) && on.kind == Online(Asterisk) && off.time == on.time
    ensures IncidentOf([off, on, off], off).resolvedAt == Some(on.time)
  {
    var log := [off, on, off];
    assert FirstIndex(log, off) == 0;
    assert log[1..] == [on] + [off];
    hide Scan, FirstIndex;
    ScanCons(Fresh(Asterisk, off.time), on, [off]);
  }

  // ---------------------------------------------------------------------------------------------------
  // The loops of `build_incident_records`.

  lemma DedupeAt(es: seq<Event>, i: nat, active: set<Component>, done: seq<Event>)
    requires i < |es|
    ensures var rest := Dedupe(es[i + 1..], ActiveAfter(es[i], active));
            done + Dedupe(es[i..], active) == (if Dropped(es[i], active) then done else done + [es[i]]) + rest
  {
    hide Dedupe;
    DedupeStep(es[i..], active);
    assert es[i..][0] == es[i] && es[i..][1..] == es[i + 1..];
    hide ActiveAfter, Dropped;
  }

  method DedupeEvents(es: seq<Event>) returns (transitions: seq<Event>)
    ensures transitions == Dedupe(es, {})
  {
    var active: set<Component> := {};
    transitions := [];
    for i := 0 to |es|
      invariant transitions + Dedupe(es[i..], active) == Dedupe(es, {})
    {
      hide Dedupe;
      var item := es[i];
      DedupeAt(es, i, active, transitions);
      ghost var next := ActiveAfter(item, active);
      var kept := true;
      if item.kind.Offline? {
        if item.kind.component in active {
          kept := false;
        } else {
          active := active + {item.kind.component};
        }
      } else if item.kind.Online? || item.kind.Normal? {
        active := active - {item.kind.component};
      }
      assert active == next;
      if kept {
        transitions := transitions + [item];
      }
    }
    assert es[|es|..] == [];
  }

  method ScanOutage(es: seq<Event>, offline: Event) returns (record: Incident)
    requires offline in es && offline.kind.Offline?
    ensures record == IncidentOf(es, offline)
  {
    var c := offline.kind.component;
    record := Fresh(c, offline.time);
    var j := FirstIndex(es, offline) + 1;
    while j < |es|
      invariant j <= |es| && record.component == c && record.startedAt == offline.time
      invariant Scan(record, es[j..]) == IncidentOf(es, offline)
    {
      var item := es[j];
      assert es[j..][0] == item && es[j..][1..] == es[j + 1..];
      if item.time >= offline.time {
        if item.kind == Offline(c) && (c.Internet? || item.time > offline.time) {
          return;
        }
        if (item.kind.Online? || item.kind.Normal?) && item.kind.component == c {
          record := Close(record, item);
          return;
        }
        if c.Asterisk? {
          record := NoteRecovery(record, item);
        }
      }
      j := j + 1;
    }
    assert es[j..] == [];
  }

  lemma IncidentsStep(c: Component, es: seq<Event>, k: nat)
    requires k < |es|
    ensures IncidentsFrom(c, es, k) ==
            if Opens(es[k], c) then [IncidentOf(es, es[k])] + IncidentsFrom(c, es, k + 1) else IncidentsFrom(c, es, k + 1)
  {
  }

  lemma NoMoreIncidents(c: Component, es: seq<Event>)
    ensures IncidentsFrom(c, es, |es|) == []
  {
  }

  method IncidentsOf(c: Component, es: seq<Event>) returns (records: seq<Incident>)
    ensures records == IncidentsFrom(c, es, 0)
  {
    hide IncidentOf, IncidentsFrom;
    records := [];
    for k := 0 to |es|
      invariant records + IncidentsFrom(c, es, k) == IncidentsFrom(c, es, 0)
    {
      IncidentsStep(c, es, k);
      if es[k].kind == Offline(c) {
        var record := ScanOutage(es, es[k]);
        assert (records + [record]) + IncidentsFrom(c, es, k + 1) == records + ([record] + IncidentsFrom(c, es, k + 1));
        records := records + [record];
      }
    }
    NoMoreIncidents(c, es);
  }

  method BuildIncidentRecords(log: seq<Event>) returns (records: seq<Incident>)
    ensures records == Incidents(Asterisk, log) + Incidents(Internet, log)
  {
    var events := DedupeEvents(Sort(log));
    var asterisk := IncidentsOf(Asterisk, events);
    var internet := IncidentsOf(Internet, events);
    records := asterisk + internet;
  }
}
