/** Closures across builds (core/intelligence.py): `restore_inferred_resolutions`, `reconcile_incidents` and the
    part of `build_intelligence` that hands the inferred closures of one build to the next. */
module IncidentHistory {
  import opened Prelude
  import opened Intelligence

  /** An outage that a health observation closed. */
  datatype Closure = Closure(component: Component, startedAt: int, resolvedAt: int)

  /** The latest health check: its time, and whether each component was seen online. */
  datatype Observation = Observation(time: int, asteriskOnline: bool, internetOnline: bool) {
    predicate Online(c: Component) {
      if c.Asterisk? then asteriskOnline else internetOnline
    }
  }

  function NormalEvent(x: Closure): Event {
    Event(x.resolvedAt, Normal(x.component, true), "")
  }

  /** A closure is replayed when its outage is still in the log and its end does not precede its start. */
  predicate Usable(log: seq<Event>, x: Closure) {
    && (exists e :: e in log && e.kind == Offline(x.component) && e.time == x.startedAt)
    && x.startedAt <= x.resolvedAt
  }

  function RestoreOne(es: seq<Event>, log: seq<Event>, x: Closure): seq<Event> {
    if Usable(log, x) then Insert(es, NormalEvent(x)) else es
  }

  function RestoreInto(es: seq<Event>, log: seq<Event>, prior: seq<Closure>): seq<Event>
    decreases prior
  {
    if prior == [] then es else RestoreInto(RestoreOne(es, log, prior[0]), log, prior[1..])
  }

  function Restored(log: seq<Event>, prior: seq<Closure>): seq<Event> {
    RestoreInto(log, log, prior)
  }

  /** The last prior closure with the key of `r`. */
  function Lookup(prior: seq<Closure>, r: Incident): Option<Closure> {
    if prior == [] then None
    else
      var x := prior[|prior| - 1];
      if x.component == r.component && x.startedAt == r.startedAt then Some(x) else Lookup(prior[..|prior| - 1], r)
  }

  function WithPrior(r: Incident, prior: seq<Closure>): Incident {
    match Lookup(prior, r)
    case None => r
    case Some(x) => r.(resolvedAt := Some(x.resolvedAt), inferred := true, duration := None)
  }

  function WithObservation(r: Incident, seen: Option<Observation>): Incident {
    if seen.Some? && r.resolvedAt.None? && seen.value.Online(r.component) && seen.value.time >= r.startedAt
    then r.(resolvedAt := Some(seen.value.time), inferred := true, duration := None)
    else r
  }

  function Settled(r: Incident, prior: seq<Closure>, seen: Option<Observation>): Incident {
    WithObservation(WithPrior(r, prior), seen)
  }

  function Reconciled(rs: seq<Incident>, prior: seq<Closure>, seen: Option<Observation>): seq<Incident> {
    seq(|rs|, i requires 0 <= i < |rs| => Settled(rs[i], prior, seen))
  }

  function Closures(rs: seq<Incident>): seq<Closure> {
    if rs == [] then []
    else
      var r := rs[0];
      (if r.resolvedAt.Some? && r.inferred then [Closure(r.component, r.startedAt, r.resolvedAt.value)] else [])
      + Closures(rs[1..])
  }

  /** One build. */
  function Build(log: seq<Event>, prior: seq<Closure>, seen: Option<Observation>): seq<Incident> {
    var events := Restored(log, prior);
    Reconciled(Incidents(Asterisk, events) + Incidents(Internet, events), prior, seen)
  }

  // ---------------------------------------------------------------------------------------------------
  // The loops.

  lemma InsertSkips(es: seq<Event>, i: nat, e: Event)
    requires i < |es| && es[i].time < e.time
    ensures es[..i] + Insert(es[i..], e) == es[..i + 1] + Insert(es[i + 1..], e)
  {
    assert es[i..][0] == es[i] && es[i..][1..] == es[i + 1..];
    assert Insert(es[i..], e) == [es[i]] + Insert(es[i + 1..], e);
    hide Insert;
    assert es[..i + 1] == es[..i] + [es[i]];
    Regroup(es[..i], es[i], Insert(es[i + 1..], e));
  }

  lemma Regroup<T>(a: seq<T>, x: T, b: seq<T>)
    ensures a + ([x] + b) == (a + [x]) + b
  {
  }

  /** `next(index ... if timestamp >= resolved)` and `list.insert`. */
  method InsertTransition(es: seq<Event>, e: Event) returns (restored: seq<Event>)
    ensures restored == Insert(es, e)
  {
    var i := 0;
    while i < |es| && es[i].time < e.time
      invariant i <= |es|
      invariant es[..i] + Insert(es[i..], e) == Insert(es, e)
    {
      InsertSkips(es, i, e);
      i := i + 1;
    }
    assert Insert(es[i..], e) == [e] + es[i..];
    hide Insert;
    restored := es[..i] + [e] + es[i..];
  }

  method RestoreInferredResolutions(log: seq<Event>, prior: seq<Closure>) returns (restored: seq<Event>)
    ensures restored == Restored(log, prior)
  {
    restored := log;
    for k := 0 to |prior|
      invariant RestoreInto(restored, log, prior[k..]) == Restored(log, prior)
    {
      assert prior[k..][0] == prior[k] && prior[k..][1..] == prior[k + 1..];
      if Usable(log, prior[k]) {
        restored := InsertTransition(restored, NormalEvent(prior[k]));
      }
    }
    assert prior[|prior|..] == [];
  }

  method ReconcileIncidents(rs: seq<Incident>, prior: seq<Closure>, seen: Option<Observation>)
    returns (records: seq<Incident>)
    ensures records == Reconciled(rs, prior, seen)
  {
    records := rs;
    for i := 0 to |rs|
      invariant |records| == |rs|
      invariant forall j :: 0 <= j < i ==> records[j] == WithPrior(rs[j], prior)
      invariant forall j :: i <= j < |rs| ==> records[j] == rs[j]
    {
      var found := Lookup(prior, records[i]);
      if found.Some? {
        records := records[i := records[i].(resolvedAt := Some(found.value.resolvedAt),
                                            inferred := true, duration := None)];
      }
    }
    if seen.None? {
      return;
    }
    for i := 0 to |rs|
      invariant |records| == |rs|
      invariant forall j :: 0 <= j < i ==> records[j] == Settled(rs[j], prior, seen)
      invariant forall j :: i <= j < |rs| ==> records[j] == WithPrior(rs[j], prior)
    {
      var r := records[i];
      if r.resolvedAt.None? && seen.value.Online(r.component) && seen.value.time >= r.startedAt {
        records := records[i := r.(resolvedAt := Some(seen.value.time), inferred := true, duration := None)];
      }
    }
  }

  // ---------------------------------------------------------------------------------------------------
  // When an OFFLINE survives de-duplication.

  /** Whether component `c` is in an outage after `es`. */
  function Open(c: Component, es: seq<Event>, open: bool): bool {
    if es == [] then open
    else Open(c, es[1..], if Opens(es[0], c) then true else if Closes(es[0], c) then false else open)
  }

  /** The events before the first occurrence of `e`. */
  function Before(es: seq<Event>, e: Event): seq<Event> {
    if es == [] || es[0] == e then [] else [es[0]] + Before(es[1..], e)
  }

  /** An outage of `c` begins at or after `t`. */
  ghost predicate OutageFrom(es: seq<Event>, c: Component, t: int) {
    exists e :: e in es && Opens(e, c) && e.time >= t
  }

  ghost predicate Once(es: seq<Event>, e: Event) {
    multiset(es)[e] == 1
  }

  lemma OnceTail(es: seq<Event>, e: Event)
    requires Once(es, e)
    ensures es != []
    ensures if es[0] == e then e !in es[1..] else Once(es[1..], e)
  {
    assert es == [es[0]] + es[1..];
    assert multiset(es)[e] == multiset([es[0]])[e] + multiset(es[1..])[e];
  }

  lemma OpenCons(c: Component, e: Event, es: seq<Event>, active: set<Component>)
    ensures Open(c, [e] + es, c in active) == Open(c, es, c in ActiveAfter(e, active))
  {
    assert ([e] + es)[1..] == es;
  }

  /** De-duplication keeps an OFFLINE exactly if the component was not already offline before it. */
  lemma {:induction false} KeptIff(es: seq<Event>, active: set<Component>, e: Event, c: Component)
    requires Once(es, e) && Opens(e, c)
    ensures e in Dedupe(es, active) <==> !Open(c, Before(es, e), c in active)
  {
    OnceTail(es, e);
    DedupeStep(es, active);
    hide Dedupe, Once;
    var tail, next := es[1..], ActiveAfter(es[0], active);
    if es[0] == e {
      DedupeIsSubsequence(tail, next);
    } else {
      KeptIff(tail, next, e, c);
      hide Open;
      OpenCons(c, es[0], Before(tail, e), active);
    }
  }

  lemma {:induction false} BeforeIsPrefix(es: seq<Event>, e: Event)
    requires Sorted(es) && e in es
    ensures Sorted(Before(es, e)) && forall x :: x in Before(es, e) ==> x in es && x.time <= e.time
  {
    if es[0] != e {
      BeforeIsPrefix(es[1..], e);
      assert Before(es, e)[1..] == Before(es[1..], e);
    }
  }

  /** Inserting an event that is not later than `e` inserts it before `e`; a later one leaves that part alone. */
  lemma {:induction false} BeforeInsert(es: seq<Event>, n: Event, e: Event)
    requires Sorted(es) && e in es && n != e
    ensures Before(Insert(es, n), e) == if n.time <= e.time then Insert(Before(es, e), n) else Before(es, e)
  {
    var tail := es[1..];
    if es[0].time >= n.time {
      assert ([n] + es)[1..] == es;
      assert e == es[0] || e in tail;
    } else if es[0] == e {
      assert Insert(es, n)[0] == e;
    } else {
      BeforeInsert(tail, n, e);
      assert Insert(es, n)[1..] == Insert(tail, n);
    }
  }

  /** A NORMAL closes an open outage unless a later OFFLINE of its component follows it. */
  lemma {:induction false} OpenInsert(es: seq<Event>, n: Event, c: Component, open: bool)
    requires Sorted(es) && n.kind.Normal?
    ensures Open(c, Insert(es, n), open) ==
            (Open(c, es, open) && (n.kind.component == c ==> OutageFrom(es, c, n.time)))
  {
    if es == [] || es[0].time >= n.time {
      assert ([n] + es)[1..] == es;
      if n.kind.component == c {
        OpenNeedsOutage(es, n.time, c);
        OpenMonotone(es, c, open);
        if OutageFrom(es, c, n.time) {
          OutageForgets(es, c, open);
        }
      }
    } else {
      var tail := es[1..];
      var next := if Opens(es[0], c) then true else if Closes(es[0], c) then false else open;
      OpenInsert(tail, n, c, next);
      assert Insert(es, n)[1..] == Insert(tail, n);
      assert OutageFrom(es, c, n.time) <==> OutageFrom(tail, c, n.time);
    }
  }

  /** Without an OFFLINE of `c` nothing opens an outage. */
  lemma {:induction false} OpenNeedsOutage(es: seq<Event>, t: int, c: Component)
    requires NoneBefore(es, t)
    ensures Open(c, es, false) ==> OutageFrom(es, c, t)
  {
    if es != [] {
      assert es[0] in es;
      if !Opens(es[0], c) {
        OpenNeedsOutage(es[1..], t, c);
      }
    }
  }

  lemma {:induction false} OpenMonotone(es: seq<Event>, c: Component, open: bool)
    ensures Open(c, es, false) ==> Open(c, es, open)
  {
    if es != [] && !Opens(es[0], c) && !Closes(es[0], c) {
      OpenMonotone(es[1..], c, open);
    }
  }

  /** An OFFLINE makes the state before it irrelevant. */
  lemma {:induction false} OutageForgets(es: seq<Event>, c: Component, open: bool)
    requires exists e :: e in es && Opens(e, c)
    ensures Open(c, es, open) == Open(c, es, false)
  {
    if !Opens(es[0], c) && !Closes(es[0], c) {
      OutageForgets(es[1..], c, open);
    }
  }

  lemma OutageFromInsert(es: seq<Event>, n: Event, c: Component, t: int)
    requires n.kind.Normal?
    ensures OutageFrom(Insert(es, n), c, t) <==> OutageFrom(es, c, t)
  {
    InsertContents(es, n);
  }

  /** The replayed closures that end the outage before `e` in time. */
  ghost predicate Separates(log: seq<Event>, b: seq<Event>, x: Closure, e: Event, c: Component) {
    && Usable(log, x) && x.component == c && x.resolvedAt <= e.time
    && !OutageFrom(b, c, x.resolvedAt)
  }

  lemma OneRestored(es: seq<Event>, log: seq<Event>, x: Closure, e: Event, c: Component)
    requires Sorted(es) && Once(es, e) && Opens(e, c)
    ensures var mid := RestoreOne(es, log, x);
            && Sorted(mid) && Once(mid, e)
            && (Open(c, Before(mid, e), false) <==>
                Open(c, Before(es, e), false) && !Separates(log, Before(es, e), x, e, c))
            && forall t: int :: OutageFrom(Before(mid, e), c, t) <==> OutageFrom(Before(es, e), c, t)
  {
    var b := Before(es, e);
    var mid := RestoreOne(es, log, x);
    assert e in multiset(es);
    if Usable(log, x) {
      var n := NormalEvent(x);
      InsertKeepsSorted(es, n);
      InsertContents(es, n);
      BeforeInsert(es, n, e);
      BeforeIsPrefix(es, e);
      OpenInsert(b, n, c, false);
      forall t: int ensures OutageFrom(Before(mid, e), c, t) <==> OutageFrom(b, c, t) {
        OutageFromInsert(b, n, c, t);
      }
    }
    hide Open, OutageFrom, Before, Insert, Sorted, Usable;
  }

  /** In the restored log, `e` falls into an open outage exactly when it does in the log and no replayed closure
      lies between the last outage before it and `e`. */
  lemma {:induction false} OpenRestored(es: seq<Event>, log: seq<Event>, prior: seq<Closure>, e: Event, c: Component)
    requires Sorted(es) && Once(es, e) && Opens(e, c)
    ensures var after := RestoreInto(es, log, prior);
            && Sorted(after) && Once(after, e)
            && (Open(c, Before(after, e), false) <==>
                && Open(c, Before(es, e), false)
                && forall x :: x in prior ==> !Separates(log, Before(es, e), x, e, c))
    decreases prior
  {
    if prior != [] {
      var x := prior[0];
      var mid := RestoreOne(es, log, x);
      hide RestoreInto, RestoreOne, Open, OutageFrom, Before, Insert, Sorted, Usable, Once;
      OneRestored(es, log, x, e, c);
      OpenRestored(mid, log, prior[1..], e, c);
      assert forall y :: Separates(log, Before(mid, e), y, e, c) <==> Separates(log, Before(es, e), y, e, c);
      assert forall y :: y in prior <==> y == x || y in prior[1..];
    }
  }

  // ---------------------------------------------------------------------------------------------------
  // Incidents of a build.

  lemma {:induction false} IncidentsInclude(c: Component, es: seq<Event>, k: nat)
    requires k <= |es|
    ensures forall r :: r in IncidentsFrom(c, es, k) <==>
                        exists i :: k <= i < |es| && Opens(es[i], c) && r == IncidentOf(es, es[i])
    decreases |es| - k
  {
    hide IncidentOf;
    if k < |es| {
      IncidentsInclude(c, es, k + 1);
    }
  }

  lemma {:induction false} ScanKeepsKey(r: Incident, rest: seq<Event>)
    ensures var s := Scan(r, rest); s.component == r.component && s.startedAt == r.startedAt
    ensures (r.resolvedAt.Some? ==> r.resolvedAt.value >= r.startedAt) ==>
              var s := Scan(r, rest); s.resolvedAt.Some? ==> s.resolvedAt.value >= s.startedAt
    decreases rest
  {
    if rest != [] {
      ScanKeepsKey(r, rest[1..]);
      ScanKeepsKey(Noted(r, rest[0]), rest[1..]);
    }
  }

  /** The incident of `e`, if de-duplication of the restored log keeps it. */
  ghost predicate Own(log: seq<Event>, prior: seq<Closure>, e: Event) {
    e in Dedupe(Restored(log, prior), {})
  }

  /** Exactly which outages have an incident of their own: those that the log itself separates from the outage
      before them, and those that a replayed closure does. */
  lemma OwnIncidentIff(log: seq<Event>, prior: seq<Closure>, e: Event)
    requires Sorted(log) && e in log && e.kind.Offline? && Once(log, e)
    ensures var c := e.kind.component;
            Own(log, prior, e) <==>
            || !Open(c, Before(log, e), false)
            || exists x :: x in prior && Separates(log, Before(log, e), x, e, c)
  {
    OpenRestored(log, log, prior, e, e.kind.component);
    KeptIff(Restored(log, prior), {}, e, e.kind.component);
  }

  function KeptEvents(log: seq<Event>, prior: seq<Closure>): seq<Event> {
    Dedupe(Restored(log, prior), {})
  }

  lemma {:induction false} RestoredAddsNormals(es: seq<Event>, log: seq<Event>, prior: seq<Closure>)
    ensures forall e :: e in RestoreInto(es, log, prior) && e.kind.Offline? ==> e in es
    decreases prior
  {
    if prior != [] {
      if Usable(log, prior[0]) {
        InsertContents(es, NormalEvent(prior[0]));
      }
      RestoredAddsNormals(RestoreOne(es, log, prior[0]), log, prior[1..]);
    }
  }

  lemma OwnIsLogged(log: seq<Event>, prior: seq<Closure>, e: Event)
    requires e.kind.Offline? && Own(log, prior, e)
    ensures e in log
  {
    DedupeIsSubsequence(Restored(log, prior), {});
    RestoredAddsNormals(log, log, prior);
  }

  lemma {:induction false} RestoredIsSorted(es: seq<Event>, log: seq<Event>, prior: seq<Closure>)
    requires Sorted(es)
    ensures Sorted(RestoreInto(es, log, prior))
    decreases prior
  {
    if prior != [] {
      if Usable(log, prior[0]) {
        InsertKeepsSorted(es, NormalEvent(prior[0]));
      }
      RestoredIsSorted(RestoreOne(es, log, prior[0]), log, prior[1..]);
    }
  }

  /** The record that a build makes of a kept outage. */
  function RecordOf(log: seq<Event>, prior: seq<Closure>, seen: Option<Observation>, e: Event): Incident
    requires e.kind.Offline? && e in KeptEvents(log, prior)
  {
    Settled(IncidentOf(KeptEvents(log, prior), e), prior, seen)
  }

  lemma BuildShape(log: seq<Event>, prior: seq<Closure>, seen: Option<Observation>)
    requires Sorted(log)
    ensures var kept := KeptEvents(log, prior);
            Build(log, prior, seen) ==
            Reconciled(IncidentsFrom(Asterisk, kept, 0) + IncidentsFrom(Internet, kept, 0), prior, seen)
  {
    RestoredIsSorted(log, log, prior);
    SortOfSorted(Restored(log, prior));
    hide IncidentsFrom, Dedupe, Sorted, Sort, Reconciled;
  }

  lemma ReconciledIncludes(rs: seq<Incident>, prior: seq<Closure>, seen: Option<Observation>, r: Incident)
    requires r in rs
    ensures Settled(r, prior, seen) in Reconciled(rs, prior, seen)
  {
    hide Settled;
    var j :| 0 <= j < |rs| && rs[j] == r;
    assert Reconciled(rs, prior, seen)[j] == Settled(r, prior, seen);
  }

  lemma {:induction false} IncidentIsListed(c: Component, es: seq<Event>, e: Event, k: nat)
    requires Opens(e, c) && e in es && k <= FirstIndex(es, e)
    ensures IncidentOf(es, e) in IncidentsFrom(c, es, k)
    decreases |es| - k
  {
    hide IncidentOf, FirstIndex;
    assert IncidentsFrom(c, es, k) ==
           (if Opens(es[k], c) then [IncidentOf(es, es[k])] else []) + IncidentsFrom(c, es, k + 1);
    if k < FirstIndex(es, e) {
      IncidentIsListed(c, es, e, k + 1);
    }
  }

  lemma RecordIsBuilt(log: seq<Event>, prior: seq<Closure>, seen: Option<Observation>, e: Event)
    requires Sorted(log) && e.kind.Offline? && Own(log, prior, e)
    ensures RecordOf(log, prior, seen, e) in Build(log, prior, seen)
  {
    hide IncidentsFrom, IncidentOf, Dedupe, Restored, Build, Reconciled, Settled, FirstIndex, Sorted;
    var kept := KeptEvents(log, prior);
    BuildShape(log, prior, seen);
    IncidentIsListed(e.kind.component, kept, e, 0);
    var rs := IncidentsFrom(Asterisk, kept, 0) + IncidentsFrom(Internet, kept, 0);
    assert e.kind.component == Asterisk || e.kind.component == Internet;
    assert IncidentOf(kept, e) in rs;
    ReconciledIncludes(rs, prior, seen, IncidentOf(kept, e));
  }

  lemma BuiltIsRecord(log: seq<Event>, prior: seq<Closure>, seen: Option<Observation>, s: Incident) returns (e: Event)
    requires Sorted(log) && s in Build(log, prior, seen)
    ensures e.kind.Offline? && Own(log, prior, e) && s == RecordOf(log, prior, seen, e)
  {
    var kept := KeptEvents(log, prior);
    BuildShape(log, prior, seen);
    IncidentsInclude(Asterisk, kept, 0);
    IncidentsInclude(Internet, kept, 0);
    hide IncidentOf, Dedupe, Restored, IncidentsFrom, Sort;
    var rs := IncidentsFrom(Asterisk, kept, 0) + IncidentsFrom(Internet, kept, 0);
    var j :| 0 <= j < |Build(log, prior, seen)| && Build(log, prior, seen)[j] == s;
    assert rs[j] in IncidentsFrom(Asterisk, kept, 0) || rs[j] in IncidentsFrom(Internet, kept, 0);
    var i :| 0 <= i < |kept| && kept[i].kind.Offline? && rs[j] == IncidentOf(kept, kept[i]);
    e := kept[i];
  }

  lemma {:induction false} ClosuresInclude(rs: seq<Incident>)
    ensures forall x :: x in Closures(rs) <==>
                        exists r :: r in rs && r.inferred && r.resolvedAt == Some(x.resolvedAt)
                                    && r.component == x.component && r.startedAt == x.startedAt
  {
    if rs != [] {
      ClosuresInclude(rs[1..]);
      forall x ensures x in Closures(rs) <==>
                       exists r :: r in rs && r.inferred && r.resolvedAt == Some(x.resolvedAt)
                                   && r.component == x.component && r.startedAt == x.startedAt
      {
        assert forall r :: r in rs <==> r == rs[0] || r in rs[1..];
      }
    }
  }

  /** One closure for each outage. */
  ghost predicate Functional(prior: seq<Closure>) {
    forall x, y :: x in prior && y in prior && x.component == y.component && x.startedAt == y.startedAt ==> x == y
  }

  lemma {:induction false} LookupFinds(prior: seq<Closure>, r: Incident)
    ensures match Lookup(prior, r)
            case None => forall x :: x in prior ==> x.component != r.component || x.startedAt != r.startedAt
            case Some(x) => x in prior && x.component == r.component && x.startedAt == r.startedAt
  {
    if prior != [] {
      LookupFinds(prior[..|prior| - 1], r);
      assert prior == prior[..|prior| - 1] + [prior[|prior| - 1]];
    }
  }

  // ---------------------------------------------------------------------------------------------------
  // Which observation closes which outage.

  ghost predicate HasKey(prior: seq<Closure>, c: Component, t: int) {
    exists x :: x in prior && x.component == c && x.startedAt == t
  }

  /** An outage that nothing has closed is closed by the health check exactly if that sees the outage's own component
      online, no earlier than it began; it ends at the check. */
  lemma ObservationClosesIff(r: Incident, prior: seq<Closure>, seen: Option<Observation>)
    requires r.resolvedAt.None? && !HasKey(prior, r.component, r.startedAt)
    ensures var s := Settled(r, prior, seen);
            && (s.resolvedAt.Some? <==>
                  && seen.Some? && r.startedAt <= seen.value.time
                  && (if r.component == Asterisk then seen.value.asteriskOnline else seen.value.internetOnline))
            && (s.resolvedAt.Some? ==>
                  s == r.(resolvedAt := Some(seen.value.time), inferred := true, duration := None))
            && (s.resolvedAt.None? ==> s == r)
  {
    LookupFinds(prior, r);
  }

  /** A record with a prior closure ends as that says, and any other resolved record is left alone. */
  lemma OthersAreSettled(r: Incident, prior: seq<Closure>, seen: Option<Observation>)
    requires Functional(prior)
    ensures forall x :: x in prior && x.component == r.component && x.startedAt == r.startedAt ==>
                          Settled(r, prior, seen) == r.(resolvedAt := Some(x.resolvedAt), inferred := true, duration := None)
    ensures !HasKey(prior, r.component, r.startedAt) && r.resolvedAt.Some? ==> Settled(r, prior, seen) == r
  {
    LookupFinds(prior, r);
  }

  // ---------------------------------------------------------------------------------------------------
  // Messages tell equal outages apart, and nothing else.

  function Blank(es: seq<Event>): seq<Event> {
    if es == [] then [] else [es[0].(message := "")] + Blank(es[1..])
  }

  /** Every record with a message of its own. */
  function Tagged(log: seq<Event>): seq<Event> {
    seq(|log|, i requires 0 <= i < |log| => log[i].(message := seq(i, _ => 'x')))
  }

  lemma {:induction false} BlankAt(es: seq<Event>)
    ensures |Blank(es)| == |es| && forall i :: 0 <= i < |es| ==> Blank(es)[i] == es[i].(message := "")
  {
    if es != [] {
      BlankAt(es[1..]);
    }
  }

  lemma BlankCons(e: Event, es: seq<Event>)
    ensures Blank([e] + es) == [e.(message := "")] + Blank(es)
  {
    assert ([e] + es)[1..] == es;
  }

  lemma {:induction false} BlankDedupe(es: seq<Event>, active: set<Component>)
    ensures Blank(Dedupe(es, active)) == Dedupe(Blank(es), active)
  {
    if es != [] {
      hide Dedupe;
      var blank := es[0].(message := "");
      BlankDedupe(es[1..], ActiveAfter(es[0], active));
      DedupeStep(es, active);
      BlankCons(es[0], Dedupe(es[1..], ActiveAfter(es[0], active)));
      assert Blank(es) == [blank] + Blank(es[1..]) && ([blank] + Blank(es[1..]))[1..] == Blank(es[1..]);
      DedupeStep(Blank(es), active);
    } else {
      assert Dedupe([], active) == [];
    }
  }

  lemma {:induction false} BlankInsert(es: seq<Event>, n: Event)
    requires n.message == ""
    ensures Blank(Insert(es, n)) == Insert(Blank(es), n)
  {
    if es == [] || es[0].time >= n.time {
      BlankCons(n, es);
    } else {
      BlankInsert(es[1..], n);
      BlankCons(es[0], Insert(es[1..], n));
      assert Blank(es)[1..] == Blank(es[1..]);
    }
  }

  /** Some outage of `c` begins at `t`. */
  ghost predicate Begins(es: seq<Event>, c: Component, t: int) {
    exists e :: e in es && Opens(e, c) && e.time == t
  }

  lemma BlankBegins(es: seq<Event>, c: Component, t: int)
    ensures Begins(Blank(es), c, t) <==> Begins(es, c, t)
  {
    BlankAt(es);
    if e :| e in es && Opens(e, c) && e.time == t {
      var i :| 0 <= i < |es| && es[i] == e;
      assert Blank(es)[i] in Blank(es) && Opens(Blank(es)[i], c);
    }
    if e :| e in Blank(es) && Opens(e, c) && e.time == t {
      var i :| 0 <= i < |es| && Blank(es)[i] == e;
      assert es[i] in es && Opens(es[i], c);
    }
  }

  lemma UsableIsBegins(log: seq<Event>, x: Closure)
    ensures Usable(log, x) <==> Begins(log, x.component, x.startedAt) && x.startedAt <= x.resolvedAt
  {
  }

  lemma {:induction false} BlankRestored(es: seq<Event>, log: seq<Event>, prior: seq<Closure>)
    ensures Blank(RestoreInto(es, log, prior)) == RestoreInto(Blank(es), Blank(log), prior)
    decreases prior
  {
    if prior != [] {
      hide Blank, Insert, Usable;
      UsableIsBegins(log, prior[0]);
      UsableIsBegins(Blank(log), prior[0]);
      BlankBegins(log, prior[0].component, prior[0].startedAt);
      BlankInsert(es, NormalEvent(prior[0]));
      BlankRestored(RestoreOne(es, log, prior[0]), log, prior[1..]);
    }
  }

  /** A build keeps an outage of `c` from `t`. */
  ghost predicate KeyKept(log: seq<Event>, prior: seq<Closure>, c: Component, t: int) {
    Begins(KeptEvents(log, prior), c, t)
  }

  lemma KeyIgnoresMessages(log: seq<Event>, other: seq<Event>, prior: seq<Closure>, c: Component, t: int)
    requires Blank(log) == Blank(other)
    ensures KeyKept(log, prior, c, t) <==> KeyKept(other, prior, c, t)
  {
    hide Blank, Begins, Dedupe, RestoreInto;
    BlankRestored(log, log, prior);
    BlankRestored(other, other, prior);
    BlankDedupe(Restored(log, prior), {});
    BlankDedupe(Restored(other, prior), {});
    BlankBegins(KeptEvents(log, prior), c, t);
    BlankBegins(KeptEvents(other, prior), c, t);
  }

  lemma TaggedIsBlank(log: seq<Event>)
    ensures Blank(Tagged(log)) == Blank(log)
  {
    BlankAt(log);
    BlankAt(Tagged(log));
  }

  lemma UniqueIsOnce(es: seq<Event>, i: nat)
    requires i < |es| && forall j :: 0 <= j < |es| && j != i ==> es[j] != es[i]
    ensures Once(es, es[i]) && Before(es, es[i]) == es[..i]
  {
    assert es == es[..i] + [es[i]] + es[i + 1..];
    assert es[i] !in es[..i] && es[i] !in es[i + 1..];
    BeforeFirst(es, i);
  }

  lemma {:induction false} BeforeFirst(es: seq<Event>, i: nat)
    requires i < |es| && forall j :: 0 <= j < i ==> es[j] != es[i]
    ensures Before(es, es[i]) == es[..i]
  {
    if i > 0 {
      BeforeFirst(es[1..], i - 1);
      assert es[..i] == [es[0]] + es[1..][..i - 1];
    }
  }

  lemma TaggedOnce(log: seq<Event>, i: nat)
    requires i < |log|
    ensures Once(Tagged(log), Tagged(log)[i]) && Before(Tagged(log), Tagged(log)[i]) == Tagged(log)[..i]
  {
    forall j | 0 <= j < |log| && j != i ensures Tagged(log)[j] != Tagged(log)[i] {
      assert |Tagged(log)[j].message| == j && |Tagged(log)[i].message| == i;
    }
    UniqueIsOnce(Tagged(log), i);
  }

  lemma {:induction false} SameTimesSorted(a: seq<Event>, b: seq<Event>)
    requires Sorted(a) && |a| == |b| && forall i :: 0 <= i < |a| ==> a[i].time == b[i].time
    ensures Sorted(b)
  {
    if a != [] {
      SameTimesSorted(a[1..], b[1..]);
      forall e | e in b[1..] ensures b[0].time <= e.time {
        var i :| 0 <= i < |b[1..]| && b[1..][i] == e;
        assert a[1..][i] in a[1..];
      }
    }
  }

  lemma TaggedSorted(log: seq<Event>)
    requires Sorted(log)
    ensures Sorted(Tagged(log))
  {
    hide Sorted;
    SameTimesSorted(log, Tagged(log));
  }

  lemma {:induction false} SortedPrefix(log: seq<Event>, more: seq<Event>)
    requires Sorted(log + more)
    ensures Sorted(log)
  {
    if log != [] {
      assert (log + more)[1..] == log[1..] + more;
      SortedPrefix(log[1..], more);
      assert forall e :: e in log[1..] ==> e in (log + more)[1..];
    }
  }

  // ---------------------------------------------------------------------------------------------------
  // Closures over a sequence of builds.

  ghost predicate Anchored(log: seq<Event>, earlier: seq<Closure>, x: Closure) {
    x.startedAt <= x.resolvedAt && KeyKept(log, earlier, x.component, x.startedAt)
  }

  /** `prior` came out of a build over `log` and `earlier`. */
  ghost predicate Linked(log: seq<Event>, earlier: seq<Closure>, prior: seq<Closure>) {
    && (forall x :: x in earlier ==> x in prior)
    && Functional(prior)
    && (forall x :: x in prior ==> Anchored(log, earlier, x))
  }

  /** A transition that a build has restored; the log itself holds none. */
  predicate IsRestored(e: Event) {
    e.kind.Normal? && e.kind.inferred
  }

  ghost predicate GoodLog(log: seq<Event>) {
    Sorted(log) && forall e :: e in log ==> !IsRestored(e)
  }

  lemma {:induction false} BeforeInPrefix(log: seq<Event>, more: seq<Event>, e: Event)
    requires e in log
    ensures Before(log + more, e) == Before(log, e)
  {
    if log[0] != e {
      assert (log + more)[1..] == log[1..] + more;
      BeforeInPrefix(log[1..], more, e);
    }
  }

  /** A longer log and more replayed closures never make de-duplication drop an outage it kept. */
  lemma KeptStaysKept(log: seq<Event>, more: seq<Event>, earlier: seq<Closure>, prior: seq<Closure>, e: Event)
    requires Sorted(log) && Sorted(log + more) && e in log && e.kind.Offline? && Once(log, e) && Once(log + more, e)
    requires forall x :: x in earlier ==> x in prior
    requires Own(log, earlier, e)
    ensures Own(log + more, prior, e)
  {
    assert e in log + more;
    OwnIncidentIff(log, earlier, e);
    OwnIncidentIff(log + more, prior, e);
    BeforeInPrefix(log, more, e);
    assert forall x :: Usable(log, x) ==> Usable(log + more, x);
    assert forall x :: Separates(log, Before(log, e), x, e, e.kind.component) ==>
                         Separates(log + more, Before(log + more, e), x, e, e.kind.component);
  }

  /** Key lemma, with any number of outages in one second: while the log grows and closures are added, an outage that has
      a record of its component and its start keeps having one. */
  lemma KeyStaysKept(log: seq<Event>, more: seq<Event>, earlier: seq<Closure>, prior: seq<Closure>, c: Component, t: int)
    requires Sorted(log + more) && KeyKept(log, earlier, c, t)
    requires forall x :: x in earlier ==> x in prior
    ensures KeyKept(log + more, prior, c, t)
  {
    hide Sorted, Blank, Once, Before, KeptEvents;
    SortedPrefix(log, more);
    var a, b := Tagged(log), Tagged(log + more);
    var rest := b[|log|..];
    assert b == a + rest;
    TaggedSorted(log);
    TaggedSorted(log + more);
    TaggedIsBlank(log);
    TaggedIsBlank(log + more);
    KeyIgnoresMessages(log, a, earlier, c, t);
    var e :| e in KeptEvents(a, earlier) && Opens(e, c) && e.time == t;
    KeptIsOwn(a, earlier, e);
    OwnIsLogged(a, earlier, e);
    var i :| 0 <= i < |a| && a[i] == e;
    TaggedOnce(log, i);
    TaggedOnce(log + more, i);
    KeptStaysKept(a, rest, earlier, prior, e);
    KeptIsOwn(b, prior, e);
    assert Begins(KeptEvents(b, prior), c, t);
    KeyIgnoresMessages(log + more, b, prior, c, t);
  }

  lemma KeptIsOwn(log: seq<Event>, prior: seq<Closure>, e: Event)
    ensures e in KeptEvents(log, prior) <==> Own(log, prior, e)
  {
  }

  /** A prior closure of a kept outage comes out of the build unchanged. */
  lemma PriorClosureSurvives(log: seq<Event>, prior: seq<Closure>, seen: Option<Observation>, x: Closure, e: Event)
    requires Sorted(log) && Functional(prior) && x in prior
    requires e.kind == Offline(x.component) && e.time == x.startedAt && Own(log, prior, e)
    ensures x in Closures(Build(log, prior, seen))
  {
    var r := IncidentOf(KeptEvents(log, prior), e);
    ScanKeepsKey(Fresh(x.component, e.time), KeptEvents(log, prior)[FirstIndex(KeptEvents(log, prior), e) + 1..]);
    LookupFinds(prior, r);
    assert Lookup(prior, r) == Some(x);
    RecordIsBuilt(log, prior, seen, e);
    ClosuresInclude(Build(log, prior, seen));
    hide IncidentOf, Build, Closures, Lookup, Dedupe, Restored;
  }

  lemma NewClosureIsAnchored(log: seq<Event>, prior: seq<Closure>, seen: Option<Observation>, y: Closure)
    returns (e: Event)
    requires Sorted(log) && y in Closures(Build(log, prior, seen))
    requires forall x :: x in prior ==> x.startedAt <= x.resolvedAt
    ensures e in log && e.kind == Offline(y.component) && e.time == y.startedAt && Own(log, prior, e)
    ensures y.startedAt <= y.resolvedAt
    ensures RecordOf(log, prior, seen, e).resolvedAt == Some(y.resolvedAt) && RecordOf(log, prior, seen, e).inferred
  {
    ClosuresInclude(Build(log, prior, seen));
    var s :| s in Build(log, prior, seen) && s.inferred && s.resolvedAt == Some(y.resolvedAt)
             && s.component == y.component && s.startedAt == y.startedAt;
    e := BuiltIsRecord(log, prior, seen, s);
    OwnIsLogged(log, prior, e);
    var kept := KeptEvents(log, prior);
    ScanKeepsKey(Fresh(e.kind.component, e.time), kept[FirstIndex(kept, e) + 1..]);
    LookupFinds(prior, IncidentOf(kept, e));
    hide Build, Closures, Dedupe, Restored, Scan, FirstIndex, Lookup;
  }

  // ---------------------------------------------------------------------------------------------------
  // Of the outages that begin in one second, only the last can get a closure that was inferred.

  /** Restored transitions stand before every record of their second. */
  ghost predicate RestoredFirst(es: seq<Event>) {
    es == [] ||
    (RestoredFirst(es[1..]) && (IsRestored(es[0]) || forall x :: x in es[1..] && IsRestored(x) ==> es[0].time < x.time))
  }

  lemma {:induction false} InsertKeepsFirst(es: seq<Event>, n: Event)
    requires RestoredFirst(es) && IsRestored(n)
    ensures RestoredFirst(Insert(es, n))
  {
    if es == [] || es[0].time >= n.time {
      assert ([n] + es)[1..] == es;
    } else {
      InsertKeepsFirst(es[1..], n);
      InsertContents(es[1..], n);
      assert Insert(es, n)[1..] == Insert(es[1..], n);
      assert forall x :: x in Insert(es[1..], n) ==> x == n || x in es[1..];
    }
  }

  lemma {:induction false} RestoreKeepsFirst(es: seq<Event>, log: seq<Event>, prior: seq<Closure>)
    requires RestoredFirst(es)
    ensures RestoredFirst(RestoreInto(es, log, prior))
    decreases prior
  {
    if prior != [] {
      hide Insert, RestoredFirst, Usable;
      InsertKeepsFirst(es, NormalEvent(prior[0]));
      RestoreKeepsFirst(RestoreOne(es, log, prior[0]), log, prior[1..]);
    }
  }

  lemma {:induction false} DedupeKeepsFirst(es: seq<Event>, active: set<Component>)
    requires RestoredFirst(es)
    ensures RestoredFirst(Dedupe(es, active))
  {
    if es != [] {
      hide Dedupe;
      var next := ActiveAfter(es[0], active);
      DedupeKeepsFirst(es[1..], next);
      DedupeStep(es, active);
      DedupeIsSubsequence(es[1..], next);
      assert ([es[0]] + Dedupe(es[1..], next))[1..] == Dedupe(es[1..], next);
    } else {
      assert Dedupe([], active) == [];
    }
  }

  lemma {:induction false} LogIsFirst(log: seq<Event>)
    requires forall e :: e in log ==> !IsRestored(e)
    ensures RestoredFirst(log)
  {
    if log != [] {
      LogIsFirst(log[1..]);
      assert forall e :: e in log[1..] ==> e in log;
    }
  }

  lemma {:induction false} RestoredAfter(es: seq<Event>, i: nat)
    requires RestoredFirst(es) && i < |es| && !IsRestored(es[i])
    ensures forall x :: x in es[i + 1..] && IsRestored(x) ==> es[i].time < x.time
  {
    if i > 0 {
      RestoredAfter(es[1..], i - 1);
      assert es[i + 1..] == es[1..][i..];
    }
  }

  lemma {:induction false} ClosingIsListed(c: Component, rest: seq<Event>)
    ensures Closing(c, rest).Some? ==> Closing(c, rest).value in rest && Closes(Closing(c, rest).value, c)
  {
    if rest != [] {
      ClosingIsListed(c, rest[1..]);
    }
  }

  /** A record that a restored transition closes lasts at least into the next second. */
  lemma InferredEndsLater(log: seq<Event>, prior: seq<Closure>, e: Event)
    requires GoodLog(log) && e.kind.Offline? && e in KeptEvents(log, prior)
    ensures var r := IncidentOf(KeptEvents(log, prior), e);
            r.inferred ==> r.resolvedAt.Some? && r.resolvedAt.value > e.time
  {
    hide Dedupe, RestoreInto, IncidentOf, PlainScan, Sorted, RestoredFirst, NoneBefore, Closing, Episode, HasAttempt, VerdictKind;
    var es, kept, c := Restored(log, prior), KeptEvents(log, prior), e.kind.component;
    RestoredIsSorted(log, log, prior);
    LogIsFirst(log);
    RestoreKeepsFirst(log, log, prior);
    DedupeKeepsFirst(es, {});
    LaterOutageBreakIsDead(es, e);
    var i := FirstIndex(kept, e);
    RestoredAfter(kept, i);
    DedupeIsSorted(es, {});
    SuffixOfSorted(kept, i);
    ScanParts(c, e.time, kept[i + 1..]);
    ClosingIsListed(c, kept[i + 1..]);
  }

  lemma {:induction false} RestoredAreClosures(es: seq<Event>, log: seq<Event>, prior: seq<Closure>)
    ensures forall n :: n in RestoreInto(es, log, prior) ==>
                          n in es || exists x :: x in prior && Usable(log, x) && n == NormalEvent(x)
    decreases prior
  {
    if prior != [] {
      hide Insert, Usable;
      InsertContents(es, NormalEvent(prior[0]));
      RestoredAreClosures(RestoreOne(es, log, prior[0]), log, prior[1..]);
    }
  }

  /** An outage of the log that its events leave open. */
  ghost predicate StaysOpen(log: seq<Event>, prior: seq<Closure>, e: Event)
    requires e.kind.Offline?
  {
    Own(log, prior, e) && Closing(e.kind.component, KeptEvents(log, prior)[FirstIndex(KeptEvents(log, prior), e) + 1..]).None?
  }

  lemma OpenIsUnresolved(log: seq<Event>, prior: seq<Closure>, e: Event)
    requires Sorted(log) && e.kind.Offline? && Own(log, prior, e)
    ensures var r := IncidentOf(KeptEvents(log, prior), e);
            && (r.resolvedAt.None? <==> StaysOpen(log, prior, e))
            && (r.inferred ==> e.kind.component == Internet && r.resolvedAt.Some?
                               && exists n :: n in KeptEvents(log, prior) && IsRestored(n) && n.kind.component == e.kind.component
                                              && r.resolvedAt == Some(n.time))
  {
    hide Dedupe, RestoreInto, IncidentOf, PlainScan, Sorted, FirstIndex, NoneBefore, Closing, Episode, HasAttempt, VerdictKind;
    var es, kept, c := Restored(log, prior), KeptEvents(log, prior), e.kind.component;
    RestoredIsSorted(log, log, prior);
    LaterOutageBreakIsDead(es, e);
    var i := FirstIndex(kept, e);
    DedupeIsSorted(es, {});
    SuffixOfSorted(kept, i);
    ScanParts(c, e.time, kept[i + 1..]);
    ClosingIsListed(c, kept[i + 1..]);
  }

  /** A build closes an outage that its log leaves open exactly if the health check sees its component online since. */
  lemma BuildClosesIff(log: seq<Event>, prior: seq<Closure>, seen: Option<Observation>, e: Event)
    requires Sorted(log) && e.kind.Offline? && StaysOpen(log, prior, e) && !HasKey(prior, e.kind.component, e.time)
    ensures var r := RecordOf(log, prior, seen, e);
            && r in Build(log, prior, seen)
            && (r.resolvedAt.Some? <==>
                  && seen.Some? && e.time <= seen.value.time
                  && (if e.kind.component == Asterisk then seen.value.asteriskOnline else seen.value.internetOnline))
            && (r.resolvedAt.Some? ==>
                  Closure(e.kind.component, e.time, seen.value.time) in Closures(Build(log, prior, seen)))
  {
    hide Build, Closures, Settled, IncidentOf, Lookup, FirstIndex, Dedupe, Restored, Closing;
    OpenIsUnresolved(log, prior, e);
    KeptIsOwn(log, prior, e);
    IncidentKey(KeptEvents(log, prior), e);
    ObservationClosesIff(IncidentOf(KeptEvents(log, prior), e), prior, seen);
    RecordIsBuilt(log, prior, seen, e);
    ClosuresInclude(Build(log, prior, seen));
  }

  /** A closure that no build before had ends at the health check, which saw its component online, if the log leaves the
      outage open. Otherwise it ends with a prior closure of the component, whose end is replayed into it, and that
      counts as inferred for the Internet only. */
  lemma NewClosureIsSeen(log: seq<Event>, prior: seq<Closure>, seen: Option<Observation>, y: Closure) returns (e: Event)
    requires GoodLog(log) && y in Closures(Build(log, prior, seen)) && !HasKey(prior, y.component, y.startedAt)
    requires forall x :: x in prior ==> x.startedAt <= x.resolvedAt
    ensures e in log && e.kind == Offline(y.component) && e.time == y.startedAt && Own(log, prior, e)
    ensures if StaysOpen(log, prior, e) then
              && seen.Some? && y.resolvedAt == seen.value.time
              && (if y.component == Asterisk then seen.value.asteriskOnline else seen.value.internetOnline)
            else
              && y.component == Internet
              && exists x :: x in prior && Usable(log, x) && x.component == y.component && x.resolvedAt == y.resolvedAt
  {
    hide Build, Closures, Settled, IncidentOf, Lookup, FirstIndex, Dedupe, Closing, RestoreInto;
    e := NewClosureIsAnchored(log, prior, seen, y);
    OpenIsUnresolved(log, prior, e);
    KeptIsOwn(log, prior, e);
    var r := IncidentOf(KeptEvents(log, prior), e);
    IncidentKey(KeptEvents(log, prior), e);
    if StaysOpen(log, prior, e) {
      ObservationClosesIff(r, prior, seen);
    } else {
      ResolvedIsSettled(r, prior, seen);
      var n :| n in KeptEvents(log, prior) && IsRestored(n) && n.kind.component == y.component && Some(y.resolvedAt) == Some(n.time);
      DedupeIsSubsequence(Restored(log, prior), {});
      RestoredAreClosures(log, log, prior);
      var x :| x in prior && Usable(log, x) && n == NormalEvent(x);
    }
  }

  lemma ResolvedIsSettled(r: Incident, prior: seq<Closure>, seen: Option<Observation>)
    requires r.resolvedAt.Some? && !HasKey(prior, r.component, r.startedAt)
    ensures Settled(r, prior, seen) == r
  {
    LookupFinds(prior, r);
  }

  const DOWN := Event(0, Offline(Internet), "")
  const UP := Event(5, Online(Internet), "")
  const DOWN_AGAIN := Event(7, Offline(Internet), "")
  const CLOSED := Closure(Internet, 0, 10)

  lemma SortedCons(e: Event, rest: seq<Event>)
    requires Sorted(rest) && NoneBefore(rest, e.time)
    ensures Sorted([e] + rest) && (rest == [] ==> [e] + rest == [e])
  {
    assert ([e] + rest)[1..] == rest;
  }

  lemma ReplayedLog()
    ensures Restored([DOWN, UP, DOWN_AGAIN], [CLOSED]) == [DOWN, UP, DOWN_AGAIN, NormalEvent(CLOSED)]
    ensures GoodLog([DOWN, UP, DOWN_AGAIN]) && Sorted([DOWN, UP, DOWN_AGAIN, NormalEvent(CLOSED)])
  {
    var log, n := [DOWN, UP, DOWN_AGAIN], NormalEvent(CLOSED);
    assert log[0] == DOWN;
    assert [CLOSED][1..] == [] && Usable(log, CLOSED);
    InsertLast(log, n);
    assert RestoreInto(log + [n], log, []) == log + [n];
    assert log[1..] == [UP, DOWN_AGAIN] && [UP, DOWN_AGAIN][1..] == [DOWN_AGAIN] && [DOWN_AGAIN][1..] == [];
    SortedCons(n, []);
    SortedCons(DOWN_AGAIN, []);
    SortedCons(DOWN_AGAIN, [n]);
    SortedCons(UP, [DOWN_AGAIN]);
    SortedCons(UP, [DOWN_AGAIN, n]);
    SortedCons(DOWN, [UP, DOWN_AGAIN]);
    SortedCons(DOWN, [UP, DOWN_AGAIN, n]);
    hide Sorted, Usable, Insert;
  }

  lemma ReplayedIsKept()
    ensures var all := [DOWN, UP, DOWN_AGAIN, NormalEvent(CLOSED)];
            Dedupe(all, {}) == all && FirstIndex(all, DOWN_AGAIN) == 2
  {
    var n := NormalEvent(CLOSED);
    assert ActiveAfter(DOWN, {}) == ActiveAfter(DOWN_AGAIN, {}) == {Internet} && ActiveAfter(UP, {Internet}) == {};
    assert [DOWN, UP, DOWN_AGAIN, n][1..] == [UP, DOWN_AGAIN, n];
    assert [UP, DOWN_AGAIN, n][1..] == [DOWN_AGAIN, n] && [DOWN_AGAIN, n][1..] == [n] && [n][1..] == [];
    DedupeStep([n], {Internet});
    DedupeStep([DOWN_AGAIN, n], {});
    DedupeStep([UP, DOWN_AGAIN, n], {Internet});
    DedupeStep([DOWN, UP, DOWN_AGAIN, n], {});
  }

  /** The second way: a closure at 10 of the outage from 0 is replayed into the outage from 7, of which the log knew
      nothing before. */
  lemma ReplayedIntoLater()
    ensures Closure(Internet, 7, 10) in Closures(Build([DOWN, UP, DOWN_AGAIN], [CLOSED], None))
  {
    var log, all := [DOWN, UP, DOWN_AGAIN], [DOWN, UP, DOWN_AGAIN, NormalEvent(CLOSED)];
    ReplayedLog();
    ReplayedIsKept();
    assert all[2] == DOWN_AGAIN;
    hide Dedupe, FirstIndex, Restored, Sorted, Settled, Build, Closures, IncidentOf;
    ReplayedRecord();
    ResolvedIsSettled(IncidentOf(all, DOWN_AGAIN), [CLOSED], None);
    RecordIsBuilt(log, [CLOSED], None, DOWN_AGAIN);
    ClosuresInclude(Build(log, [CLOSED], None));
  }

  lemma ReplayedRecord()
    ensures var all := [DOWN, UP, DOWN_AGAIN, NormalEvent(CLOSED)];
            DOWN_AGAIN in all && IncidentOf(all, DOWN_AGAIN) == Close(Fresh(Internet, 7), NormalEvent(CLOSED))
  {
    var all := [DOWN, UP, DOWN_AGAIN, NormalEvent(CLOSED)];
    ReplayedIsKept();
    assert all[2] == DOWN_AGAIN && all[3..] == [NormalEvent(CLOSED)];
    hide FirstIndex;
  }

  lemma {:induction false} InsertLast(es: seq<Event>, n: Event)
    requires forall x :: x in es ==> x.time < n.time
    ensures Insert(es, n) == es + [n]
  {
    if es != [] {
      InsertLast(es[1..], n);
    }
  }

  /** Of two kept outages of one component and second, the record of the earlier ends at once and is not inferred. */
  lemma EarlierIsNotInferred(log: seq<Event>, prior: seq<Closure>, e: Event, f: Event)
    requires GoodLog(log) && e in KeptEvents(log, prior) && f in KeptEvents(log, prior)
    requires e.kind.Offline? && f.kind == e.kind && e.time == f.time
    requires FirstIndex(KeptEvents(log, prior), e) < FirstIndex(KeptEvents(log, prior), f)
    ensures var r := IncidentOf(KeptEvents(log, prior), e);
            r.resolvedAt.Some? && !r.inferred
  {
    hide Dedupe, RestoreInto, IncidentOf, PlainScan, Sorted, FirstIndex, FreeAfter;
    var es, kept, c := Restored(log, prior), KeptEvents(log, prior), e.kind.component;
    RestoredIsSorted(log, log, prior);
    LaterOutageBreakIsDead(es, e);
    InferredEndsLater(log, prior, e);
    var i, j := FirstIndex(kept, e), FirstIndex(kept, f);
    assert kept[i + 1..][j - i - 1] == f;
    FreeAfterUse(IncidentOf(kept, e), c, e.time, kept[i + 1..], j - i - 1);
  }

  lemma RecordWithoutPrior(log: seq<Event>, prior: seq<Closure>, seen: Option<Observation>, e: Event)
    requires e.kind.Offline? && e in KeptEvents(log, prior)
    requires Lookup(prior, IncidentOf(KeptEvents(log, prior), e)).None?
    ensures var r := IncidentOf(KeptEvents(log, prior), e);
            r.resolvedAt.Some? ==> RecordOf(log, prior, seen, e) == r
  {
    hide IncidentOf, KeptEvents, Lookup;
  }

  lemma SameKeySameEnd(log: seq<Event>, prior: seq<Closure>, seen: Option<Observation>, e: Event, f: Event)
    requires GoodLog(log) && e.kind.Offline? && f.kind == e.kind && e.time == f.time
    requires e in KeptEvents(log, prior) && f in KeptEvents(log, prior)
    requires RecordOf(log, prior, seen, e).inferred && RecordOf(log, prior, seen, f).inferred
    ensures RecordOf(log, prior, seen, e).resolvedAt == RecordOf(log, prior, seen, f).resolvedAt
  {
    hide KeptEvents, IncidentOf, Lookup, Sorted;
    var kept := KeptEvents(log, prior);
    var r, q := IncidentOf(kept, e), IncidentOf(kept, f);
    IncidentKey(kept, e);
    IncidentKey(kept, f);
    SameLookup(prior, r, q);
    if Lookup(prior, r).None? {
      if FirstIndex(kept, e) < FirstIndex(kept, f) {
        EarlierIsNotInferred(log, prior, e, f);
        RecordWithoutPrior(log, prior, seen, e);
      } else if FirstIndex(kept, f) < FirstIndex(kept, e) {
        EarlierIsNotInferred(log, prior, f, e);
        RecordWithoutPrior(log, prior, seen, f);
      } else {
        assert e == kept[FirstIndex(kept, e)] == f;
      }
    }
  }

  lemma IncidentKey(kept: seq<Event>, e: Event)
    requires e in kept && e.kind.Offline?
    ensures IncidentOf(kept, e).component == e.kind.component && IncidentOf(kept, e).startedAt == e.time
  {
    ScanKeepsKey(Fresh(e.kind.component, e.time), kept[FirstIndex(kept, e) + 1..]);
  }

  lemma {:induction false} SameLookup(prior: seq<Closure>, r: Incident, q: Incident)
    requires r.component == q.component && r.startedAt == q.startedAt
    ensures Lookup(prior, r) == Lookup(prior, q)
  {
    if prior != [] {
      SameLookup(prior[..|prior| - 1], r, q);
    }
  }

  /** One more build over a log that has grown. */
  lemma BuildLinks(log: seq<Event>, more: seq<Event>, earlier: seq<Closure>, prior: seq<Closure>,
                   seen: Option<Observation>)
    requires GoodLog(log + more) && Linked(log, earlier, prior)
    ensures Linked(log + more, prior, Closures(Build(log + more, prior, seen)))
  {
    var longer := log + more;
    var next := Closures(Build(longer, prior, seen));
    hide Own, Build, Closures, Sorted, RecordOf, KeyKept, KeptEvents;
    forall x | x in prior ensures x in next && x.startedAt <= x.resolvedAt {
      assert Anchored(log, earlier, x);
      KeyStaysKept(log, more, earlier, prior, x.component, x.startedAt);
      var e := KeptEvent(longer, prior, x.component, x.startedAt);
      PriorClosureSurvives(longer, prior, seen, x, e);
    }
    forall y | y in next ensures Anchored(longer, prior, y) {
      var e := NewClosureIsAnchored(longer, prior, seen, y);
      OwnIsKeyKept(longer, prior, e, y.component);
    }
    forall y, z | y in next && z in next && y.component == z.component && y.startedAt == z.startedAt ensures y == z {
      var e := NewClosureIsAnchored(longer, prior, seen, y);
      var f := NewClosureIsAnchored(longer, prior, seen, z);
      KeptIsOwn(longer, prior, e);
      KeptIsOwn(longer, prior, f);
      SameKeySameEnd(longer, prior, seen, e, f);
    }
  }

  lemma KeptEvent(log: seq<Event>, prior: seq<Closure>, c: Component, t: int) returns (e: Event)
    requires KeyKept(log, prior, c, t)
    ensures e.kind == Offline(c) && e.time == t && Own(log, prior, e)
  {
    e :| e in KeptEvents(log, prior) && Opens(e, c) && e.time == t;
  }

  lemma OwnIsKeyKept(log: seq<Event>, prior: seq<Closure>, e: Event, c: Component)
    requires Own(log, prior, e) && Opens(e, c)
    ensures KeyKept(log, prior, c, e.time)
  {
  }

  /** What one build adds to the log before it, and what it sees. */
  datatype Round = Round(more: seq<Event>, seen: Option<Observation>)

  function LogAfter(rounds: seq<Round>): seq<Event> {
    if rounds == [] then [] else LogAfter(rounds[..|rounds| - 1]) + rounds[|rounds| - 1].more
  }

  function ClosuresAfter(rounds: seq<Round>): seq<Closure> {
    if rounds == [] then []
    else Closures(Build(LogAfter(rounds), ClosuresAfter(rounds[..|rounds| - 1]), rounds[|rounds| - 1].seen))
  }

  lemma LinkedFromNothing()
    ensures Linked([], [], [])
  {
  }

  lemma {:induction false} RoundsLink(rounds: seq<Round>)
    requires forall k :: 0 <= k <= |rounds| ==> GoodLog(LogAfter(rounds[..k]))
    ensures rounds != [] ==>
              Linked(LogAfter(rounds), ClosuresAfter(rounds[..|rounds| - 1]), ClosuresAfter(rounds))
  {
    hide GoodLog, Build, Closures, Linked;
    LinkedFromNothing();
    if rounds != [] {
      var n := |rounds| - 1;
      var init := rounds[..n];
      assert rounds[..|rounds|] == rounds;
      forall k | 0 <= k <= n ensures GoodLog(LogAfter(init[..k])) {
        assert init[..k] == rounds[..k];
      }
      RoundsLink(init);
      var earlier := if n == 0 then [] else ClosuresAfter(init[..n - 1]);
      assert init[..n] == init;
      BuildLinks(LogAfter(init), rounds[n].more, earlier, ClosuresAfter(init), rounds[n].seen);
    }
  }

  /** Over any sequence of builds on a growing log in time order, an inferred closure is never lost and never changes its
      end, whatever outages begin in one second. */
  lemma {:induction false} ClosuresPersist(rounds: seq<Round>, k: nat)
    requires forall i :: 0 <= i <= |rounds| ==> GoodLog(LogAfter(rounds[..i]))
    requires k <= |rounds|
    ensures forall x :: x in ClosuresAfter(rounds[..k]) ==> x in ClosuresAfter(rounds)
    ensures Functional(ClosuresAfter(rounds))
  {
    hide GoodLog, Build, Closures;
    RoundsLink(rounds);
    assert rounds[..|rounds|] == rounds;
    if k < |rounds| {
      var init := rounds[..|rounds| - 1];
      forall i | 0 <= i <= |init| ensures GoodLog(LogAfter(init[..i])) {
        assert init[..i] == rounds[..i];
      }
      ClosuresPersist(init, k);
      assert init[..k] == rounds[..k];
    }
  }

  /** The first outage at or after a closure has an incident of its own. */
  lemma LaterOutageHasOwnIncident(log: seq<Event>, prior: seq<Closure>, seen: Option<Observation>, x: Closure, i: nat)
    requires Sorted(log) && x in prior && Usable(log, x)
    requires i < |log| && Opens(log[i], x.component) && x.resolvedAt <= log[i].time
    requires forall j :: 0 <= j < i && Opens(log[j], x.component) ==> log[j].time < x.resolvedAt
    ensures exists r :: r in Build(log, prior, seen) && r.component == x.component && r.startedAt == log[i].time
  {
    hide Scan, FirstIndex, Build, Restored, Dedupe, Before, Open, Sorted, Once, Blank, KeptEvents, RecordOf;
    var a, c, t := Tagged(log), x.component, log[i].time;
    TaggedSorted(log);
    TaggedIsBlank(log);
    TaggedOnce(log, i);
    FirstIsSeparated(log, x, i);
    OwnIncidentIff(a, prior, a[i]);
    OwnIsKeyKept(a, prior, a[i], c);
    KeyIgnoresMessages(log, a, prior, c, t);
    var e := KeptEvent(log, prior, c, t);
    KeptIsOwn(log, prior, e);
    RecordIsBuilt(log, prior, seen, e);
    RecordKey(log, prior, seen, e);
  }

  lemma FirstIsSeparated(log: seq<Event>, x: Closure, i: nat)
    requires Usable(log, x) && i < |log| && Opens(log[i], x.component) && x.resolvedAt <= log[i].time
    requires forall j :: 0 <= j < i && Opens(log[j], x.component) ==> log[j].time < x.resolvedAt
    ensures Separates(Tagged(log), Tagged(log)[..i], x, Tagged(log)[i], x.component)
  {
    var a := Tagged(log);
    UsableIsBegins(log, x);
    UsableIsBegins(a, x);
    TaggedIsBlank(log);
    BlankBegins(log, x.component, x.startedAt);
    BlankBegins(a, x.component, x.startedAt);
    hide Blank, Begins, Usable;
    forall e | e in a[..i] && Opens(e, x.component) ensures e.time < x.resolvedAt {
      var j :| 0 <= j < i && a[..i][j] == e;
      assert Opens(log[j], x.component);
    }
  }

  lemma RecordKey(log: seq<Event>, prior: seq<Closure>, seen: Option<Observation>, e: Event)
    requires e.kind.Offline? && e in KeptEvents(log, prior)
    ensures RecordOf(log, prior, seen, e).component == e.kind.component
    ensures RecordOf(log, prior, seen, e).startedAt == e.time
  {
    hide Scan, FirstIndex, KeptEvents, Lookup;
    var kept := KeptEvents(log, prior);
    ScanKeepsKey(Fresh(e.kind.component, e.time), kept[FirstIndex(kept, e) + 1..]);
  }
}
