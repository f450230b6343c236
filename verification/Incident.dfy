/** The one-pass incident engine (core/incident.py), compared with the scan of core/intelligence.py. */
module IncidentEngine {
  import opened Prelude
  import opened Intelligence

  /** One event of the pass, with an incident open. */
  function Advance(r: Incident, e: Event): Incident {
    match e.kind
    case Attempt => r.(attempted := true)
    case Success => r.(outcome := Some(Recovered))
    case Failed => r.(outcome := Some(NotRecovered))
    case Withdrawn => r.(outcome := Some(Cancelled))
    case _ => r
  }

  function Ended(r: Incident, e: Event): Incident {
    r.(resolvedAt := Some(e.time), duration := Some(Max(0, e.time - r.startedAt)))
  }

  /** What is still to be appended when `current` is the incident in progress. */
  function OnePass(es: seq<Event>, current: Option<Incident>): seq<Incident> {
    if es == [] then
      match current
      case None => []
      case Some(r) => [r]
    else
      var e, rest := es[0], es[1..];
      match current
      case None => OnePass(rest, if e.kind == Offline(Asterisk) then Some(Fresh(Asterisk, e.time)) else None)
      case Some(r) =>
        if e.kind == Online(Asterisk) then [Ended(r, e)] + OnePass(rest, None)
        else OnePass(rest, Some(Advance(r, e)))
  }

  method BuildAsteriskIncidents(es: seq<Event>) returns (incidents: seq<Incident>)
    ensures incidents == OnePass(es, None)
  {
    incidents := [];
    var current: Option<Incident> := None;
    for i := 0 to |es|
      invariant incidents + OnePass(es[i..], current) == OnePass(es, None)
    {
      var event := es[i];
      assert es[i..][0] == event && es[i..][1..] == es[i + 1..];
      if event.kind == Offline(Asterisk) {
        if current.None? {
          current := Some(Fresh(Asterisk, event.time));
        }
      } else if current.Some? {
        if event.kind == Online(Asterisk) {
          incidents := incidents + [Ended(current.value, event)];
          current := None;
        } else {
          current := Some(Advance(current.value, event));
        }
      }
    }
    assert es[|es|..] == [];
    if current.Some? {
      incidents := incidents + [current.value];
    }
  }

  // ---------------------------------------------------------------------------------------------------

  /** The one-pass engine records no time of recovery. */
  function View(r: Incident): Incident {
    r.(recoveryAt := None)
  }

  function Views(rs: seq<Incident>): seq<Incident> {
    if rs == [] then [] else [View(rs[0])] + Views(rs[1..])
  }

  lemma ViewsCons(r: Incident, rs: seq<Incident>)
    ensures Views([r] + rs) == [View(r)] + Views(rs) && |Views(rs)| == |rs|
  {
    assert ([r] + rs)[1..] == rs;
    ViewsLength(rs);
  }

  lemma {:induction false} ViewsLength(rs: seq<Incident>)
    ensures |Views(rs)| == |rs|
  {
    if rs != [] {
      ViewsLength(rs[1..]);
    }
  }

  // ---------------------------------------------------------------------------------------------------
  // What the pass makes of an outage: it lasts to the next ONLINE.

  function PassEpisode(rest: seq<Event>): seq<Event> {
    if rest == [] || rest[0].kind == Online(Asterisk) then [] else [rest[0]] + PassEpisode(rest[1..])
  }

  function PassEnd(rest: seq<Event>): Option<Event> {
    if rest == [] then None else if rest[0].kind == Online(Asterisk) then Some(rest[0]) else PassEnd(rest[1..])
  }

  function AfterPass(rest: seq<Event>): (after: seq<Event>)
    ensures |after| <= |rest|
  {
    if rest == [] then [] else if rest[0].kind == Online(Asterisk) then rest[1..] else AfterPass(rest[1..])
  }

  function OutcomeOf(e: Event): Option<Outcome> {
    match e.kind
    case Success => Some(Recovered)
    case Failed => Some(NotRecovered)
    case Withdrawn => Some(Cancelled)
    case _ => None
  }

  /** The last outcome; the pass also reads cancellations. */
  function PassOutcome(es: seq<Event>): Option<Outcome> {
    if es == [] then None
    else if PassOutcome(es[1..]).Some? then PassOutcome(es[1..])
    else OutcomeOf(es[0])
  }

  function ScanOutcome(es: seq<Event>): Option<Outcome> {
    match VerdictKind(es)
    case None => None
    case Some(k) => Some(if k.Success? then Recovered else NotRecovered)
  }

  ghost function PassNoted(r: Incident, es: seq<Event>): Incident {
    r.(attempted := r.attempted || HasAttempt(es),
       outcome := if PassOutcome(es).Some? then PassOutcome(es) else r.outcome)
  }

  ghost function PassRecord(r: Incident, rest: seq<Event>): Incident {
    var noted := PassNoted(r, PassEpisode(rest));
    match PassEnd(rest)
    case None => noted
    case Some(e) => Ended(noted, e)
  }

  lemma OnePassCons(e: Event, rest: seq<Event>, current: Option<Incident>)
    ensures OnePass([e] + rest, current) ==
            match current
            case None => OnePass(rest, if e.kind == Offline(Asterisk) then Some(Fresh(Asterisk, e.time)) else None)
            case Some(r) =>
              if e.kind == Online(Asterisk) then [Ended(r, e)] + OnePass(rest, None)
              else OnePass(rest, Some(Advance(r, e)))
  {
    assert ([e] + rest)[1..] == rest;
  }

  lemma PassNotedCons(r: Incident, e: Event, es: seq<Event>)
    ensures PassNoted(r, [e] + es) == PassNoted(Advance(r, e), es)
    ensures PassNoted(r, []) == r
  {
    hide HasAttempt;
    HasAttemptCons(e, es);
    NoAttempt();
    assert ([e] + es)[1..] == es;
  }

  lemma NoAttempt()
    ensures !HasAttempt([])
  {
  }

  /** The pass, read off the episode. */
  lemma {:induction false} PassIsEpisode(rest: seq<Event>, r: Incident)
    ensures OnePass(rest, Some(r)) == [PassRecord(r, rest)] + OnePass(AfterPass(rest), None)
    decreases rest
  {
    hide PassNoted, Advance;
    if rest == [] {
      PassNotedCons(r, Event(0, Unrelated, ""), []);
    } else {
      var e, tail := rest[0], rest[1..];
      assert rest == [e] + tail;
      OnePassCons(e, tail, Some(r));
      PassNotedCons(r, e, PassEpisode(tail));
      if e.kind != Online(Asterisk) {
        PassIsEpisode(tail, Advance(r, e));
      }
    }
  }

  // ---------------------------------------------------------------------------------------------------
  // The records of the scan, read off the log: one for each OFFLINE that finds no outage open.

  /** Where the scan of outage `e`, which the events `rest` follow, reads its episode. */
  type Tail = (Event, seq<Event>) -> seq<Event>

  /** From its own place. */
  function OwnTail(): Tail {
    (e, rest) => rest
  }

  /** From the first kept record equal to it. */
  function SharedTail(kept: seq<Event>): Tail {
    (e, rest) => if e in kept then kept[FirstIndex(kept, e) + 1..] else []
  }

  ghost predicate Readable(tail: Tail) {
    forall e, rest :: Opens(e, Asterisk) && Sorted([e] + rest) ==> Sorted(tail(e, rest)) && NoneBefore(tail(e, rest), e.time)
  }

  function Records(es: seq<Event>, open: bool, tail: Tail): seq<Incident> {
    if es == [] then []
    else
      var e, rest := es[0], es[1..];
      if Opens(e, Asterisk) then
        (if open then [] else [PlainScan(Fresh(Asterisk, e.time), tail(e, rest))]) + Records(rest, true, tail)
      else Records(rest, open && !Closes(e, Asterisk), tail)
  }

  /** An OFFLINE follows a NORMAL before the ONLINE: the scan sees two outages where the pass sees one. */
  predicate Reopens(rest: seq<Event>, open: bool) {
    rest != [] && rest[0].kind != Online(Asterisk)
    && if Opens(rest[0], Asterisk) then !open || Reopens(rest[1..], true)
       else Reopens(rest[1..], open && !Closes(rest[0], Asterisk))
  }

  lemma {:induction false} RecordsSkip(rest: seq<Event>, open: bool, tail: Tail)
    ensures |Records(rest, open, tail)| >= |Records(AfterPass(rest), false, tail)|
    ensures if Reopens(rest, open) then |Records(rest, open, tail)| > |Records(AfterPass(rest), false, tail)|
            else Records(rest, open, tail) == Records(AfterPass(rest), false, tail)
  {
    if rest != [] && rest[0].kind != Online(Asterisk) {
      RecordsSkip(rest[1..], if Opens(rest[0], Asterisk) then true else open && !Closes(rest[0], Asterisk), tail);
    }
  }

  lemma {:induction false} FewerPasses(es: seq<Event>, tail: Tail)
    ensures |OnePass(es, None)| <= |Records(es, false, tail)|
    decreases |es|
  {
    if es != [] {
      var e, rest := es[0], es[1..];
      if Opens(e, Asterisk) {
        PassIsEpisode(rest, Fresh(Asterisk, e.time));
        RecordsSkip(rest, true, tail);
        FewerPasses(AfterPass(rest), tail);
      } else {
        FewerPasses(rest, tail);
      }
    }
  }

  // ---------------------------------------------------------------------------------------------------
  // Exactly when the engines agree.

  /** Both engines report the outage that `rest` follows alike, when the scan reads it from `tail`: no OFFLINE follows a
      NORMAL before the ONLINE; they see it end in the same second, or not at all; and what the pass notes up to the
      ONLINE is what the scan notes up to the first ONLINE or NORMAL. */
  ghost predicate Agreeable(rest: seq<Event>, tail: seq<Event>) {
    var pass, scan := PassEpisode(rest), Episode(Asterisk, tail);
    && !Reopens(rest, true)
    && TimeOf(PassEnd(rest)) == TimeOf(Closing(Asterisk, tail))
    && (HasAttempt(pass) <==> HasAttempt(scan))
    && PassOutcome(pass) == ScanOutcome(scan)
  }

  function TimeOf(e: Option<Event>): Option<int> {
    if e.Some? then Some(e.value.time) else None
  }

  ghost predicate AgreeFrom(es: seq<Event>, tail: Tail)
    decreases |es|
  {
    es == [] ||
    if Opens(es[0], Asterisk) then
      Agreeable(es[1..], tail(es[0], es[1..])) && AgreeFrom(AfterPass(es[1..]), tail)
    else AgreeFrom(es[1..], tail)
  }

  lemma {:induction false} EndsNotBefore(rest: seq<Event>, t: int)
    requires NoneBefore(rest, t)
    ensures PassEnd(rest).Some? ==> t <= PassEnd(rest).value.time
  {
    if rest != [] && rest[0].kind != Online(Asterisk) {
      EndsNotBefore(rest[1..], t);
    }
  }

  lemma {:induction false} AfterPassSorted(rest: seq<Event>)
    requires Sorted(rest)
    ensures Sorted(AfterPass(rest))
  {
    if rest != [] {
      AfterPassSorted(rest[1..]);
    }
  }

  lemma SameRecordIff(t: int, rest: seq<Event>, tail: seq<Event>)
    requires Sorted(tail) && NoneBefore(tail, t) && NoneBefore(rest, t) && !Reopens(rest, true)
    ensures PassRecord(Fresh(Asterisk, t), rest) == View(PlainScan(Fresh(Asterisk, t), tail)) <==> Agreeable(rest, tail)
  {
    EndsNotBefore(rest, t);
    ScanParts(Asterisk, t, tail);
    hide PlainScan, HasAttempt, Episode, Closing, PassEpisode, PassEnd, VerdictKind, PassOutcome, Reopens, Sorted, NoneBefore;
  }

  lemma {:induction false} AgreementIff(es: seq<Event>, tail: Tail)
    requires Sorted(es) && Readable(tail)
    ensures OnePass(es, None) == Views(Records(es, false, tail)) <==> AgreeFrom(es, tail)
    decreases |es|
  {
    if es != [] {
      var e, rest := es[0], es[1..];
      if Opens(e, Asterisk) {
        assert es == [e] + rest;
        AfterPassSorted(rest);
        AgreementIff(AfterPass(rest), tail);
        PassIsEpisode(rest, Fresh(Asterisk, e.time));
        RecordsSkip(rest, true, tail);
        FewerPasses(AfterPass(rest), tail);
        ViewsLength(Records(rest, true, tail));
        ViewsCons(PlainScan(Fresh(Asterisk, e.time), tail(e, rest)), Records(rest, true, tail));
        if !Reopens(rest, true) {
          SameRecordIff(e.time, rest, tail(e, rest));
        }
        hide OnePass, PassRecord, PlainScan, Reopens, Views, Sorted, NoneBefore, AfterPass, Readable;
        SameHeads(PassRecord(Fresh(Asterisk, e.time), rest), OnePass(AfterPass(rest), None),
                  View(PlainScan(Fresh(Asterisk, e.time), tail(e, rest))), Views(Records(rest, true, tail)));
      } else {
        AgreementIff(rest, tail);
      }
    }
  }

  // ---------------------------------------------------------------------------------------------------
  // The two readings of the scan as such records.

  lemma {:induction false} DropsAreNotRead(r: Incident, es: seq<Event>, active: set<Component>)
    ensures PlainScan(r, Dedupe(es, active)) == PlainScan(r, es)
    decreases es
  {
    if es != [] {
      var e, rest := es[0], Dedupe(es[1..], ActiveAfter(es[0], active));
      DedupeStep(es, active);
      PlainScanCons(r, e, rest);
      hide Dedupe;
      if !Closes(e, r.component) {
        DropsAreNotRead(Noted(r, e), es[1..], ActiveAfter(e, active));
      }
    }
  }

  lemma {:induction false} PlainAreRecords(es: seq<Event>, active: set<Component>)
    ensures PlainIncidents(Asterisk, Dedupe(es, active)) == Records(es, Asterisk in active, OwnTail())
    decreases es
  {
    if es != [] {
      var e, next := es[0], ActiveAfter(es[0], active);
      var rest := Dedupe(es[1..], next);
      DedupeStep(es, active);
      PlainAreRecords(es[1..], next);
      PlainIncidentsCons(Asterisk, e, rest);
      DropsAreNotRead(Fresh(Asterisk, e.time), es[1..], next);
      hide Dedupe, PlainIncidents, PlainScan;
    }
  }

  ghost predicate ReadFromFirst(kept: seq<Event>) {
    forall e :: e in kept && Opens(e, Asterisk) ==>
      IncidentOf(kept, e) == PlainScan(Fresh(Asterisk, e.time), SharedTail(kept)(e, []))
  }

  lemma {:induction false} IncidentsAreRecords(kept: seq<Event>, before: seq<Event>, es: seq<Event>, active: set<Component>)
    requires kept == before + Dedupe(es, active) && ReadFromFirst(kept)
    ensures IncidentsFrom(Asterisk, kept, |before|) == Records(es, Asterisk in active, SharedTail(kept))
    decreases es
  {
    hide Dedupe, IncidentOf, PlainScan, FirstIndex, IncidentsFrom, Records, SharedTail, ReadFromFirst;
    if es == [] {
      NothingKept(active, SharedTail(kept));
      NoMoreIncidents(Asterisk, kept);
      assert before + [] == before;
    } else {
      var e, next := es[0], ActiveAfter(es[0], active);
      var rest := Dedupe(es[1..], next);
      assert es == [e] + es[1..];
      DedupeStep(es, active);
      RecordsCons(e, es[1..], Asterisk in active, SharedTail(kept));
      if Dropped(e, active) {
        IncidentsAreRecords(kept, before, es[1..], next);
      } else {
        assert kept == (before + [e]) + rest;
        assert kept[|before|] == e && e in kept;
        IncidentsAreRecords(kept, before + [e], es[1..], next);
        IncidentsStep(Asterisk, kept, |before|);
        if Opens(e, Asterisk) {
          RecordOfKept(kept, e, es[1..]);
        }
      }
    }
  }

  lemma RecordOfKept(kept: seq<Event>, e: Event, rest: seq<Event>)
    requires ReadFromFirst(kept) && e in kept && Opens(e, Asterisk)
    ensures IncidentOf(kept, e) == PlainScan(Fresh(Asterisk, e.time), SharedTail(kept)(e, rest))
  {
    hide IncidentOf, PlainScan;
    assert SharedTail(kept)(e, rest) == SharedTail(kept)(e, []);
  }

  lemma RecordsCons(e: Event, rest: seq<Event>, open: bool, tail: Tail)
    ensures Records([e] + rest, open, tail) ==
            if Opens(e, Asterisk) then
              (if open then [] else [PlainScan(Fresh(Asterisk, e.time), tail(e, rest))]) + Records(rest, true, tail)
            else Records(rest, open && !Closes(e, Asterisk), tail)
  {
    hide PlainScan;
    assert ([e] + rest)[1..] == rest;
  }

  lemma NothingKept(active: set<Component>, tail: Tail)
    ensures Dedupe([], active) == [] && forall open :: Records([], open, tail) == []
  {
  }

  lemma SharedIsReadable(log: seq<Event>)
    requires Sorted(log)
    ensures Readable(SharedTail(Dedupe(log, {}))) && ReadFromFirst(Dedupe(log, {}))
  {
    var kept := Dedupe(log, {});
    DedupeIsSorted(log, {});
    hide Dedupe, IncidentOf, PlainScan;
    forall e | e in kept && Opens(e, Asterisk)
      ensures IncidentOf(kept, e) == PlainScan(Fresh(Asterisk, e.time), SharedTail(kept)(e, []))
    {
      LaterOutageBreakIsDead(log, e);
    }
    hide Sorted, NoneBefore;
    forall e, rest | Opens(e, Asterisk) && Sorted([e] + rest)
      ensures Sorted(SharedTail(kept)(e, rest)) && NoneBefore(SharedTail(kept)(e, rest), e.time)
    {
      if e in kept {
        SuffixOfSorted(kept, FirstIndex(kept, e));
      } else {
        NothingIsSorted(e.time);
      }
    }
  }

  lemma NothingIsSorted(t: int)
    ensures Sorted([]) && NoneBefore([], t)
  {
  }

  lemma OwnIsReadable()
    ensures Readable(OwnTail())
  {
    forall e, rest | Opens(e, Asterisk) && Sorted([e] + rest)
      ensures Sorted(OwnTail()(e, rest)) && NoneBefore(OwnTail()(e, rest), e.time)
    {
      assert ([e] + rest)[1..] == rest;
    }
  }

  /** On every log in time order, the two engines report the same outages (starts, ends, durations, attempts and
      outcomes) exactly if each outage is agreeable, its scan read from the first record equal to it. */
  lemma EnginesAgreeIff(log: seq<Event>)
    requires Sorted(log)
    ensures OnePass(log, None) == Views(Incidents(Asterisk, log)) <==> AgreeFrom(log, SharedTail(Dedupe(log, {})))
  {
    var kept := Dedupe(log, {});
    SortOfSorted(log);
    SharedIsReadable(log);
    assert kept == [] + kept;
    hide OnePass, Views, Records, AgreeFrom, Readable, ReadFromFirst, Dedupe, Sort, Sorted, IncidentsFrom;
    IncidentsAreRecords(kept, [], log, {});
    AgreementIff(log, SharedTail(kept));
  }

  /** When equal outages end alike, and so when no outage is recorded twice, each is read from its own place. */
  lemma EnginesAgreeOwnIff(log: seq<Event>)
    requires Sorted(log) && RepeatsEndAlike(Asterisk, Dedupe(log, {}))
    ensures OnePass(log, None) == Views(Incidents(Asterisk, log)) <==> AgreeFrom(log, OwnTail())
  {
    SortOfSorted(log);
    IncidentsArePlainIff(Asterisk, log);
    PlainAreRecords(log, {});
    OwnIsReadable();
    hide OnePass, Views, Records, AgreeFrom, Readable, Dedupe, Sort, Sorted, Incidents, PlainIncidents, RepeatsEndAlike;
    AgreementIff(log, OwnTail());
  }

  // ---------------------------------------------------------------------------------------------------
  // The logs that the health loop writes.

  /** Where a log stands: no outage open, an outage open, or a NORMAL at `at` that its ONLINE has yet to follow. */
  datatype Mode = Up | Down | Back(at: int)

  predicate IsRecovery(e: Event) {
    e.kind.Attempt? || e.kind.Success? || e.kind.Failed? || e.kind.Withdrawn?
  }

  /** NORMAL and cancellations may come at any time while no outage is open. A NORMAL that ends an outage is followed by
      the ONLINE of the same second, with no OFFLINE or recovery event between, and an open outage has no cancellation. */
  predicate Written(es: seq<Event>, m: Mode) {
    if es == [] then !m.Back?
    else
      var e, rest := es[0], es[1..];
      match m
      case Up => Written(rest, if Opens(e, Asterisk) then Down else Up)
      case Down =>
        if e.kind == Online(Asterisk) then Written(rest, Up)
        else if Closes(e, Asterisk) then Written(rest, Back(e.time))
        else !e.kind.Withdrawn? && Written(rest, Down)
      case Back(at) =>
        if e.kind == Online(Asterisk) then e.time == at && Written(rest, Up)
        else !Opens(e, Asterisk) && !IsRecovery(e) && Written(rest, m)
  }

  lemma EpisodeCons(e: Event, es: seq<Event>)
    ensures HasAttempt([e] + es) <==> e.kind.Attempt? || HasAttempt(es)
    ensures PassOutcome([e] + es) == if PassOutcome(es).Some? then PassOutcome(es) else OutcomeOf(e)
    ensures ScanOutcome([e] + es) ==
            if ScanOutcome(es).Some? then ScanOutcome(es) else if e.kind.Withdrawn? then None else OutcomeOf(e)
  {
    HasAttemptCons(e, es);
    assert ([e] + es)[1..] == es;
  }

  lemma {:induction false} BackReturns(rest: seq<Event>, at: int)
    requires Written(rest, Back(at))
    ensures TimeOf(PassEnd(rest)) == Some(at) && !Reopens(rest, false)
    ensures !HasAttempt(PassEpisode(rest)) && PassOutcome(PassEpisode(rest)) == None
    ensures Written(AfterPass(rest), Up)
  {
    if rest[0].kind != Online(Asterisk) {
      BackReturns(rest[1..], at);
      EpisodeCons(rest[0], PassEpisode(rest[1..]));
    }
  }

  lemma {:induction false} DownIsAgreeable(rest: seq<Event>)
    requires Written(rest, Down)
    ensures Agreeable(rest, rest) && Written(AfterPass(rest), Up)
  {
    if rest != [] && rest[0].kind != Online(Asterisk) {
      var e := rest[0];
      EpisodeCons(e, PassEpisode(rest[1..]));
      if Closes(e, Asterisk) {
        BackReturns(rest[1..], e.time);
      } else {
        DownIsAgreeable(rest[1..]);
        EpisodeCons(e, Episode(Asterisk, rest[1..]));
      }
      hide HasAttempt, PassOutcome, ScanOutcome;
    }
  }

  lemma {:induction false} WrittenIsAgreeable(es: seq<Event>)
    requires Written(es, Up)
    ensures AgreeFrom(es, OwnTail())
    decreases |es|
  {
    if es != [] {
      hide Agreeable;
      if Opens(es[0], Asterisk) {
        DownIsAgreeable(es[1..]);
        WrittenIsAgreeable(AfterPass(es[1..]));
      } else {
        WrittenIsAgreeable(es[1..]);
      }
    }
  }

  /** In particular the engines agree on the logs that the health loop writes, where every outage that ends does so by a
      NORMAL and an ONLINE of one second. */
  lemma EnginesAgree(log: seq<Event>)
    requires Sorted(log) && OutagesOnce(Asterisk, log) && Written(log, Up)
    ensures OnePass(log, None) == Views(Incidents(Asterisk, log))
  {
    SortOfSorted(log);
    IncidentsArePlain(Asterisk, log);
    IncidentsArePlainIff(Asterisk, log);
    EnginesAgreeOwnIff(log);
    WrittenIsAgreeable(log);
  }

  /** A logged HEALTH.ASTERISK.NORMAL that no ONLINE follows closes the outage for one engine only. */
  lemma EnginesDifferOnNormal()
    ensures var log := [Event(0, Offline(Asterisk), ""), Event(7, Normal(Asterisk, false), "")];
            OnePass(log, None) != Views(Incidents(Asterisk, log))
  {
    var off := Event(0, Offline(Asterisk), "");
    var normal := Event(7, Normal(Asterisk, false), "");
    var log := [off, normal];
    assert log[1..] == [normal] && [normal][1..] == [];
    OutageAndNormal(off, normal);
    assert Closes([normal][0], Asterisk) && [normal][0].kind != Online(Asterisk);
    assert Closing(Asterisk, [normal]) == Some(normal);
    assert PassEnd([normal]) == PassEnd([normal][1..]) == None;
    assert !Agreeable([normal], [normal]);
    assert !AgreeFrom(log, OwnTail());
    hide *;
    EnginesAgreeOwnIff(log);
  }

  lemma OutageAndNormal(off: Event, normal: Event)
    requires Opens(off, Asterisk) && Closes(normal, Asterisk) && off.time <= normal.time
    ensures Sorted([off, normal]) && RepeatsEndAlike(Asterisk, Dedupe([off, normal], {}))
  {
    var log := [off, normal];
    assert log[1..] == [normal];
    assert Sorted([normal]) && Sorted(log);
    DedupeStep(log, {});
    DedupeStep([normal], ActiveAfter(off, {}));
    assert Dedupe(log, {}) == log;
  }
}
