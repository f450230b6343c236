/** Radio-activity tracking (core/radio_activity.py): classification of one telemetry sample, and the persisted
    record that turns samples into START, END and INTERRUPTED events.

    Times are whole seconds, and the clock may go back. Node names and metadata are left out. */
module RadioActivity {
  import opened Prelude

  type Node = nat

  datatype LinkMode = Transceive | ReceiveOnly | Pending

  datatype Link = Link(node: Node, mode: LinkMode, keyed: bool)

  datatype Sample = Sample(localRx: bool, localTx: bool, links: seq<Link>)

  datatype Status = LocalRx | RemoteTx | Ambiguous | NodeTx | Idle | Unavailable

  /** `_identity`: what makes two observations the same activity. */
  datatype Identity = Identity(status: Status, nodes: seq<Node>)

  datatype SourceType = LocalRf | RemoteLink | AmbiguousSource | InternalOrUnknown | NoSource | UnknownSource

  /** `_origin_identity`. */
  datatype Origin = Origin(source: SourceType, node: Option<Node>, candidates: seq<Node>) {
    predicate Active() {
      source != NoSource && source != UnknownSource
    }
  }

  datatype Activity = Activity(identity: Identity, origin: Origin)

  /** The nodes of the keyed links that are not pending. */
  function Keyed(links: seq<Link>): seq<Node> {
    if links == [] then []
    else (if links[0].keyed && links[0].mode != Pending then [links[0].node] else []) + Keyed(links[1..])
  }

  function Classify(local: Node, sample: Option<Sample>): Activity {
    match sample
    case None => Activity(Identity(Unavailable, []), Origin(UnknownSource, None, []))
    case Some(s) =>
      var remote := Keyed(s.links);
      var identity :=
        if s.localRx then Identity(LocalRx, [])
        else if |remote| == 1 then Identity(RemoteTx, remote)
        else if |remote| > 1 then Identity(Ambiguous, remote)
        else if s.localTx then Identity(NodeTx, [])
        else Identity(Idle, []);
      var origin :=
        if s.localRx && remote != [] then Origin(AmbiguousSource, None, [local] + remote)
        else if s.localRx then Origin(LocalRf, Some(local), [])
        else if |remote| == 1 then Origin(RemoteLink, Some(remote[0]), [])
        else if |remote| > 1 then Origin(AmbiguousSource, None, remote)
        else if s.localTx then Origin(InternalOrUnknown, None, [])
        else Origin(NoSource, None, []);
      Activity(identity, origin)
  }

  /** Keyed nodes are read link by link: a link counts when it is keyed and established, in either mode. */
  lemma KeyedReads(l: Link, rest: seq<Link>)
    ensures Keyed([]) == []
    ensures Keyed([l] + rest) ==
            (if l.keyed && (l.mode == Transceive || l.mode == ReceiveOnly) then [l.node] else []) + Keyed(rest)
  {
    assert ([l] + rest)[1..] == rest;
  }

  lemma {:induction false} KeyedIff(links: seq<Link>, n: Node)
    ensures n in Keyed(links) <==>
              exists l :: l in links && l.node == n && l.keyed && (l.mode == Transceive || l.mode == ReceiveOnly)
  {
    if links != [] {
      KeyedIff(links[1..], n);
      assert links == [links[0]] + links[1..];
    }
  }

  /** What a sample is taken for: the local receiver before keyed links, one of these before several, the own transmitter
      last. */
  lemma StatusIff(local: Node, sample: Option<Sample>)
    ensures var id := Classify(local, sample).identity;
            && (id.status == Unavailable <==> sample.None?)
            && (sample.Some? ==>
                  var s, remote := sample.value, Keyed(sample.value.links);
                  && (id.status == LocalRx <==> s.localRx)
                  && (id.status == RemoteTx <==> !s.localRx && |remote| == 1)
                  && (id.status == Ambiguous <==> !s.localRx && |remote| >= 2)
                  && (id.status == NodeTx <==> !s.localRx && remote == [] && s.localTx)
                  && (id.status == Idle <==> !s.localRx && remote == [] && !s.localTx)
                  && id.nodes == if s.localRx then [] else remote)
            && (sample.None? ==> id.nodes == [])
  {
    hide Keyed;
  }

  /** Where the audio comes from: it is ambiguous exactly with two candidates or more, and these are named; a single source
      is named alone. */
  lemma OriginIff(local: Node, sample: Option<Sample>)
    ensures var origin := Classify(local, sample).origin;
            && (sample.None? ==> origin.source == UnknownSource && origin.node == None && origin.candidates == [])
            && (sample.Some? ==>
                  var s, remote := sample.value, Keyed(sample.value.links);
                  var sources := (if s.localRx then [local] else []) + remote;
                  && (origin.source == AmbiguousSource <==> |sources| >= 2)
                  && (origin.source == LocalRf <==> s.localRx && remote == [])
                  && (origin.source == RemoteLink <==> !s.localRx && |remote| == 1)
                  && (origin.source == InternalOrUnknown <==> sources == [] && s.localTx)
                  && (origin.source == NoSource <==> sources == [] && !s.localTx)
                  && origin.node == (if |sources| == 1 then Some(sources[0]) else None)
                  && origin.candidates == (if |sources| >= 2 then sources else []))
            && (origin.Active() <==> sample.Some? && (sample.value.localRx || sample.value.localTx || Keyed(sample.value.links) != []))
  {
    hide Keyed;
  }

  datatype Transition = Start | End | Interrupted

  datatype Event = Event(transition: Transition, identity: Identity)

  predicate Audible(id: Identity) {
    id.status.LocalRx? || id.status.RemoteTx? || id.status.Ambiguous?
  }

  predicate Timed(id: Identity) {
    !id.status.Idle? && !id.status.Unavailable?
  }

  function TransitionEvent(id: Identity, transition: Transition): seq<Event> {
    if Audible(id) then [Event(transition, id)] else []
  }

  /** The saved record. */
  datatype Record = Record(activity: Activity, lastUpdate: int, startedAt: Option<int>,
                           originStartedAt: Option<int>, lastActiveAt: Option<int>)

  /** One observation: the sample, if telemetry answered, and the clock. */
  datatype Observation = Observation(time: int, sample: Option<Sample>)

  predicate Continuous(stale: nat, previous: Option<Record>, now: int) {
    previous.Some? && 0 <= now - previous.value.lastUpdate <= stale
  }

  function Updated(local: Node, stale: nat, previous: Option<Record>, o: Observation): Record {
    var current := Classify(local, o.sample);
    var continuous := Continuous(stale, previous, o.time);
    var started :=
      if !Timed(current.identity) then None
      else if continuous && previous.value.activity.identity == current.identity then
        Some(previous.value.startedAt.GetOr(o.time))
      else Some(o.time);
    var originStarted :=
      if !current.origin.Active() then None
      else if continuous && previous.value.activity.origin == current.origin
              && previous.value.originStartedAt.Some? && o.time - previous.value.originStartedAt.value >= 0 then
        previous.value.originStartedAt
      else Some(o.time);
    var lastActive :=
      if current.origin.Active() then Some(o.time)
      else if previous.Some? && previous.value.lastActiveAt.Some? && o.time - previous.value.lastActiveAt.value >= 0 then
        previous.value.lastActiveAt
      else None;
    Record(current, o.time, started, originStarted, lastActive)
  }

  function Transitions(local: Node, stale: nat, previous: Option<Record>, o: Observation): seq<Event> {
    var current := Classify(local, o.sample);
    var continuous := Continuous(stale, previous, o.time);
    if continuous && previous.value.activity.identity == current.identity then []
    else
      (if previous.None? then []
       else TransitionEvent(previous.value.activity.identity,
                            if continuous && o.sample.Some? then End else Interrupted))
      + TransitionEvent(current.identity, Start)
  }

  class Tracker {
    const local: Node
    const stale: nat
    var state: Option<Record>
    var emitted: seq<Event>

    constructor (local: Node, stale: nat)
      ensures this.local == local && this.stale == stale && state == None && emitted == []
    {
      this.local := local;
      this.stale := stale;
      state := None;
      emitted := [];
    }

    method Update(o: Observation)
      modifies this
      ensures state == Some(Updated(local, stale, old(state), o))
      ensures emitted == old(emitted) + Transitions(local, stale, old(state), o)
    {
      var current := Classify(local, o.sample);
      var continuous := state.Some? && 0 <= o.time - state.value.lastUpdate <= stale;
      var lastActive: Option<int> := None;
      if state.Some? && state.value.lastActiveAt.Some? && o.time - state.value.lastActiveAt.value >= 0 {
        lastActive := state.value.lastActiveAt;
      }
      if current.origin.Active() {
        lastActive := Some(o.time);
      }
      var sameIdentity := state.Some? && state.value.activity.identity == current.identity;
      var started: Option<int> := None;
      if continuous && sameIdentity && Timed(current.identity) {
        started := Some(state.value.startedAt.GetOr(o.time));
      } else if Timed(current.identity) {
        started := Some(o.time);
      }
      var originStarted: Option<int> := None;
      if current.origin.Active() {
        if continuous && state.value.activity.origin == current.origin
           && state.value.originStartedAt.Some? && o.time - state.value.originStartedAt.value >= 0 {
          originStarted := state.value.originStartedAt;
        } else {
          originStarted := Some(o.time);
        }
      }
      if !sameIdentity || !continuous {
        var interrupted := !continuous || current.identity.status.Unavailable?;
        if state.Some? {
          emitted := emitted + TransitionEvent(state.value.activity.identity, if interrupted then Interrupted else End);
        }
        emitted := emitted + TransitionEvent(current.identity, Start);
      }
      state := Some(Record(current, o.time, started, originStarted, lastActive));
    }
  }

  // ---------------------------------------------------------------------------------------------------
  // Runs.

  function After(local: Node, stale: nat, run: seq<Observation>): (r: Option<Record>)
    ensures r.Some? <==> run != []
  {
    if run == [] then None
    else Some(Updated(local, stale, After(local, stale, run[..|run| - 1]), run[|run| - 1]))
  }

  function Log(local: Node, stale: nat, run: seq<Observation>): seq<Event> {
    if run == [] then []
    else
      var init := run[..|run| - 1];
      Log(local, stale, init) + Transitions(local, stale, After(local, stale, init), run[|run| - 1])
  }

  /** Reading a log as brackets. */
  datatype Reading = Closed | Open(identity: Identity) | Malformed

  function ReadEvent(r: Reading, e: Event): Reading {
    match (r, e.transition)
    case (Closed, Start) => Open(e.identity)
    case (Open(id), End) => if id == e.identity then Closed else Malformed
    case (Open(id), Interrupted) => if id == e.identity then Closed else Malformed
    case _ => Malformed
  }

  function Read(log: seq<Event>): Reading {
    if log == [] then Closed else ReadEvent(Read(log[..|log| - 1]), log[|log| - 1])
  }

  lemma {:induction false} ReadAppend(log: seq<Event>, more: seq<Event>)
    requires |more| <= 2
    ensures Read(log + more) ==
            if more == [] then Read(log)
            else if |more| == 1 then ReadEvent(Read(log), more[0])
            else ReadEvent(ReadEvent(Read(log), more[0]), more[1])
  {
    if more == [] {
      assert log + more == log;
    } else {
      assert (log + more)[..|log + more| - 1] == log + more[..|more| - 1];
      ReadAppend(log, more[..|more| - 1]);
    }
  }

  /** Over every run the log is well bracketed: every START is closed by one END or INTERRUPTED of the same
      identity before the next START, and what is open at the end is the activity now on the air. */
  lemma {:induction false} LogIsBracketed(local: Node, stale: nat, run: seq<Observation>)
    ensures Read(Log(local, stale, run)) == Standing(After(local, stale, run))
  {
    hide Transitions, Updated, Read, Classify;
    if run == [] {
      ReadNothing();
    } else {
      var init, o := run[..|run| - 1], run[|run| - 1];
      LogIsBracketed(local, stale, init);
      UpdateIsBracketed(local, stale, After(local, stale, init), o, Log(local, stale, init));
    }
  }

  lemma ReadNothing()
    ensures Read([]) == Closed
  {
  }

  function Standing(r: Option<Record>): Reading {
    if r.Some? && Audible(r.value.activity.identity) then Open(r.value.activity.identity) else Closed
  }

  lemma UpdateIsBracketed(local: Node, stale: nat, previous: Option<Record>, o: Observation, log: seq<Event>)
    requires Read(log) == Standing(previous)
    ensures Read(log + Transitions(local, stale, previous, o)) == Standing(Some(Updated(local, stale, previous, o)))
  {
    hide Read, Classify, Audible;
    ReadAppend(log, Transitions(local, stale, previous, o));
  }

  /** END is emitted only across a gap the tracker trusts and towards an available sample; every other way to
      leave an audible activity is an interruption. */
  lemma ClosingEventIff(local: Node, stale: nat, run: seq<Observation>, id: Identity)
    requires |run| >= 2
    ensures var n := |run|;
            var before := Classify(local, run[n - 2].sample).identity;
            var now := Classify(local, run[n - 1].sample).identity;
            var gap := run[n - 1].time - run[n - 2].time;
            var events := Transitions(local, stale, After(local, stale, run[..n - 1]), run[n - 1]);
            && (Event(End, id) in events <==>
                  id == before && Audible(before) && 0 <= gap <= stale && run[n - 1].sample.Some? && now != before)
            && (Event(Interrupted, id) in events <==>
                  id == before && Audible(before) && (!(0 <= gap <= stale) || run[n - 1].sample.None?))
  {
    var init := run[..|run| - 1];
    assert After(local, stale, init).value.activity == Classify(local, run[|run| - 2].sample);
  }

  /** A START is emitted exactly for an audible activity that was not on the air at the observation before. */
  lemma StartEventIff(local: Node, stale: nat, run: seq<Observation>, id: Identity)
    requires run != []
    ensures var n := |run|;
            var now := Classify(local, run[n - 1].sample).identity;
            var events := Transitions(local, stale, After(local, stale, run[..n - 1]), run[n - 1]);
            var same := n >= 2 && Classify(local, run[n - 2].sample).identity == now
                        && 0 <= run[n - 1].time - run[n - 2].time <= stale;
            && (Event(Start, id) in events <==>
                  id == now && (now.status == LocalRx || now.status == RemoteTx || now.status == Ambiguous) && !same)
            && |events| <= 2
  {
    var init := run[..|run| - 1];
    if init != [] {
      assert After(local, stale, init).value.activity == Classify(local, run[|run| - 2].sample);
    }
  }

  /** The last active observation, if the clock has not been before it since. */
  ghost predicate LastActive(local: Node, run: seq<Observation>, k: nat) {
    && k < |run| && Classify(local, run[k].sample).origin.Active()
    && (forall j :: k < j < |run| ==> !Classify(local, run[j].sample).origin.Active())
    && (forall j :: k < j < |run| ==> run[k].time <= run[j].time)
  }

  lemma LastActiveGrows(local: Node, init: seq<Observation>, o: Observation, k: nat)
    ensures k < |init| ==>
              (LastActive(local, init + [o], k) <==>
                 LastActive(local, init, k) && !Classify(local, o.sample).origin.Active() && init[k].time <= o.time)
    ensures LastActive(local, init + [o], |init|) <==> Classify(local, o.sample).origin.Active()
  {
    hide Classify;
    var run := init + [o];
    assert run[|init|] == o;
    if k < |init| {
      assert forall j :: 0 <= j < |init| ==> run[j] == init[j];
      if LastActive(local, run, k) {
        assert !Classify(local, run[|init|].sample).origin.Active();
      }
    }
  }

  /** The same after one more observation. */
  function LastActiveNext(local: Node, init: seq<Observation>, o: Observation, before: Option<nat>): Option<nat>
    requires before.Some? ==> before.value < |init|
  {
    if Classify(local, o.sample).origin.Active() then Some(|init|)
    else if before.Some? && init[before.value].time <= o.time then before
    else None
  }

  lemma LastActiveAfter(local: Node, stale: nat, init: seq<Observation>, o: Observation, before: Option<nat>)
    requires before.Some? ==> before.value < |init|
    requires init == [] ==> before.None?
    requires init != [] ==>
               After(local, stale, init).value.lastActiveAt == if before.Some? then Some(init[before.value].time) else None
    ensures var last := LastActiveNext(local, init, o, before);
            After(local, stale, init + [o]).value.lastActiveAt == if last.Some? then Some((init + [o])[last.value].time) else None
  {
    assert (init + [o])[..|init|] == init;
    hide Classify;
  }

  /** `last_active_at` is the time of the last active observation; a clock before that time makes it forgotten. */
  lemma {:induction false} LastActiveIff(local: Node, stale: nat, run: seq<Observation>) returns (last: Option<nat>)
    requires run != []
    ensures forall k: nat :: k < |run| ==> (LastActive(local, run, k) <==> last == Some(k))
    ensures last.Some? ==> last.value < |run|
    ensures After(local, stale, run).value.lastActiveAt == if last.Some? then Some(run[last.value].time) else None
  {
    var init, o := run[..|run| - 1], run[|run| - 1];
    assert run == init + [o];
    hide LastActive, Classify, After;
    var before: Option<nat> := None;
    if init != [] {
      before := LastActiveIff(local, stale, init);
    }
    LastActiveAfter(local, stale, init, o, before);
    last := LastActiveNext(local, init, o, before);
    forall k: nat | k < |run| ensures LastActive(local, run, k) <==> last == Some(k) {
      LastActiveGrows(local, init, o, k);
    }
  }

  // ---------------------------------------------------------------------------------------------------
  // The start time.

  function IdentityOf(local: Node): Observation -> Identity {
    (o: Observation) => Classify(local, o.sample).identity
  }

  function OriginOf(local: Node): Observation -> Origin {
    (o: Observation) => Classify(local, o.sample).origin
  }

  /** Observations k and k + 1 belong together: the same key, without a larger gap or a step back. */
  predicate Joined<K(==)>(key: Observation -> K, stale: nat, run: seq<Observation>, k: nat)
    requires k + 1 < |run|
  {
    key(run[k]) == key(run[k + 1]) && 0 <= run[k + 1].time - run[k].time <= stale
  }

  /** Observation k begins the maximal joined suffix of the run. */
  ghost predicate BeginsSuffix<K>(key: Observation -> K, stale: nat, run: seq<Observation>, k: nat) {
    && k < |run|
    && (forall j: nat :: k <= j && j + 1 < |run| ==> Joined(key, stale, run, j))
    && (k > 0 ==> !Joined(key, stale, run, k - 1))
  }

  lemma SuffixGrows<K>(key: Observation -> K, stale: nat, run: seq<Observation>, k: nat)
    requires |run| >= 2 && BeginsSuffix(key, stale, run[..|run| - 1], k)
    ensures BeginsSuffix(key, stale, run, if Joined(key, stale, run, |run| - 2) then k else |run| - 1)
  {
    var init := run[..|run| - 1];
    assert forall j: nat :: j + 1 < |init| ==> Joined(key, stale, init, j) == Joined(key, stale, run, j);
  }

  /** `started_at` is the time of the observation that begins the maximal suffix of same-identity samples. */
  lemma {:induction false} StartIsSuffixStart(local: Node, stale: nat, run: seq<Observation>) returns (k: nat)
    requires run != []
    ensures BeginsSuffix(IdentityOf(local), stale, run, k)
    ensures var r := After(local, stale, run).value;
            && r.startedAt == (if Timed(r.activity.identity) then Some(run[k].time) else None)
            && run[k].time <= r.lastUpdate == run[|run| - 1].time
  {
    if |run| == 1 {
      k := 0;
    } else {
      var init := run[..|run| - 1];
      var b := StartIsSuffixStart(local, stale, init);
      SuffixGrows(IdentityOf(local), stale, run, b);
      hide BeginsSuffix;
      assert After(local, stale, init).value.activity == Classify(local, run[|run| - 2].sample);
      k := if Joined(IdentityOf(local), stale, run, |run| - 2) then b else |run| - 1;
    }
  }

  /** The start of the origin is the time of the observation that begins the maximal suffix of same-origin samples. */
  lemma {:induction false} OriginStartIsSuffixStart(local: Node, stale: nat, run: seq<Observation>) returns (k: nat)
    requires run != []
    ensures BeginsSuffix(OriginOf(local), stale, run, k)
    ensures var r := After(local, stale, run).value;
            && r.originStartedAt == (if r.activity.origin.Active() then Some(run[k].time) else None)
            && run[k].time <= r.lastUpdate == run[|run| - 1].time
  {
    if |run| == 1 {
      k := 0;
    } else {
      var init := run[..|run| - 1];
      var b := OriginStartIsSuffixStart(local, stale, init);
      SuffixGrows(OriginOf(local), stale, run, b);
      hide BeginsSuffix;
      assert After(local, stale, init).value.activity == Classify(local, run[|run| - 2].sample);
      k := if Joined(OriginOf(local), stale, run, |run| - 2) then b else |run| - 1;
    }
  }

  /** The local receiver is keyed in `a` together with some links, and `b` hears the local node over a link and then the
      same links: two different activities with one origin. */
  predicate Alias(local: Node, a: Observation, b: Observation) {
    && a.sample.Some? && b.sample.Some?
    && a.sample.value.localRx && !b.sample.value.localRx
    && Keyed(a.sample.value.links) != []
    && Keyed(b.sample.value.links) == [local] + Keyed(a.sample.value.links)
  }

  predicate SameOrigin(local: Node, a: Observation, b: Observation) {
    Classify(local, a.sample).origin == Classify(local, b.sample).origin && Classify(local, a.sample).origin.Active()
  }

  predicate SameIdentity(local: Node, a: Observation, b: Observation) {
    Classify(local, a.sample).identity == Classify(local, b.sample).identity
  }

  /** An active origin decides the identity, but for aliases. */
  lemma OriginDecidesIdentityIff(local: Node, a: Observation, b: Observation)
    ensures SameOrigin(local, a, b) && !SameIdentity(local, a, b) <==> Alias(local, a, b) || Alias(local, b, a)
  {
    if a.sample.Some? && b.sample.Some? {
      var x, y := Keyed(a.sample.value.links), Keyed(b.sample.value.links);
      assert ([local] + x)[1..] == x && ([local] + y)[1..] == y;
      assert |x| == 1 ==> x == [x[0]];
      assert |y| == 1 ==> y == [y[0]];
      hide Keyed;
    }
  }

  predicate StartsInOrder(r: Record) {
    && (r.startedAt.Some? <==> r.originStartedAt.Some?)
    && (r.startedAt.Some? ==> r.startedAt.value <= r.originStartedAt.value <= r.lastUpdate)
  }

  /** An alias, within the gap that the tracker trusts, of an activity whose origin started before now. */
  predicate Defeats(local: Node, stale: nat, p: Record, before: Observation, last: Observation) {
    && (Alias(local, before, last) || Alias(local, last, before))
    && 0 <= last.time - before.time <= stale
    && p.originStartedAt != Some(last.time)
  }

  lemma ActiveIsTimed(local: Node, o: Observation)
    ensures Classify(local, o.sample).origin.Active() <==> Timed(Classify(local, o.sample).identity)
  {
  }

  /** One update keeps the order exactly if it does not meet such an alias. */
  lemma UpdateKeepsOrderIff(local: Node, stale: nat, p: Record, before: Observation, last: Observation)
    requires p.activity == Classify(local, before.sample) && p.lastUpdate == before.time && StartsInOrder(p)
    requires p.startedAt.Some? <==> Timed(p.activity.identity)
    ensures StartsInOrder(Updated(local, stale, Some(p), last)) <==> !Defeats(local, stale, p, before, last)
  {
    hide Classify, Alias, Timed;
    ActiveIsTimed(local, before);
    ActiveIsTimed(local, last);
    OriginDecidesIdentityIff(local, before, last);
  }

  lemma RecordOfLast(local: Node, stale: nat, run: seq<Observation>)
    requires run != []
    ensures var r, last := After(local, stale, run).value, run[|run| - 1];
            && r.activity == Classify(local, last.sample) && r.lastUpdate == last.time
            && (r.startedAt.Some? <==> Timed(r.activity.identity))
  {
    hide Classify, Timed;
  }

  /** The record after every part of the run has its starts in order. */
  ghost predicate AlwaysInOrder(local: Node, stale: nat, run: seq<Observation>) {
    forall n: nat :: 1 <= n <= |run| ==> StartsInOrder(After(local, stale, run[..n]).value)
  }

  /** Observation k + 1 meets an alias of observation k. */
  predicate DefeatedAt(local: Node, stale: nat, run: seq<Observation>, k: nat)
    requires k + 1 < |run|
  {
    Defeats(local, stale, After(local, stale, run[..k + 1]).value, run[k], run[k + 1])
  }

  lemma AfterNext(local: Node, stale: nat, run: seq<Observation>, n: nat)
    requires 1 <= n < |run|
    ensures After(local, stale, run[..n + 1]) == Some(Updated(local, stale, After(local, stale, run[..n]), run[n]))
    ensures run[..n][|run[..n]| - 1] == run[n - 1]
  {
    assert run[..n + 1][..n] == run[..n];
  }

  lemma NextInOrderIff(local: Node, stale: nat, run: seq<Observation>, n: nat)
    requires 1 <= n < |run| && StartsInOrder(After(local, stale, run[..n]).value)
    ensures StartsInOrder(After(local, stale, run[..n + 1]).value) <==> !DefeatedAt(local, stale, run, n - 1)
  {
    hide Updated, After, StartsInOrder, Defeats, Classify, Timed;
    AfterNext(local, stale, run, n);
    RecordOfLast(local, stale, run[..n]);
    UpdateKeepsOrderIff(local, stale, After(local, stale, run[..n]).value, run[n - 1], run[n]);
  }

  lemma {:induction false} OrderUpTo(local: Node, stale: nat, run: seq<Observation>, n: nat)
    requires 1 <= n <= |run| && forall k: nat :: k + 1 < n ==> !DefeatedAt(local, stale, run, k)
    ensures StartsInOrder(After(local, stale, run[..n]).value)
  {
    hide Updated, StartsInOrder, DefeatedAt;
    if n == 1 {
      assert run[..1][..0] == [];
      FirstInOrder(local, stale, run[0]);
    } else {
      OrderUpTo(local, stale, run, n - 1);
      NextInOrderIff(local, stale, run, n - 1);
    }
  }

  /** Over every run: the activity never starts after the origin it is attributed to, and neither after the last update,
      exactly if no observation meets an alias of the one before. */
  lemma {:induction false} StartPrecedesOriginIff(local: Node, stale: nat, run: seq<Observation>)
    ensures AlwaysInOrder(local, stale, run) <==> forall k: nat :: k + 1 < |run| ==> !DefeatedAt(local, stale, run, k)
  {
    hide After, StartsInOrder, DefeatedAt;
    if AlwaysInOrder(local, stale, run) {
      forall k: nat | k + 1 < |run| ensures !DefeatedAt(local, stale, run, k) {
        NextInOrderIff(local, stale, run, k + 1);
      }
    }
    if forall k: nat :: k + 1 < |run| ==> !DefeatedAt(local, stale, run, k) {
      forall n: nat | 1 <= n <= |run| ensures StartsInOrder(After(local, stale, run[..n]).value) {
        OrderUpTo(local, stale, run, n);
      }
    }
  }

  /** When the clock has moved on, whether an alias defeats the order can be seen from the two observations. */
  lemma DefeatedLater(local: Node, stale: nat, run: seq<Observation>, k: nat)
    requires k + 1 < |run| && run[k].time < run[k + 1].time
    requires StartsInOrder(After(local, stale, run[..k + 1]).value)
    ensures DefeatedAt(local, stale, run, k) <==>
            && (Alias(local, run[k], run[k + 1]) || Alias(local, run[k + 1], run[k]))
            && run[k + 1].time - run[k].time <= stale
  {
    hide Classify, Timed, Updated, After, Alias;
    RecordOfLast(local, stale, run[..k + 1]);
    assert run[..k + 1][k] == run[k];
  }

  lemma FirstInOrder(local: Node, stale: nat, o: Observation)
    ensures StartsInOrder(Updated(local, stale, None, o))
  {
  }

  /** A node linked to itself defeats that order: the origin survives a change of identity. */
  lemma SelfLinkDefeatsOrder()
    ensures var remote := [Link(1, Transceive, true), Link(2, Transceive, true)];
            var run := [Observation(10, Some(Sample(true, false, [Link(2, Transceive, true)]))),
                        Observation(12, Some(Sample(false, false, remote)))];
            var r := After(1, 6, run).value;
            r.startedAt == Some(12) && r.originStartedAt == Some(10)
  {
    var remote := [Link(1, Transceive, true), Link(2, Transceive, true)];
    var first := Observation(10, Some(Sample(true, false, [Link(2, Transceive, true)])));
    var second := Observation(12, Some(Sample(false, false, remote)));
    assert remote[1..] == [Link(2, Transceive, true)];
    assert Keyed([Link(2, Transceive, true)]) == [2];
    assert Keyed(remote) == [1, 2];
    assert [first, second][..1] == [first];
    assert After(1, 6, [first]) == Some(Updated(1, 6, None, first));
    assert [1] + [2] == [1, 2];
  }
}
