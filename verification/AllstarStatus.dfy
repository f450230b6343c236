/** Link sessions (core/allstar_status.py, core/rpt_link_status.py, core/connection_state.py): transport and telemetry
    are reconciled into one sample, and samples into connection events and history records. */
module AllstarStatus {
  import opened Prelude

  type Node = string

  datatype Mode = Transceive | ReceiveOnly | Pending

  datatype Link = Link(node: Node, mode: Mode, keyed: bool)

  datatype Transport = Established | Connecting

  /** A row of the transport table. */
  datatype Row = Row(node: Node, transport: Transport)

  // ---------------------------------------------------------------------------------------------------
  // Reconciliation.

  predicate UsableRows(rows: seq<Row>) {
    && (forall i :: 0 <= i < |rows| ==> Numeric(rows[i].node))
    && (forall i, j :: 0 <= i < j < |rows| ==> rows[i].node != rows[j].node)
  }

  function Nodes(links: seq<Link>): set<Node> {
    set l | l in links :: l.node
  }

  function RowNodes(rows: seq<Row>): set<Node> {
    set r | r in rows :: r.node
  }

  /** A link whose transport is not established is pending and carries no audio. */
  function Demoted(l: Link, states: map<Node, Transport>): Link
    requires l.node in states
  {
    if states[l.node] != Established then l.(mode := Pending, keyed := false) else l
  }

  /** The transport of each node, or None for a malformed or repeated row. */
  method ReadRows(rows: seq<Row>) returns (states: Option<map<Node, Transport>>)
    ensures states.Some? <==> UsableRows(rows)
    ensures states.Some? ==> IsStates(rows, states.value)
  {
    var found: map<Node, Transport> := map[];
    for i := 0 to |rows|
      invariant UsableRows(rows[..i]) && IsStates(rows[..i], found)
    {
      var row := rows[i];
      assert rows[..i + 1] == rows[..i] + [row];
      hide Numeric;
      if !Numeric(row.node) || row.node in found {
        RepeatedRow(rows, i, found);
        return None;
      }
      MoreRows(rows[..i], row, found);
      found := found[row.node := row.transport];
    }
    assert rows[..|rows|] == rows;
    return Some(found);
  }

  ghost predicate IsStates(rows: seq<Row>, states: map<Node, Transport>) {
    && states.Keys == RowNodes(rows)
    && forall k :: 0 <= k < |rows| ==> rows[k].node in states && states[rows[k].node] == rows[k].transport
  }

  lemma MoreRows(rows: seq<Row>, row: Row, states: map<Node, Transport>)
    requires UsableRows(rows) && IsStates(rows, states) && Numeric(row.node) && row.node !in states
    ensures UsableRows(rows + [row]) && IsStates(rows + [row], states[row.node := row.transport])
  {
    var more := rows + [row];
    assert forall r :: r in more <==> r in rows || r == row;
    assert RowNodes(more) == RowNodes(rows) + {row.node} by {
      assert row in more;
    }
  }

  lemma RepeatedRow(rows: seq<Row>, i: nat, states: map<Node, Transport>)
    requires i < |rows| && IsStates(rows[..i], states)
    requires !Numeric(rows[i].node) || rows[i].node in states
    ensures !UsableRows(rows)
  {
    if rows[i].node in states {
      var r :| r in rows[..i] && r.node == rows[i].node;
      var k :| 0 <= k < i && rows[..i][k] == r;
      assert rows[k].node == rows[i].node;
    }
  }

  /** Telemetry may name only nodes with a transport, and the transport alone only nodes that are connecting. */
  predicate Consistent(links: seq<Link>, states: map<Node, Transport>) {
    && Nodes(links) <= states.Keys
    && forall n :: n in states && n !in Nodes(links) ==> states[n] == Connecting
  }

  /** The outcome of `reconcile`: exactly the nodes of the transport, and only established ones carry a
      connection or audio; those are reported as telemetry has them. */
  ghost predicate IsReconciled(links: seq<Link>, rows: seq<Row>, result: seq<Link>) {
    && Nodes(result) == RowNodes(rows)
    && (forall l :: l in result && (l.mode != Pending || l.keyed) ==> l in links && Row(l.node, Established) in rows)
    && (forall l :: l in links && Row(l.node, Established) in rows ==> l in result)
  }

  /** `reconcile`: None when the table is malformed or the two views cannot be of one moment. The source lists the
      links that only the transport knows in sorted order; any order of them is allowed here. */
  method Reconcile(links: seq<Link>, rows: seq<Row>) returns (reconciled: Option<seq<Link>>)
    ensures reconciled.Some? <==>
              && UsableRows(rows) && Nodes(links) <= RowNodes(rows)
              && forall r :: r in rows && r.node !in Nodes(links) ==> r.transport == Connecting
    ensures reconciled.Some? ==> IsReconciled(links, rows, reconciled.value)
  {
    var read := ReadRows(rows);
    if read.None? {
      return None;
    }
    var states := read.value;
    ConsistentRows(links, rows, states);
    hide UsableRows, IsStates, IsReconciled;
    if !Consistent(links, states) {
      return None;
    }
    AllListed(links, states);
    var kept := seq(|links|, i requires 0 <= i < |links| && links[i].node in states => Demoted(links[i], states));
    var pending := PendingLinks(states.Keys - Nodes(links));
    reconciled := Some(kept + pending);
    ReconciledFacts(links, rows, states, kept, pending);
  }

  lemma AllListed(links: seq<Link>, states: map<Node, Transport>)
    requires Nodes(links) <= states.Keys
    ensures forall i :: 0 <= i < |links| ==> links[i].node in states
  {
    assert forall i :: 0 <= i < |links| ==> links[i] in links && links[i].node in Nodes(links);
  }

  lemma ConsistentRows(links: seq<Link>, rows: seq<Row>, states: map<Node, Transport>)
    requires IsStates(rows, states)
    ensures Consistent(links, states) <==>
              && Nodes(links) <= RowNodes(rows)
              && forall r :: r in rows && r.node !in Nodes(links) ==> r.transport == Connecting
  {
    forall r | r in rows ensures r.node in states && states[r.node] == r.transport {
      var k :| 0 <= k < |rows| && rows[k] == r;
    }
    forall n | n in states ensures Row(n, states[n]) in rows {
      RowOf(rows, states, n);
    }
    if Consistent(links, states) {
      forall r | r in rows && r.node !in Nodes(links) ensures r.transport == Connecting {
        assert states[r.node] == Connecting;
      }
    }
  }

  method PendingLinks(nodes: set<Node>) returns (links: seq<Link>)
    ensures Nodes(links) == nodes
    ensures forall l :: l in links ==> l.mode == Pending && !l.keyed
  {
    links := [];
    var rest := nodes;
    while rest != {}
      invariant Nodes(links) + rest == nodes
      invariant forall l :: l in links ==> l.mode == Pending && !l.keyed
      decreases rest
    {
      var n :| n in rest;
      assert Nodes(links + [Link(n, Pending, false)]) == Nodes(links) + {n} by {
        assert Link(n, Pending, false) in links + [Link(n, Pending, false)];
        assert forall l :: l in links ==> l in links + [Link(n, Pending, false)];
      }
      links := links + [Link(n, Pending, false)];
      rest := rest - {n};
    }
  }

  lemma ReconciledFacts(links: seq<Link>, rows: seq<Row>, states: map<Node, Transport>, kept: seq<Link>, pending: seq<Link>)
    requires IsStates(rows, states) && Nodes(links) <= states.Keys
    requires forall i :: 0 <= i < |links| ==> links[i].node in states
    requires |kept| == |links| && forall i :: 0 <= i < |links| ==> kept[i] == Demoted(links[i], states)
    requires Nodes(pending) == states.Keys - Nodes(links)
    requires forall l :: l in pending ==> l.mode == Pending && !l.keyed
    ensures IsReconciled(links, rows, kept + pending)
  {
    var all := kept + pending;
    SameNodes(links, states, kept);
    assert forall l :: l in all <==> l in kept || l in pending;
    assert Nodes(all) == Nodes(kept) + Nodes(pending);
    forall l | l in all && (l.mode != Pending || l.keyed) ensures l in links && Row(l.node, Established) in rows {
      assert l in kept;
      var i :| 0 <= i < |kept| && kept[i] == l;
      assert l == Demoted(links[i], states) == links[i];
      RowOf(rows, states, l.node);
    }
    forall l | l in links && Row(l.node, Established) in rows ensures l in all {
      var i :| 0 <= i < |links| && links[i] == l;
      var k :| 0 <= k < |rows| && rows[k] == Row(l.node, Established);
      assert states[l.node] == Established && kept[i] == l;
      assert kept[i] in kept;
    }
  }

  lemma SameNodes(links: seq<Link>, states: map<Node, Transport>, kept: seq<Link>)
    requires forall i :: 0 <= i < |links| ==> links[i].node in states
    requires |kept| == |links| && forall i :: 0 <= i < |links| ==> kept[i] == Demoted(links[i], states)
    ensures Nodes(kept) == Nodes(links)
  {
    forall n ensures n in Nodes(kept) <==> n in Nodes(links) {
      if n in Nodes(links) {
        var l :| l in links && l.node == n;
        var i :| 0 <= i < |links| && links[i] == l;
        assert kept[i] in kept && kept[i].node == n;
      }
      if n in Nodes(kept) {
        var l :| l in kept && l.node == n;
        var i :| 0 <= i < |kept| && kept[i] == l;
        assert links[i] in links && links[i].node == n;
      }
    }
  }

  lemma RowOf(rows: seq<Row>, states: map<Node, Transport>, n: Node)
    requires n in states && IsStates(rows, states)
    ensures Row(n, states[n]) in rows
  {
    assert n in RowNodes(rows);
    var r :| r in rows && r.node == n;
    var k :| 0 <= k < |rows| && rows[k] == r;
  }

  /** `get_links`: the nodes that are connected in either direction. */
  function ConnectedNodes(links: seq<Link>): set<Node> {
    set l | l in links && l.mode != Pending :: l.node
  }

  /** Only established nodes can open a session, so every node the sessions see has a valid number. */
  lemma ConnectedAreEstablished(links: seq<Link>, rows: seq<Row>, result: seq<Link>, n: Node)
    requires UsableRows(rows) && IsReconciled(links, rows, result)
    ensures n in ConnectedNodes(result) ==> Row(n, Established) in rows && Numeric(n)
    ensures Row(n, Established) in rows && n in ConnectedNodes(links) ==> n in ConnectedNodes(result)
  {
    hide Numeric;
    if n in ConnectedNodes(result) {
      var k :| 0 <= k < |rows| && rows[k] == Row(n, Established);
      assert Numeric(rows[k].node);
    }
  }

  // ---------------------------------------------------------------------------------------------------
  // Sessions.

  /** The saved state: when each linked node was first seen. */
  type Since = map<Node, int>

  /** What the validator of the next poll accepts at time `now`. */
  predicate AcceptedSince(since: Since, now: int) {
    forall n :: n in since ==> Numeric(n) && since[n] <= now
  }

  datatype Event = Connected(node: Node, at: int) | Disconnected(node: Node, since: int, at: int)

  /** The events of one node. A disconnection also carries its history record. */
  function Of(log: seq<Event>, n: Node): seq<Event> {
    if log == [] then []
    else
      var e := log[|log| - 1];
      Of(log[..|log| - 1], n) + if e.node == n then [e] else []
  }

  lemma OfAppend(log: seq<Event>, e: Event, n: Node)
    ensures Of(log + [e], n) == Of(log, n) + if e.node == n then [e] else []
  {
    assert (log + [e])[..|log|] == log;
  }

  /** What a poll adds for one node. */
  function NodeEvents(since: Since, current: set<Node>, now: int, n: Node): seq<Event> {
    if n in current && n !in since then [Connected(n, now)]
    else if n in since && n !in current then [Disconnected(n, since[n], now)]
    else []
  }

  function NextSince(since: Since, current: set<Node>, now: int): Since {
    map n | n in current :: if n in since then since[n] else now
  }

  function NewSince(nodes: set<Node>, now: int): Since {
    map n | n in nodes :: now
  }

  lemma NoneYet(before: Since, done: set<Node>, now: int)
    requires done == {}
    ensures before + NewSince(done, now) == before
  {
  }

  lemma OneMore(before: Since, done: set<Node>, more: set<Node>, node: Node, now: int)
    requires more == done + {node}
    ensures (before + NewSince(done, now))[node := now] == before + NewSince(more, now)
  {
  }

  lemma NextKeys(before: Since, current: set<Node>, now: int)
    ensures NextSince(before, current, now).Keys == current
  {
  }

  /** What is left after announcing and closing, with every current link tracked, is the next saved state. */
  lemma TrackedLinks(before: Since, current: set<Node>, now: int)
    ensures var since := before + NewSince(current - before.Keys, now) - (before.Keys - current);
            since == NextSince(before, current, now)
  {
  }

  lemma TwoSteps(before: Since, current: set<Node>, now: int, n: Node, log: seq<Event>)
    ensures log + (if n in current - before.Keys then [Connected(n, now)] else [])
                + (if n in before.Keys - current then [Disconnected(n, before[n], now)] else [])
            == log + NodeEvents(before, current, now, n)
  {
  }

  class Monitor {
    var saved: Since
    var log: seq<Event>

    constructor ()
      ensures saved == map[] && log == []
    {
      saved, log := map[], [];
    }

    method Emit(e: Event)
      modifies this`log
      ensures forall n :: Of(log, n) == Of(old(log), n) + if e.node == n then [e] else []
    {
      forall n ensures Of(log + [e], n) == Of(log, n) + if e.node == n then [e] else [] {
        OfAppend(log, e, n);
      }
      log := log + [e];
    }

    method Announce(connected: set<Node>, before: Since, now: int) returns (since: Since)
      requires connected !! before.Keys
      modifies this`log
      ensures since == before + NewSince(connected, now)
      ensures forall n :: Of(log, n) == Of(old(log), n) + if n in connected then [Connected(n, now)] else []
    {
      hide Of, NewSince;
      since := before;
      var rest := connected;
      NoneYet(before, connected - rest, now);
      while rest != {}
        invariant rest <= connected
        invariant since == before + NewSince(connected - rest, now)
        invariant forall n :: Of(log, n) == Of(old(log), n) + if n in connected - rest then [Connected(n, now)] else []
        decreases rest
      {
        var node :| node in rest;
        OneMore(before, connected - rest, connected - (rest - {node}), node, now);
        since := since[node := now];
        Emit(Connected(node, now));
        rest := rest - {node};
      }
      assert connected - {} == connected;
    }

    /** A disconnection also appends the history record of the session. */
    method Close(disconnected: set<Node>, before: Since, now: int) returns (since: Since)
      requires disconnected <= before.Keys
      modifies this`log
      ensures since == before - disconnected
      ensures forall n :: Of(log, n) == Of(old(log), n)
                                        + if n in disconnected then [Disconnected(n, before[n], now)] else []
    {
      hide Of;
      since := before;
      var rest := disconnected;
      while rest != {}
        invariant rest <= disconnected
        invariant since == before - (disconnected - rest)
        invariant forall n :: Of(log, n) == Of(old(log), n)
                              + if n in disconnected - rest then [Disconnected(n, before[n], now)] else []
        decreases rest
      {
        var node :| node in rest;
        Emit(Disconnected(node, since[node], now));
        since := since - {node};
        rest := rest - {node};
      }
      assert disconnected - {} == disconnected;
    }

    /** `check_changes`; `current` is None when telemetry is unavailable. A saved state that the validator refuses is
        read as empty. */
    method CheckChanges(current: Option<set<Node>>, now: int)
      modifies this
      ensures current.None? ==> saved == old(saved) && log == old(log)
      ensures current.Some? ==>
                var before := if AcceptedSince(old(saved), now) then old(saved) else map[];
                && saved == NextSince(before, current.value, now)
                && (forall n :: Of(log, n) == Of(old(log), n) + NodeEvents(before, current.value, now, n))
    {
      if current.None? {
        return;
      }
      var links := current.value;
      var before: Since := if AcceptedSince(saved, now) then saved else map[];
      hide *;
      ghost var was := log;
      var since := Announce(links - before.Keys, before, now);
      since := Close(before.Keys - links, since, now);
      TrackedLinks(before, links, now);
      // a link that is up is tracked from now on if it is not already
      saved := Track(links, since, now);
      NextKeys(before, links, now);
      NoneYet(since, links - since.Keys, now);
      forall n ensures Of(log, n) == Of(was, n) + NodeEvents(before, links, now, n) {
        TwoSteps(before, links, now, n, Of(was, n));
      }
    }

    method Track(links: set<Node>, before: Since, now: int) returns (since: Since)
      ensures since == before + NewSince(links - before.Keys, now)
    {
      hide NewSince;
      since := before;
      var rest := links;
      NoneYet(before, {}, now);
      assert links - rest - before.Keys == {};
      while rest != {}
        invariant rest <= links
        invariant since == before + NewSince(links - rest - before.Keys, now)
        invariant since.Keys == before.Keys + (links - rest)
        decreases rest
      {
        var node :| node in rest;
        ghost var done, more := links - rest - before.Keys, links - (rest - {node}) - before.Keys;
        if node !in since {
          assert more == done + {node};
          OneMore(before, done, more, node, now);
          since := since[node := now];
        } else {
          assert more == done;
        }
        rest := rest - {node};
      }
      assert links - {} - before.Keys == links - before.Keys;
    }
  }

  // ---------------------------------------------------------------------------------------------------
  // Runs.

  datatype Poll = Poll(current: Option<set<Node>>, now: int)

  datatype State = State(saved: Since, log: map<Node, seq<Event>>)

  function EventsOf(s: State, n: Node): seq<Event> {
    if n in s.log then s.log[n] else []
  }

  /** A poll as a function, with the log kept for each node of the universe `all`. */
  function Step(all: set<Node>, s: State, p: Poll): State {
    if p.current.None? then s
    else
      var before := if AcceptedSince(s.saved, p.now) then s.saved else map[];
      State(NextSince(before, p.current.value, p.now),
            map n | n in all :: EventsOf(s, n) + NodeEvents(before, p.current.value, p.now, n))
  }

  function Run(all: set<Node>, polls: seq<Poll>): State {
    if polls == [] then State(map[], map[]) else Step(all, Run(all, polls[..|polls| - 1]), polls[|polls| - 1])
  }

  // ---------------------------------------------------------------------------------------------------
  // Conservation.

  function OpenSince(since: Since, n: Node): Option<int> {
    if n in since then Some(since[n]) else None
  }

  /** The log of a node alternates, each record begins when its session did and does not end before that, and what is
      open is what is saved. When `ordered`, no session begins before the last one ended. */
  ghost predicate SessionLog(n: Node, log: seq<Event>, open: Option<int>, ordered: bool) {
    if log == [] then open == None
    else
      var init, e := log[..|log| - 1], log[|log| - 1];
      match e
      case Connected(m, at) =>
        m == n && open == Some(at) && SessionLog(n, init, None, ordered)
        && (ordered && init != [] ==> init[|init| - 1].at <= at)
      case Disconnected(m, since, at) => m == n && open == None && since <= at && SessionLog(n, init, Some(since), ordered)
  }

  /** Every node's sessions are accounted for. */
  ghost predicate Sound(all: set<Node>, s: State, ordered: bool) {
    forall n :: n in all ==> SessionLog(n, EventsOf(s, n), OpenSince(s.saved, n), ordered)
  }

  /** A node does not come up before its last session ended. */
  predicate ComesLater(s: State, n: Node, now: int) {
    var log := EventsOf(s, n);
    n !in s.saved && log != [] ==> log[|log| - 1].at <= now
  }

  /** The validator accepts the saved state at the time of the poll; and when `ordered`, no node comes up early. */
  ghost predicate Admissible(s: State, p: Poll, ordered: bool) {
    p.current.Some? ==>
      && AcceptedSince(s.saved, p.now)
      && (ordered ==> forall n :: n in p.current.value ==> ComesLater(s, n, p.now))
  }

  ghost predicate Covers(all: set<Node>, p: Poll) {
    p.current.Some? ==> p.current.value <= all
  }

  /** A log says what is open. */
  lemma OpenIsUnique(n: Node, log: seq<Event>, a: Option<int>, b: Option<int>, ordered: bool)
    requires SessionLog(n, log, a, ordered) && SessionLog(n, log, b, ordered)
    ensures a == b
  {
  }

  lemma AppendedLog(n: Node, log: seq<Event>, e: Event, open: Option<int>, ordered: bool)
    ensures SessionLog(n, log + [e], open, ordered) <==>
            match e
            case Connected(m, at) =>
              m == n && open == Some(at) && SessionLog(n, log, None, ordered)
              && (ordered && log != [] ==> log[|log| - 1].at <= at)
            case Disconnected(m, since, at) =>
              m == n && open == None && since <= at && SessionLog(n, log, Some(since), ordered)
  {
    assert (log + [e])[..|log|] == log && (log + [e])[|log|] == e;
  }

  lemma NodeKeepsIff(n: Node, log: seq<Event>, since: Since, current: set<Node>, now: int, ordered: bool)
    requires SessionLog(n, log, OpenSince(since, n), ordered)
    requires n in since ==> since[n] <= now
    ensures SessionLog(n, log + NodeEvents(since, current, now, n), OpenSince(NextSince(since, current, now), n), ordered)
            <==> (ordered && n in current && n !in since && log != [] ==> log[|log| - 1].at <= now)
  {
    hide SessionLog;
    assert log + [] == log;
    AppendedLog(n, log, Connected(n, now), Some(now), ordered);
    if n in since {
      AppendedLog(n, log, Disconnected(n, since[n], now), None, ordered);
    }
  }

  /** When the saved state is refused, every session in it is lost. */
  lemma RefusalBreaks(n: Node, log: seq<Event>, since: int, current: set<Node>, now: int, ordered: bool)
    requires SessionLog(n, log, Some(since), ordered)
    ensures !SessionLog(n, log + NodeEvents(map[], current, now, n), OpenSince(NextSince(map[], current, now), n), ordered)
  {
    assert log + [] == log;
    AppendedLog(n, log, Connected(n, now), Some(now), ordered);
    if SessionLog(n, log, None, ordered) {
      OpenIsUnique(n, log, Some(since), None, ordered);
    }
    hide SessionLog;
  }

  lemma EventsAfter(all: set<Node>, s: State, p: Poll, n: Node)
    requires n in all && p.current.Some?
    ensures var before := if AcceptedSince(s.saved, p.now) then s.saved else map[];
            EventsOf(Step(all, s, p), n) == EventsOf(s, n) + NodeEvents(before, p.current.value, p.now, n)
  {
    hide AcceptedSince;
  }

  /** A poll keeps every node's sessions accounted for if and only if the validator accepts the saved state at that time
      (and, for their order, no node comes up before its last session ended). */
  lemma PollKeepsSessionsIff(all: set<Node>, s: State, p: Poll, ordered: bool)
    requires Sound(all, s, ordered) && s.saved.Keys <= all && Covers(all, p)
    ensures Sound(all, Step(all, s, p), ordered) <==> Admissible(s, p, ordered)
  {
    hide SessionLog, NodeEvents, NextSince;
    if p.current.Some? {
      var t := Step(all, s, p);
      forall n | n in all ensures EventsOf(t, n) == EventsOf(s, n) + NodeEvents(
        if AcceptedSince(s.saved, p.now) then s.saved else map[], p.current.value, p.now, n) {
        EventsAfter(all, s, p, n);
      }
      if AcceptedSince(s.saved, p.now) {
        forall n | n in all
          ensures SessionLog(n, EventsOf(t, n), OpenSince(t.saved, n), ordered) <==>
                  (ordered && n in p.current.value ==> ComesLater(s, n, p.now))
        {
          NodeKeepsIff(n, EventsOf(s, n), s.saved, p.current.value, p.now, ordered);
        }
        hide EventsOf, Step, OpenSince;
      } else {
        var n :| n in s.saved;
        RefusalBreaks(n, EventsOf(s, n), s.saved[n], p.current.value, p.now, ordered);
        assert n in all && !SessionLog(n, EventsOf(t, n), OpenSince(t.saved, n), ordered);
      }
    }
  }

  ghost predicate CoversAll(all: set<Node>, polls: seq<Poll>) {
    forall k :: 0 <= k < |polls| ==> Covers(all, polls[k])
  }

  lemma {:induction false} SavedIsCovered(all: set<Node>, polls: seq<Poll>)
    requires CoversAll(all, polls)
    ensures Run(all, polls).saved.Keys <= all
  {
    if polls != [] {
      SavedIsCovered(all, polls[..|polls| - 1]);
      assert Covers(all, polls[|polls| - 1]);
    }
  }

  ghost predicate AlwaysSound(all: set<Node>, polls: seq<Poll>, ordered: bool) {
    forall k :: 0 <= k <= |polls| ==> Sound(all, Run(all, polls[..k]), ordered)
  }

  ghost predicate AlwaysAdmissible(all: set<Node>, polls: seq<Poll>, ordered: bool) {
    forall k :: 0 <= k < |polls| ==> Admissible(Run(all, polls[..k]), polls[k], ordered)
  }

  lemma RunNext(all: set<Node>, polls: seq<Poll>, k: nat)
    requires k < |polls|
    ensures Run(all, polls[..k + 1]) == Step(all, Run(all, polls[..k]), polls[k])
  {
    assert polls[..k + 1][..k] == polls[..k];
  }

  lemma NextIsSoundIff(all: set<Node>, polls: seq<Poll>, k: nat, ordered: bool)
    requires CoversAll(all, polls) && k < |polls| && Sound(all, Run(all, polls[..k]), ordered)
    ensures Sound(all, Run(all, polls[..k + 1]), ordered) <==> Admissible(Run(all, polls[..k]), polls[k], ordered)
  {
    hide Sound, Admissible, Run, Step;
    RunNext(all, polls, k);
    assert CoversAll(all, polls[..k]);
    SavedIsCovered(all, polls[..k]);
    PollKeepsSessionsIff(all, Run(all, polls[..k]), polls[k], ordered);
  }

  lemma {:induction false} SoundUpTo(all: set<Node>, polls: seq<Poll>, n: nat, ordered: bool)
    requires CoversAll(all, polls) && n <= |polls| && AlwaysAdmissible(all, polls, ordered)
    ensures Sound(all, Run(all, polls[..n]), ordered)
  {
    hide Admissible, Step, CoversAll;
    if n > 0 {
      SoundUpTo(all, polls, n - 1, ordered);
      NextIsSoundIff(all, polls, n - 1, ordered);
    } else {
      NothingIsSound(all, ordered);
      assert polls[..0] == [];
    }
  }

  lemma NothingIsSound(all: set<Node>, ordered: bool)
    ensures Sound(all, Run(all, []), ordered)
  {
  }

  /** Sessions are conserved over a run, whatever its clock does, if and only if every poll with telemetry finds the saved
      state accepted. Then each node's events alternate between CONNECTED and DISCONNECTED, each record begins when its
      session did, and the session still open is the one saved. Its records are also in order and do not overlap if and
      only if, besides, no node comes up before its last session ended. */
  lemma {:induction false} SessionsAreConservedIff(all: set<Node>, polls: seq<Poll>, ordered: bool)
    requires CoversAll(all, polls)
    ensures AlwaysSound(all, polls, ordered) <==> AlwaysAdmissible(all, polls, ordered)
  {
    hide Sound, Admissible, Run, Step, CoversAll;
    if AlwaysAdmissible(all, polls, ordered) {
      forall k | 0 <= k <= |polls| ensures Sound(all, Run(all, polls[..k]), ordered) {
        SoundUpTo(all, polls, k, ordered);
      }
    }
    if AlwaysSound(all, polls, ordered) {
      forall k | 0 <= k < |polls| ensures Admissible(Run(all, polls[..k]), polls[k], ordered) {
        NextIsSoundIff(all, polls, k, ordered);
      }
    }
  }

  function Clock(polls: seq<Poll>, start: int): int {
    if polls == [] then start else polls[|polls| - 1].now
  }

  /** The clock does not go back and links carry valid node numbers. */
  ghost predicate Regular(polls: seq<Poll>, start: int) {
    polls == [] ||
    (var p := polls[|polls| - 1];
     && Regular(polls[..|polls| - 1], start)
     && Clock(polls[..|polls| - 1], start) <= p.now
     && (p.current.Some? ==> forall n :: n in p.current.value ==> Numeric(n)))
  }

  /** Nothing saved or logged is later than the clock. */
  ghost predicate NothingLater(all: set<Node>, s: State, now: int) {
    && AcceptedSince(s.saved, now)
    && forall n :: n in all && EventsOf(s, n) != [] ==> EventsOf(s, n)[|EventsOf(s, n)| - 1].at <= now
  }

  lemma StepIsNotLater(all: set<Node>, s: State, p: Poll, now: int)
    requires NothingLater(all, s, now) && now <= p.now
    requires p.current.Some? ==> forall n :: n in p.current.value ==> Numeric(n)
    ensures NothingLater(all, Step(all, s, p), p.now)
  {
    hide Numeric;
    if p.current.Some? {
      assert AcceptedSince(s.saved, p.now);
      forall n | n in all ensures var log := EventsOf(Step(all, s, p), n); log != [] ==> log[|log| - 1].at <= p.now {
        EventsAfter(all, s, p, n);
      }
    }
  }

  lemma {:induction false} RegularIsNotLater(all: set<Node>, polls: seq<Poll>, start: int)
    requires Regular(polls, start)
    ensures NothingLater(all, Run(all, polls), Clock(polls, start))
  {
    hide NothingLater, Step, Numeric;
    if polls == [] {
      NothingIsNotLater(all, start);
    } else {
      var init, p := polls[..|polls| - 1], polls[|polls| - 1];
      RegularIsNotLater(all, init, start);
      StepIsNotLater(all, Run(all, init), p, Clock(init, start));
    }
  }

  lemma NothingIsNotLater(all: set<Node>, now: int)
    ensures NothingLater(all, Run(all, []), now)
  {
  }

  lemma {:induction false} RegularPrefix(polls: seq<Poll>, start: int, k: nat)
    requires Regular(polls, start) && k <= |polls|
    ensures Regular(polls[..k], start) && Clock(polls[..k], start) <= Clock(polls, start)
    ensures k < |polls| ==> Clock(polls[..k], start) <= polls[k].now
  {
    hide Numeric;
    if k == |polls| {
      assert polls[..k] == polls;
    } else {
      RegularPrefix(polls[..|polls| - 1], start, k);
      assert polls[..|polls| - 1][..k] == polls[..k];
    }
  }

  /** In particular sessions are conserved, in order, whenever the clock does not go back; and then the saved state is
      accepted by the next poll. */
  lemma {:induction false} SessionsAreConserved(all: set<Node>, polls: seq<Poll>, start: int)
    requires Regular(polls, start) && CoversAll(all, polls)
    ensures AlwaysSound(all, polls, true) && AcceptedSince(Run(all, polls).saved, Clock(polls, start))
  {
    RegularIsNotLater(all, polls, start);
    hide Regular, Run, Clock, Numeric, AlwaysSound;
    forall k | 0 <= k < |polls| ensures Admissible(Run(all, polls[..k]), polls[k], true) {
      RegularPrefix(polls, start, k);
      RegularIsNotLater(all, polls[..k], start);
      assert Covers(all, polls[k]);
    }
    SessionsAreConservedIff(all, polls, true);
  }

  /** A poll without telemetry changes no session. */
  lemma UnavailableChangesNothing(all: set<Node>, polls: seq<Poll>, now: int)
    ensures Run(all, polls + [Poll(None, now)]) == Run(all, polls)
  {
    assert (polls + [Poll(None, now)])[..|polls|] == polls;
  }

  /** When the clock goes back past the start of a session, the validator refuses the saved state and the next poll
      announces the same link a second time. */
  lemma ClockStepReannounces(n: Node, since: int, now: int)
    requires Numeric(n) && now < since
    ensures var s := Step({n}, State(map[n := since], map[]), Poll(Some({n}), now));
            EventsOf(s, n) == [Connected(n, now)] && s.saved == map[n := now]
  {
    var before: Since := map[n := since];
    assert n in before && !AcceptedSince(before, now);
    hide Numeric;
    var empty: Since := map[];
    assert NodeEvents(empty, {n}, now, n) == [Connected(n, now)];
    assert [] + [Connected(n, now)] == [Connected(n, now)];
  }
}
