/** Link controls with verified results (core/node_controls.py): observe, command, verify, under one lock.

    A session stands for everything outside: what each observation of the node answers and how long it takes, and
    what each command does. Every effect is recorded in its trace. Message texts, the failure log and the DODROPIN
    mapping are left out. Times count ticks of any length; a second is a whole number of them. */
module NodeControls {
  import opened Prelude

  const VERIFY_SECONDS := 10

  type Node = string

  /** The ticks of a second, at least one. */
  type Ticks = n: nat | n >= 1 witness 1

  datatype Mode = Transceive | ReceiveOnly | Pending

  datatype Link = Link(node: Node, mode: Mode)

  /** `usable` is an available, fresh answer that carries a list of links. */
  datatype Evidence = Evidence(usable: bool, links: seq<Link>)

  datatype Command = Connect(node: Node) | Disconnect(node: Node) {
    predicate Achieved(e: Evidence) {
      if Connect? then exists l :: l in e.links && l.node == node && l.mode != Pending
      else Lacks(e, node)
    }

    /** None when the state could not be observed. */
    function Judge(e: Evidence): Option<bool> {
      if e.usable then Some(Achieved(e)) else None
    }

    predicate InProgress(e: Evidence) {
      Connect? && e.usable && exists l :: l in e.links && l.node == node && l.mode == Pending
    }
  }

  predicate Lacks(e: Evidence, node: Node) {
    forall l :: l in e.links ==> l.node != node
  }

  /** An effect and when it took place: an observation begins and ends, a command is done. */
  datatype Action = Observed(evidence: Evidence, begun: int, ended: int) | Sent(command: Command, done: int)

  /** The replies of a phase that found no confirmation. */
  predicate GivesUp(r: Reply) {
    r.ObservationLost? || r.ConnectionPending? || r.NotConfirmed?
  }

  datatype CommandResult = Accepted | Rejected | TimedOut | NotExecuted

  datatype Reply =
    | Verified | AlreadySatisfied                       // 200
    | BadRequest                                        // 400
    | Busy | ChooseCurrentNode(peers: set<Node>)        // 409
    | CommandRejected                                   // 502
    | Unavailable | NotExecutedReply | Unverifiable     // 503
    | CommandTimedOut | ObservationLost | ConnectionPending | NotConfirmed  // 504
  {
    predicate Ok() {
      Verified? || AlreadySatisfied?
    }
  }

  function Commands(trace: seq<Action>): seq<Command> {
    if trace == [] then []
    else
      Commands(trace[..|trace| - 1])
      + match trace[|trace| - 1] case Observed(_, _, _) => [] case Sent(c, _) => [c]
  }

  lemma CommandsAppend(trace: seq<Action>, a: Action)
    ensures Commands(trace + [a]) == Commands(trace) + match a case Observed(_, _, _) => [] case Sent(c, _) => [c]
  {
    assert (trace + [a])[..|trace|] == trace;
  }

  lemma {:induction false} CommandsConcat(s: seq<Action>, t: seq<Action>)
    ensures Commands(s + t) == Commands(s) + Commands(t)
  {
    if t == [] {
      assert s + t == s;
    } else {
      var init, a := t[..|t| - 1], t[|t| - 1];
      CommandsConcat(s, init);
      CommandsAppend(s + init, a);
      assert s + t == (s + init) + [a];
    }
  }

  /** What a trace ends with. */
  ghost predicate EndsAchieved(t: seq<Action>, c: Command) {
    t != [] && t[|t| - 1].Observed? && c.Judge(t[|t| - 1].evidence) == Some(true)
  }

  /** Where verification begins: after the first observation, or after the command. */
  function First(t: seq<Action>): nat {
    if |t| > 1 && t[1].Sent? then 2 else 1
  }

  function Start(t: seq<Action>): int
    requires t != [] && t[0].Observed?
  {
    if |t| > 1 && t[1].Sent? then t[1].done else t[0].ended
  }

  function Deadline(second: Ticks, start: int): int {
    start + VERIFY_SECONDS * second
  }

  lemma DeadlineIs(second: Ticks, start: int)
    ensures Deadline(second, start) == start + VERIFY_SECONDS * second
  {
  }

  predicate Achieves(a: Action, c: Command) {
    a.Observed? && c.Judge(a.evidence) == Some(true)
  }

  /** Observations from `clock` on. The first begins at once and each other one a second after the one before, which
      ended without the goal and before the deadline; the last one achieves the goal or ends no earlier than that. */
  ghost predicate PacedFrom(tail: seq<Action>, c: Command, clock: int, deadline: int, second: Ticks) {
    && tail != [] && AllObserved(tail) && tail[0].begun == clock
    && (forall k :: 0 <= k < |tail| ==> tail[k].begun <= tail[k].ended)
    && (forall k :: 0 <= k && k + 1 < |tail| ==>
          tail[k].ended < deadline && !Achieves(tail[k], c) && tail[k + 1].begun == tail[k].ended + second)
    && (Achieves(tail[|tail| - 1], c) || tail[|tail| - 1].ended >= deadline)
  }

  /** The observations that verify, from `start` on. */
  ghost predicate Paced(tail: seq<Action>, c: Command, start: int, second: Ticks) {
    PacedFrom(tail, c, start, Deadline(second, start), second)
  }

  lemma {:induction false} EndsLaterAndLater(tail: seq<Action>, c: Command, start: int, second: Ticks, k: nat)
    requires Paced(tail, c, start, second) && k < |tail|
    ensures start + k * second <= tail[k].begun <= tail[k].ended
  {
    if k > 0 {
      EndsLaterAndLater(tail, c, start, second, k - 1);
      assert (k - 1) * second + second == k * second;
    }
  }

  lemma FewerSteps(a: int, b: int, second: Ticks)
    requires a * second < b * second
    ensures a < b
  {
  }

  lemma BegunInTime(tail: seq<Action>, c: Command, start: int, second: Ticks, k: nat)
    requires Paced(tail, c, start, second) && k < |tail|
    ensures tail[k].begun < Deadline(second, start) + second
    ensures k + 1 < |tail| ==> tail[k].ended < Deadline(second, start)
  {
    if k > 0 {
      assert tail[k - 1].ended < Deadline(second, start) && tail[k].begun == tail[k - 1].ended + second;
    } else {
      assert tail[0].begun == start && VERIFY_SECONDS * second >= 0;
    }
  }

  /** Verification takes at most eleven observations, and each begins less than a second after the deadline. */
  lemma PacedIsBounded(tail: seq<Action>, c: Command, start: int, second: Ticks)
    requires Paced(tail, c, start, second)
    ensures |tail| <= VERIFY_SECONDS + 1
    ensures forall k :: 0 <= k < |tail| ==> tail[k].begun < Deadline(second, start) + second
  {
    PacedObserves(tail, c, start, second);
    hide Paced;
    if |tail| > 1 {
      var k := |tail| - 2;
      EndsLaterAndLater(tail, c, start, second, k);
      BegunInTime(tail, c, start, second, k);
      FewerSteps(k, VERIFY_SECONDS, second);
    }
    forall k | 0 <= k < |tail| ensures tail[k].begun < Deadline(second, start) + second {
      BegunInTime(tail, c, start, second, k);
    }
  }

  /** An observation begins after the deadline exactly if some observation ends without the goal, before the deadline and
      less than a second ahead of it: the loop tests its deadline before the pause and not after it. */
  lemma OverrunIff(tail: seq<Action>, c: Command, start: int, second: Ticks)
    requires Paced(tail, c, start, second)
    ensures (exists k :: 0 <= k < |tail| && tail[k].begun > Deadline(second, start)) <==>
            exists k :: 0 <= k < |tail| && !Achieves(tail[k], c)
                        && Deadline(second, start) - second < tail[k].ended < Deadline(second, start)
  {
    var deadline := Deadline(second, start);
    if k :| 0 <= k < |tail| && tail[k].begun > deadline {
      assert k > 0 by {
        assert VERIFY_SECONDS * second >= 0;
      }
      assert tail[k].begun == tail[k - 1].ended + second;
      assert deadline - second < tail[k - 1].ended < deadline;
    }
    if k :| 0 <= k < |tail| && !Achieves(tail[k], c) && deadline - second < tail[k].ended < deadline {
      assert k + 1 < |tail|;
      assert tail[k + 1].begun > deadline;
    }
  }

  /** The verification loop as a function of the answers: observe, test, pause. */
  function Polls(answers: nat -> Evidence, delays: nat -> nat, c: Command, n: nat, clock: int, deadline: int, second: Ticks)
    : seq<Action>
    decreases Max(0, deadline - clock)
  {
    var a := Observed(answers(n), clock, clock + delays(n));
    if Achieves(a, c) || a.ended >= deadline then [a]
    else [a] + Polls(answers, delays, c, n + 1, a.ended + second, deadline, second)
  }

  lemma PacedOne(a: Action, c: Command, deadline: int, second: Ticks)
    requires a.Observed? && a.begun <= a.ended && (Achieves(a, c) || a.ended >= deadline)
    ensures PacedFrom([a], c, a.begun, deadline, second)
  {
  }

  lemma PacedCons(a: Action, rest: seq<Action>, c: Command, deadline: int, second: Ticks)
    requires a.Observed? && a.begun <= a.ended < deadline && !Achieves(a, c)
    requires PacedFrom(rest, c, a.ended + second, deadline, second)
    ensures PacedFrom([a] + rest, c, a.begun, deadline, second)
  {
    var all := [a] + rest;
    assert forall k :: 1 <= k < |all| ==> all[k] == rest[k - 1];
    assert all[|all| - 1] == rest[|rest| - 1];
  }

  lemma {:induction false} PollsArePacedFrom(answers: nat -> Evidence, delays: nat -> nat, c: Command, n: nat, clock: int,
                                             deadline: int, second: Ticks)
    ensures PacedFrom(Polls(answers, delays, c, n, clock, deadline, second), c, clock, deadline, second)
    decreases Max(0, deadline - clock)
  {
    hide PacedFrom;
    var a := Observed(answers(n), clock, clock + delays(n));
    if Achieves(a, c) || a.ended >= deadline {
      PacedOne(a, c, deadline, second);
    } else {
      PollsArePacedFrom(answers, delays, c, n + 1, a.ended + second, deadline, second);
      PacedCons(a, Polls(answers, delays, c, n + 1, a.ended + second, deadline, second), c, deadline, second);
    }
  }

  lemma PollsArePaced(answers: nat -> Evidence, delays: nat -> nat, c: Command, n: nat, start: int, second: Ticks)
    ensures Paced(Polls(answers, delays, c, n, start, Deadline(second, start), second), c, start, second)
  {
    PollsArePacedFrom(answers, delays, c, n, start, Deadline(second, start), second);
  }

  /** With half-second observations that never confirm the goal, the seventh ends half a second before the deadline and
      the eighth begins half a second after it. A second has two ticks here. */
  lemma OverrunsByHalfASecond(c: Command)
    requires c.Connect?
    ensures var tail := Polls(n => Evidence(true, []), n => 1, c, 0, 0, Deadline(2, 0), 2);
            && |tail| == 8 && Deadline(2, 0) == 20
            && tail[6] == Observed(Evidence(true, []), 18, 19) && tail[7] == Observed(Evidence(true, []), 21, 22)
  {
    var answers: nat -> Evidence, delays: nat -> nat := n => Evidence(true, []), n => 1;
    SteadyPolls(answers, delays, c, 0, 0);
  }

  lemma {:induction false} SteadyPolls(answers: nat -> Evidence, delays: nat -> nat, c: Command, n: nat, clock: int)
    requires c.Connect? && (forall k :: answers(k) == Evidence(true, []) && delays(k) == 1)
    requires n <= 7 && clock == 3 * n
    ensures var tail := Polls(answers, delays, c, n, clock, 20, 2);
            |tail| == 8 - n && forall k :: 0 <= k < |tail| ==> tail[k] == Observed(Evidence(true, []), clock + 3 * k, clock + 3 * k + 1)
    decreases 7 - n
  {
    var a := Observed(answers(n), clock, clock + delays(n));
    if n < 7 {
      SteadyPolls(answers, delays, c, n + 1, clock + 3);
      var rest := Polls(answers, delays, c, n + 1, clock + 3, 20, 2);
      assert Polls(answers, delays, c, n, clock, 20, 2) == [a] + rest;
    }
  }

  /** One phase. It begins with an observation. At most one command goes out, the requested one, directly after a
      usable first observation that neither achieves the goal nor shows it in progress. What follows verifies, at its
      pace. The phase succeeds exactly when its last effect is a usable observation of the achieved goal. */
  ghost predicate IsPhase(second: Ticks, t: seq<Action>, c: Command, ok: bool) {
    && t != [] && t[0].Observed?
    && (forall k :: 0 <= k < |t| && t[k].Sent? ==>
          k == 1 && t[k].command == c && c.Judge(t[0].evidence) == Some(false) && !c.InProgress(t[0].evidence))
    && (First(t) < |t| ==> Paced(t[First(t)..], c, Start(t), second))
    && (ok <==> EndsAchieved(t, c))
    && |t| <= VERIFY_SECONDS + 3
  }

  ghost predicate AllObserved(t: seq<Action>) {
    forall k :: 0 <= k < |t| ==> t[k].Observed?
  }

  lemma SplitPhase(second: Ticks, t: seq<Action>, c: Command, ok: bool) returns (n: nat)
    requires IsPhase(second, t, c, ok)
    ensures 1 <= n <= 2 && n <= |t| && AllObserved(t[n..]) && t[0].Observed?
    ensures t[..n] == [t[0]] || (t[..n] == [t[0]] + [t[1]] && t[1].Sent? && t[1].command == c)
  {
    n := if |t| >= 2 && t[1].Sent? then 2 else 1;
    assert t[..n] == if n == 1 then [t[0]] else [t[0]] + [t[1]];
  }

  lemma PhaseCommands(second: Ticks, t: seq<Action>, c: Command, ok: bool)
    requires IsPhase(second, t, c, ok)
    ensures Commands(t) == [] || Commands(t) == [c]
  {
    var n := SplitPhase(second, t, c, ok);
    NoCommands([t[0]]);
    hide *;
    assert t == t[..n] + t[n..];
    CommandsConcat(t[..n], t[n..]);
    NoCommands(t[n..]);
    if n == 2 {
      CommandsAppend([t[0]], t[1]);
    }
  }

  ghost predicate IsCommand(middle: seq<Action>, c: Command) {
    |middle| == 1 && middle[0].Sent? && middle[0].command == c
  }

  lemma PacedObserves(tail: seq<Action>, c: Command, start: int, second: Ticks)
    requires Paced(tail, c, start, second)
    ensures tail != [] && AllObserved(tail)
  {
  }

  /** An observation, at most one command, and the observations that verify it. */
  lemma AssemblePhase(second: Ticks, o: Action, middle: seq<Action>, tail: seq<Action>, c: Command, ok: bool)
    requires o.Observed? && c.Judge(o.evidence) == Some(false)
    requires middle == [] || (IsCommand(middle, c) && !c.InProgress(o.evidence))
    requires Paced(tail, c, if middle == [] then o.ended else middle[0].done, second)
    requires ok <==> EndsAchieved(tail, c)
    ensures var t := [o] + middle + tail;
            IsPhase(second, t, c, ok) && First(t) < |t| && Start(t) == if middle == [] then o.ended else middle[0].done
  {
    hide Paced;
    PacedIsBounded(tail, c, if middle == [] then o.ended else middle[0].done, second);
    PacedObserves(tail, c, if middle == [] then o.ended else middle[0].done, second);
    var t := [o] + middle + tail;
    assert t[|t| - 1] == tail[|tail| - 1];
    if middle == [] {
      assert t[1] == tail[0] && t[1..] == tail;
      assert forall k :: 1 <= k < |t| ==> t[k] == tail[k - 1];
    } else {
      assert t[1] == middle[0] && t[2..] == tail;
      assert forall k :: 2 <= k < |t| ==> t[k] == tail[k - 2];
    }
  }

  lemma LastIsLast(second: Ticks, head: seq<Action>, tail: seq<Action>, c: Command, start: int)
    requires Paced(tail, c, start, second)
    ensures EndsAchieved(head + tail, c) <==> EndsAchieved(tail, c)
    ensures var last := (head + tail)[|head + tail| - 1];
            last.Observed? && (EndsAchieved(tail, c) || last.ended >= Deadline(second, start))
  {
    assert (head + tail)[|head + tail| - 1] == tail[|tail| - 1];
  }

  /** A phase and its reply. It gives up on verifying only when its last observation ends no earlier than the deadline. */
  ghost predicate PhaseReplies(second: Ticks, t: seq<Action>, c: Command, reply: Reply) {
    && IsPhase(second, t, c, reply.Ok())
    && (GivesUp(reply) ==> First(t) < |t| && t[|t| - 1].Observed? && t[|t| - 1].ended >= Deadline(second, Start(t)))
  }

  lemma FirstDecides(second: Ticks, o: Action, c: Command, reply: Reply)
    requires o.Observed? && c.Judge(o.evidence) != Some(false)
    requires reply == if c.Judge(o.evidence).None? then Unavailable else AlreadySatisfied
    ensures PhaseReplies(second, [o], c, reply)
  {
    hide IsPhase;
    assert [o] + [] == [o];
    ShortPhase(second, o, [], c);
  }

  lemma CommandDecides(second: Ticks, o: Action, middle: seq<Action>, c: Command, reply: Reply)
    requires o.Observed? && c.Judge(o.evidence) == Some(false)
    requires middle == [] || (IsCommand(middle, c) && !c.InProgress(o.evidence))
    requires !reply.Ok() && !GivesUp(reply)
    ensures PhaseReplies(second, [o] + middle, c, reply)
  {
    hide IsPhase;
    ShortPhase(second, o, middle, c);
  }

  lemma LoopDecides(second: Ticks, o: Action, middle: seq<Action>, tail: seq<Action>, c: Command, reply: Reply)
    requires o.Observed? && c.Judge(o.evidence) == Some(false)
    requires middle == [] || (IsCommand(middle, c) && !c.InProgress(o.evidence))
    requires Paced(tail, c, if middle == [] then o.ended else middle[0].done, second)
    requires (reply.Ok() <==> EndsAchieved(tail, c)) && (reply.Ok() || GivesUp(reply))
    ensures PhaseReplies(second, [o] + middle + tail, c, reply)
  {
    hide IsPhase, Paced, EndsAchieved;
    var start := if middle == [] then o.ended else middle[0].done;
    AssemblePhase(second, o, middle, tail, c, reply.Ok());
    LastIsLast(second, [o] + middle, tail, c, start);
  }

  /** A command that did not go through, or no command at all. */
  lemma ShortPhase(second: Ticks, o: Action, middle: seq<Action>, c: Command)
    requires o.Observed?
    requires middle == [] || (IsCommand(middle, c) && c.Judge(o.evidence) == Some(false) && !c.InProgress(o.evidence))
    ensures IsPhase(second, [o] + middle, c, middle == [] && c.Judge(o.evidence) == Some(true))
  {
    var t := [o] + middle;
    assert middle != [] ==> t[1] == middle[0];
  }

  lemma {:induction false} NoCommands(t: seq<Action>)
    requires AllObserved(t)
    ensures Commands(t) == []
  {
    if t != [] {
      NoCommands(t[..|t| - 1]);
    }
  }

  predicate IsSwitchCommands(cs: seq<Command>, source: Node, target: Node) {
    cs == [] || cs == [Disconnect(source)] || cs == [Connect(target)]
    || cs == [Disconnect(source)] + [Connect(target)]
  }

  predicate Connects(a: Action, target: Node) {
    a.Sent? && a.command == Connect(target)
  }

  /** The target is connected only after a usable observation without the source. */
  ghost predicate ConnectsAfterAbsence(t: seq<Action>, source: Node, target: Node) {
    forall k :: 0 <= k < |t| && Connects(t[k], target) ==>
      exists j :: 0 <= j < k && t[j].Observed? && t[j].evidence.usable && Lacks(t[j].evidence, source)
  }

  /** A switch. Its commands are at most the disconnect of the source and then the connect of the target; the
      connect goes out only after a usable observation without the source; success means that the last effect is a
      usable observation of the target connected and the source gone. */
  ghost predicate IsSwitch(t: seq<Action>, source: Node, target: Node, ok: bool) {
    && IsSwitchCommands(Commands(t), source, target)
    && ConnectsAfterAbsence(t, source, target)
    && (ok ==> EndsAchieved(t, Disconnect(source)) && EndsAchieved(t, Connect(target)))
    && |t| <= 2 * (VERIFY_SECONDS + 3) + 1
  }

  lemma ThreeDistinct(a: Node, b: Node, c: Node)
    ensures |{a, b, c}| == 3 <==> a != b && b != c && a != c
  {
    if a == b {
      assert {a, b, c} == {a, c};
    } else if b == c || a == c {
      assert {a, b, c} == {a, b};
    } else {
      assert |{a, b, c}| == 3;
    }
  }

  /** A first phase that fails ends the switch. */
  lemma PhaseIsSwitch(second: Ticks, one: seq<Action>, source: Node, target: Node)
    requires IsPhase(second, one, Disconnect(source), false)
    ensures IsSwitch(one, source, target, false)
  {
    PhaseCommands(second, one, Disconnect(source), false);
  }

  lemma TwoPhaseCommands(second: Ticks, one: seq<Action>, two: seq<Action>, source: Node, target: Node, ok: bool)
    requires IsPhase(second, one, Disconnect(source), true) && IsPhase(second, two, Connect(target), ok)
    ensures IsSwitchCommands(Commands(one + two), source, target)
  {
    hide IsPhase, Commands;
    PhaseCommands(second, one, Disconnect(source), true);
    PhaseCommands(second, two, Connect(target), ok);
    CommandsConcat(one, two);
    var none: seq<Command> := [];
    assert none + Commands(two) == Commands(two) && Commands(one) + none == Commands(one);
  }

  lemma ConnectComesLater(second: Ticks, one: seq<Action>, two: seq<Action>, source: Node, target: Node, k: nat)
    requires IsPhase(second, one, Disconnect(source), true)
    requires k < |one + two| && Connects((one + two)[k], target)
    ensures exists j :: 0 <= j < k && (one + two)[j].Observed? && (one + two)[j].evidence.usable
                        && Lacks((one + two)[j].evidence, source)
  {
    var t := one + two;
    var j := |one| - 1;
    assert t[j] == one[j] && t[j].Observed? && t[j].evidence.usable && Lacks(t[j].evidence, source);
    assert forall i :: 0 <= i < |one| ==> t[i] == one[i];
    assert k > j;
  }

  /** A first phase that succeeds ends with the observation that the second phase may rely on. */
  lemma PhasesAreSwitch(second: Ticks, one: seq<Action>, two: seq<Action>, source: Node, target: Node, ok: bool)
    requires IsPhase(second, one, Disconnect(source), true) && IsPhase(second, two, Connect(target), ok)
    ensures IsSwitch(one + two, source, target, false) && |one + two| <= 2 * (VERIFY_SECONDS + 3)
  {
    TwoPhaseCommands(second, one, two, source, target, ok);
    var t := one + two;
    assert |t| <= 2 * (VERIFY_SECONDS + 3);
    forall k | 0 <= k < |t| && Connects(t[k], target)
      ensures exists j :: 0 <= j < k && t[j].Observed? && t[j].evidence.usable && Lacks(t[j].evidence, source)
    {
      ConnectComesLater(second, one, two, source, target, k);
    }
    hide IsPhase, Commands, Lacks;
  }

  /** The final observation decides the outcome of the switch. */
  lemma FinalObservation(t: seq<Action>, source: Node, target: Node, o: Action)
    requires o.Observed?
    requires IsSwitch(t, source, target, false) && |t| <= 2 * (VERIFY_SECONDS + 3)
    ensures IsSwitch(t + [o], source, target,
                     o.evidence.usable && Lacks(o.evidence, source) && Connect(target).Achieved(o.evidence))
  {
    var u := t + [o];
    CommandsAppend(t, o);
    assert Commands(t) + [] == Commands(t);
    assert forall k :: 0 <= k < |t| ==> u[k] == t[k];
    forall k | 0 <= k < |u| && Connects(u[k], target)
      ensures exists j :: 0 <= j < k && u[j].Observed? && u[j].evidence.usable && Lacks(u[j].evidence, source)
    {
      assert Connects(t[k], target);
      var j :| 0 <= j < k && t[j].Observed? && t[j].evidence.usable && Lacks(t[j].evidence, source);
      assert u[j] == t[j];
    }
  }

  ghost predicate OnlyPeer(e: Evidence, source: Node) {
    && (exists l :: l in e.links && l.node == source)
    && (forall l :: l in e.links ==> l.node == source)
  }

  /** Replacing the current connection. No command goes out before a usable observation; the commands are at most
      the connect of the target, or a switch to it from the only peer of the first observation, whose absence is
      observed before the target is connected; success means that the last effect is a usable observation of the target
      connected. */
  ghost predicate IsReplacement(t: seq<Action>, target: Node, ok: bool) {
    && (ok ==> EndsAchieved(t, Connect(target)))
    && (Commands(t) != [] ==> t != [] && t[0].Observed? && t[0].evidence.usable)
    && (Commands(t) == [] || Commands(t) == [Connect(target)]
        || exists source ::
             && source != target && OnlyPeer(t[0].evidence, source)
             && IsSwitchCommands(Commands(t), source, target) && ConnectsAfterAbsence(t, source, target))
    && |t| <= 2 * (VERIFY_SECONDS + 3) + 2
  }

  lemma EndsLater(one: seq<Action>, two: seq<Action>, c: Command)
    requires two != []
    ensures EndsAchieved(one + two, c) <==> EndsAchieved(two, c)
  {
    assert (one + two)[|one + two| - 1] == two[|two| - 1];
  }

  lemma AfterObservation(o: Action, two: seq<Action>)
    requires o.Observed?
    ensures Commands([o] + two) == Commands(two)
  {
    CommandsConcat([o], two);
    CommandsAppend([], o);
    assert [] + [o] == [o] && [] + Commands(two) == Commands(two);
  }

  lemma ConnectIsReplacement(second: Ticks, o: Action, two: seq<Action>, target: Node, ok: bool)
    requires o.Observed? && o.evidence.usable && IsPhase(second, two, Connect(target), ok)
    ensures IsReplacement([o] + two, target, ok)
  {
    AfterObservation(o, two);
    PhaseCommands(second, two, Connect(target), ok);
    EndsLater([o], two, Connect(target));
  }

  lemma SwitchIsReplacement(o: Action, two: seq<Action>, source: Node, target: Node, ok: bool)
    requires o.Observed? && o.evidence.usable && OnlyPeer(o.evidence, source) && source != target && IsSwitch(two, source, target, ok)
    ensures IsReplacement([o] + two, target, ok)
  {
    AfterObservation(o, two);
    if ok {
      EndsLater([o], two, Connect(target));
    }
    var t := [o] + two;
    forall k | 0 <= k < |t| && Connects(t[k], target)
      ensures exists j :: 0 <= j < k && t[j].Observed? && t[j].evidence.usable && Lacks(t[j].evidence, source)
    {
      var j :| 0 <= j < k - 1 && two[j].Observed? && two[j].evidence.usable && Lacks(two[j].evidence, source);
      assert t[j + 1] == two[j];
    }
  }

  lemma NothingIsReplacement(t: seq<Action>, target: Node)
    requires AllObserved(t) && |t| <= 1
    ensures IsReplacement(t, target, false) && Commands(t) == []
  {
    NoCommands(t);
  }

  function Peers(links: seq<Link>): set<Node> {
    set l | l in links :: l.node
  }

  lemma PeerIsOnly(e: Evidence, source: Node)
    requires Peers(e.links) == {source}
    ensures OnlyPeer(e, source)
  {
    assert source in Peers(e.links);
    assert forall l :: l in e.links ==> l.node in Peers(e.links);
  }

  lemma Singleton(peers: set<Node>, source: Node)
    requires source in peers && |peers| <= 1
    ensures peers == {source}
  {
    if peers != {source} {
      var other :| other in peers && other != source;
      assert {source, other} <= peers;
      SizeOfSubset({source, other}, peers);
    }
  }

  // ---------------------------------------------------------------------------------------------------
  // The controls as functions of what the node answers.

  /** Everything outside: the answers of the node and the effects of commands, in the order they are asked for. */
  datatype Radio = Radio(local: Node, second: Ticks, answers: nat -> Evidence, delays: nat -> nat,
                         results: nat -> CommandResult, commandDelays: nat -> nat)

  /** How many observations and commands there have been, and the clock. */
  datatype Place = Place(observations: nat, commands: nat, clock: int)

  /** The effects and the reply of a control, and where it ends. */
  datatype Ran = Ran(trace: seq<Action>, reply: Reply, at: Place)

  function Look(r: Radio, p: Place): Action {
    Observed(r.answers(p.observations), p.clock, p.clock + r.delays(p.observations))
  }

  function Looked(r: Radio, p: Place): Place {
    Place(p.observations + 1, p.commands, p.clock + r.delays(p.observations))
  }

  function Commanded(r: Radio, p: Place): Place {
    Place(p.observations, p.commands + 1, p.clock + r.commandDelays(p.commands))
  }

  /** The verification loop: observe, test, pause. */
  function VerifyRun(r: Radio, p: Place, c: Command, deadline: int): Ran
    decreases Max(0, deadline - p.clock)
  {
    var o, q := Look(r, p), Looked(r, p);
    if c.Judge(o.evidence) == Some(true) then Ran([o], Verified, q)
    else if q.clock >= deadline then
      Ran([o], if c.Judge(o.evidence).None? then ObservationLost
               else if c.InProgress(o.evidence) then ConnectionPending else NotConfirmed, q)
    else
      var rest := VerifyRun(r, q.(clock := q.clock + r.second), c, deadline);
      rest.(trace := [o] + rest.trace)
  }

  function Loop(r: Radio, p: Place, c: Command): Ran {
    VerifyRun(r, p, c, Deadline(r.second, p.clock))
  }

  /** What follows an observation `e` that does not achieve the goal. */
  function Tried(r: Radio, p: Place, e: Evidence, c: Command): Ran {
    if c.InProgress(e) then Loop(r, p, c)
    else
      var q := Commanded(r, p);
      match r.results(p.commands)
      case Accepted => var rest := Loop(r, q, c); rest.(trace := [Sent(c, q.clock)] + rest.trace)
      case Rejected => Ran([Sent(c, q.clock)], CommandRejected, q)
      case TimedOut => Ran([Sent(c, q.clock)], CommandTimedOut, q)
      case NotExecuted => Ran([], NotExecutedReply, q)
  }

  predicate Permitted(r: Radio, c: Command) {
    Numeric(c.node) && Numeric(r.local) && c.node != r.local
  }

  function PhaseRun(r: Radio, p: Place, c: Command): Ran {
    if !Permitted(r, c) then Ran([], BadRequest, p)
    else
      var o, q := Look(r, p), Looked(r, p);
      match c.Judge(o.evidence)
      case None => Ran([o], Unavailable, q)
      case Some(achieved) =>
        if achieved then Ran([o], AlreadySatisfied, q)
        else
          var rest := Tried(r, q, o.evidence, c);
          rest.(trace := [o] + rest.trace)
  }

  predicate Switchable(r: Radio, target: Node, source: Node) {
    Numeric(r.local) && Numeric(target) && Numeric(source) && |{r.local, target, source}| == 3
  }

  function SwitchRun(r: Radio, p: Place, target: Node, source: Node): Ran {
    if !Switchable(r, target, source) then Ran([], BadRequest, p)
    else
      var one := PhaseRun(r, p, Disconnect(source));
      if !one.reply.Ok() then one
      else
        var two := PhaseRun(r, one.at, Connect(target));
        if !two.reply.Ok() then two.(trace := one.trace + two.trace)
        else
          var o := Look(r, two.at);
          var switched := o.evidence.usable && Lacks(o.evidence, source) && Connect(target).Achieved(o.evidence);
          Ran((one.trace + two.trace) + [o], if switched then Verified else NotConfirmed, Looked(r, two.at))
  }

  predicate Readable(e: Evidence) {
    e.usable && forall l :: l in e.links ==> Numeric(l.node)
  }

  function ReplaceRun(r: Radio, p: Place, target: Node): Ran {
    if !Permitted(r, Connect(target)) then Ran([], BadRequest, p)
    else
      var o, q := Look(r, p), Looked(r, p);
      var peers := Peers(o.evidence.links);
      if !Readable(o.evidence) then Ran([o], Unverifiable, q)
      else if target in peers || peers == {} then
        var rest := PhaseRun(r, q, Connect(target));
        rest.(trace := [o] + rest.trace)
      else if |peers| > 1 then Ran([o], ChooseCurrentNode(peers), q)
      else
        assert o.evidence.links != [];
        var rest := SwitchRun(r, q, target, o.evidence.links[0].node);
        rest.(trace := [o] + rest.trace)
  }

  function PerformRun(r: Radio, p: Place, c: Command, replaceCurrent: bool, from: Option<Node>): Ran {
    if c.Connect? && replaceCurrent then ReplaceRun(r, p, c.node)
    else if c.Connect? && from.Some? then SwitchRun(r, p, c.node, from.value)
    else PhaseRun(r, p, c)
  }

  // ---------------------------------------------------------------------------------------------------
  // What the runs of the controls are.

  /** The link is as requested. */
  predicate Shows(e: Evidence, c: Command) {
    match c
    case Connect(node) => exists l :: l in e.links && l.node == node && (l.mode == Transceive || l.mode == ReceiveOnly)
    case Disconnect(node) => forall l :: l in e.links ==> l.node != node
  }

  /** How the last observation of a verification decides the reply. */
  predicate RepliesTo(reply: Reply, c: Command, e: Evidence) {
    reply == if !e.usable then ObservationLost
             else if Shows(e, c) then Verified
             else if c.Connect? && exists l :: l in e.links && l.node == c.node && l.mode == Pending then ConnectionPending
             else NotConfirmed
  }

  lemma {:induction false} LoopTrace(r: Radio, p: Place, c: Command, deadline: int)
    ensures VerifyRun(r, p, c, deadline).trace == Polls(r.answers, r.delays, c, p.observations, p.clock, deadline, r.second)
    decreases Max(0, deadline - p.clock)
  {
    var o, q := Look(r, p), Looked(r, p);
    if c.Judge(o.evidence) != Some(true) && q.clock < deadline {
      LoopTrace(r, q.(clock := q.clock + r.second), c, deadline);
    }
  }

  lemma {:induction false} LoopLast(r: Radio, p: Place, c: Command, deadline: int)
    ensures var run := VerifyRun(r, p, c, deadline);
            && run.trace != [] && run.at.commands == p.commands
            && run.trace[|run.trace| - 1].Observed? && RepliesTo(run.reply, c, run.trace[|run.trace| - 1].evidence)
    decreases Max(0, deadline - p.clock)
  {
    var o, q := Look(r, p), Looked(r, p);
    JudgedRaw(c, o.evidence);
    hide Shows;
    if c.Judge(o.evidence) != Some(true) && q.clock < deadline {
      LoopLast(r, q.(clock := q.clock + r.second), c, deadline);
    }
  }

  lemma LoopPolls(r: Radio, p: Place, c: Command, deadline: int)
    ensures var run := VerifyRun(r, p, c, deadline);
            && run.trace == Polls(r.answers, r.delays, c, p.observations, p.clock, deadline, r.second)
            && run.trace != []
            && (run.reply == Verified <==> EndsAchieved(run.trace, c)) && (run.reply == Verified || GivesUp(run.reply))
            && run.at.commands == p.commands
            && run.trace[|run.trace| - 1].Observed? && RepliesTo(run.reply, c, run.trace[|run.trace| - 1].evidence)
  {
    LoopTrace(r, p, c, deadline);
    LoopLast(r, p, c, deadline);
    hide VerifyRun, Polls;
    var run := VerifyRun(r, p, c, deadline);
    JudgedRaw(c, run.trace[|run.trace| - 1].evidence);
    hide Shows;
  }

  lemma PhaseRunReplies(r: Radio, p: Place, c: Command)
    requires Permitted(r, c)
    ensures PhaseReplies(r.second, PhaseRun(r, p, c).trace, c, PhaseRun(r, p, c).reply)
  {
    hide PhaseReplies, Commands, Deadline, Polls, Paced, EndsAchieved, VerifyRun;
    var o, q := Look(r, p), Looked(r, p);
    if c.Judge(o.evidence) != Some(false) {
      FirstDecides(r.second, o, c, PhaseRun(r, p, c).reply);
    } else if c.InProgress(o.evidence) {
      LoopIsPaced(r, q, c);
      assert [o] + [] == [o];
      LoopDecides(r.second, o, [], Loop(r, q, c).trace, c, Loop(r, q, c).reply);
    } else {
      var sent := [Sent(c, Commanded(r, q).clock)];
      if r.results(q.commands).Accepted? {
        var run := Loop(r, Commanded(r, q), c);
        LoopIsPaced(r, Commanded(r, q), c);
        LoopDecides(r.second, o, sent, run.trace, c, run.reply);
        assert [o] + sent + run.trace == [o] + (sent + run.trace);
      } else if r.results(q.commands).NotExecuted? {
        CommandDecides(r.second, o, [], c, NotExecutedReply);
      } else {
        CommandDecides(r.second, o, sent, c, PhaseRun(r, p, c).reply);
      }
    }
  }

  /** One turn of the loop, behind what came before. */
  lemma LoopStep(r: Radio, p: Place, c: Command, deadline: int, before: seq<Action>)
    ensures var o, q, run := Look(r, p), Looked(r, p), VerifyRun(r, p, c, deadline);
            if c.Judge(o.evidence) == Some(true) then
              before + run.trace == before + [o] && run.reply == Verified && run.at == q
            else if q.clock >= deadline then
              && before + run.trace == before + [o] && run.at == q
              && run.reply == if c.Judge(o.evidence).None? then ObservationLost
                              else if c.InProgress(o.evidence) then ConnectionPending else NotConfirmed
            else
              var rest := VerifyRun(r, q.(clock := q.clock + r.second), c, deadline);
              before + run.trace == (before + [o]) + rest.trace && run.reply == rest.reply && run.at == rest.at
  {
    var o, q := Look(r, p), Looked(r, p);
    if c.Judge(o.evidence) != Some(true) && q.clock < deadline {
      var rest := VerifyRun(r, q.(clock := q.clock + r.second), c, deadline);
      assert before + ([o] + rest.trace) == (before + [o]) + rest.trace;
    }
  }

  lemma LoopMeans(r: Radio, p: Place, c: Command, before: seq<Action>)
    ensures var run := Loop(r, p, c);
            && run.trace == Polls(r.answers, r.delays, c, p.observations, p.clock, Deadline(r.second, p.clock), r.second)
            && (run.reply.Ok() <==> EndsAchieved(before + run.trace, c)) && (run.reply.Ok() || GivesUp(run.reply))
  {
    hide Polls, Deadline, VerifyRun;
    LoopPolls(r, p, c, Deadline(r.second, p.clock));
    EndsLater(before, Loop(r, p, c).trace, c);
  }

  lemma LoopIsPaced(r: Radio, p: Place, c: Command)
    ensures var run := Loop(r, p, c);
            && Paced(run.trace, c, p.clock, r.second)
            && (run.reply.Ok() <==> EndsAchieved(run.trace, c)) && (run.reply.Ok() || GivesUp(run.reply))
  {
    hide Paced, Polls, Deadline, EndsAchieved, VerifyRun;
    LoopPolls(r, p, c, Deadline(r.second, p.clock));
    PollsArePaced(r.answers, r.delays, c, p.observations, p.clock, r.second);
  }

  lemma SwitchRunIsSwitch(r: Radio, p: Place, target: Node, source: Node)
    requires Switchable(r, target, source)
    ensures IsSwitch(SwitchRun(r, p, target, source).trace, source, target, SwitchRun(r, p, target, source).reply.Ok())
  {
    hide IsPhase, IsSwitch, Commands, Numeric, PhaseRun, Lacks;
    ThreeDistinct(r.local, target, source);
    var one := PhaseRun(r, p, Disconnect(source));
    PhaseRunReplies(r, p, Disconnect(source));
    if !one.reply.Ok() {
      PhaseIsSwitch(r.second, one.trace, source, target);
    } else {
      var two := PhaseRun(r, one.at, Connect(target));
      PhaseRunReplies(r, one.at, Connect(target));
      PhasesAreSwitch(r.second, one.trace, two.trace, source, target, two.reply.Ok());
      FinalObservation(one.trace + two.trace, source, target, Look(r, two.at));
    }
  }

  lemma ReplaceRunIsReplacement(r: Radio, p: Place, target: Node)
    ensures IsReplacement(ReplaceRun(r, p, target).trace, target, ReplaceRun(r, p, target).reply.Ok())
  {
    hide IsPhase, IsSwitch, IsReplacement, Numeric, OnlyPeer, Commands, PhaseRun, SwitchRun;
    if !Permitted(r, Connect(target)) {
      NothingIsReplacement([], target);
    } else {
      var o, q := Look(r, p), Looked(r, p);
      var peers := Peers(o.evidence.links);
      NothingIsReplacement([o], target);
      if Readable(o.evidence) {
        if target in peers || peers == {} {
          PhaseRunReplies(r, q, Connect(target));
          ConnectIsReplacement(r.second, o, PhaseRun(r, q, Connect(target)).trace, target,
                               PhaseRun(r, q, Connect(target)).reply.Ok());
        } else if |peers| == 1 {
          var source := o.evidence.links[0].node;
          OnlyPeerIsSwitched(r, q, o, source, target);
        }
      }
    }
  }

  lemma OnlyPeerIsSwitched(r: Radio, q: Place, o: Action, source: Node, target: Node)
    requires o.Observed? && o.evidence.usable && Permitted(r, Connect(target))
    requires source in Peers(o.evidence.links) && |Peers(o.evidence.links)| <= 1 && source != target
    ensures var run := SwitchRun(r, q, target, source);
            IsReplacement([o] + run.trace, target, run.reply.Ok())
  {
    hide IsReplacement, Numeric, OnlyPeer, Commands, PhaseRun, IsSwitch, Lacks;
    Singleton(Peers(o.evidence.links), source);
    PeerIsOnly(o.evidence, source);
    if Switchable(r, target, source) {
      SwitchRunIsSwitch(r, q, target, source);
      hide SwitchRun;
      SwitchIsReplacement(o, SwitchRun(r, q, target, source).trace, source, target, SwitchRun(r, q, target, source).reply.Ok());
    } else {
      assert [o] + [] == [o];
      NothingIsReplacement([o], target);
    }
  }

  /** A request, its effects and its reply. */
  ghost predicate ServedAs(r: Radio, t: seq<Action>, c: Command, replaceCurrent: bool, from: Option<Node>, reply: Reply) {
    if c.Connect? && replaceCurrent then IsReplacement(t, c.node, reply.Ok())
    else if c.Connect? && from.Some? then
      if Switchable(r, c.node, from.value) then IsSwitch(t, from.value, c.node, reply.Ok())
      else reply == BadRequest && t == []
    else
      if Permitted(r, c) then PhaseReplies(r.second, t, c, reply)
      else reply == BadRequest && t == []
  }

  /** Every control is a phase, a switch or a replacement, with at most two commands, and succeeds only when its last
      observation shows it. */
  lemma PerformRunIsServed(r: Radio, p: Place, c: Command, replaceCurrent: bool, from: Option<Node>)
    ensures var run := PerformRun(r, p, c, replaceCurrent, from);
            && ServedAs(r, run.trace, c, replaceCurrent, from, run.reply)
            && |Commands(run.trace)| <= 2
            && (run.reply.Ok() ==> EndsAchieved(run.trace, c))
  {
    hide PhaseRun, SwitchRun, ReplaceRun, Numeric;
    if c.Connect? && replaceCurrent {
      ReplaceRunIsReplacement(r, p, c.node);
      hide Commands, EndsAchieved;
    } else if c.Connect? && from.Some? {
      if Switchable(r, c.node, from.value) {
        SwitchRunIsSwitch(r, p, c.node, from.value);
      } else {
        NotSwitchable(r, p, c.node, from.value);
      }
    } else if Permitted(r, c) {
      PhaseRunReplies(r, p, c);
      PhaseCommands(r.second, PhaseRun(r, p, c).trace, c, PhaseRun(r, p, c).reply.Ok());
    } else {
      NotPermitted(r, p, c);
    }
  }

  lemma NotSwitchable(r: Radio, p: Place, target: Node, source: Node)
    requires !Switchable(r, target, source)
    ensures SwitchRun(r, p, target, source) == Ran([], BadRequest, p)
  {
  }

  lemma NotPermitted(r: Radio, p: Place, c: Command)
    requires !Permitted(r, c)
    ensures PhaseRun(r, p, c) == Ran([], BadRequest, p)
  {
  }

  // ---------------------------------------------------------------------------------------------------
  // Exactly which commands go out, and what is replied.

  /** The command is called for: the node answers, and the link is neither as requested nor already on its way. */
  predicate CalledFor(c: Command, e: Evidence) {
    && e.usable
    && match c
       case Connect(node) => forall l :: l in e.links ==> l.node != node
       case Disconnect(node) => exists l :: l in e.links && l.node == node
  }

  /** The commands of a phase, read off its first observation and the next result. */
  function Sends(r: Radio, p: Place, c: Command): seq<Command> {
    if Permitted(r, c) && CalledFor(c, r.answers(p.observations)) && r.results(p.commands) != NotExecuted then [c] else []
  }

  lemma LoopSendsNothing(r: Radio, p: Place, c: Command)
    ensures Commands(Loop(r, p, c).trace) == [] && Loop(r, p, c).at.commands == p.commands
  {
    hide VerifyRun, Deadline, Commands, Polls;
    LoopIsPaced(r, p, c);
    LoopPolls(r, p, c, Deadline(r.second, p.clock));
    PacedObserves(Loop(r, p, c).trace, c, p.clock, r.second);
    NoCommands(Loop(r, p, c).trace);
  }

  lemma CommandsCons(a: Action, t: seq<Action>)
    ensures Commands([a] + t) == (match a case Observed(_, _, _) => [] case Sent(c, _) => [c]) + Commands(t)
  {
    CommandsConcat([a], t);
    CommandsAppend([], a);
    assert [] + [a] == [a];
  }

  lemma JudgedRaw(c: Command, e: Evidence)
    ensures c.Judge(e).None? <==> !e.usable
    ensures e.usable ==> (c.Judge(e) == Some(true) <==> Shows(e, c))
    ensures CalledFor(c, e) <==> c.Judge(e) == Some(false) && !c.InProgress(e)
  {
  }

  /** A phase sends its command exactly when that is called for and can be executed, and a command that does not go
      through ends it without another look. */
  lemma PhaseAccount(r: Radio, p: Place, c: Command)
    requires Permitted(r, c)
    ensures var run, e, result := PhaseRun(r, p, c), r.answers(p.observations), r.results(p.commands);
            && Commands(run.trace) == Sends(r, p, c)
            && run.at.commands == p.commands + (if CalledFor(c, e) then 1 else 0)
            && run.trace != [] && run.trace[0] == Observed(e, p.clock, p.clock + r.delays(p.observations))
            && (run.reply == Unavailable <==> !e.usable)
            && (run.reply == AlreadySatisfied <==> e.usable && Shows(e, c))
            && (run.reply == CommandRejected <==> CalledFor(c, e) && result == Rejected)
            && (run.reply == CommandTimedOut <==> CalledFor(c, e) && result == TimedOut)
            && (run.reply == NotExecutedReply <==> CalledFor(c, e) && result == NotExecuted)
            && (CalledFor(c, e) && result != Accepted ==> |run.trace| == 1 + |Sends(r, p, c)|)
            && (CalledFor(c, e) && result == Accepted ==>
                  var q := Commanded(r, Looked(r, p));
                  && run.trace == [run.trace[0]] + ([Sent(c, q.clock)] + Loop(r, q, c).trace)
                  && run.reply == Loop(r, q, c).reply)
            && (e.usable && !Shows(e, c) && !CalledFor(c, e) ==>
                  && run.trace == [run.trace[0]] + Loop(r, Looked(r, p), c).trace
                  && run.reply == Loop(r, Looked(r, p), c).reply)
  {
    hide Commands, VerifyRun, Deadline, Numeric, Shows;
    var e, q := r.answers(p.observations), Looked(r, p);
    var sent := Sent(c, Commanded(r, q).clock);
    JudgedRaw(c, e);
    hide CalledFor;
    LoopReplies(r, q, c);
    LoopReplies(r, Commanded(r, q), c);
    LoopSendsNothing(r, q, c);
    LoopSendsNothing(r, Commanded(r, q), c);
    CommandsCons(Look(r, p), []);
    CommandsCons(Look(r, p), Tried(r, q, e, c).trace);
    CommandsCons(sent, []);
    CommandsCons(sent, Loop(r, Commanded(r, q), c).trace);
    NoCommands([]);
    assert [Look(r, p)] + [] == [Look(r, p)] && [sent] + [] == [sent];
    hide Loop;
  }

  lemma LoopReplies(r: Radio, p: Place, c: Command)
    ensures Loop(r, p, c).reply == Verified || GivesUp(Loop(r, p, c).reply)
  {
    LoopIsPaced(r, p, c);
    hide Paced, VerifyRun, Deadline, EndsAchieved;
    LoopPolls(r, p, c, Deadline(r.second, p.clock));
  }

  /** A switch sends the disconnect as its first phase does, and the connect exactly if that succeeded and the second
      phase calls for it; it is verified exactly if a last look shows the target and not the source. */
  lemma SwitchAccount(r: Radio, p: Place, target: Node, source: Node)
    requires Switchable(r, target, source)
    ensures var run, one := SwitchRun(r, p, target, source), PhaseRun(r, p, Disconnect(source));
            var two := PhaseRun(r, one.at, Connect(target));
            var last := r.answers(two.at.observations);
            && Commands(run.trace) ==
               Sends(r, p, Disconnect(source)) + (if one.reply.Ok() then Sends(r, one.at, Connect(target)) else [])
            && (!one.reply.Ok() ==> run == one)
            && (one.reply.Ok() && !two.reply.Ok() ==> run.reply == two.reply && run.trace == one.trace + two.trace)
            && (one.reply.Ok() && two.reply.Ok() ==>
                  run.reply == if last.usable && Shows(last, Disconnect(source)) && Shows(last, Connect(target))
                               then Verified else NotConfirmed)
  {
    hide PhaseRun, Commands, Numeric, Sends;
    ThreeDistinct(r.local, target, source);
    PhaseAccount(r, p, Disconnect(source));
    var one := PhaseRun(r, p, Disconnect(source));
    PhaseAccount(r, one.at, Connect(target));
    var two := PhaseRun(r, one.at, Connect(target));
    var o := Look(r, two.at);
    CommandsConcat(one.trace, two.trace);
    CommandsAppend(one.trace + two.trace, o);
    assert Commands(one.trace + two.trace) + [] == Commands(one.trace + two.trace);
    assert Commands(one.trace) + [] == Commands(one.trace);
    hide Loop;
  }

  /** A replacement looks first. It connects if the target is linked already or nothing is, leaves the single other peer
      for the target, and otherwise sends nothing and says why. */
  lemma ReplaceAccount(r: Radio, p: Place, target: Node)
    requires Permitted(r, Connect(target))
    ensures var run, e, q := ReplaceRun(r, p, target), r.answers(p.observations), Looked(r, p);
            var readable := e.usable && forall l :: l in e.links ==> Numeric(l.node);
            var linked := exists l :: l in e.links && l.node == target;
            && (!readable ==> run.reply == Unverifiable && Commands(run.trace) == [])
            && (readable && (linked || e.links == []) ==>
                  && run.reply == PhaseRun(r, q, Connect(target)).reply
                  && Commands(run.trace) == Sends(r, q, Connect(target)))
            && (readable && !linked && e.links != [] ==>
                  var source := e.links[0].node;
                  if forall l :: l in e.links ==> l.node == source then
                    && run.reply == SwitchRun(r, q, target, source).reply
                    && Commands(run.trace) == Commands(SwitchRun(r, q, target, source).trace)
                  else run.reply == ChooseCurrentNode(Peers(e.links)) && Commands(run.trace) == [])
  {
    hide PhaseRun, SwitchRun, Commands, Numeric, Sends;
    var o, q := Look(r, p), Looked(r, p);
    var links := r.answers(p.observations).links;
    CommandsCons(o, []);
    NoCommands([]);
    assert [o] + [] == [o];
    CommandsCons(o, PhaseRun(r, q, Connect(target)).trace);
    PhaseAccount(r, q, Connect(target));
    PeersOfOne(links);
    if links != [] {
      CommandsCons(o, SwitchRun(r, q, target, links[0].node).trace);
    }
    hide Loop, Shows, CalledFor;
    assert target in Peers(links) <==> exists l :: l in links && l.node == target;
  }

  lemma PeersOfOne(links: seq<Link>)
    ensures Peers(links) == {} <==> links == []
    ensures links != [] ==> (|Peers(links)| <= 1 <==> forall l :: l in links ==> l.node == links[0].node)
  {
    if links != [] {
      var first := links[0].node;
      assert links[0] in links && first in Peers(links);
      if |Peers(links)| <= 1 {
        Singleton(Peers(links), first);
        assert forall l :: l in links ==> l.node in Peers(links);
      }
      if forall l :: l in links ==> l.node == first {
        assert Peers(links) == {first};
      }
    }
  }

  lemma FirstIsPeer(links: seq<Link>)
    requires Peers(links) != {}
    ensures links != [] && links[0].node in Peers(links)
  {
    PeersOfOne(links);
    assert links[0] in links;
  }

  // ---------------------------------------------------------------------------------------------------
  // Every look is the next answer of the node.

  function Evidences(t: seq<Action>): seq<Evidence> {
    if t == [] then []
    else (match t[0] case Observed(e, _, _) => [e] case Sent(_, _) => []) + Evidences(t[1..])
  }

  /** The observations of a run are the answers from `p` on, one after the other, and it ends behind the last of them. */
  ghost predicate LooksInOrder(r: Radio, p: Place, t: seq<Action>, at: Place) {
    && at.observations == p.observations + |Evidences(t)|
    && forall i :: 0 <= i < |Evidences(t)| ==> Evidences(t)[i] == r.answers(p.observations + i)
  }

  lemma EvidencesCons(a: Action, t: seq<Action>)
    ensures Evidences([a] + t) == (match a case Observed(e, _, _) => [e] case Sent(_, _) => []) + Evidences(t)
  {
    assert ([a] + t)[1..] == t;
  }

  lemma Regroup<T>(a: seq<T>, b: seq<T>, c: seq<T>)
    ensures (a + b) + c == a + (b + c)
  {
  }

  lemma {:induction false} EvidencesConcat(s: seq<Action>, t: seq<Action>)
    ensures Evidences(s + t) == Evidences(s) + Evidences(t)
  {
    if s == [] {
      assert s + t == t && Evidences(s) == [];
    } else {
      hide Evidences;
      var a := match s[0] case Observed(e, _, _) => [e] case Sent(_, _) => [];
      EvidencesConcat(s[1..], t);
      EvidencesCons(s[0], s[1..]);
      EvidencesCons(s[0], s[1..] + t);
      assert s == [s[0]] + s[1..];
      Regroup([s[0]], s[1..], t);
      Regroup(a, Evidences(s[1..]), Evidences(t));
    }
  }

  lemma OrderConcat(r: Radio, p: Place, s: seq<Action>, q: Place, t: seq<Action>, at: Place)
    requires LooksInOrder(r, p, s, q) && LooksInOrder(r, q, t, at)
    ensures LooksInOrder(r, p, s + t, at)
  {
    EvidencesConcat(s, t);
  }

  lemma OrderOne(r: Radio, p: Place)
    ensures LooksInOrder(r, p, [Look(r, p)], Looked(r, p))
  {
    assert Evidences([Look(r, p)]) == [r.answers(p.observations)] + Evidences([]);
  }

  lemma OrderSent(r: Radio, p: Place, c: Command, at: int)
    ensures LooksInOrder(r, p, [Sent(c, at)], Commanded(r, p)) && LooksInOrder(r, p, [], p)
    ensures LooksInOrder(r, p, [], Commanded(r, p))
  {
  }

  lemma {:induction false} LoopLooksInOrder(r: Radio, p: Place, c: Command, deadline: int)
    ensures LooksInOrder(r, p, VerifyRun(r, p, c, deadline).trace, VerifyRun(r, p, c, deadline).at)
    decreases Max(0, deadline - p.clock)
  {
    hide LooksInOrder;
    var o, q := Look(r, p), Looked(r, p);
    OrderOne(r, p);
    if c.Judge(o.evidence) != Some(true) && q.clock < deadline {
      var paused := q.(clock := q.clock + r.second);
      LoopLooksInOrder(r, paused, c, deadline);
      OrderIgnoresClock(r, q, paused, VerifyRun(r, paused, c, deadline).trace, VerifyRun(r, paused, c, deadline).at);
      OrderConcat(r, p, [o], q, VerifyRun(r, paused, c, deadline).trace, VerifyRun(r, paused, c, deadline).at);
    }
  }

  lemma OrderIgnoresClock(r: Radio, p: Place, q: Place, t: seq<Action>, at: Place)
    requires LooksInOrder(r, q, t, at) && p.observations == q.observations
    ensures LooksInOrder(r, p, t, at)
  {
  }

  lemma PhaseLooksInOrder(r: Radio, p: Place, c: Command)
    ensures LooksInOrder(r, p, PhaseRun(r, p, c).trace, PhaseRun(r, p, c).at)
  {
    hide LooksInOrder, VerifyRun, Deadline, Numeric;
    var o, q := Look(r, p), Looked(r, p);
    OrderOne(r, p);
    OrderSent(r, p, c, 0);
    if Permitted(r, c) && c.Judge(o.evidence) == Some(false) {
      var rest := Tried(r, q, o.evidence, c);
      TriedLooksInOrder(r, q, o.evidence, c);
      OrderConcat(r, p, [o], q, rest.trace, rest.at);
    }
  }

  lemma TriedLooksInOrder(r: Radio, p: Place, e: Evidence, c: Command)
    ensures LooksInOrder(r, p, Tried(r, p, e, c).trace, Tried(r, p, e, c).at)
  {
    hide LooksInOrder, VerifyRun, Deadline;
    var q := Commanded(r, p);
    LoopLooksInOrder(r, p, c, Deadline(r.second, p.clock));
    LoopLooksInOrder(r, q, c, Deadline(r.second, q.clock));
    OrderSent(r, p, c, q.clock);
    OrderConcat(r, p, [Sent(c, q.clock)], q, Loop(r, q, c).trace, Loop(r, q, c).at);
  }

  lemma SwitchLooksInOrder(r: Radio, p: Place, target: Node, source: Node)
    ensures LooksInOrder(r, p, SwitchRun(r, p, target, source).trace, SwitchRun(r, p, target, source).at)
  {
    hide LooksInOrder, PhaseRun, Numeric;
    OrderSent(r, p, Connect(target), 0);
    var one := PhaseRun(r, p, Disconnect(source));
    PhaseLooksInOrder(r, p, Disconnect(source));
    var two := PhaseRun(r, one.at, Connect(target));
    PhaseLooksInOrder(r, one.at, Connect(target));
    OrderConcat(r, p, one.trace, one.at, two.trace, two.at);
    OrderOne(r, two.at);
    OrderConcat(r, p, one.trace + two.trace, two.at, [Look(r, two.at)], Looked(r, two.at));
  }

  /** Whatever the control, its observations are the answers of the node in their order, none left out. */
  lemma PerformLooksInOrder(r: Radio, p: Place, c: Command, replaceCurrent: bool, from: Option<Node>)
    ensures var run := PerformRun(r, p, c, replaceCurrent, from);
            LooksInOrder(r, p, run.trace, run.at)
  {
    hide LooksInOrder, PhaseRun, SwitchRun, Numeric;
    PhaseLooksInOrder(r, p, c);
    if c.Connect? && replaceCurrent {
      var o, q := Look(r, p), Looked(r, p);
      OrderOne(r, p);
      OrderSent(r, p, c, 0);
      PhaseLooksInOrder(r, q, c);
      OrderConcat(r, p, [o], q, PhaseRun(r, q, c).trace, PhaseRun(r, q, c).at);
      if o.evidence.links != [] {
        var source := o.evidence.links[0].node;
        SwitchLooksInOrder(r, q, c.node, source);
        OrderConcat(r, p, [o], q, SwitchRun(r, q, c.node, source).trace, SwitchRun(r, q, c.node, source).at);
      }
    } else if c.Connect? && from.Some? {
      SwitchLooksInOrder(r, p, c.node, from.value);
    }
  }

  // ---------------------------------------------------------------------------------------------------
  // The controls.

  class Session {
    const local: Node
    const second: Ticks
    const answers: nat -> Evidence
    const delays: nat -> nat
    const results: nat -> CommandResult
    const commandDelays: nat -> nat
    var observations: nat
    var commands: nat
    var clock: int
    var trace: seq<Action>
    var lockHeld: bool

    constructor (local: Node, second: Ticks, answers: nat -> Evidence, delays: nat -> nat, results: nat -> CommandResult,
                 commandDelays: nat -> nat)
      ensures trace == [] && !lockHeld && Here() == Place(0, 0, 0)
      ensures Station() == Radio(local, second, answers, delays, results, commandDelays)
    {
      this.local, this.second, this.answers, this.delays := local, second, answers, delays;
      this.results, this.commandDelays := results, commandDelays;
      observations, commands, clock, trace, lockHeld := 0, 0, 0, [], false;
    }

    function Station(): Radio {
      Radio(local, second, answers, delays, results, commandDelays)
    }

    function Here(): Place
      reads this
    {
      Place(observations, commands, clock)
    }

    method Observe() returns (e: Evidence)
      modifies this
      ensures trace == old(trace) + [Look(Station(), old(Here()))] && Here() == Looked(Station(), old(Here()))
      ensures e == answers(old(observations)) && lockHeld == old(lockHeld)
    {
      var begun := clock;
      e := answers(observations);
      clock := clock + delays(observations);
      observations := observations + 1;
      trace := trace + [Observed(e, begun, clock)];
    }

    method Send(c: Command) returns (r: CommandResult)
      modifies this
      ensures r == results(old(commands)) && Here() == Commanded(Station(), old(Here())) && lockHeld == old(lockHeld)
      ensures trace == old(trace) + if r.NotExecuted? then [] else [Sent(c, clock)]
    {
      r := results(commands);
      clock := clock + commandDelays(commands);
      commands := commands + 1;
      if !r.NotExecuted? {
        trace := trace + [Sent(c, clock)];
      }
    }

    /** `perform_locked` for a node action. */
    method PerformLocked(c: Command) returns (reply: Reply)
      modifies this
      ensures lockHeld == old(lockHeld)
      ensures var run := PhaseRun(Station(), old(Here()), c);
              trace == old(trace) + run.trace && reply == run.reply && Here() == run.at
      ensures Permitted(Station(), c) ==> PhaseReplies(second, trace[|old(trace)|..], c, reply)
    {
      hide Numeric, Tried, PhaseReplies;
      if Permitted(Station(), c) {
        PhaseRunReplies(Station(), Here(), c);
      }
      if !Numeric(c.node) || !Numeric(local) || c.node == local {
        return BadRequest;
      }
      var latest := Observe();
      var before := c.Judge(latest);
      if before != Some(false) {
        return if before.None? then Unavailable else AlreadySatisfied;
      }
      reply := Try(c, latest);
    }

    /** The command goes out unless the connection is already pending, and what it did is verified. */
    method Try(c: Command, latest: Evidence) returns (reply: Reply)
      modifies this
      ensures lockHeld == old(lockHeld)
      ensures var run := Tried(Station(), old(Here()), latest, c);
              trace == old(trace) + run.trace && reply == run.reply && Here() == run.at
    {
      hide Deadline, VerifyRun;
      if !c.InProgress(latest) {
        var result := Send(c);
        match result
        case Accepted =>
        case TimedOut => return CommandTimedOut;
        case NotExecuted => return NotExecutedReply;
        case Rejected => return CommandRejected;
      }
      reply := Verify(c);
    }

    /** The verification loop: observe until the goal is achieved or the deadline has passed, with a pause of a second
        between. Its observations are `Polls`, so what is proved of those holds here. */
    method Verify(c: Command) returns (reply: Reply)
      modifies this
      ensures lockHeld == old(lockHeld)
      ensures var run := Loop(Station(), old(Here()), c);
              trace == old(trace) + run.trace && reply == run.reply && Here() == run.at
      ensures trace == old(trace) + Polls(answers, delays, c, old(observations), old(clock),
                                          Deadline(second, old(clock)), second)
      ensures reply.Ok() <==> EndsAchieved(trace, c)
      ensures reply.Ok() || GivesUp(reply)
    {
      hide Polls, Deadline, EndsAchieved, GivesUp, VerifyRun, Shows;
      var deadline := clock + VERIFY_SECONDS * second;
      DeadlineIs(second, clock);
      LoopMeans(Station(), Here(), c, trace);
      ghost var all := VerifyRun(Station(), Here(), c, deadline);
      while true
        invariant lockHeld == old(lockHeld)
        invariant var rest := VerifyRun(Station(), Here(), c, deadline);
                  trace + rest.trace == old(trace) + all.trace && rest.reply == all.reply && rest.at == all.at
        decreases Max(0, deadline - clock)
      {
        LoopStep(Station(), Here(), c, deadline, trace);
        var latest := Observe();
        var state := c.Judge(latest);
        if state == Some(true) {
          return Verified;
        }
        if clock >= deadline {
          return if state.None? then ObservationLost else if c.InProgress(latest) then ConnectionPending else NotConfirmed;
        }
        clock := clock + second;
      }
    }

    /** `switch`, called under the lock. */
    method Switch(target: Node, source: Node) returns (reply: Reply)
      modifies this
      ensures lockHeld == old(lockHeld)
      ensures var run := SwitchRun(Station(), old(Here()), target, source);
              trace == old(trace) + run.trace && reply == run.reply && Here() == run.at
      ensures Switchable(Station(), target, source) ==> IsSwitch(trace[|old(trace)|..], source, target, reply.Ok())
    {
      hide PhaseRun, IsSwitch, Numeric, PhaseReplies;
      if Switchable(Station(), target, source) {
        SwitchRunIsSwitch(Station(), Here(), target, source);
      }
      if !Numeric(local) || !Numeric(target) || !Numeric(source) || |{local, target, source}| != 3 {
        return BadRequest;
      }
      var code := PerformLocked(Disconnect(source));
      if !code.Ok() {
        return code;
      }
      code := PerformLocked(Connect(target));
      if !code.Ok() {
        return code;
      }
      var final := Observe();
      if final.usable && Lacks(final, source) && Connect(target).Achieved(final) {
        return Verified;
      }
      return NotConfirmed;
    }

    /** `connect_replacing_current`. It observes before it decides, and switches only away from a single peer. */
    method ConnectReplacingCurrent(target: Node) returns (reply: Reply)
      modifies this
      ensures lockHeld == old(lockHeld)
      ensures var run := ReplaceRun(Station(), old(Here()), target);
              trace == old(trace) + run.trace && reply == run.reply && Here() == run.at
      ensures IsReplacement(trace[|old(trace)|..], target, reply.Ok())
    {
      hide PhaseRun, SwitchRun, IsReplacement, Numeric, IsSwitch, PhaseReplies;
      ReplaceRunIsReplacement(Station(), Here(), target);
      if !Numeric(local) || !Numeric(target) || target == local {
        return BadRequest;
      }
      var e := Observe();
      if !e.usable || exists l :: l in e.links && !Numeric(l.node) {
        return Unverifiable;
      }
      var peers := Peers(e.links);
      if target in peers || peers == {} {
        reply := PerformLocked(Connect(target));
        return;
      }
      if |peers| > 1 {
        return ChooseCurrentNode(peers);
      }
      var source :| source in peers;
      Singleton(peers, source);
      FirstIsPeer(e.links);
      reply := Switch(target, source);
    }

    /** `perform`: one control at a time. */
    method Perform(c: Command, replaceCurrent: bool, from: Option<Node>) returns (reply: Reply)
      modifies this
      ensures lockHeld == old(lockHeld)
      ensures old(lockHeld) ==> reply == Busy && trace == old(trace) && Here() == old(Here())
      ensures !old(lockHeld) ==>
                var run := PerformRun(Station(), old(Here()), c, replaceCurrent, from);
                trace == old(trace) + run.trace && reply == run.reply && Here() == run.at
      ensures !old(lockHeld) ==> ServedAs(Station(), trace[|old(trace)|..], c, replaceCurrent, from, reply)
    {
      hide PhaseRun, SwitchRun, ReplaceRun, ServedAs, IsReplacement, IsSwitch, PhaseReplies, Commands, EndsAchieved;
      PerformRunIsServed(Station(), Here(), c, replaceCurrent, from);
      if lockHeld {
        return Busy;
      }
      lockHeld := true;
      if c.Connect? && replaceCurrent {
        reply := ConnectReplacingCurrent(c.node);
      } else if c.Connect? && from.Some? {
        reply := Switch(c.node, from.value);
      } else {
        reply := PerformLocked(c);
      }
      lockHeld := false;
    }
  }
}
