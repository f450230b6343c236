/** The one-time browser tickets of core/soft_radio.py: each admits one listener of one session, for a short time. */
module Tickets {
  import opened Prelude

  const MAX_TICKETS := 256

  type Ticket = string
  type Session = string

  datatype Lease = Lease(session: Session, expires: int)

  /** The source keys its table by the SHA-256 digest of the ticket. */
  type Table = map<Ticket, Lease>

  predicate WellFormed(ticket: Ticket) {
    1 <= |ticket| <= 128 && forall i :: 0 <= i < |ticket| ==> ticket[i] < 128 as char
  }

  function Purged(table: Table, now: int): Table {
    map t | t in table && table[t].expires > now :: table[t]
  }

  /** One call. Issuing also names the random ticket it drew. */
  datatype Call =
    | Issue(ticket: Ticket, session: Session, now: int)
    | Consume(ticket: Ticket, session: Session, now: int)
    | Disconnect(session: Session)
    | Stop

  predicate Serious(call: Call) {
    call.Consume? && WellFormed(call.ticket) && call.session != ""
  }

  predicate Issues(table: Table, call: Call) {
    call.Issue? && |Purged(table, call.now)| < MAX_TICKETS
  }

  /** What a call leaves in the table; `life` is the configured lifetime in seconds. */
  function After(table: Table, call: Call, life: nat): Table {
    match call
    case Issue(ticket, session, now) =>
      if Issues(table, call) then Purged(table, now)[ticket := Lease(session, now + life)] else Purged(table, now)
    case Consume(ticket, session, now) => if Serious(call) then Purged(table, now) - {ticket} else table
    case Disconnect(session) => map t | t in table && table[t].session != session :: table[t]
    case Stop => map[]
  }

  predicate Admits(table: Table, call: Call) {
    Serious(call) && call.ticket in table && table[call.ticket].expires > call.now
    && table[call.ticket].session == call.session
  }

  class Broker {
    const life: nat
    var table: Table

    constructor (life: nat)
      ensures this.life == life && table == map[]
    {
      this.life := life;
      table := map[];
    }

    method PurgeTickets(now: int)
      modifies this
      ensures table == Purged(old(table), now)
    {
      var rest := table.Keys;
      while rest != {}
        invariant rest <= old(table).Keys
        invariant forall t :: t in table <==> t in old(table) && (t in rest || old(table)[t].expires > now)
        invariant forall t :: t in table ==> table[t] == old(table)[t]
        decreases rest
      {
        var digest :| digest in rest;
        rest := rest - {digest};
        if table[digest].expires <= now {
          table := table - {digest};
        }
      }
    }

    /** False when the receiver is disabled or the table is full. */
    method IssueTicket(enabled: bool, ticket: Ticket, session: Session, now: int) returns (issued: bool)
      modifies this
      ensures issued == (enabled && Issues(old(table), Issue(ticket, session, now)))
      ensures table == if enabled then After(old(table), Issue(ticket, session, now), life) else old(table)
    {
      if !enabled {
        return false;
      }
      PurgeTickets(now);
      if |table| >= MAX_TICKETS {
        return false;
      }
      table := table[ticket := Lease(session, now + life)];
      return true;
    }

    method ConsumeTicket(ticket: Ticket, session: Session, now: int) returns (admitted: bool)
      modifies this
      ensures admitted == Admits(old(table), Consume(ticket, session, now))
      ensures table == After(old(table), Consume(ticket, session, now), life)
    {
      if !WellFormed(ticket) || session == "" {
        return false;
      }
      PurgeTickets(now);
      admitted := ticket in table && table[ticket].expires > now && table[ticket].session == session;
      table := table - {ticket};
    }

    method DisconnectSession(session: Session)
      modifies this
      ensures table == After(old(table), Disconnect(session), life)
    {
      table := map t | t in table && table[t].session != session :: table[t];
    }

    method Halt()
      modifies this
      ensures table == After(old(table), Stop, life)
    {
      table := map[];
    }
  }

  function Run(calls: seq<Call>, life: nat): Table {
    if calls == [] then map[] else After(Run(calls[..|calls| - 1], life), calls[|calls| - 1], life)
  }

  // ---------------------------------------------------------------------------------------------------
  // The same, read off the calls.

  /** The call ends the lease of `ticket`: it uses the ticket up, whoever holds it, replaces it, finds it expired,
      disconnects its session or stops the receiver. */
  predicate Ends(call: Call, ticket: Ticket, lease: Lease, issued: bool) {
    match call
    case Issue(t, _, now) => now >= lease.expires || (issued && t == ticket)
    case Consume(t, _, now) => Serious(call) && (now >= lease.expires || t == ticket)
    case Disconnect(session) => session == lease.session
    case Stop => true
  }

  /** Call `i` issued `ticket` for `lease`, and no later call has ended it. */
  ghost predicate Outstanding(calls: seq<Call>, life: nat, i: nat, ticket: Ticket, lease: Lease) {
    && i < |calls|
    && Issues(Run(calls[..i], life), calls[i]) && calls[i].ticket == ticket
    && lease == Lease(calls[i].session, calls[i].now + life)
    && forall k :: i < k < |calls| ==> !Ends(calls[k], ticket, lease, Issues(Run(calls[..k], life), calls[k]))
  }

  lemma AfterKeepsIff(table: Table, call: Call, life: nat, ticket: Ticket, lease: Lease)
    ensures var after := After(table, call, life);
            ticket in after && after[ticket] == lease <==>
            || (Issues(table, call) && call.ticket == ticket && lease == Lease(call.session, call.now + life))
            || (ticket in table && table[ticket] == lease && !Ends(call, ticket, lease, Issues(table, call)))
  {
    hide WellFormed;
  }

  lemma PrefixesAgree(calls: seq<Call>, call: Call, k: nat)
    requires k <= |calls|
    ensures (calls + [call])[..k] == calls[..k]
  {
  }

  lemma OutstandingStep(calls: seq<Call>, call: Call, life: nat, i: nat, ticket: Ticket, lease: Lease)
    ensures Outstanding(calls + [call], life, i, ticket, lease) <==>
            if i == |calls| then
              Issues(Run(calls, life), call) && call.ticket == ticket && lease == Lease(call.session, call.now + life)
            else
              Outstanding(calls, life, i, ticket, lease)
              && !Ends(call, ticket, lease, Issues(Run(calls, life), call))
  {
    hide Ends, Issues, Run;
    forall k: nat | k <= |calls| ensures (calls + [call])[..k] == calls[..k] {
      PrefixesAgree(calls, call, k);
    }
    assert calls[..|calls|] == calls;
    assert (calls + [call])[|calls|] == call;
    assert forall k :: 0 <= k < |calls| ==> (calls + [call])[k] == calls[k];
  }

  /** The table holds a ticket exactly when some call issued it and nothing has ended it since. */
  lemma {:induction false} TableIsHistory(calls: seq<Call>, life: nat, ticket: Ticket, lease: Lease)
    ensures var table := Run(calls, life);
            ticket in table && table[ticket] == lease <==> exists i :: Outstanding(calls, life, i, ticket, lease)
  {
    if calls != [] {
      var init, call := calls[..|calls| - 1], calls[|calls| - 1];
      assert calls == init + [call];
      TableIsHistory(init, life, ticket, lease);
      AfterKeepsIff(Run(init, life), call, life, ticket, lease);
      OutstandingNow(init, call, life, ticket, lease);
      hide Outstanding, Ends, Issues, After;
    }
  }

  lemma OutstandingNow(calls: seq<Call>, call: Call, life: nat, ticket: Ticket, lease: Lease)
    ensures var issued := Issues(Run(calls, life), call);
            (exists i :: Outstanding(calls + [call], life, i, ticket, lease)) <==>
            || (issued && call.ticket == ticket && lease == Lease(call.session, call.now + life))
            || ((exists i :: Outstanding(calls, life, i, ticket, lease)) && !Ends(call, ticket, lease, issued))
  {
    hide Run, Ends, Issues;
    OutstandingStep(calls, call, life, |calls|, ticket, lease);
    if i: nat :| Outstanding(calls, life, i, ticket, lease) {
      OutstandingStep(calls, call, life, i, ticket, lease);
      OutstandingEarlier(calls, life, i, ticket, lease);
    }
    if i: nat :| Outstanding(calls + [call], life, i, ticket, lease) {
      OutstandingStep(calls, call, life, i, ticket, lease);
    }
    hide Outstanding;
  }

  lemma OutstandingEarlier(calls: seq<Call>, life: nat, i: nat, ticket: Ticket, lease: Lease)
    requires Outstanding(calls, life, i, ticket, lease)
    ensures i < |calls|
  {
  }

  /** Over every run of calls, whatever their clocks say: a listener is admitted exactly when its ticket was issued to
      its own session, its time has not come, and no call in between has used it up, found it expired, or ended the
      session. */
  lemma AdmittedIff(calls: seq<Call>, life: nat, call: Call)
    ensures Admits(Run(calls, life), call) <==>
            && call.Consume? && call.session != ""
            && 1 <= |call.ticket| <= 128 && (forall i :: 0 <= i < |call.ticket| ==> call.ticket[i] as int < 128)
            && exists i, lease :: Outstanding(calls, life, i, call.ticket, lease)
                                  && lease.session == call.session && call.now < lease.expires
  {
    hide Outstanding, Run;
    if Serious(call) {
      var table := Run(calls, life);
      if call.ticket in table {
        TableIsHistory(calls, life, call.ticket, table[call.ticket]);
      }
      forall i, lease | Outstanding(calls, life, i, call.ticket, lease)
        ensures call.ticket in table && table[call.ticket] == lease
      {
        TableIsHistory(calls, life, call.ticket, lease);
      }
    }
  }

  /** A ticket admits once: after a call that presents it, by whatever session, it admits nobody unless it is issued
      again. */
  lemma TicketAdmitsOnce(calls: seq<Call>, life: nat, j: nat, call: Call)
    requires j < |calls| && Serious(calls[j]) && Serious(call) && calls[j].ticket == call.ticket
    requires forall k :: j < k < |calls| && calls[k].Issue? ==> calls[k].ticket != call.ticket
    ensures !Admits(Run(calls, life), call)
  {
    forall i: nat, lease: Lease ensures !Outstanding(calls, life, i, call.ticket, lease) {
      if i < j {
        var issued := Issues(Run(calls[..j], life), calls[j]);
        assert Ends(calls[j], call.ticket, lease, issued);
      }
    }
    hide Outstanding;
    AdmittedIff(calls, life, call);
  }

  /** The table never grows past its limit. */
  lemma {:induction false} TableIsBounded(calls: seq<Call>, life: nat)
    ensures |Run(calls, life)| <= MAX_TICKETS
  {
    if calls != [] {
      var table, call := Run(calls[..|calls| - 1], life), calls[|calls| - 1];
      TableIsBounded(calls[..|calls| - 1], life);
      if Issues(table, call) {
        var purged := Purged(table, call.now);
        GrowsByOne(purged, call.ticket, Lease(call.session, call.now + life));
      } else {
        SizeOfSubmap(After(table, call, life), table);
      }
    }
  }
}
