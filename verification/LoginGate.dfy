/** The login limiter and the sessions of core/remote_admin.py.

    A login reserves an attempt under the lock, verifies the password outside it, and takes the lock again to open
    a session. The clock is read before the lock is taken, so reservations may carry times that are out of order. */
module LoginGate {
  import opened Prelude
  import opened SlidingWindow

  const MAX_LOGIN_CLIENTS := 1024
  const MAX_SESSIONS := 128

  /** The first 128 characters of the client key, and a session token. */
  type Client = string
  type Token = string

  /** The ranges that the configuration reader enforces. */
  datatype Config = Config(window: int, maxAttempts: nat, sessionSeconds: int) {
    predicate Valid() {
      30 <= window <= 3600 && 1 <= maxAttempts <= 20 && 300 <= sessionSeconds <= 2592000
    }
  }

  /** `while history and history[0] <= now - window: history.popleft()` */
  function DropExpired(history: seq<int>, window: int, now: int): seq<int> {
    if history == [] || history[0] > now - window then history else DropExpired(history[1..], window, now)
  }

  type Attempts = map<Client, seq<int>>

  function PurgeAttempts(c: Config, attempts: Attempts, now: int): Attempts {
    map k | k in attempts && DropExpired(attempts[k], c.window, now) != [] :: DropExpired(attempts[k], c.window, now)
  }

  datatype Admission = Granted | Limited | Busy

  function HistoryOf(attempts: Attempts, key: Client): seq<int> {
    if key in attempts then attempts[key] else []
  }

  function Admit(c: Config, attempts: Attempts, key: Client, now: int): Admission {
    var purged := PurgeAttempts(c, attempts, now);
    if key !in purged && |purged| >= MAX_LOGIN_CLIENTS then Busy
    else if |HistoryOf(purged, key)| >= c.maxAttempts then Limited
    else Granted
  }

  function AfterReserve(c: Config, attempts: Attempts, key: Client, now: int): Attempts {
    var purged := PurgeAttempts(c, attempts, now);
    if Admit(c, attempts, key, now).Granted? then purged[key := HistoryOf(purged, key) + [now]] else purged
  }

  /** The digest of the configuration a session was opened under. */
  type Policy = nat

  datatype Session = Session(expires: int, policy: Policy)

  type Sessions = map<Token, Session>

  function PurgeSessions(sessions: Sessions, now: int): Sessions {
    map k | k in sessions && sessions[k].expires > now :: sessions[k]
  }

  /** The session table after a verified password. */
  function AfterOpen(c: Config, sessions: Sessions, token: Token, policy: Policy, issued: int, now: int): Sessions {
    var purged := PurgeSessions(sessions, now);
    if |purged| < MAX_SESSIONS then purged[token := Session(issued + c.sessionSeconds, policy)] else purged
  }

  /** A request with a session token; `enabled` and `policy` are those of the configuration at that time. */
  datatype Visit = Visit(enabled: bool, token: Token, policy: Policy, now: int)

  predicate Known(sessions: Sessions, v: Visit) {
    v.enabled && v.token != "" && v.token in sessions
    && sessions[v.token].expires > v.now && sessions[v.token].policy == v.policy
  }

  /** Disabling the console revokes every session, and a changed policy the session that presents it. */
  function AfterVisit(sessions: Sessions, v: Visit): Sessions {
    if !v.enabled then map[]
    else if v.token == "" then sessions
    else
      var purged := PurgeSessions(sessions, v.now);
      if v.token in purged && purged[v.token].policy != v.policy then purged - {v.token} else purged
  }

  lemma {:induction false} DropIsIdempotent(history: seq<int>, window: int, now: int)
    ensures DropExpired(DropExpired(history, window, now), window, now) == DropExpired(history, window, now)
  {
    if history != [] && history[0] <= now - window {
      DropIsIdempotent(history[1..], window, now);
    }
  }

  class Gate {
    const config: Config
    var attempts: Attempts
    var sessions: Sessions

    constructor (config: Config)
      requires config.Valid()
      ensures this.config == config && attempts == map[] && sessions == map[]
    {
      this.config := config;
      attempts := map[];
      sessions := map[];
    }

    /** The first locked section of `login`. */
    method Reserve(key: Client, now: int) returns (admission: Admission)
      requires config.Valid()
      modifies this`attempts
      ensures admission == Admit(config, old(attempts), key, now)
      ensures attempts == AfterReserve(config, old(attempts), key, now)
    {
      var peers := attempts.Keys;
      while peers != {}
        invariant peers <= attempts.Keys <= old(attempts).Keys
        invariant forall k :: k in old(attempts) && k !in peers ==>
                                (k in attempts) == (DropExpired(old(attempts)[k], config.window, now) != [])
        invariant forall k :: k in attempts ==>
                                attempts[k] == (if k in peers then old(attempts)[k]
                                                else DropExpired(old(attempts)[k], config.window, now))
        decreases peers
      {
        var peer :| peer in peers;
        var history := attempts[peer];
        while history != [] && history[0] <= now - config.window
          invariant DropExpired(history, config.window, now) == DropExpired(old(attempts)[peer], config.window, now)
          decreases history
        {
          history := history[1..];
        }
        assert history == DropExpired(old(attempts)[peer], config.window, now);
        if history == [] {
          attempts := attempts - {peer};
        } else {
          attempts := attempts[peer := history];
        }
        peers := peers - {peer};
      }
      assert attempts == PurgeAttempts(config, old(attempts), now);
      if key !in attempts && |attempts| >= MAX_LOGIN_CLIENTS {
        return Busy;
      }
      var mine := if key in attempts then attempts[key] else [];
      if key in attempts {
        DropIsIdempotent(old(attempts)[key], config.window, now);
      }
      while mine != [] && mine[0] <= now - config.window
        invariant DropExpired(mine, config.window, now) == DropExpired(HistoryOf(attempts, key), config.window, now)
        decreases mine
      {
        mine := mine[1..];
      }
      assert mine == HistoryOf(attempts, key);
      if |mine| >= config.maxAttempts {
        return Limited;
      }
      attempts := attempts[key := mine + [now]];
      return Granted;
    }

    /** The second locked section, after a verified password: False when the session table is full. */
    method OpenSession(key: Client, token: Token, policy: Policy, issued: int, now: int) returns (admitted: bool)
      modifies this
      ensures attempts == old(attempts) - {key}
      ensures admitted == (|PurgeSessions(old(sessions), now)| < MAX_SESSIONS)
      ensures sessions == AfterOpen(config, old(sessions), token, policy, issued, now)
    {
      attempts := attempts - {key};
      sessions := PurgeSessions(sessions, now);
      if |sessions| >= MAX_SESSIONS {
        return false;
      }
      sessions := sessions[token := Session(issued + config.sessionSeconds, policy)];
      return true;
    }

    method Authenticate(v: Visit) returns (known: bool)
      modifies this`sessions
      ensures known == Known(old(sessions), v)
      ensures sessions == AfterVisit(old(sessions), v)
    {
      if !v.enabled {
        sessions := map[];
        return false;
      }
      if v.token == "" {
        return false;
      }
      sessions := PurgeSessions(sessions, v.now);
      if v.token !in sessions {
        return false;
      }
      if sessions[v.token].policy != v.policy {
        sessions := sessions - {v.token};
        return false;
      }
      return true;
    }

    method Logout(token: Token)
      modifies this`sessions
      ensures sessions == old(sessions) - {token}
    {
      sessions := sessions - {token};
    }
  }

  // ---------------------------------------------------------------------------------------------------
  // Runs of the locked sections.

  datatype Event =
    | Attempt(key: Client, now: int)
    | Success(key: Client, token: Token, policy: Policy, issued: int, now: int)
    | Check(visit: Visit)
    | Leave(token: Token)

  /** `granted` records the reservations of each client since its last success; no step reads it. */
  datatype State = State(attempts: Attempts, sessions: Sessions, granted: Attempts)

  const INITIAL := State(map[], map[], map[])

  function Step(c: Config, s: State, e: Event): State {
    match e
    case Attempt(key, now) =>
      var after := AfterReserve(c, s.attempts, key, now);
      if Admit(c, s.attempts, key, now).Granted? then
        s.(attempts := after, granted := s.granted[key := HistoryOf(s.granted, key) + [now]])
      else s.(attempts := after)
    case Success(key, token, policy, issued, now) =>
      s.(attempts := s.attempts - {key}, granted := s.granted - {key},
         sessions := AfterOpen(c, s.sessions, token, policy, issued, now))
    case Check(visit) => s.(sessions := AfterVisit(s.sessions, visit))
    case Leave(token) => s.(sessions := s.sessions - {token})
  }

  function Run(c: Config, events: seq<Event>): State {
    if events == [] then INITIAL else Step(c, Run(c, events[..|events| - 1]), events[|events| - 1])
  }

  /** The latest clock that a reservation attempt has brought so far. */
  function Latest(events: seq<Event>): Option<int> {
    if events == [] then None
    else
      var before, e := Latest(events[..|events| - 1]), events[|events| - 1];
      if e.Attempt? then Some(if before.Some? then Max(before.value, e.now) else e.now) else before
  }

  /** No reservation attempt takes the lock with a clock more than `d` seconds behind the latest one. */
  predicate Skewed(events: seq<Event>, d: nat) {
    events == [] ||
    (&& Skewed(events[..|events| - 1], d)
     && var before, e := Latest(events[..|events| - 1]), events[|events| - 1];
        e.Attempt? && before.Some? ==> before.value - d <= e.now)
  }

  ghost predicate AttemptsOk(attempts: Attempts) {
    |attempts| <= MAX_LOGIN_CLIENTS && forall k :: k in attempts ==> attempts[k] != []
  }

  ghost predicate SessionsOk(sessions: Sessions) {
    |sessions| <= MAX_SESSIONS
  }

  lemma ReserveKeepsAttempts(c: Config, attempts: Attempts, key: Client, now: int)
    requires AttemptsOk(attempts)
    ensures AttemptsOk(AfterReserve(c, attempts, key, now))
  {
    PurgeKeepsAttempts(c, attempts, now);
    hide PurgeAttempts;
    var purged := PurgeAttempts(c, attempts, now);
    GrowsByOne(purged, key, HistoryOf(purged, key) + [now]);
  }

  lemma PurgeKeepsAttempts(c: Config, attempts: Attempts, now: int)
    requires AttemptsOk(attempts)
    ensures AttemptsOk(PurgeAttempts(c, attempts, now))
  {
    SizeOfSubmap(PurgeAttempts(c, attempts, now), attempts);
  }

  lemma RemovalKeepsAttempts(attempts: Attempts, key: Client)
    requires AttemptsOk(attempts)
    ensures AttemptsOk(attempts - {key})
  {
    SizeOfSubmap(attempts - {key}, attempts);
    assert forall k :: k in attempts - {key} ==> (attempts - {key})[k] == attempts[k];
  }

  lemma PurgeKeepsSessions(sessions: Sessions, now: int)
    requires SessionsOk(sessions)
    ensures SessionsOk(PurgeSessions(sessions, now))
  {
    SizeOfSubmap(PurgeSessions(sessions, now), sessions);
  }

  lemma LeaveKeepsSessions(sessions: Sessions, token: Token)
    requires SessionsOk(sessions)
    ensures SessionsOk(sessions - {token})
  {
    SizeOfSubmap(sessions - {token}, sessions);
  }

  lemma VisitKeepsSessions(sessions: Sessions, v: Visit)
    requires SessionsOk(sessions)
    ensures SessionsOk(AfterVisit(sessions, v))
  {
    PurgeKeepsSessions(sessions, v.now);
    LeaveKeepsSessions(PurgeSessions(sessions, v.now), v.token);
    hide PurgeSessions;
  }

  lemma OpenKeepsSessions(c: Config, sessions: Sessions, token: Token, policy: Policy, issued: int, now: int)
    requires SessionsOk(sessions)
    ensures SessionsOk(AfterOpen(c, sessions, token, policy, issued, now))
  {
    PurgeKeepsSessions(sessions, now);
    hide PurgeSessions;
    GrowsByOne(PurgeSessions(sessions, now), token, Session(issued + c.sessionSeconds, policy));
  }

  /** Over every run, in whatever order its times come, the client and session tables respect their limits and no
      empty history survives. */
  lemma {:induction false} TablesStayBounded(c: Config, events: seq<Event>)
    ensures AttemptsOk(Run(c, events).attempts) && SessionsOk(Run(c, events).sessions)
  {
    if events != [] {
      hide AttemptsOk, SessionsOk, AfterReserve, AfterOpen, AfterVisit, Admit;
      TablesStayBounded(c, events[..|events| - 1]);
      var s := Run(c, events[..|events| - 1]);
      match events[|events| - 1]
      case Attempt(key, now) => ReserveKeepsAttempts(c, s.attempts, key, now);
      case Success(key, token, policy, issued, now) =>
        RemovalKeepsAttempts(s.attempts, key);
        OpenKeepsSessions(c, s.sessions, token, policy, issued, now);
      case Check(visit) => VisitKeepsSessions(s.sessions, visit);
      case Leave(token) => LeaveKeepsSessions(s.sessions, token);
    }
  }

  // ---------------------------------------------------------------------------------------------------
  // The session table as a function of the run.

  /** Sessions that a purge at `now` leaves. */
  function Unexpired(sessions: Sessions, now: int): set<Token> {
    set k | k in sessions && sessions[k].expires > now
  }

  lemma PurgedAre(sessions: Sessions, now: int)
    ensures PurgeSessions(sessions, now).Keys == Unexpired(sessions, now)
    ensures |PurgeSessions(sessions, now)| == |Unexpired(sessions, now)|
    ensures forall k :: k in Unexpired(sessions, now) ==> PurgeSessions(sessions, now)[k] == sessions[k]
  {
    assert PurgeSessions(sessions, now).Keys == Unexpired(sessions, now);
  }

  /** A login at step `i` that finds room issues the session: it lasts `sessionSeconds` from the time read at first. */
  ghost predicate Issues(c: Config, events: seq<Event>, i: nat, token: Token, s: Session) {
    && i < |events| && events[i].Success? && events[i].token == token
    && s == Session(events[i].issued + c.sessionSeconds, events[i].policy)
    && |Unexpired(Run(c, events[..i]).sessions, events[i].now)| < 128
  }

  /** What ends a session at step `j`: a purge after it expired, a console found disabled, its token presented under
      another policy, a logout, or another login under the same token. */
  ghost predicate Ends(c: Config, events: seq<Event>, j: nat, token: Token, s: Session)
    requires j < |events|
  {
    match events[j]
    case Attempt(_, _) => false
    case Success(_, other, _, _, now) =>
      s.expires <= now || (other == token && |Unexpired(Run(c, events[..j]).sessions, now)| < 128)
    case Check(v) => !v.enabled || (v.token != "" && (s.expires <= v.now || (v.token == token && v.policy != s.policy)))
    case Leave(other) => other == token
  }

  ghost predicate HoldsSince(c: Config, events: seq<Event>, i: nat, token: Token, s: Session) {
    Issues(c, events, i, token, s) && forall j :: i < j < |events| ==> !Ends(c, events, j, token, s)
  }

  ghost predicate Stands(c: Config, events: seq<Event>, token: Token, s: Session) {
    exists i :: HoldsSince(c, events, i, token, s)
  }

  lemma HoldsGrows(c: Config, init: seq<Event>, e: Event, i: nat, token: Token, s: Session)
    ensures i < |init| ==>
              (HoldsSince(c, init + [e], i, token, s) <==>
                 HoldsSince(c, init, i, token, s) && !Ends(c, init + [e], |init|, token, s))
    ensures i >= |init| ==>
              (HoldsSince(c, init + [e], i, token, s) <==> i == |init| && Issues(c, init + [e], i, token, s))
  {
    hide Run, Unexpired;
    var events := init + [e];
    if i < |init| {
      assert events[..i] == init[..i];
      forall j: nat | i < j < |init| ensures Ends(c, events, j, token, s) == Ends(c, init, j, token, s) {
        assert events[..j] == init[..j];
      }
    }
  }

  lemma SessionStep(c: Config, init: seq<Event>, e: Event, token: Token, s: Session)
    ensures var before, after := Run(c, init).sessions, Run(c, init + [e]).sessions;
            (token in after && after[token] == s) <==>
            || (token in before && before[token] == s && !Ends(c, init + [e], |init|, token, s))
            || Issues(c, init + [e], |init|, token, s)
  {
    RunAppend(c, init, e);
    assert (init + [e])[..|init|] == init;
    hide Run, AfterReserve, Admit, PurgeSessions;
    var before := Run(c, init).sessions;
    if e.Success? {
      PurgedAre(before, e.now);
    } else if e.Check? {
      PurgedAre(before, e.visit.now);
    }
  }

  /** Over every run the table holds a session exactly if some login issued it and nothing has ended it since. */
  lemma {:induction false} SessionsAreHistory(c: Config, events: seq<Event>, token: Token, s: Session)
    ensures var sessions := Run(c, events).sessions;
            (token in sessions && sessions[token] == s) <==> Stands(c, events, token, s)
  {
    hide HoldsSince, Issues, Ends, Step;
    if events == [] {
      NothingIssued(c, token, s);
    } else {
      var init, e := events[..|events| - 1], events[|events| - 1];
      assert events == init + [e];
      SessionsAreHistory(c, init, token, s);
      SessionStep(c, init, e, token, s);
      forall i: nat
        ensures HoldsSince(c, events, i, token, s) <==>
                  || (HoldsSince(c, init, i, token, s) && !Ends(c, events, |init|, token, s))
                  || (i == |init| && Issues(c, events, i, token, s))
      {
        HoldsGrows(c, init, e, i, token, s);
        HoldsIsInside(c, init, i, token, s);
      }
      hide Run;
    }
  }

  lemma NothingIssued(c: Config, token: Token, s: Session)
    ensures forall i :: !HoldsSince(c, [], i, token, s)
  {
  }

  lemma HoldsIsInside(c: Config, events: seq<Event>, i: nat, token: Token, s: Session)
    ensures HoldsSince(c, events, i, token, s) ==> i < |events|
  {
  }

  /** A request is let in exactly with the token of a session that a login issued, that nothing has ended since, that has
      not expired, and whose policy still stands. */
  lemma KnownIff(c: Config, events: seq<Event>, v: Visit)
    ensures Known(Run(c, events).sessions, v) <==>
              && v.enabled && v.token != ""
              && exists s :: Stands(c, events, v.token, s) && s.expires > v.now && s.policy == v.policy
  {
    hide Stands, Run;
    var sessions := Run(c, events).sessions;
    forall s ensures (v.token in sessions && sessions[v.token] == s) <==> Stands(c, events, v.token, s) {
      SessionsAreHistory(c, events, v.token, s);
    }
  }

  /** No expired stamp stands behind a young one. */
  ghost predicate ExpiredFirst(history: seq<int>, window: int, now: int) {
    forall i, j :: 0 <= i < j < |history| && history[j] <= now - window ==> history[i] <= now - window
  }

  lemma ExpiredFirstCons(history: seq<int>, window: int, now: int)
    requires history != []
    ensures ExpiredFirst(history, window, now) <==>
            if history[0] > now - window then forall j :: 0 <= j < |history| - 1 ==> history[1..][j] > now - window
            else ExpiredFirst(history[1..], window, now)
  {
    var rest := history[1..];
    assert forall j :: 1 <= j < |history| ==> history[j] == rest[j - 1];
    assert forall j :: 0 <= j < |rest| ==> rest[j] == history[j + 1];
  }

  /** Popping from the left removes exactly the expired stamps if and only if none of them stands behind a young one. */
  lemma {:induction false} PoppingRemovesExpiredIff(history: seq<int>, window: int, now: int)
    ensures DropExpired(history, window, now) == Within(history, window, now) <==> ExpiredFirst(history, window, now)
  {
    if history != [] {
      var rest := history[1..];
      ExpiredFirstCons(history, window, now);
      if history[0] > now - window {
        WithinIsAllIff(rest, window, now);
        NothingToDrop(history, window, now);
        YoungHead(history, window, now);
        hide Within, DropExpired, ExpiredFirst;
        assert ([history[0]] + rest)[1..] == rest;
        assert ([history[0]] + Within(rest, window, now))[1..] == Within(rest, window, now);
      } else {
        PoppingRemovesExpiredIff(rest, window, now);
        ExpiredHead(history, window, now);
        hide Within, DropExpired, ExpiredFirst;
      }
    }
  }

  lemma NothingToDrop(history: seq<int>, window: int, now: int)
    requires history != [] && history[0] > now - window
    ensures DropExpired(history, window, now) == history == [history[0]] + history[1..]
  {
  }

  lemma YoungHead(history: seq<int>, window: int, now: int)
    requires history != [] && history[0] > now - window
    ensures Within(history, window, now) == [history[0]] + Within(history[1..], window, now)
  {
  }

  lemma ExpiredHead(history: seq<int>, window: int, now: int)
    requires history != [] && history[0] <= now - window
    ensures Within(history, window, now) == [] + Within(history[1..], window, now) == Within(history[1..], window, now)
    ensures DropExpired(history, window, now) == DropExpired(history[1..], window, now)
  {
  }

  lemma {:induction false} WithinIsAllIff(history: seq<int>, window: int, now: int)
    ensures |Within(history, window, now)| <= |history|
    ensures Within(history, window, now) == history <==> forall j :: 0 <= j < |history| ==> history[j] > now - window
  {
    if history != [] {
      WithinIsAllIff(history[1..], window, now);
      assert history == [history[0]] + history[1..];
      assert forall j :: 1 <= j < |history| ==> history[j] == history[1..][j - 1];
    }
  }

  // ---------------------------------------------------------------------------------------------------
  // The bound on verifications. No order of the clocks is assumed.

  /** Spacing, and what the table has forgotten: stamps that were a window behind the latest clock. */
  ghost predicate ClientOk(c: Config, s: State, key: Client, latest: Option<int>, d: nat) {
    var kept, live := HistoryOf(s.attempts, key), HistoryOf(s.granted, key);
    && Spaced(live, c.maxAttempts, c.window - d)
    && match latest
       case None => kept == [] && live == []
       case Some(t) => Retains(kept, live, c.window, t)
  }

  ghost predicate ClientsOk(c: Config, s: State, latest: Option<int>, d: nat) {
    forall key :: ClientOk(c, s, key, latest, d)
  }

  lemma {:induction false} DropIsSuffix(history: seq<int>, window: int, now: int)
    ensures var kept := DropExpired(history, window, now);
            && |kept| <= |history| && kept == history[|history| - |kept|..]
            && forall j :: 0 <= j < |history| - |kept| ==> now - history[j] >= window
  {
    if history != [] && history[0] <= now - window {
      DropIsSuffix(history[1..], window, now);
    }
  }

  lemma RetainsDropped(kept: seq<int>, live: seq<int>, window: int, t: int, now: int)
    requires Retains(kept, live, window, t)
    ensures Retains(DropExpired(kept, window, now), live, window, Max(t, now))
  {
    DropIsSuffix(kept, window, now);
    var less := DropExpired(kept, window, now);
    assert less == live[|live| - |less|..];
    forall j | 0 <= j < |live| - |less| ensures Max(t, now) - live[j] >= window {
      var k := |live| - |kept|;
      if j >= k {
        assert live[j] == kept[j - k];
      }
    }
  }

  /** The history of a client after the purge that every attempt begins with. */
  lemma PurgedHistory(c: Config, attempts: Attempts, key: Client, now: int)
    ensures HistoryOf(PurgeAttempts(c, attempts, now), key) == DropExpired(HistoryOf(attempts, key), c.window, now)
  {
  }

  lemma GrantKeepsSpaced(kept: seq<int>, live: seq<int>, m: nat, window: int, latest: int, d: nat, now: int)
    requires Retains(kept, live, window, latest) && Spaced(live, m, window - d)
    requires |kept| < m && latest - d <= now <= latest
    ensures Spaced(live + [now], m, window - d)
    ensures Retains(kept + [now], live + [now], window, latest)
  {
    var more := live + [now];
    forall i, j | 0 <= i && i + m <= j < |more| ensures more[j] - more[i] >= window - d {
      if j == |live| {
        assert latest - live[i] >= window;
      } else {
        assert live[j] - live[i] >= window - d;
      }
    }
    assert more[|more| - (|kept| + 1)..] == live[|live| - |kept|..] + [now];
  }

  lemma FirstKeepsSpaced(m: nat, window: int, d: nat, now: int)
    requires m > 0
    ensures Spaced([now], m, window - d) && Retains([now], [now], window, now)
  {
  }

  function Later(latest: Option<int>, now: int): int {
    if latest.Some? then Max(latest.value, now) else now
  }

  lemma GrantKeepsClient(c: Config, s: State, key: Client, latest: Option<int>, d: nat, now: int)
    requires ClientOk(c, s, key, latest, d) && (latest.Some? ==> latest.value - d <= now)
    requires Admit(c, s.attempts, key, now).Granted?
    ensures ClientOk(c, Step(c, s, Attempt(key, now)), key, Some(Later(latest, now)), d)
  {
    var kept, live := HistoryOf(s.attempts, key), HistoryOf(s.granted, key);
    PurgedHistory(c, s.attempts, key, now);
    hide Retains, Spaced, PurgeAttempts, DropExpired;
    var less := DropExpired(kept, c.window, now);
    var after := Step(c, s, Attempt(key, now));
    assert HistoryOf(after.granted, key) == live + [now] && HistoryOf(after.attempts, key) == less + [now];
    if latest.Some? {
      RetainsDropped(kept, live, c.window, latest.value, now);
      GrantKeepsSpaced(less, live, c.maxAttempts, c.window, Later(latest, now), d, now);
    } else {
      NothingDropped(c.window, now);
      assert [] + [now] == [now];
      FirstKeepsSpaced(c.maxAttempts, c.window, d, now);
    }
  }

  lemma NothingDropped(window: int, now: int)
    ensures DropExpired([], window, now) == []
  {
  }

  lemma RefusalKeepsClient(c: Config, s: State, key: Client, k: Client, latest: Option<int>, d: nat, now: int)
    requires ClientOk(c, s, k, latest, d)
    requires k != key || !Admit(c, s.attempts, key, now).Granted?
    ensures ClientOk(c, Step(c, s, Attempt(key, now)), k, Some(Later(latest, now)), d)
  {
    var kept, live := HistoryOf(s.attempts, k), HistoryOf(s.granted, k);
    PurgedHistory(c, s.attempts, k, now);
    NothingDropped(c.window, now);
    RetainsNothing(c.window, now);
    hide Retains, Spaced, PurgeAttempts, DropExpired;
    if latest.Some? {
      RetainsDropped(kept, live, c.window, latest.value, now);
    }
    var after := Step(c, s, Attempt(key, now));
    assert HistoryOf(after.granted, k) == live;
    assert HistoryOf(after.attempts, k) == DropExpired(kept, c.window, now);
  }

  lemma AttemptKeepsClients(c: Config, s: State, key: Client, latest: Option<int>, d: nat, now: int)
    requires ClientsOk(c, s, latest, d) && (latest.Some? ==> latest.value - d <= now)
    ensures ClientsOk(c, Step(c, s, Attempt(key, now)), Some(Later(latest, now)), d)
  {
    hide ClientOk, Step, Admit;
    forall k ensures ClientOk(c, Step(c, s, Attempt(key, now)), k, Some(Later(latest, now)), d) {
      assert ClientOk(c, s, k, latest, d);
      if k == key && Admit(c, s.attempts, key, now).Granted? {
        GrantKeepsClient(c, s, key, latest, d, now);
      } else {
        RefusalKeepsClient(c, s, key, k, latest, d, now);
      }
    }
  }

  lemma ForgottenIsOk(c: Config, t: int, d: nat)
    ensures Spaced([], c.maxAttempts, c.window - d) && Retains([], [], c.window, t)
  {
  }

  lemma OthersKeepClients(c: Config, s: State, e: Event, latest: Option<int>, d: nat)
    requires ClientsOk(c, s, latest, d) && !e.Attempt?
    ensures ClientsOk(c, Step(c, s, e), latest, d)
  {
    hide Retains, Spaced, AfterVisit, AfterOpen, AfterReserve, Admit;
    var after := Step(c, s, e);
    forall k ensures ClientOk(c, after, k, latest, d) {
      assert ClientOk(c, s, k, latest, d);
      ForgottenIsOk(c, latest.GetOr(0), d);
      assert if e.Success? && k == e.key then HistoryOf(after.granted, k) == HistoryOf(after.attempts, k) == []
             else HistoryOf(after.granted, k) == HistoryOf(s.granted, k)
                  && HistoryOf(after.attempts, k) == HistoryOf(s.attempts, k);
    }
  }

  lemma {:induction false} SkewedRunIsOk(c: Config, events: seq<Event>, d: nat)
    requires Skewed(events, d)
    ensures ClientsOk(c, Run(c, events), Latest(events), d)
  {
    if events != [] {
      hide ClientsOk, Step;
      var init, e := events[..|events| - 1], events[|events| - 1];
      SkewedRunIsOk(c, init, d);
      if e.Attempt? {
        AttemptKeepsClients(c, Run(c, init), e.key, Latest(init), d, e.now);
      } else {
        OthersKeepClients(c, Run(c, init), e, Latest(init), d);
      }
    }
  }

  /** The verifications of a client since its last success that fall into an interval. */
  function Verifications(c: Config, events: seq<Event>, key: Client, from: int, length: int): nat {
    CountIn(HistoryOf(Run(c, events).granted, key), from, from + length)
  }

  /** If no reservation's clock is more than `d` seconds behind the latest before it, then in any interval of
      `window - d` seconds a client gets at most `maxAttempts` password verifications since its last success. */
  lemma {:induction false} VerificationsAreBounded(c: Config, events: seq<Event>, d: nat, key: Client, from: int)
    requires Skewed(events, d)
    ensures Verifications(c, events, key, from, c.window - d) <= c.maxAttempts
  {
    SkewedRunIsOk(c, events, d);
    hide Run, Skewed, Retains, Spaced, CountIn, Latest;
    assert ClientOk(c, Run(c, events), key, Latest(events), d);
    SpacedBoundsEveryWindow(HistoryOf(Run(c, events).granted, key), c.maxAttempts, c.window - d, from);
  }

  // ---------------------------------------------------------------------------------------------------
  // No longer interval has that bound.

  function Zeros(n: nat): seq<int> {
    seq(n, i => 0)
  }

  lemma {:induction false} ZerosExpire(n: nat, window: int, now: int)
    requires window >= 1
    ensures DropExpired(Zeros(n), window, now) == if now >= window then [] else Zeros(n)
  {
    if n > 0 && now >= window {
      assert Zeros(n)[1..] == Zeros(n - 1);
      ZerosExpire(n - 1, window, now);
    } else {
      assert n == 0 ==> Zeros(n) == [];
    }
  }

  lemma RunAppend(c: Config, events: seq<Event>, e: Event)
    ensures Run(c, events + [e]) == Step(c, Run(c, events), e)
  {
    assert (events + [e])[..|events|] == events;
  }

  lemma SkewedAppend(events: seq<Event>, e: Event, d: nat)
    ensures Latest(events + [e]) == if e.Attempt? then Some(Later(Latest(events), e.now)) else Latest(events)
    ensures Skewed(events + [e], d) <==>
              Skewed(events, d) && (e.Attempt? && Latest(events).Some? ==> Latest(events).value - d <= e.now)
  {
    assert (events + [e])[..|events|] == events;
  }

  /** All attempts of one client at time zero. */
  function Burst(n: nat): seq<Event> {
    if n == 0 then [] else Burst(n - 1) + [Attempt("a", 0)]
  }

  /** What the table holds while only one client has come. */
  predicate Alone(s: State, history: seq<int>) {
    && s.attempts == (if history == [] then map[] else map["a" := history])
    && HistoryOf(s.granted, "a") == history
  }

  lemma BurstStep(c: Config, s: State, n: nat)
    requires c.Valid() && n < c.maxAttempts && Alone(s, Zeros(n))
    ensures Alone(Step(c, s, Attempt("a", 0)), Zeros(n + 1))
  {
    ZerosExpire(n, c.window, 0);
    assert Zeros(n) + [0] == Zeros(n + 1);
    assert n == 0 <==> Zeros(n) == [];
    assert PurgeAttempts(c, s.attempts, 0) == s.attempts;
  }

  lemma {:induction false} BurstFills(c: Config, n: nat)
    requires c.Valid() && n <= c.maxAttempts
    ensures Alone(Run(c, Burst(n)), Zeros(n))
  {
    hide Alone, Step, Zeros, Run, HistoryOf;
    if n == 0 {
      NobodyCame(c);
    } else {
      var burst := Burst(n - 1);
      assert Burst(n) == burst + [Attempt("a", 0)];
      BurstFills(c, n - 1);
      RunAppend(c, burst, Attempt("a", 0));
      BurstStep(c, Run(c, burst), n - 1);
    }
  }

  lemma NobodyCame(c: Config)
    ensures Alone(Run(c, []), Zeros(0))
  {
    assert Zeros(0) == [];
  }

  lemma {:induction false} BurstIsSkewed(n: nat, d: nat)
    ensures Skewed(Burst(n), d) && Latest(Burst(n)) == if n == 0 then None else Some(0)
  {
    if n > 0 {
      BurstIsSkewed(n - 1, d);
      hide Skewed, Latest;
      SkewedAppend(Burst(n - 1), Attempt("a", 0), d);
    }
  }

  /** Another client's attempt a window later forgets them, and a clock before that is admitted again. */
  lemma ForgetfulPurge(c: Config, s: State, late: int)
    requires c.Valid() && Alone(s, Zeros(c.maxAttempts)) && 0 <= late <= c.window
    ensures var t := Step(c, Step(c, s, Attempt("b", c.window)), Attempt("a", late));
            HistoryOf(t.granted, "a") == Zeros(c.maxAttempts) + [late]
  {
    assert "a"[0] != "b"[0];
    ZerosExpire(c.maxAttempts, c.window, c.window);
    assert PurgeAttempts(c, s.attempts, c.window) == map[];
    FreshClient(c, s, "b", c.window);
    var t := Step(c, s, Attempt("b", c.window));
    assert t.attempts == map["b" := [c.window]];
    assert PurgeAttempts(c, t.attempts, late) == t.attempts;
    FreshClient(c, t, "a", late);
  }

  lemma FreshClient(c: Config, s: State, key: Client, now: int)
    requires key !in PurgeAttempts(c, s.attempts, now) && |PurgeAttempts(c, s.attempts, now)| < MAX_LOGIN_CLIENTS
    requires c.maxAttempts >= 1
    ensures Step(c, s, Attempt(key, now)) ==
            s.(attempts := PurgeAttempts(c, s.attempts, now)[key := [now]],
               granted := s.granted[key := HistoryOf(s.granted, key) + [now]])
  {
    assert [] + [now] == [now];
  }

  /** A login that read its clock `d` seconds before it got the lock escapes any longer bound: another client's purge has
      already forgotten the stamps that would have counted against it. */
  lemma StaleClockEscapesBound(c: Config, d: nat, length: int) returns (events: seq<Event>)
    requires c.Valid() && length > Max(0, c.window - d)
    ensures Skewed(events, d)
    ensures Verifications(c, events, "a", 0, length) > c.maxAttempts
  {
    var late := Max(0, c.window - d);
    var burst := Burst(c.maxAttempts);
    var second, third := Attempt("b", c.window), Attempt("a", late);
    BurstFills(c, c.maxAttempts);
    BurstIsSkewed(c.maxAttempts, d);
    ForgetfulPurge(c, Run(c, burst), late);
    ZerosAndOne(c.maxAttempts, late, length);
    SkewedAppend(burst, second, d);
    SkewedAppend(burst + [second], third, d);
    hide Burst, Skewed, Latest, Run, Step, CountIn, Alone, Zeros;
    events := burst + [second] + [third];
    RunAppend(c, burst, second);
    RunAppend(c, burst + [second], third);
  }

  lemma ZerosAndOne(n: nat, late: nat, length: int)
    requires late < length
    ensures CountIn(Zeros(n) + [late], 0, length) == n + 1
  {
    CountAll(Zeros(n) + [late], 0, length);
  }

  /** In every run with clocks at most `d` behind, every interval of this length keeps the limit. */
  ghost predicate LimitHolds(c: Config, d: nat, length: int) {
    forall events, key, from :: Skewed(events, d) ==> Verifications(c, events, key, from, length) <= c.maxAttempts
  }

  lemma ShortIntervalHolds(c: Config, d: nat, length: int, events: seq<Event>, key: Client, from: int)
    requires length <= Max(0, c.window - d) && Skewed(events, d)
    ensures Verifications(c, events, key, from, length) <= c.maxAttempts
  {
    hide Skewed, Run, CountIn;
    if length <= 0 {
      EmptyInterval(HistoryOf(Run(c, events).granted, key), from, from + length);
    } else {
      VerificationsAreBounded(c, events, d, key, from);
      CountGrows(HistoryOf(Run(c, events).granted, key), from, from + length, from + (c.window - d));
    }
  }

  /** The limiter's guarantee, exactly: with clocks up to `d` seconds behind, the limit holds for the intervals of up to
      `window - d` seconds and for no longer ones. With clocks in lock order that is the whole window. */
  lemma LimitHoldsIff(c: Config, d: nat, length: int)
    requires c.Valid()
    ensures LimitHolds(c, d, length) <==> length <= Max(0, c.window - d)
  {
    hide Skewed, Verifications;
    if length <= Max(0, c.window - d) {
      forall events, key, from | Skewed(events, d) ensures Verifications(c, events, key, from, length) <= c.maxAttempts {
        ShortIntervalHolds(c, d, length, events, key, from);
      }
    } else {
      var events := StaleClockEscapesBound(c, d, length);
      assert Skewed(events, d) && Verifications(c, events, "a", 0, length) > c.maxAttempts;
    }
  }
}
