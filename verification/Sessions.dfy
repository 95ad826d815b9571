/** The in-memory session table of src/session_manager.cpp and its background cleanup. */
module Sessions {
  import opened Common

  /** system_clock ticks: nanoseconds. */
  const TICKS_PER_MINUTE: int := 60_000_000_000

  datatype Session = Session(userId: int, createdAt: int, lastAccess: int)

  type Table = map<string, Session>

  /** duration_cast<minutes> truncates toward zero. */
  function Minutes(d: int): int {
    if d >= 0 then d / TICKS_PER_MINUTE else -(-d / TICKS_PER_MINUTE)
  }

  predicate Expired(s: Session, now: int, timeout: int) {
    Minutes(now - s.lastAccess) > timeout
  }

  // ---- what each call does ----

  /** One call of the manager, which holds its lock throughout; each clock reading it makes is a
      parameter. Cleanup reads the clock once per session. */
  datatype Op =
    | Create(user: int, token: string, now: int)
    | Validate(token: string, now: int, later: int)
    | GetUser(token: string, now: int)
    | Delete(token: string)
    | Cleanup(at: string -> int)

  datatype Result = Token(token: string) | Valid(ok: bool) | User(id: int) | Deleted(ok: bool) | Cleaned

  /** Looking a token up: an expired session is erased on the way. */
  function Lookup(table: Table, token: string, now: int, timeout: int): (Table, Option<Session>) {
    if token !in table then (table, None)
    else if Expired(table[token], now, timeout) then (table - {token}, None)
    else (table, Some(table[token]))
  }

  function UserOf(found: Option<Session>): int {
    if found.Some? then found.value.userId else -1
  }

  function Step(table: Table, op: Op, timeout: int): (Table, Result) {
    match op
    case Create(user, token, now) => (table[token := Session(user, now, now)], Token(token))
    case Validate(token, now, later) =>
      var (rest, found) := Lookup(table, token, now, timeout);
      if found.Some? then (rest[token := found.value.(lastAccess := later)], Valid(true)) else (rest, Valid(false))
    case GetUser(token, now) =>
      var (rest, found) := Lookup(table, token, now, timeout);
      (rest, User(UserOf(found)))
    case Delete(token) => (table - {token}, Deleted(token in table))
    case Cleanup(at) => (map t | t in table && !Expired(table[t], at(t), timeout) :: table[t], Cleaned)
  }

  /** handle_logout takes the lock twice, in get_user_id and in delete_session; anything may happen in
      between. `leaving` holds the tokens of the requests that are between the two. */
  datatype World = World(table: Table, leaving: seq<string>)

  datatype Event = Manager(op: Op) | LogoutBegins(token: string, now: int) | LogoutEnds(k: nat)

  /** What the caller of an event learns; Silent: nothing, GoesOn: its request was not turned away. */
  datatype Answer = Said(r: Result) | Status(code: int) | GoesOn | Silent

  /** The answers of cleanup and of a bare delete_session are not counted. */
  function Act(W: World, e: Event, timeout: int): (World, Answer) {
    match e
    case Manager(op) =>
      var (table, r) := Step(W.table, op, timeout);
      (W.(table := table), if op.Cleanup? || op.Delete? then Silent else Said(r))
    case LogoutBegins(token, now) =>
      if token == "" then (W, Status(401))
      else
        var (table, r) := Step(W.table, GetUser(token, now), timeout);
        if r.id == -1 then (W.(table := table), Status(401)) else (World(table, W.leaving + [token]), GoesOn)
    case LogoutEnds(k) =>
      if k < |W.leaving| then
        (World(Step(W.table, Delete(W.leaving[k]), timeout).0, W.leaving[..k] + W.leaving[k + 1..]), Status(200))
      else (W, Silent)
  }

  /** The manager, with the map it updates in place. */
  class SessionManager {
    var sessions: Table
    const timeoutMinutes: int

    constructor (timeout: int)
      ensures sessions == map[] && timeoutMinutes == timeout
    {
      sessions := map[];
      timeoutMinutes := timeout;
    }

    method CreateSession(user: int, token: string, now: int) returns (issued: string)
      modifies this
      ensures (sessions, Token(issued)) == Step(old(sessions), Create(user, token, now), timeoutMinutes)
    {
      var session := Session(user, now, now);
      sessions := sessions[token := session];
      return token;
    }

    method ValidateSession(token: string, now: int, later: int) returns (ok: bool)
      modifies this
      ensures (sessions, Valid(ok)) == Step(old(sessions), Validate(token, now, later), timeoutMinutes)
    {
      if token !in sessions {
        return false;
      }
      if Expired(sessions[token], now, timeoutMinutes) {
        sessions := sessions - {token};
        return false;
      }
      sessions := sessions[token := sessions[token].(lastAccess := later)];
      return true;
    }

    method GetUserId(token: string, now: int) returns (id: int)
      modifies this
      ensures (sessions, User(id)) == Step(old(sessions), GetUser(token, now), timeoutMinutes)
    {
      if token !in sessions {
        return -1;
      }
      if Expired(sessions[token], now, timeoutMinutes) {
        sessions := sessions - {token};
        return -1;
      }
      return sessions[token].userId;
    }

    method DeleteSession(token: string) returns (ok: bool)
      modifies this
      ensures (sessions, Deleted(ok)) == Step(old(sessions), Delete(token), timeoutMinutes)
    {
      ok := token in sessions;
      sessions := sessions - {token};
    }

    /** handle_logout when nothing comes between its two calls. */
    method HandleLogout(token: string, now: int) returns (code: int)
      modifies this
      ensures var (W, r) := Act(World(old(sessions), []), LogoutBegins(token, now), timeoutMinutes);
              if r == Status(401) then code == 401 && sessions == W.table
              else code == 200 && World(sessions, []) == Act(W, LogoutEnds(0), timeoutMinutes).0
    {
      if token == "" {
        return 401;
      }
      var id := GetUserId(token, now);
      if id == -1 {
        return 401;
      }
      var _ := DeleteSession(token);
      return 200;
    }

    /** The loop erases as it goes. */
    method CleanupExpired(at: string -> int)
      modifies this
      ensures sessions == Step(old(sessions), Cleanup(at), timeoutMinutes).0
    {
      var left := sessions.Keys;
      while left != {}
        invariant left <= sessions.Keys <= old(sessions).Keys
        invariant forall t | t in sessions :: sessions[t] == old(sessions)[t]
        invariant forall t | t in old(sessions) :: t in sessions <==> t in left || !Expired(old(sessions)[t], at(t), timeoutMinutes)
        decreases |left|
      {
        var t :| t in left;
        if Expired(sessions[t], at(t), timeoutMinutes) {
          sessions := sessions - {t};
        }
        left := left - {t};
      }
    }
  }

  // ---- cleanup is invisible ----

  /** The op's clock readings lie between t and t'. */
  ghost predicate OpWithin(op: Op, t: int, t': int) {
    match op
    case Create(_, _, now) => t <= now <= t'
    case Validate(_, now, later) => t <= now <= later <= t'
    case GetUser(_, now) => t <= now <= t'
    case Delete(_) => t <= t'
    case Cleanup(at) => t <= t' && forall token :: t <= at(token) <= t'
  }

  ghost predicate Within(e: Event, t: int, t': int) {
    match e
    case Manager(op) => OpWithin(op, t, t')
    case LogoutBegins(_, now) => t <= now <= t'
    case LogoutEnds(_) => t <= t'
  }

  /** A run on a clock that does not go back: event i reads it between ticks[i] and ticks[i + 1]. */
  ghost predicate Clocked(events: seq<Event>, ticks: seq<int>) {
    |ticks| == |events| + 1 && forall i | 0 <= i < |events| :: Within(events[i], ticks[i], ticks[i + 1])
  }

  /** The session a token still stands for at time t. */
  ghost function Live(table: Table, token: string, t: int, timeout: int): Option<Session> {
    if token in table && !Expired(table[token], t, timeout) then Some(table[token]) else None
  }

  /** The tables agree on every session that is live at time t. */
  ghost predicate Agree(a: Table, b: Table, t: int, timeout: int) {
    forall token :: Live(a, token, t, timeout) == Live(b, token, t, timeout)
  }

  lemma MinutesGrow(a: int, b: int)
    requires a <= b
    ensures Minutes(a) <= Minutes(b)
  {
  }

  /** An expired session stays expired. */
  lemma ExpiredStays(s: Session, t: int, t': int, timeout: int)
    requires t <= t' && Expired(s, t, timeout)
    ensures Expired(s, t', timeout)
  {
    MinutesGrow(t - s.lastAccess, t' - s.lastAccess);
  }

  lemma AgreeLater(a: Table, b: Table, t: int, t': int, timeout: int)
    requires Agree(a, b, t, timeout) && t <= t'
    ensures Agree(a, b, t', timeout)
  {
    forall token ensures Live(a, token, t', timeout) == Live(b, token, t', timeout) {
      assert Live(a, token, t, timeout) == Live(b, token, t, timeout);
      if token in a && Expired(a[token], t, timeout) {
        ExpiredStays(a[token], t, t', timeout);
      }
      if token in b && Expired(b[token], t, timeout) {
        ExpiredStays(b[token], t, t', timeout);
      }
    }
  }

  lemma CleanupKeepsLive(table: Table, at: string -> int, t': int, timeout: int)
    requires forall token :: at(token) <= t'
    ensures Agree(Step(table, Cleanup(at), timeout).0, table, t', timeout)
  {
    var cleaned := Step(table, Cleanup(at), timeout).0;
    forall token ensures Live(cleaned, token, t', timeout) == Live(table, token, t', timeout) {
      if token in table && Expired(table[token], at(token), timeout) {
        ExpiredStays(table[token], at(token), t', timeout);
      }
    }
  }

  /** Everything but a bare delete_session answers alike on tables that agree, and they go on agreeing. */
  lemma SameStep(a: Table, b: Table, op: Op, t: int, t': int, timeout: int)
    requires Agree(a, b, t, timeout) && OpWithin(op, t, t') && !op.Cleanup?
    ensures Agree(Step(a, op, timeout).0, Step(b, op, timeout).0, t', timeout)
    ensures !op.Delete? ==> Step(a, op, timeout).1 == Step(b, op, timeout).1
  {
    AgreeLater(a, b, t, t', timeout);
    if op.Validate? || op.GetUser? {
      AgreeLater(a, b, t, op.now, timeout);
      assert Live(a, op.token, op.now, timeout) == Live(b, op.token, op.now, timeout);
    }
    var a', b' := Step(a, op, timeout).0, Step(b, op, timeout).0;
    forall token ensures Live(a', token, t', timeout) == Live(b', token, t', timeout) {
      assert Live(a, token, t', timeout) == Live(b, token, t', timeout);
      if op.Validate? || op.GetUser? {
        if op.token in a && Expired(a[op.token], op.now, timeout) {
          ExpiredStays(a[op.token], op.now, t', timeout);
        }
        if op.token in b && Expired(b[op.token], op.now, timeout) {
          ExpiredStays(b[op.token], op.now, t', timeout);
        }
      }
    }
  }

  ghost predicate IsCleanup(e: Event) {
    e.Manager? && e.op.Cleanup?
  }

  /** The same logouts are under way, and the tables agree. */
  ghost predicate Alike(a: World, b: World, t: int, timeout: int) {
    a.leaving == b.leaving && Agree(a.table, b.table, t, timeout)
  }

  lemma SameAct(a: World, b: World, e: Event, t: int, t': int, timeout: int)
    requires Alike(a, b, t, timeout) && Within(e, t, t') && !IsCleanup(e)
    ensures Alike(Act(a, e, timeout).0, Act(b, e, timeout).0, t', timeout)
    ensures Act(a, e, timeout).1 == Act(b, e, timeout).1
  {
    AgreeLater(a.table, b.table, t, t', timeout);
    match e
    case Manager(op) => SameStep(a.table, b.table, op, t, t', timeout);
    case LogoutBegins(token, now) => SameStep(a.table, b.table, GetUser(token, now), t, t', timeout);
    case LogoutEnds(k) =>
      if k < |a.leaving| {
        SameStep(a.table, b.table, Delete(a.leaving[k]), t, t', timeout);
      }
  }

  /** What the callers see, cleanup left out. */
  ghost function Answers(W: World, events: seq<Event>, timeout: int): seq<Answer>
    decreases |events|
  {
    if events == [] then []
    else
      var (W', r) := Act(W, events[0], timeout);
      (if IsCleanup(events[0]) then [] else [r]) + Answers(W', events[1..], timeout)
  }

  ghost function WithoutCleanup(events: seq<Event>): seq<Event> {
    if events == [] then [] else (if IsCleanup(events[0]) then [] else [events[0]]) + WithoutCleanup(events[1..])
  }

  lemma CleanupKeepsAlike(a: World, b: World, e: Event, t: int, t': int, timeout: int)
    requires Alike(a, b, t, timeout) && Within(e, t, t') && IsCleanup(e)
    ensures Alike(Act(a, e, timeout).0, b, t', timeout)
  {
    AgreeLater(a.table, b.table, t, t', timeout);
    CleanupKeepsLive(a.table, e.op.at, t', timeout);
    var a' := Act(a, e, timeout).0.table;
    forall token ensures Live(a', token, t', timeout) == Live(b.table, token, t', timeout) {
      assert Live(a', token, t', timeout) == Live(a.table, token, t', timeout);
    }
  }

  lemma {:induction false} AlikeRuns(a: World, b: World, events: seq<Event>, ticks: seq<int>, timeout: int)
    requires Clocked(events, ticks) && Alike(a, b, ticks[0], timeout)
    ensures Answers(a, events, timeout) == Answers(b, WithoutCleanup(events), timeout)
    decreases |events|
  {
    if events != [] {
      var e := events[0];
      assert Within(e, ticks[0], ticks[1]);
      assert Clocked(events[1..], ticks[1..]) by {
        forall i | 0 <= i < |events[1..]| ensures Within(events[1..][i], ticks[1..][i], ticks[1..][i + 1]) {
          assert Within(events[i + 1], ticks[i + 1], ticks[i + 2]);
        }
      }
      var a' := Act(a, e, timeout).0;
      if IsCleanup(e) {
        CleanupKeepsAlike(a, b, e, ticks[0], ticks[1], timeout);
        AlikeRuns(a', b, events[1..], ticks[1..], timeout);
        assert WithoutCleanup(events) == WithoutCleanup(events[1..]);
        assert Answers(a, events, timeout) == Answers(a', events[1..], timeout);
      } else {
        SameAct(a, b, e, ticks[0], ticks[1], timeout);
        AlikeRuns(a', Act(b, e, timeout).0, events[1..], ticks[1..], timeout);
        assert WithoutCleanup(events)[0] == e && WithoutCleanup(events)[1..] == WithoutCleanup(events[1..]);
      }
    }
  }

  /** Background cleanup is invisible: inserting it at any points of any run, also between the two calls
      of a logout, on a clock that does not go back, changes no answer of create, validate, get_user_id
      or logout. */
  lemma CleanupIsInvisible(W: World, events: seq<Event>, ticks: seq<int>, timeout: int)
    requires Clocked(events, ticks)
    ensures Answers(W, events, timeout) == Answers(W, WithoutCleanup(events), timeout)
  {
    AlikeRuns(W, W, events, ticks, timeout);
  }

  // ---- whatever the clock does ----

  /** The tokens a cleanup erases. */
  ghost function Swept(table: Table, at: string -> int, timeout: int): set<string> {
    set token | token in table && Expired(table[token], at(token), timeout)
  }

  /** The event shows that the session of this token is still there: it looks the token up, reads a
      clock at which the session is not expired, and its answer depends on it. */
  ghost predicate Notices(table: Table, token: string, e: Event, timeout: int)
    requires token in table
  {
    match e
    case Manager(Validate(u, now, _)) => u == token && !Expired(table[token], now, timeout)
    case Manager(GetUser(u, now)) => u == token && !Expired(table[token], now, timeout) && table[token].userId != -1
    case LogoutBegins(u, now) =>
      u == token && u != "" && !Expired(table[token], now, timeout) && table[token].userId != -1
    case _ => false
  }

  /** The session is still the same one after the event. */
  ghost predicate Remains(W: World, token: string, e: Event, timeout: int) {
    token in Act(W, e, timeout).0.table && !(e.Manager? && e.op.Create? && e.op.token == token)
  }

  /** Some event of the run notices the session before it is erased or replaced. */
  ghost predicate Shows(W: World, token: string, events: seq<Event>, timeout: int)
    decreases |events|
  {
    && events != [] && token in W.table
    && (Notices(W.table, token, events[0], timeout) ||
        (Remains(W, token, events[0], timeout) && Shows(Act(W, events[0], timeout).0, token, events[1..], timeout)))
  }

  lemma LookupsNoticed(W: World, gone: set<string>, e: Event, timeout: int)
    requires gone <= W.table.Keys
    ensures Act(W, e, timeout).1 == Act(W.(table := W.table - gone), e, timeout).1
            <==> forall token | token in gone :: !Notices(W.table, token, e, timeout)
  {
  }

  /** The same for one call of the manager. */
  ghost function StillGone(table: Table, gone: set<string>, op: Op, timeout: int): set<string> {
    set token | token in gone && token in Step(table, op, timeout).0 && !(op.Create? && op.token == token)
  }

  lemma UnnoticedOp(table: Table, gone: set<string>, op: Op, timeout: int)
    requires gone <= table.Keys
    requires op.Validate? && op.token in gone ==> Expired(table[op.token], op.now, timeout)
    ensures Step(table - gone, op, timeout).0 == Step(table, op, timeout).0 - StillGone(table, gone, op, timeout)
  {
  }

  lemma UnnoticedStaysGone(W: World, gone: set<string>, e: Event, timeout: int)
    requires gone <= W.table.Keys && forall token | token in gone :: !Notices(W.table, token, e, timeout)
    ensures var W' := Act(W, e, timeout).0;
            var gone' := set token | token in gone && Remains(W, token, e, timeout);
            gone' <= W'.table.Keys && Act(W.(table := W.table - gone), e, timeout).0 == W'.(table := W'.table - gone')
  {
    var W' := Act(W, e, timeout).0;
    var gone' := set token | token in gone && Remains(W, token, e, timeout);
    match e
    case Manager(op) =>
      UnnoticedOp(W.table, gone, op, timeout);
      assert gone' == StillGone(W.table, gone, op, timeout);
    case LogoutBegins(token, now) =>
      UnnoticedOp(W.table, gone, GetUser(token, now), timeout);
      assert token != "" ==> gone' == StillGone(W.table, gone, GetUser(token, now), timeout);
    case LogoutEnds(k) =>
      if k < |W.leaving| {
        UnnoticedOp(W.table, gone, Delete(W.leaving[k]), timeout);
        assert gone' == StillGone(W.table, gone, Delete(W.leaving[k]), timeout);
      }
  }

  /** Sessions that are missing show exactly if an event of the run notices one of them. */
  lemma {:induction false} MissingShowIff(W: World, gone: set<string>, events: seq<Event>, timeout: int)
    requires gone <= W.table.Keys
    ensures Answers(W.(table := W.table - gone), events, timeout) == Answers(W, events, timeout)
            <==> forall token | token in gone :: !Shows(W, token, events, timeout)
    decreases |events|
  {
    if events != [] {
      var e := events[0];
      var V := W.(table := W.table - gone);
      LookupsNoticed(W, gone, e, timeout);
      var (W', r) := Act(W, e, timeout);
      var (V', q) := Act(V, e, timeout);
      if forall token | token in gone :: !Notices(W.table, token, e, timeout) {
        UnnoticedStaysGone(W, gone, e, timeout);
        var gone' := set token | token in gone && Remains(W, token, e, timeout);
        MissingShowIff(W', gone', events[1..], timeout);
        SameHead(if IsCleanup(e) then [] else [r], Answers(V', events[1..], timeout), Answers(W', events[1..], timeout));
      } else {
        assert !IsCleanup(e) && q != r;
        assert Answers(V, events, timeout)[0] == q && Answers(W, events, timeout)[0] == r;
        var token :| token in gone && Notices(W.table, token, e, timeout);
        assert Shows(W, token, events, timeout);
      }
    }
  }

  lemma SameHead(head: seq<Answer>, a: seq<Answer>, b: seq<Answer>)
    ensures head + a == head + b <==> a == b
  {
    if head + a == head + b {
      assert (head + a)[|head|..] == a && (head + b)[|head|..] == b;
    }
  }

  /** Exactly when a cleanup shows, on any clock and in any run after it: some session that it erased is
      looked up, before it would have been erased or replaced anyway, at a reading of the clock at which
      it is not expired. */
  lemma CleanupShowsIff(W: World, at: string -> int, events: seq<Event>, timeout: int)
    ensures Answers(W, [Manager(Cleanup(at))] + events, timeout) == Answers(W, events, timeout)
            <==> forall token | token in Swept(W.table, at, timeout) :: !Shows(W, token, events, timeout)
  {
    var swept := Swept(W.table, at, timeout);
    var cleaned := Act(W, Manager(Cleanup(at)), timeout).0;
    assert cleaned.table == W.table - swept;
    MissingShowIff(W, swept, events, timeout);
    assert ([Manager(Cleanup(at))] + events)[1..] == events;
  }

  /** For a single lookup after the cleanup. */
  lemma LookupSeesCleanupIff(table: Table, token: string, at: string -> int, now: int, later: int, timeout: int)
    ensures var cleaned := Step(table, Cleanup(at), timeout).0;
            var back := token in table && Expired(table[token], at(token), timeout) && !Expired(table[token], now, timeout);
            && (Step(cleaned, Validate(token, now, later), timeout).1 == Step(table, Validate(token, now, later), timeout).1
                <==> !back)
            && (Step(cleaned, GetUser(token, now), timeout).1 == Step(table, GetUser(token, now), timeout).1
                <==> !(back && table[token].userId != -1))
            && (Act(World(cleaned, []), LogoutBegins(token, now), timeout).1 ==
                Act(World(table, []), LogoutBegins(token, now), timeout).1
                <==> !(back && table[token].userId != -1 && token != ""))
  {
  }

  /** A bare delete_session can tell: its answer after a cleanup is the same exactly when its token was
      not that of an expired session. */
  lemma DeleteSeesCleanupIff(table: Table, token: string, at: string -> int, timeout: int)
    ensures Step(Step(table, Cleanup(at), timeout).0, Delete(token), timeout).1 == Step(table, Delete(token), timeout).1
            <==> !(token in table && Expired(table[token], at(token), timeout))
  {
  }

  /** Such a delete: of a session that timed out, before and after a cleanup. */
  lemma DeleteRevealsCleanup()
    ensures var table := map["t" := Session(7, 0, 0)];
            var cleaned := Step(table, Cleanup(_ => 31 * TICKS_PER_MINUTE), 30).0;
            Step(table, Delete("t"), 30).1 == Deleted(true) && Step(cleaned, Delete("t"), 30).1 == Deleted(false)
  {
    var table := map["t" := Session(7, 0, 0)];
    assert Expired(table["t"], 31 * TICKS_PER_MINUTE, 30);
  }

  /** A clock that is set back shows a cleanup: the session that an earlier reading expired would have
      been good again. */
  lemma ClockSetBackShowsCleanup()
    ensures var W := World(map["t" := Session(7, 0, 0)], []);
            var events := [Manager(GetUser("t", 0))];
            Answers(W, [Manager(Cleanup(_ => 31 * TICKS_PER_MINUTE))] + events, 30) != Answers(W, events, 30)
  {
    var W := World(map["t" := Session(7, 0, 0)], []);
    var at := _ => 31 * TICKS_PER_MINUTE;
    var events := [Manager(GetUser("t", 0))];
    assert Expired(W.table["t"], at("t"), 30);
    assert "t" in Swept(W.table, at, 30) && Notices(W.table, "t", events[0], 30);
    assert Shows(W, "t", events, 30);
    CleanupShowsIff(W, at, events, 30);
  }

  // ---- whom a token stands for ----

  /** More than `timeout` whole minutes have gone by. */
  ghost predicate TimedOut(since: int, now: int, timeout: int) {
    now - since >= (timeout + 1) * 60_000_000_000
  }

  /** What the events alone say about a token: nobody, or the user it was issued to and when it was issued
      or last validated. */
  datatype Standing = Nobody | Somebody(user: int, since: int)

  ghost function AfterLook(st: Standing, now: int, timeout: int): Standing {
    if st.Somebody? && TimedOut(st.since, now, timeout) then Nobody else st
  }

  /** Only events about the token count, and cleanups do not. */
  ghost function AfterEvent(st: Standing, token: string, e: Event, timeout: int): Standing {
    match e
    case Manager(Create(user, k, now)) => if k == token then Somebody(user, now) else st
    case Manager(Delete(k)) => if k == token then Nobody else st
    case Manager(GetUser(k, now)) => if k == token then AfterLook(st, now, timeout) else st
    case LogoutBegins(k, now) => if k == token then AfterLook(st, now, timeout) else st
    case Manager(Validate(k, now, later)) =>
      if k == token then
        var seen := AfterLook(st, now, timeout);
        if seen.Somebody? then Somebody(seen.user, later) else Nobody
      else st
    case _ => st
  }

  ghost function StandingAfter(st: Standing, token: string, events: seq<Event>, timeout: int): Standing
    decreases |events|
  {
    if events == [] then st else StandingAfter(AfterEvent(st, token, events[0], timeout), token, events[1..], timeout)
  }

  /** The manager's world after a run. */
  ghost function WorldAfter(W: World, events: seq<Event>, timeout: int): World
    decreases |events|
  {
    if events == [] then W else WorldAfter(Act(W, events[0], timeout).0, events[1..], timeout)
  }

  ghost predicate LogsOut(e: Event, token: string) {
    e.LogoutBegins? && e.token == token
  }

  /** The table holds what the events say, but for a session that a cleanup took because it had timed out. */
  ghost predicate Reflects(W: World, token: string, st: Standing, t: int, timeout: int) {
    && token !in W.leaving
    && match st
       case Nobody => token !in W.table
       case Somebody(user, since) =>
         && since <= t
         && (if token in W.table then W.table[token].userId == user && W.table[token].lastAccess == since
             else TimedOut(since, t, timeout))
  }

  lemma ExpiredIffTimedOut(s: Session, now: int, timeout: int)
    requires s.lastAccess <= now
    ensures Expired(s, now, timeout) <==> TimedOut(s.lastAccess, now, timeout)
  {
    var d := now - s.lastAccess;
    assert d == TICKS_PER_MINUTE * (d / TICKS_PER_MINUTE) + d % TICKS_PER_MINUTE;
  }

  lemma EventKeepsReflects(W: World, token: string, st: Standing, e: Event, t: int, t': int, timeout: int)
    requires Reflects(W, token, st, t, timeout) && Within(e, t, t') && !LogsOut(e, token)
    ensures Reflects(Act(W, e, timeout).0, token, AfterEvent(st, token, e, timeout), t', timeout)
  {
    if token in W.table && st.Somebody? {
      var x := W.table[token];
      match e
      case Manager(Validate(k, now, _)) => ExpiredIffTimedOut(x, now, timeout);
      case Manager(GetUser(k, now)) => ExpiredIffTimedOut(x, now, timeout);
      case Manager(Cleanup(at)) => ExpiredIffTimedOut(x, at(token), timeout);
      case _ =>
    }
  }

  lemma {:induction false} RunKeepsReflects(W: World, token: string, st: Standing, events: seq<Event>, ticks: seq<int>, timeout: int)
    requires Clocked(events, ticks) && Reflects(W, token, st, ticks[0], timeout)
    requires forall e | e in events :: !LogsOut(e, token)
    ensures Reflects(WorldAfter(W, events, timeout), token, StandingAfter(st, token, events, timeout), ticks[|events|], timeout)
    decreases |events|
  {
    if events != [] {
      assert Within(events[0], ticks[0], ticks[1]) && events[0] in events;
      EventKeepsReflects(W, token, st, events[0], ticks[0], ticks[1], timeout);
      assert Clocked(events[1..], ticks[1..]) by {
        forall i | 0 <= i < |events[1..]| ensures Within(events[1..][i], ticks[1..][i], ticks[1..][i + 1]) {
          assert Within(events[i + 1], ticks[i + 1], ticks[i + 2]);
        }
      }
      RunKeepsReflects(Act(W, events[0], timeout).0, token, AfterEvent(st, token, events[0], timeout), events[1..], ticks[1..], timeout);
    }
  }

  lemma LookSays(W: World, token: string, st: Standing, t: int, now: int, later: int, timeout: int)
    requires Reflects(W, token, st, t, timeout) && t <= now
    ensures var seen := AfterLook(st, now, timeout);
            var user := if seen.Somebody? then seen.user else -1;
            && Act(W, Manager(GetUser(token, now)), timeout).1 == Said(User(user))
            && Act(W, Manager(Validate(token, now, later)), timeout).1 == Said(Valid(seen.Somebody?))
            && Act(W, LogoutBegins(token, now), timeout).1 ==
               if token == "" || user == -1 then Status(401) else GoesOn
  {
    if token in W.table && st.Somebody? {
      ExpiredIffTimedOut(W.table[token], now, timeout);
    }
  }

  /** A token stands for the user it was issued to: over every run on a clock that does not go back in
      which nobody logs the token out, get_user_id answers that user as long as no lookup of the token
      comes more than `timeout` whole minutes after it was issued or last validated, and -1 from the
      first that does; validate_session and logout go by the same. Cleanups, and whatever happens to
      other tokens, do not matter. */
  lemma TokenStandsForItsUser(W: World, user: int, token: string, t0: int, events: seq<Event>, ticks: seq<int>,
                              now: int, later: int, timeout: int)
    requires token !in W.leaving && Clocked(events, ticks) && t0 <= ticks[0] && ticks[|events|] <= now
    requires forall e | e in events :: !LogsOut(e, token)
    ensures var (W0, issued) := Act(W, Manager(Create(user, token, t0)), timeout);
            var last := WorldAfter(W0, events, timeout);
            var seen := AfterLook(StandingAfter(Somebody(user, t0), token, events, timeout), now, timeout);
            var answer := if seen.Somebody? then seen.user else -1;
            && issued == Said(Token(token))
            && Act(last, Manager(GetUser(token, now)), timeout).1 == Said(User(answer))
            && Act(last, Manager(Validate(token, now, later)), timeout).1 == Said(Valid(seen.Somebody?))
            && Act(last, LogoutBegins(token, now), timeout).1 == if token == "" || answer == -1 then Status(401) else GoesOn
  {
    var W0 := Act(W, Manager(Create(user, token, t0)), timeout).0;
    RunKeepsReflects(W0, token, Somebody(user, t0), events, ticks, timeout);
    LookSays(WorldAfter(W0, events, timeout), token, StandingAfter(Somebody(user, t0), token, events, timeout),
             ticks[|events|], now, later, timeout);
  }

  /** If nothing but lookups in time and cleanups happens to a token, it stands for its user. */
  lemma {:induction false} InTimeStays(user: int, since: int, token: string, events: seq<Event>, timeout: int)
    requires forall e | e in events ::
               && !(e.Manager? && (e.op.Create? || e.op.Delete? || e.op.Validate?) && e.op.token == token)
               && (e.Manager? && e.op.GetUser? && e.op.token == token ==> !TimedOut(since, e.op.now, timeout))
               && (e.LogoutBegins? && e.token == token ==> !TimedOut(since, e.now, timeout))
    ensures StandingAfter(Somebody(user, since), token, events, timeout) == Somebody(user, since)
    decreases |events|
  {
    if events != [] {
      assert events[0] in events;
      InTimeStays(user, since, token, events[1..], timeout);
    }
  }

  /** A token that is not in the table stays out until it is issued again. */
  lemma {:induction false} GoneStaysGone(W: World, token: string, events: seq<Event>, timeout: int)
    requires token !in W.table
    requires forall e | e in events :: !(e.Manager? && e.op.Create? && e.op.token == token)
    ensures token !in WorldAfter(W, events, timeout).table
    decreases |events|
  {
    if events != [] {
      assert events[0] in events;
      GoneStaysGone(Act(W, events[0], timeout).0, token, events[1..], timeout);
    }
  }

  /** A logout that was answered 200 is final: on any clock and whatever follows, the token stands for
      nobody until it is issued again. */
  lemma LogoutIsFinal(W: World, k: nat, events: seq<Event>, now: int, later: int, timeout: int)
    requires k < |W.leaving|
    requires forall e | e in events :: !(e.Manager? && e.op.Create? && e.op.token == W.leaving[k])
    ensures var (W1, r) := Act(W, LogoutEnds(k), timeout);
            var last := WorldAfter(W1, events, timeout);
            && r == Status(200)
            && Act(last, Manager(GetUser(W.leaving[k], now)), timeout).1 == Said(User(-1))
            && Act(last, Manager(Validate(W.leaving[k], now, later)), timeout).1 == Said(Valid(false))
            && Act(last, LogoutBegins(W.leaving[k], now), timeout).1 == Status(401)
  {
    GoneStaysGone(Act(W, LogoutEnds(k), timeout).0, W.leaving[k], events, timeout);
  }

  /** A logout goes on exactly for a token that stands for a user, and then that token is under way. */
  lemma LogoutGoesOnWith(W: World, token: string, now: int, timeout: int)
    ensures Act(W, LogoutBegins(token, now), timeout).1 == GoesOn ==>
              Act(W, LogoutBegins(token, now), timeout).0.leaving == W.leaving + [token]
    ensures Act(W, LogoutBegins(token, now), timeout).1 != GoesOn ==>
              Act(W, LogoutBegins(token, now), timeout).1 == Status(401) &&
              Act(W, LogoutBegins(token, now), timeout).0.leaving == W.leaving
  {
  }
}
