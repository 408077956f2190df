/**
 * Cookie sessions of the Python server (authfn/python/authfn/http.py). Every query and every update
 * is one atomic step on the table of sessions; between the steps of one request, any others may run.
 */
module CookieSessions {
  import opened Text

  /** A row of `sessions`; its number stands for its identifier and for the token that hashes to it. */
  datatype Row = Row(user: string, revokedAt: Option<int>, expiresAt: Option<int>, seenAt: int, methods: set<string>)

  /** What a request with a session cookie is for; only reading a session may go without the touch. */
  datatype Goal = GetSession(touch: bool) | ListSessions | SignOut(all: bool) | Revoke(target: nat) | ConfirmTwoFactor

  /**
   * Where a request is. `read` is the row that its first query returned and `at` the time of that
   * query; `record` is the row after the touch.
   */
  datatype Request =
    | Lookup(token: Option<nat>, goal: Goal)
    | FindUser(id: nat, read: Row, at: int, goal: Goal)
    | Touch(id: nat, read: Row, at: int, goal: Goal)
    | Ready(id: nat, read: Row, at: int, record: Row, goal: Goal)
    | Target(id: nat, read: Row, at: int, target: nat)
    | Sweep(id: nat, read: Row, at: int, seen: set<nat>, left: set<nat>)
    | ById(target: nat, user: Option<string>)
    | ByIdFound(target: nat, user: Option<string>)
    | Ended(outcome: Outcome)

  datatype Outcome =
    | Unauthenticated | RevokedSession | ExpiredSession | CsrfFailed | NotFound
    | Returned(id: nat, read: Row, at: int)
    | Listed(user: string, ids: set<nat>)
    | SignedOut(id: nat)
    | SignedOutAll(user: string, seen: set<nat>)
    | Revoked(target: nat)
    | Confirmed(id: nat)

  /**
   * An update of a row: the user that the request acts for, none for a call of the server's own that
   * names no user, and the user whose row it changed.
   */
  datatype Write = Write(request: nat, actor: Option<string>, id: nat, owner: string)

  /** The query of a request for all sessions of a user, with the table it saw. */
  datatype Query = Query(request: nat, user: string, rows: map<nat, Row>, at: int)

  /** How each request arrived (`origins`), every row as it was created, `log` and `queries` are history. */
  datatype State = State(
    now: int, users: set<string>, rows: map<nat, Row>, requests: map<nat, Request>,
    origins: map<nat, Request>, created: seq<Row>, log: seq<Write>, queries: seq<Query>)

  const INITIAL := State(0, {}, map[], map[], map[], [], [], [])

  datatype Action =
    | Tick(delta: nat)
    | AddUser(user: string)
    | DeleteUser(user: string)
    | DeleteSessions(user: string)
    | Issue(user: string, maxAge: int, methods: set<string>)
    | Arrive(request: nat, start: Request)
    | Advance(request: nat, csrf: bool, pick: nat)

  predicate Expired(row: Row, now: int) {
    row.expiresAt.Some? && row.expiresAt.value <= now
  }

  /** The test that a session passes at the first query of a request. */
  predicate Live(row: Row, now: int) {
    row.revokedAt.None? && !Expired(row, now)
  }

  /** The update of one row in the name of `actor`. */
  datatype Change = Change(actor: Option<string>, id: nat, row: Row)

  /** What a request does in one step: its new point, its update, the user whose sessions it asks for. */
  datatype Move = Move(next: Request, change: Option<Change>, asks: Option<string>)

  function Go(q: Request): Move {
    Move(q, None, None)
  }

  /** The row is updated if it is still there. */
  function Updating(s: State, actor: Option<string>, id: nat, row: Row): Option<Change> {
    if id in s.rows then Some(Change(actor, id, row)) else None
  }

  function Revoking(s: State, actor: Option<string>, id: nat): Option<Change> {
    if id in s.rows then Some(Change(actor, id, s.rows[id].(revokedAt := Some(s.now)))) else None
  }

  function RowsOf(rows: map<nat, Row>, user: string): set<nat> {
    set i | i in rows && rows[i].user == user
  }

  function Decide(s: State, q: Request, csrf: bool, pick: nat): Move {
    match q
    case Lookup(token, goal) =>
      if token.None? || token.value !in s.rows then Go(Ended(Unauthenticated))
      else
        var row := s.rows[token.value];
        if row.revokedAt.Some? then Go(Ended(RevokedSession))
        else if Expired(row, s.now) then Go(Ended(ExpiredSession))
        else Go(FindUser(token.value, row, s.now, goal))
    case FindUser(id, read, at, goal) =>
      if read.user !in s.users then Go(Ended(Unauthenticated))
      else if goal == GetSession(false) then Go(Ready(id, read, at, read, goal))
      else Go(Touch(id, read, at, goal))
    case Touch(id, read, at, goal) =>
      var record := (if id in s.rows then s.rows[id] else read).(seenAt := s.now);
      Move(Ready(id, read, at, record, goal), Updating(s, Some(read.user), id, record), None)
    case Ready(_, _, _, _, _) => Serve(s, q, csrf)
    case Target(id, read, at, target) =>
      Move(Ended(Revoked(target)), Revoking(s, Some(read.user), target), None)
    case Sweep(id, read, at, seen, left) =>
      if left == {} then Go(Ended(SignedOutAll(read.user, seen)))
      else if pick in left then Move(Sweep(id, read, at, seen, left - {pick}), Revoking(s, Some(read.user), pick), None)
      else Go(q)
    case ById(target, user) =>
      if target !in s.rows || (user.Some? && s.rows[target].user != user.value) then Go(Ended(NotFound))
      else if s.rows[target].revokedAt.Some? then Go(Ended(Revoked(target)))
      else Go(ByIdFound(target, user))
    case ByIdFound(target, user) =>
      Move(Ended(Revoked(target)), Revoking(s, user, target), None)
    case Ended(_) => Go(q)
  }

  /** The first step of the handler of an authenticated request. */
  function Serve(s: State, q: Request, csrf: bool): Move
    requires q.Ready?
  {
    match q.goal
    case GetSession(_) => Go(Ended(Returned(q.id, q.read, q.at)))
    case ListSessions =>
      var active := set i | i in RowsOf(s.rows, q.read.user) && s.rows[i].expiresAt.Some? && Live(s.rows[i], s.now);
      Move(Ended(Listed(q.read.user, active)), None, Some(q.read.user))
    case SignOut(all) =>
      if !csrf then Go(Ended(CsrfFailed))
      else if !all then Move(Ended(SignedOut(q.id)), Revoking(s, Some(q.read.user), q.id), None)
      else
        var seen := RowsOf(s.rows, q.read.user);
        var left := set i | i in seen && s.rows[i].revokedAt.None?;
        Move(Sweep(q.id, q.read, q.at, seen, left), None, Some(q.read.user))
    case Revoke(target) =>
      if !csrf then Go(Ended(CsrfFailed))
      else if target !in s.rows || s.rows[target].user != q.read.user then Go(Ended(NotFound))
      else Go(Target(q.id, q.read, q.at, target))
    case ConfirmTwoFactor =>
      if !csrf then Go(Ended(CsrfFailed))
      else
        var row := (if q.id in s.rows then s.rows[q.id] else q.record).(methods := q.record.methods + {"two-factor"});
        Move(Ended(Confirmed(q.id)), Updating(s, Some(q.read.user), q.id, row), None)
  }

  function Make(s: State, r: nat, m: Move): State {
    s.(requests := s.requests[r := m.next],
       rows := if m.change.Some? then s.rows[m.change.value.id := m.change.value.row] else s.rows,
       log := if m.change.Some?
              then s.log + [Write(r, m.change.value.actor, m.change.value.id, m.change.value.row.user)] else s.log,
       queries := if m.asks.Some? then s.queries + [Query(r, m.asks.value, s.rows, s.now)] else s.queries)
  }

  function AdvanceRequest(s: State, r: nat, csrf: bool, pick: nat): State
    requires r in s.requests
  {
    Make(s, r, Decide(s, s.requests[r], csrf, pick))
  }

  function Step(s: State, a: Action): State {
    match a
    case Tick(delta) => s.(now := s.now + delta)
    case AddUser(user) => s.(users := s.users + {user})
    case DeleteUser(user) => s.(users := s.users - {user})
    case DeleteSessions(user) => s.(rows := map i | i in s.rows && s.rows[i].user != user :: s.rows[i])
    case Issue(user, maxAge, methods) =>
      var row := Row(user, None, Some(s.now + maxAge), s.now, methods);
      s.(rows := s.rows[|s.created| := row], created := s.created + [row])
    case Arrive(r, q) =>
      if r in s.requests || !(q.Lookup? || q.ById?) then s
      else s.(requests := s.requests[r := q], origins := s.origins[r := q])
    case Advance(r, csrf, pick) => if r in s.requests then AdvanceRequest(s, r, csrf, pick) else s
  }

  function RunFrom(s: State, actions: seq<Action>): State {
    if actions == [] then s else Step(RunFrom(s, actions[..|actions| - 1]), actions[|actions| - 1])
  }

  function Run(actions: seq<Action>): State {
    RunFrom(INITIAL, actions)
  }
}
