/**
 * One-time handoff codes between web and native sessions: authfn/native-handoff/src/index.ts.
 * Each request is a program counter over a shared database; every database call is one atomic step,
 * and a run is any sequence of steps of any number of requests and of other users of the database.
 */
module Handoff {
  import opened Text

  datatype Target = Native | Web

  /**
   * A row of `native_handoff_codes`; its number stands for its random identifier and for the code
   * that hashes to it.
   */
  datatype Code = Code(
    source: nat, target: Target, region: string, user: string, expiresAt: int, consumedAt: Option<int>)

  /** A row of `sessions`; `source` is set by a handoff, and `code` remembers which one. */
  datatype Session = Session(user: string, expiresAt: int, source: Option<nat>, code: Option<nat>, revoked: bool)

  datatype Failure =
    | Unauthenticated | NoRegion
    | MissingCode | InvalidCode | WrongRegion | Replayed | Expired
    | SourceNotFound | SourceRevoked | UserNotFound | Conflict

  /**
   * Where a request is: the first four points create a code, the others exchange or consume one.
   * `cell` is the region of the cell that serves the request, "" for none.
   */
  datatype Request =
    | Start(target: Target, bearer: bool, source: nat, cell: string)
    | Authenticated(target: Target, bearer: bool, source: nat, cell: string, user: string)
    | Touched(target: Target, bearer: bool, source: nat, cell: string, user: string)
    | Starting(target: Target, bearer: bool, source: nat, cell: string, user: string)
    | Started(id: nat)
    | Begin(target: Target, cell: string, code: Option<nat>)
    | Looked(target: Target, cell: string, id: nat, row: Code)
    | Checked(target: Target, cell: string, id: nat, row: Code)
    | SourceSeen(target: Target, cell: string, id: nat, row: Code)
    | UserSeen(target: Target, cell: string, id: nat, row: Code)
    | Consumed(target: Target, cell: string, id: nat, row: Code)
    | Ready(target: Target, cell: string, id: nat, row: Code)
    | Issued(id: nat, session: nat)
    | Failed(failure: Failure)

  /** One execution of the conditional update. */
  datatype Attempt = Attempt(id: nat, request: nat, present: bool, won: bool)

  /** A session that a handoff issued, with the region it was returned with. */
  datatype Issue = Issue(id: nat, request: nat, session: nat, target: Target, region: string, cell: string)

  /**
   * The clock, the database and the requests. The rest is history: all users there ever were, the
   * codes and sessions as they were created, in order, the attempts to consume and the sessions issued.
   */
  datatype State = State(
    now: int, users: set<string>, sessions: map<nat, Session>, codes: map<nat, Code>, requests: map<nat, Request>,
    known: set<string>, made: seq<Code>, created: seq<Session>, attempts: seq<Attempt>, issues: seq<Issue>)

  datatype Action =
    | Tick(delta: nat)
    | AddUser(user: string)
    | DeleteUser(user: string)
    | SignIn(user: string, maxAge: int)
    | Revoke(session: nat)
    | DeleteSessions(user: string)
    | DeleteCodes(user: string)
    | ArriveStart(request: nat, target: Target, bearer: bool, source: nat, cell: string)
    | ArriveConsume(request: nat, target: Target, cell: string, code: Option<nat>)
    | Advance(request: nat, age: int)

  const INITIAL := State(0, {}, map[], map[], map[], {}, [], [], [], [])

  function Without<T>(rows: map<nat, T>, gone: set<nat>): map<nat, T> {
    map k | k in rows && k !in gone :: rows[k]
  }

  function To(s: State, r: nat, request: Request): State {
    s.(requests := s.requests[r := request])
  }

  /** Where a request goes on from a point at which it only reads or updates a last use. */
  function Next(s: State, q: Request): Request {
    match q
    case Start(target, bearer, source, cell) =>
      if source !in s.sessions || s.sessions[source].revoked || s.sessions[source].expiresAt <= s.now then
        Failed(Unauthenticated)
      else Authenticated(target, bearer, source, cell, s.sessions[source].user)
    case Authenticated(target, bearer, source, cell, user) =>
      if user !in s.users then Failed(Unauthenticated) else Touched(target, bearer, source, cell, user)
    case Touched(target, bearer, source, cell, user) =>
      // The update of the session's last use, and for a bearer session one more read of its row.
      if source !in s.sessions then Failed(SourceNotFound)
      else if bearer then Touched(target, false, source, cell, user)
      else Starting(target, bearer, source, cell, user)
    case Starting(target, bearer, source, cell, user) =>
      if cell == "" then Failed(NoRegion) else q
    case Begin(target, cell, code) =>
      if code.None? then Failed(MissingCode)
      else if code.value !in s.codes || s.codes[code.value].target != target then Failed(InvalidCode)
      else Looked(target, cell, code.value, s.codes[code.value])
    case Looked(target, cell, id, row) =>
      if cell != "" && row.region != cell then Failed(WrongRegion)
      else if row.consumedAt.Some? then Failed(Replayed)
      else if row.expiresAt <= s.now then Failed(Expired)
      else Checked(target, cell, id, row)
    case Checked(target, cell, id, row) =>
      if row.source !in s.sessions then Failed(SourceNotFound)
      else if s.sessions[row.source].revoked then Failed(SourceRevoked)
      else SourceSeen(target, cell, id, row)
    case SourceSeen(target, cell, id, row) =>
      if row.user !in s.users then Failed(UserNotFound) else UserSeen(target, cell, id, row)
    case Consumed(target, cell, id, row) =>
      if row.source !in s.sessions then Failed(SourceNotFound) else Ready(target, cell, id, row)
    case _ => q
  }

  /** The next step of a request; `age` is the configured lifetime of codes and of sessions. */
  function AdvanceRequest(s: State, r: nat, age: int): State
    requires r in s.requests
  {
    match s.requests[r]
    case Starting(_, _, source, cell, user) =>
      if cell == "" then To(s, r, Next(s, s.requests[r]))
      else Create(s, r, Code(source, s.requests[r].target, cell, user, s.now + age, None))
    case UserSeen(_, _, id, _) => Consume(s, r, id)
    case Ready(target, cell, id, row) =>
      IssueSession(s, r, target, cell, row.region, Session(row.user, s.now + age, Some(row.source), Some(id), false))
    case q => To(s, r, Next(s, q))
  }

  function Create(s: State, r: nat, row: Code): State {
    To(s, r, Started(|s.made|)).(codes := s.codes[|s.made| := row], made := s.made + [row])
  }

  function IssueSession(s: State, r: nat, target: Target, cell: string, region: string, session: Session): State
    requires session.code.Some?
  {
    var id := session.code.value;
    To(s, r, Issued(id, |s.created|)).(
      sessions := s.sessions[|s.created| := session], created := s.created + [session],
      issues := s.issues + [Issue(id, r, |s.created|, target, region, cell)])
  }

  /** The update of the row with this id whose `consumedAt` is null. */
  function Consume(s: State, r: nat, id: nat): State
    requires r in s.requests && s.requests[r].UserSeen?
  {
    var present := id in s.codes;
    if present && s.codes[id].consumedAt.None? then
      var row := s.codes[id].(consumedAt := Some(s.now));
      To(s, r, Consumed(s.requests[r].target, s.requests[r].cell, id, row)).(
        codes := s.codes[id := row], attempts := s.attempts + [Attempt(id, r, true, true)])
    else
      To(s, r, Failed(Conflict)).(attempts := s.attempts + [Attempt(id, r, present, false)])
  }

  function Step(s: State, a: Action): State {
    match a
    case Tick(delta) => s.(now := s.now + delta)
    case AddUser(user) => s.(users := s.users + {user}, known := s.known + {user})
    case DeleteUser(user) => s.(users := s.users - {user})
    case SignIn(user, maxAge) =>
      var session := Session(user, s.now + maxAge, None, None, false);
      s.(sessions := s.sessions[|s.created| := session], created := s.created + [session])
    case Revoke(i) =>
      if i in s.sessions then s.(sessions := s.sessions[i := s.sessions[i].(revoked := true)]) else s
    case DeleteSessions(user) => s.(sessions := Without(s.sessions, set i | i in s.sessions && s.sessions[i].user == user))
    case DeleteCodes(user) => s.(codes := Without(s.codes, set c | c in s.codes && s.codes[c].user == user))
    case ArriveStart(r, target, bearer, source, cell) =>
      if r in s.requests then s else To(s, r, Start(target, bearer || target.Web?, source, cell))
    case ArriveConsume(r, target, cell, code) =>
      if r in s.requests then s else To(s, r, Begin(target, cell, code))
    case Advance(r, age) => if r in s.requests then AdvanceRequest(s, r, age) else s
  }

  function RunFrom(s: State, actions: seq<Action>): State {
    if actions == [] then s else Step(RunFrom(s, actions[..|actions| - 1]), actions[|actions| - 1])
  }

  /** The state after a run. */
  function Run(actions: seq<Action>): State {
    RunFrom(INITIAL, actions)
  }
}
