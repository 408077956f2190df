/** What a request does to sessions: only what it asked for, and all of it when nothing is in the way. */
module CookieSessionOutcomes {
  import opened Text
  import opened CookieSessions
  import opened CookieSessionTable
  import opened CookieSessionRequests
  import opened CookieSessionSafety

  // ---- Only what was asked for ----

  /** A request that arrived like this may revoke this session. */
  predicate Asked(s: State, origin: Request, id: nat) {
    id in s.rows
    && match origin
       case Lookup(token, goal) =>
         && token.Some? && token.value < |s.created|
         && (goal == Revoke(id) || (goal == SignOut(false) && token == Some(id)) || goal == SignOut(true))
         && s.rows[id].user == s.created[token.value].user
       case ById(target, user) => target == id && (user.Some? ==> s.rows[id].user == user.value)
       case _ => false
  }

  /** In every run, a session is revoked only by a request that asked for that, of the session that it named. */
  lemma RevokesOnlyNamed(actions: seq<Action>, a: Action, id: nat)
    requires Standing(Run(actions), id) && id in Step(Run(actions), a).rows && !Standing(Step(Run(actions), a), id)
    ensures
      var s := Run(actions);
      && a.Advance? && a.request in s.requests && a.request in s.origins
      && Asked(s, s.origins[a.request], id)
      && (s.origins[a.request].Lookup? && s.requests[a.request].Ready? ==> a.csrf)
  {
    var s := Run(actions);
    RunRequests(actions);
    WritesOwnRowsOnly(actions);
    StepStands(s, a, id);
    hide Run;
    if a.Advance? {
      assert RequestOk(s, a.request, s.requests[a.request]) && FromOrigin(s, a.request);
      RevokesAsked(s, a.request, a.csrf, a.pick, id);
    }
    hide Decide, Asked, Standing;
  }

  lemma RevokesAsked(s: State, r: nat, csrf: bool, pick: nat, id: nat)
    requires Numbered(s) && r in s.requests && RequestOk(s, r, s.requests[r]) && FromOrigin(s, r)
    requires id in s.rows && Revokes(s.requests[r], csrf, pick, id)
    ensures Asked(s, s.origins[r], id) && (s.requests[r].Ready? ==> csrf)
  {
    hide Saw, SawLive, Gone, Live;
  }

  /** In every run, a request ends as what it asked for, about the session that it named. */
  lemma EndsAsAsked(actions: seq<Action>, r: nat)
    requires r in Run(actions).requests && Run(actions).requests[r].Ended?
    ensures
      var s := Run(actions);
      r in s.origins && EndsAs(s.created, s.origins[r], s.requests[r].outcome)
  {
    WritesOwnRowsOnly(actions);
    hide Run;
    assert FromOrigin(Run(actions), r);
  }

  /** The request never sends a valid csrf token. */
  predicate NoToken(actions: seq<Action>, r: nat) {
    forall k :: 0 <= k < |actions| && actions[k].Advance? && actions[k].request == r ==> !actions[k].csrf
  }

  /** A request at this point, or with this outcome, has been through the check of its csrf token. */
  predicate PastToken(q: Request) {
    q.Target? || q.Sweep? || (q.Ended? && (q.outcome.SignedOut? || q.outcome.SignedOutAll? || q.outcome.Confirmed?))
  }

  lemma StepToken(s: State, a: Action, r: nat)
    requires r in Step(s, a).requests && PastToken(Step(s, a).requests[r])
    ensures r in s.requests && (PastToken(s.requests[r]) || (a.Advance? && a.request == r && a.csrf && s.requests[r].Ready?))
  {
    if a.Advance? && a.request == r && r in s.requests {
      DecideToken(s, s.requests[r], a.csrf, a.pick);
    } else {
      OthersStay(s, a);
    }
    hide Decide, PastToken;
    assert a.Arrive? && a.request !in s.requests && (a.start.Lookup? || a.start.ById?) ==> !PastToken(a.start) by {
      StartsBefore(a);
    }
  }

  lemma StartsBefore(a: Action)
    ensures a.Arrive? && (a.start.Lookup? || a.start.ById?) ==> !PastToken(a.start)
  {
  }

  lemma DecideToken(s: State, q: Request, csrf: bool, pick: nat)
    requires PastToken(Decide(s, q, csrf, pick).next)
    ensures PastToken(q) || (csrf && q.Ready?)
  {
    hide RowsOf, Live, Revoking, Updating, Expired;
  }

  /** In every run, a request without a valid csrf token signs nothing out, revokes nothing and confirms nothing. */
  lemma {:induction false} TokenNeeded(actions: seq<Action>, r: nat)
    requires NoToken(actions, r) && r in Run(actions).requests
    ensures !PastToken(Run(actions).requests[r])
  {
    if actions != [] {
      var front, a := actions[..|actions| - 1], actions[|actions| - 1];
      assert Run(actions) == Step(Run(front), a);
      hide Step, PastToken;
      if PastToken(Run(actions).requests[r]) {
        StepToken(Run(front), a, r);
        TokenNeeded(front, r);
      }
    }
  }

  // ---- A request alone ----

  /** The next `n` steps of one request, with no one else in between. */
  function Alone(s: State, r: nat, csrf: bool, n: nat): State
    decreases n
  {
    if n == 0 then s else Step(Alone(s, r, csrf, n - 1), Advance(r, csrf, 0))
  }

  /** Requests have moved only to this point, rows are these; users, the clock and what was issued are the same. */
  predicate Came(s: State, t: State, r: nat, q: Request, rows: map<nat, Row>) {
    && t.requests == s.requests[r := q] && t.rows == rows
    && t.now == s.now && t.users == s.users && t.created == s.created && t.origins == s.origins
  }

  lemma CameNext(s: State, t: State, r: nat, q: Request, rows: map<nat, Row>, csrf: bool, pick: nat)
    requires Came(s, t, r, q, rows)
    ensures
      var m := Decide(t, q, csrf, pick);
      Came(s, Step(t, Advance(r, csrf, pick)), r, m.next,
           if m.change.Some? then rows[m.change.value.id := m.change.value.row] else rows)
  {
    hide Decide;
    assert t.requests[r] == q;
    var next := Decide(t, q, csrf, pick).next;
    assert t.requests[r := next] == s.requests[r := next];
  }

  lemma {:induction false} EndedStays(s: State, r: nat, csrf: bool, m: nat, n: nat, outcome: Outcome, rows: map<nat, Row>)
    requires m <= n && Came(s, Alone(s, r, csrf, m), r, Ended(outcome), rows)
    ensures Came(s, Alone(s, r, csrf, n), r, Ended(outcome), rows)
    decreases n
  {
    if m < n {
      EndedStays(s, r, csrf, m, n - 1, outcome, rows);
      CameNext(s, Alone(s, r, csrf, n - 1), r, Ended(outcome), rows, csrf, 0);
      hide Step, Came;
    }
  }

  /** What the check of the session says, in the order of its tests. */
  function Refusal(s: State, token: Option<nat>): Option<Outcome> {
    if token.None? || token.value !in s.rows then Some(Unauthenticated)
    else if s.rows[token.value].revokedAt.Some? then Some(RevokedSession)
    else if s.rows[token.value].expiresAt.Some? && s.rows[token.value].expiresAt.value <= s.now then Some(ExpiredSession)
    else if s.rows[token.value].user !in s.users then Some(Unauthenticated)
    else None
  }

  /** The rows after the touch. */
  function Touched(s: State, id: nat): map<nat, Row>
    requires id in s.rows
  {
    s.rows[id := s.rows[id].(seenAt := s.now)]
  }

  lemma {:induction false} RefusedAlone(s: State, r: nat, csrf: bool, n: nat)
    requires r in s.requests && s.requests[r].Lookup? && Refusal(s, s.requests[r].token).Some? && n >= 2
    ensures Came(s, Alone(s, r, csrf, n), r, Ended(Refusal(s, s.requests[r].token).value), s.rows)
  {
    var q := s.requests[r];
    var outcome := Refusal(s, q.token).value;
    assert s.requests[r := q] == s.requests;
    assert Came(s, Alone(s, r, csrf, 0), r, q, s.rows);
    CameNext(s, s, r, q, s.rows, csrf, 0);
    var p := Decide(s, q, csrf, 0).next;
    assert Decide(s, q, csrf, 0).change.None?;
    assert Alone(s, r, csrf, 1) == Step(Alone(s, r, csrf, 0), Advance(r, csrf, 0));
    var t := Alone(s, r, csrf, 1);
    assert Came(s, t, r, p, s.rows);
    if p.Ended? {
      assert p == Ended(outcome);
      hide Step, Alone, Came, Decide;
      EndedStays(s, r, csrf, 1, n, outcome, s.rows);
    } else {
      CameNext(s, t, r, p, s.rows, csrf, 0);
      assert Decide(t, p, csrf, 0) == Go(Ended(outcome));
      assert Alone(s, r, csrf, 2) == Step(t, Advance(r, csrf, 0));
      hide Step, Alone, Came, Decide;
      EndedStays(s, r, csrf, 2, n, outcome, s.rows);
    }
  }

  /** A request whose session passes the check comes to its handler, with its session touched unless it asked not to. */
  lemma {:induction false} ReadyAlone(s: State, r: nat, csrf: bool)
    requires r in s.requests && s.requests[r].Lookup? && Refusal(s, s.requests[r].token).None?
    ensures
      var id, goal := s.requests[r].token.value, s.requests[r].goal;
      var row := s.rows[id];
      if goal == GetSession(false) then Came(s, Alone(s, r, csrf, 2), r, Ready(id, row, s.now, row, goal), s.rows)
      else Came(s, Alone(s, r, csrf, 3), r, Ready(id, row, s.now, row.(seenAt := s.now), goal), Touched(s, id))
  {
    var q := s.requests[r];
    var id, goal := q.token.value, q.goal;
    var row := s.rows[id];
    assert s.requests[r := q] == s.requests;
    var found, touch := FindUser(id, row, s.now, goal), Touch(id, row, s.now, goal);
    CameNext(s, s, r, q, s.rows, csrf, 0);
    assert Decide(s, q, csrf, 0) == Go(found);
    var t := Alone(s, r, csrf, 1);
    assert t == Step(Alone(s, r, csrf, 0), Advance(r, csrf, 0));
    assert Came(s, t, r, found, s.rows);
    CameNext(s, t, r, found, s.rows, csrf, 0);
    var u := Alone(s, r, csrf, 2);
    assert u == Step(t, Advance(r, csrf, 0));
    if goal == GetSession(false) {
      assert Decide(t, found, csrf, 0) == Go(Ready(id, row, s.now, row, goal));
    } else {
      assert Decide(t, found, csrf, 0) == Go(touch);
      assert Came(s, u, r, touch, s.rows);
      CameNext(s, u, r, touch, s.rows, csrf, 0);
      assert Alone(s, r, csrf, 3) == Step(u, Advance(r, csrf, 0));
      TouchDecides(u, id, row, s.now, goal, csrf);
    }
    hide Alone, Step, Decide;
  }

  lemma TouchDecides(s: State, id: nat, row: Row, at: int, goal: Goal, csrf: bool)
    requires id in s.rows && s.rows[id] == row
    ensures Decide(s, Touch(id, row, at, goal), csrf, 0) ==
            Move(Ready(id, row, at, row.(seenAt := s.now), goal), Some(Change(Some(row.user), id, row.(seenAt := s.now))), None)
  {
  }

  /** The sessions of the user that are unrevoked, and have an end that is still to come. */
  function LiveIds(rows: map<nat, Row>, user: string, now: int): set<nat> {
    set i | i in rows && rows[i].user == user && rows[i].revokedAt.None? && rows[i].expiresAt.Some? && now < rows[i].expiresAt.value
  }

  /** How a request of this goal ends, from the rows after the touch; signing out everywhere is not among these. */
  function Answer(s: State, id: nat, goal: Goal, csrf: bool): (Outcome, map<nat, Row>)
    requires id in s.rows && goal != SignOut(true)
  {
    var row, rows := s.rows[id], Touched(s, id);
    match goal
    case GetSession(touch) => (Returned(id, row, s.now), if touch then rows else s.rows)
    case ListSessions => (Listed(row.user, LiveIds(rows, row.user, s.now)), rows)
    case SignOut(_) =>
      if csrf then (SignedOut(id), rows[id := rows[id].(revokedAt := Some(s.now))]) else (CsrfFailed, rows)
    case Revoke(target) =>
      if !csrf then (CsrfFailed, rows)
      else if target in rows && rows[target].user == row.user then
        (Revoked(target), rows[target := rows[target].(revokedAt := Some(s.now))])
      else (NotFound, rows)
    case ConfirmTwoFactor =>
      if csrf then (Confirmed(id), rows[id := rows[id].(methods := row.methods + {"two-factor"})]) else (CsrfFailed, rows)
  }

  lemma HandlerStep(s: State, t: State, id: nat, row: Row, goal: Goal, csrf: bool)
    requires id in s.rows && s.rows[id] == row && goal != SignOut(true) && !goal.Revoke? && t.now == s.now
    requires t.rows == if goal == GetSession(false) then s.rows else Touched(s, id)
    ensures
      var record := if goal == GetSession(false) then row else row.(seenAt := s.now);
      var m := Decide(t, Ready(id, row, s.now, record, goal), csrf, 0);
      && m.next == Ended(Answer(s, id, goal, csrf).0)
      && (if m.change.Some? then t.rows[m.change.value.id := m.change.value.row] else t.rows) == Answer(s, id, goal, csrf).1
  {
    if goal == ListSessions {
      ListStep(t, Ready(id, row, s.now, row.(seenAt := s.now), goal), csrf);
    }
  }

  lemma ListStep(s: State, q: Request, csrf: bool)
    requires q.Ready? && q.goal == ListSessions
    ensures Decide(s, q, csrf, 0) == Move(Ended(Listed(q.read.user, LiveIds(s.rows, q.read.user, s.now))), None, Some(q.read.user))
  {
    var m := Decide(s, q, csrf, 0);
    assert forall i :: i in m.next.outcome.ids <==> i in LiveIds(s.rows, q.read.user, s.now);
    assert m.next.outcome.ids == LiveIds(s.rows, q.read.user, s.now);
  }

  lemma RevokeHandler(s: State, t: State, id: nat, row: Row, target: nat, csrf: bool)
    requires id in s.rows && s.rows[id] == row && t.now == s.now && t.rows == Touched(s, id)
    ensures
      var m := Decide(t, Ready(id, row, s.now, row.(seenAt := s.now), Revoke(target)), csrf, 0);
      && m.change.None?
      && m.next == if !csrf then Ended(CsrfFailed)
                   else if target in t.rows && t.rows[target].user == row.user then Target(id, row, s.now, target)
                   else Ended(NotFound)
  {
  }

  lemma TargetHandler(s: State, id: nat, row: Row, at: int, target: nat, csrf: bool)
    requires target in s.rows
    ensures Decide(s, Target(id, row, at, target), csrf, 0) ==
            Move(Ended(Revoked(target)), Some(Change(Some(row.user), target, s.rows[target].(revokedAt := Some(s.now)))), None)
  {
  }

  /**
   * A request with a session cookie that is then alone: refused for the first reason that there is, with no
   * row changed, or served as it asked.
   */
  lemma {:induction false} ServedAlone(s: State, r: nat, csrf: bool)
    requires r in s.requests && s.requests[r].Lookup? && s.requests[r].goal != SignOut(true)
    ensures
      var q, t := s.requests[r], Alone(s, r, csrf, 5);
      match Refusal(s, q.token)
      case Some(outcome) => Came(s, t, r, Ended(outcome), s.rows)
      case None =>
        var (outcome, rows) := Answer(s, q.token.value, q.goal, csrf);
        Came(s, t, r, Ended(outcome), rows)
  {
    var q := s.requests[r];
    if Refusal(s, q.token).Some? {
      hide Alone, Came, Refusal;
      RefusedAlone(s, r, csrf, 5);
    } else {
      ReadyAlone(s, r, csrf);
      if q.goal.Revoke? {
        hide Came, Alone, Refusal;
        RevokesAlone(s, r, csrf);
      } else {
        hide Refusal, Answer;
        HandledAlone(s, r, csrf);
      }
    }
  }

  lemma RefusalNone(s: State, token: Option<nat>)
    requires Refusal(s, token).None?
    ensures token.Some? && token.value in s.rows
  {
  }

  lemma {:induction false} HandledAlone(s: State, r: nat, csrf: bool)
    requires r in s.requests && s.requests[r].Lookup? && s.requests[r].goal != SignOut(true) && !s.requests[r].goal.Revoke?
    requires Refusal(s, s.requests[r].token).None?
    ensures
      var q := s.requests[r];
      q.token.Some? && q.token.value in s.rows
      && Came(s, Alone(s, r, csrf, 5), r, Ended(Answer(s, q.token.value, q.goal, csrf).0), Answer(s, q.token.value, q.goal, csrf).1)
  {
    var q := s.requests[r];
    RefusalNone(s, q.token);
    var id, goal := q.token.value, q.goal;
    var row := s.rows[id];
    ReadyAlone(s, r, csrf);
    var n := if goal == GetSession(false) then 2 else 3;
    var record := if goal == GetSession(false) then row else row.(seenAt := s.now);
    var t := Alone(s, r, csrf, n);
    var ready, before := Ready(id, row, s.now, record, goal), if goal == GetSession(false) then s.rows else Touched(s, id);
    assert Came(s, t, r, ready, before);
    HandlerStep(s, t, id, row, goal, csrf);
    CameNext(s, t, r, ready, before, csrf, 0);
    assert Alone(s, r, csrf, n + 1) == Step(t, Advance(r, csrf, 0));
    hide Step, Alone, Came, Answer, Decide, Touched, Refusal;
    EndedStays(s, r, csrf, n + 1, 5, Answer(s, id, goal, csrf).0, Answer(s, id, goal, csrf).1);
  }

  lemma {:induction false} RevokesAlone(s: State, r: nat, csrf: bool)
    requires r in s.requests && s.requests[r].Lookup? && s.requests[r].goal.Revoke? && Refusal(s, s.requests[r].token).None?
    ensures
      var q := s.requests[r];
      q.token.Some? && q.token.value in s.rows
      && Came(s, Alone(s, r, csrf, 5), r, Ended(Answer(s, q.token.value, q.goal, csrf).0), Answer(s, q.token.value, q.goal, csrf).1)
  {
    var q := s.requests[r];
    RefusalNone(s, q.token);
    var id, target := q.token.value, q.goal.target;
    var row := s.rows[id];
    var rows := Touched(s, id);
    ReadyAlone(s, r, csrf);
    var t := Alone(s, r, csrf, 3);
    var ready := Ready(id, row, s.now, row.(seenAt := s.now), q.goal);
    assert Came(s, t, r, ready, rows);
    RevokeHandler(s, t, id, row, target, csrf);
    CameNext(s, t, r, ready, rows, csrf, 0);
    var u := Alone(s, r, csrf, 4);
    assert u == Step(t, Advance(r, csrf, 0));
    var (outcome, after) := Answer(s, id, q.goal, csrf);
    if csrf && target in rows && rows[target].user == row.user {
      var goes := Target(id, row, s.now, target);
      assert Came(s, u, r, goes, rows);
      TargetHandler(u, id, row, s.now, target, csrf);
      CameNext(s, u, r, goes, rows, csrf, 0);
      assert Alone(s, r, csrf, 5) == Step(u, Advance(r, csrf, 0));
      hide Step, Alone, Decide, Touched, Refusal;
    } else {
      hide Step, Alone, Decide, Touched, Refusal;
      EndedStays(s, r, csrf, 4, 5, outcome, rows);
    }
  }

  /** A call of the server's own that is then alone revokes the session that it names, if it is there and the user's. */
  lemma {:induction false} ByIdAlone(s: State, r: nat, csrf: bool)
    requires r in s.requests && s.requests[r].ById?
    ensures
      var target, user, t := s.requests[r].target, s.requests[r].user, Alone(s, r, csrf, 2);
      if target in s.rows && (user.Some? ==> s.rows[target].user == user.value) then
        Came(s, t, r, Ended(Revoked(target)),
             if s.rows[target].revokedAt.Some? then s.rows else s.rows[target := s.rows[target].(revokedAt := Some(s.now))])
      else Came(s, t, r, Ended(NotFound), s.rows)
  {
    var q := s.requests[r];
    assert s.requests[r := q] == s.requests;
    CameNext(s, s, r, q, s.rows, csrf, 0);
    var t := Alone(s, r, csrf, 1);
    assert t == Step(Alone(s, r, csrf, 0), Advance(r, csrf, 0));
    var p := Decide(s, q, csrf, 0).next;
    assert Came(s, t, r, p, s.rows);
    CameNext(s, t, r, p, s.rows, csrf, 0);
    assert Alone(s, r, csrf, 2) == Step(t, Advance(r, csrf, 0));
    hide Step, Alone;
  }

  // ---- Signing out everywhere ----

  /** The updates of a sign-out, one for each of `picks`. */
  function Swept(s: State, r: nat, picks: seq<nat>): State
    decreases picks
  {
    if picks == [] then s else Step(Swept(s, r, picks[..|picks| - 1]), Advance(r, true, picks[|picks| - 1]))
  }

  /** The rows with these sessions revoked. */
  function RevokedRows(rows: map<nat, Row>, ids: set<nat>, now: int): map<nat, Row> {
    map i | i in rows :: if i in ids then rows[i].(revokedAt := Some(now)) else rows[i]
  }

  function Members(picks: seq<nat>): set<nat> {
    set i | i in picks
  }

  /** All sessions of the user. */
  function UserIds(rows: map<nat, Row>, user: string): set<nat> {
    set i | i in rows && rows[i].user == user
  }

  /** Those that are not revoked. */
  function UnrevokedIds(rows: map<nat, Row>, user: string): set<nat> {
    set i | i in rows && rows[i].user == user && rows[i].revokedAt.None?
  }

  /** A sign-out asks for the sessions of its user, and is about to revoke those that are not revoked yet. */
  lemma SweepBegins(s: State, r: nat, id: nat, row: Row, at: int, record: Row)
    requires r in s.requests && s.requests[r] == Ready(id, row, at, record, SignOut(true))
    ensures
      Came(s, Step(s, Advance(r, true, 0)), r,
           Sweep(id, row, at, UserIds(s.rows, row.user), UnrevokedIds(s.rows, row.user)), s.rows)
    ensures Came(s, Step(s, Advance(r, false, 0)), r, Ended(CsrfFailed), s.rows)
  {
    var q := s.requests[r];
    assert s.requests[r := q] == s.requests;
    CameNext(s, s, r, q, s.rows, true, 0);
    CameNext(s, s, r, q, s.rows, false, 0);
    var m := Decide(s, q, true, 0);
    assert forall i :: i in m.next.seen <==> i in UserIds(s.rows, row.user);
    assert m.next.seen == UserIds(s.rows, row.user);
    assert forall i :: i in m.next.left <==> i in UnrevokedIds(s.rows, row.user);
    assert m.next.left == UnrevokedIds(s.rows, row.user);
    hide Came;
  }

  lemma {:induction false} SweptAlone(s: State, r: nat, picks: seq<nat>)
    requires r in s.requests && s.requests[r].Sweep?
    requires Members(picks) <= s.requests[r].left && forall i, j :: 0 <= i < j < |picks| ==> picks[i] != picks[j]
    ensures
      var q := s.requests[r];
      Came(s, Swept(s, r, picks), r, q.(left := q.left - Members(picks)), RevokedRows(s.rows, Members(picks), s.now))
    decreases picks
  {
    var q := s.requests[r];
    if picks == [] {
      assert s.requests[r := q] == s.requests;
      assert q.left - Members([]) == q.left;
      assert RevokedRows(s.rows, Members([]), s.now) == s.rows;
    } else {
      var front, pick := picks[..|picks| - 1], picks[|picks| - 1];
      assert picks == front + [pick];
      assert Members(picks) == Members(front) + {pick};
      SweptAlone(s, r, front);
      var t := Swept(s, r, front);
      var p, rows := q.(left := q.left - Members(front)), RevokedRows(s.rows, Members(front), s.now);
      assert pick in Members(picks) && pick !in Members(front);
      CameNext(s, t, r, p, rows, true, pick);
      SweepDecides(t, p, pick);
      SweptRows(s.rows, Members(front), pick, s.now);
      assert p.left - {pick} == q.left - Members(picks);
      hide Step, Decide, RevokedRows, Members;
    }
  }

  lemma SweepDecides(s: State, q: Request, pick: nat)
    requires q.Sweep? && pick in q.left
    ensures
      var m := Decide(s, q, true, pick);
      && m.next == q.(left := q.left - {pick})
      && m.change == if pick in s.rows then Some(Change(Some(q.read.user), pick, s.rows[pick].(revokedAt := Some(s.now)))) else None
  {
  }

  lemma SweptRows(rows: map<nat, Row>, ids: set<nat>, pick: nat, now: int)
    requires pick !in ids
    ensures
      var before := RevokedRows(rows, ids, now);
      RevokedRows(rows, ids + {pick}, now) ==
        if pick in before then before[pick := before[pick].(revokedAt := Some(now))] else before
  {
  }

  lemma SweepEnds(s: State, t: State, r: nat, q: Request, rows: map<nat, Row>)
    requires Came(s, t, r, q, rows) && q.Sweep? && q.left == {}
    ensures Came(s, Step(t, Advance(r, true, 0)), r, Ended(SignedOutAll(q.read.user, q.seen)), rows)
  {
    CameNext(s, t, r, q, rows, true, 0);
    assert Decide(t, q, true, 0) == Go(Ended(SignedOutAll(q.read.user, q.seen)));
    hide Step;
  }

  lemma CameTwice(s: State, t: State, u: State, r: nat, q: Request, p: Request, first: map<nat, Row>, second: map<nat, Row>)
    requires Came(s, t, r, q, first) && Came(t, u, r, p, second)
    ensures Came(s, u, r, p, second)
  {
  }

  /**
   * A sign-out of all sessions that is alone from its query on, in whatever order it takes them: afterwards
   * the user's sessions that were not revoked are revoked, now, and no other row has changed.
   */
  lemma {:induction false} SignsOutAlone(s: State, r: nat, id: nat, row: Row, at: int, record: Row, picks: seq<nat>)
    requires r in s.requests && s.requests[r] == Ready(id, row, at, record, SignOut(true))
    requires Members(picks) == UnrevokedIds(s.rows, row.user) && forall i, j :: 0 <= i < j < |picks| ==> picks[i] != picks[j]
    ensures
      Came(s, Step(Swept(Step(s, Advance(r, true, 0)), r, picks), Advance(r, true, 0)), r,
           Ended(SignedOutAll(row.user, UserIds(s.rows, row.user))), RevokedRows(s.rows, UnrevokedIds(s.rows, row.user), s.now))
  {
    var u := Step(s, Advance(r, true, 0));
    var ids := UnrevokedIds(s.rows, row.user);
    var sweep := Sweep(id, row, at, UserIds(s.rows, row.user), ids);
    SweepBegins(s, r, id, row, at, record);
    assert r in u.requests && u.requests[r] == sweep && u.rows == s.rows && u.now == s.now;
    SweptAlone(u, r, picks);
    assert sweep.left - ids == {};
    hide Step, Swept, RevokedRows, Members, UserIds, UnrevokedIds, Came;
    var v, rows, end := Swept(u, r, picks), RevokedRows(s.rows, ids, s.now), Ended(SignedOutAll(row.user, sweep.seen));
    SweepEnds(u, v, r, sweep.(left := {}), rows);
    CameTwice(s, u, Step(v, Advance(r, true, 0)), r, sweep, end, s.rows, rows);
  }

  /** The steps of a request alone are a part of a run. */
  lemma {:induction false} AloneRuns(actions: seq<Action>, r: nat, csrf: bool, n: nat)
    ensures Alone(Run(actions), r, csrf, n) == Run(actions + seq(n, _ => Advance(r, csrf, 0)))
    decreases n
  {
    hide Step;
    var a := Advance(r, csrf, 0);
    if n == 0 {
      assert actions + seq(0, _ => a) == actions;
    } else {
      AloneRuns(actions, r, csrf, n - 1);
      var all := actions + seq(n, _ => a);
      assert all[..|all| - 1] == actions + seq(n - 1, _ => a);
      assert all == all[..|all| - 1] + [a];
      RunMore(actions + seq(n - 1, _ => a), a);
    }
  }
}
