/** Cookie sessions over whole runs: what is returned, what signing out does, whose rows are written. */
module CookieSessionSafety {
  import opened Text
  import opened CookieSessions
  import opened CookieSessionTable
  import opened CookieSessionRequests

  // ---- What every run keeps ----

  /** The row was in the table, at this time, when the request made its first query. */
  ghost predicate ReadAt(actions: seq<Action>, r: nat, id: nat, read: Row, at: int) {
    exists k :: 0 <= k <= |actions| && FoundAt(Run(actions[..k]), r, id, read, at)
  }

  predicate FoundAt(s: State, r: nat, id: nat, read: Row, at: int) {
    && r in s.requests && s.requests[r].Lookup? && s.requests[r].token == Some(id)
    && id in s.rows && s.rows[id] == read && s.now == at && Live(read, at)
  }

  /** The session that the request found, once it has. */
  function FoundBy(q: Request): Option<(nat, Row, int)> {
    match q
    case FindUser(id, read, at, _) => Some((id, read, at))
    case Touch(id, read, at, _) => Some((id, read, at))
    case Ready(id, read, at, _, _) => Some((id, read, at))
    case Target(id, read, at, _) => Some((id, read, at))
    case Sweep(id, read, at, _, _) => Some((id, read, at))
    case Ended(Returned(id, read, at)) => Some((id, read, at))
    case _ => None
  }

  lemma ServeFinds(s: State, q: Request, csrf: bool)
    requires q.Ready?
    ensures FoundBy(Serve(s, q, csrf).next).Some? ==> FoundBy(Serve(s, q, csrf).next) == FoundBy(q)
  {
    hide RowsOf, Live, Revoking, Updating;
  }

  lemma AdvanceFinds(s: State, r: nat, csrf: bool, pick: nat)
    requires r in s.requests && FoundBy(Decide(s, s.requests[r], csrf, pick).next).Some?
    ensures
      var found := FoundBy(Decide(s, s.requests[r], csrf, pick).next).value;
      FoundBy(s.requests[r]) == Some(found) || FoundAt(s, r, found.0, found.1, found.2)
  {
    hide Serve, Revoking, Updating;
    if s.requests[r].Ready? {
      ServeFinds(s, s.requests[r], csrf);
    }
  }

  lemma StepFinds(s: State, a: Action, r: nat)
    requires r in Step(s, a).requests && FoundBy(Step(s, a).requests[r]).Some?
    ensures
      var found := FoundBy(Step(s, a).requests[r]).value;
      || (r in s.requests && FoundBy(s.requests[r]) == Some(found))
      || FoundAt(s, r, found.0, found.1, found.2)
  {
    OthersStay(s, a);
    if a.Advance? && a.request in s.requests && a.request == r {
      AdvanceFinds(s, r, a.csrf, a.pick);
    }
    hide Decide, FoundAt;
  }

  lemma ReadAtExtends(actions: seq<Action>, a: Action, r: nat, id: nat, read: Row, at: int)
    requires ReadAt(actions, r, id, read, at)
    ensures ReadAt(actions + [a], r, id, read, at)
  {
    hide Run, FoundAt;
    var k :| 0 <= k <= |actions| && FoundAt(Run(actions[..k]), r, id, read, at);
    assert (actions + [a])[..k] == actions[..k];
  }

  /** Whatever a request was told it found, it found live, in the table, at its own first query. */
  lemma {:induction false} FoundWasLive(actions: seq<Action>, r: nat)
    requires r in Run(actions).requests && FoundBy(Run(actions).requests[r]).Some?
    ensures
      var found := FoundBy(Run(actions).requests[r]).value;
      ReadAt(actions, r, found.0, found.1, found.2)
  {
    hide Step, FoundAt, FoundBy;
    assert actions != [];
    var front, a := actions[..|actions| - 1], actions[|actions| - 1];
    var found := FoundBy(Run(actions).requests[r]).value;
    StepFinds(Run(front), a, r);
    if r in Run(front).requests && FoundBy(Run(front).requests[r]) == Some(found) {
      FoundWasLive(front, r);
    } else {
      assert front[..|front|] == front;
    }
    assert actions == front + [a];
    ReadAtExtends(front, a, r, found.0, found.1, found.2);
  }

  /** A session is returned only if it was unrevoked and unexpired when the request read it. */
  lemma ReturnedWasLive(actions: seq<Action>, r: nat)
    requires r in Run(actions).requests && Run(actions).requests[r].Ended? && Run(actions).requests[r].outcome.Returned?
    ensures
      var outcome := Run(actions).requests[r].outcome;
      Live(outcome.read, outcome.at) && ReadAt(actions, r, outcome.id, outcome.read, outcome.at)
  {
    FoundWasLive(actions, r);
    hide Run;
    var outcome := Run(actions).requests[r].outcome;
    var k :| 0 <= k <= |actions| && FoundAt(Run(actions[..k]), r, outcome.id, outcome.read, outcome.at);
  }

  lemma RunMore(actions: seq<Action>, a: Action)
    ensures Run(actions + [a]) == Step(Run(actions), a)
  {
    hide Step;
    assert (actions + [a])[..|actions + [a]| - 1] == actions;
  }

  /** It may have been revoked by the time it is returned. */
  lemma ReturnedThoughRevoked()
    ensures exists actions, r ::
              var s := Run(actions);
              r in s.requests && s.requests[r].Ended? && s.requests[r].outcome.Returned?
              && s.requests[r].outcome.id in s.rows && s.rows[s.requests[r].outcome.id].revokedAt.Some?
  {
    var row := Row("u", None, Some(9), 0, {});
    var goal := GetSession(true);
    var before := RevokedBetween(row, goal);
    var s := Run(before);
    hide Run;
    var actions := before + [Advance(0, true, 0)];
    RunMore(before, Advance(0, true, 0));
    assert 0 in Run(actions).requests && Run(actions).requests[0] == Ended(Returned(0, row, 0));
  }

  /** A run in which the session is revoked between the first query of a request and its touch. */
  lemma RevokedBetween(row: Row, goal: Goal) returns (actions: seq<Action>)
    requires row == Row("u", None, Some(9), 0, {}) && goal == GetSession(true)
    ensures
      var s := Run(actions);
      && 0 in s.requests && s.requests[0].Ready? && s.requests[0].id == 0 && s.requests[0].read == row
      && s.requests[0].at == 0 && s.requests[0].goal == goal
      && 0 in s.rows && s.rows[0].revokedAt.Some?
  {
    var found := FoundThenRevoked(row, goal);
    hide Run;
    RunMore(found, Advance(0, true, 0));
    var touching := found + [Advance(0, true, 0)];
    assert Run(touching).rows == Run(found).rows && Run(touching).requests[0] == Touch(0, row, 0, goal);
    RunMore(touching, Advance(0, true, 0));
    actions := touching + [Advance(0, true, 0)];
  }

  lemma FoundThenRevoked(row: Row, goal: Goal) returns (actions: seq<Action>)
    requires row == Row("u", None, Some(9), 0, {}) && goal == GetSession(true)
    ensures
      var s := Run(actions);
      && s.rows == map[0 := row.(revokedAt := Some(0))] && s.users == {"u"}
      && 0 in s.requests && s.requests[0] == FindUser(0, row, 0, goal)
  {
    var begun := BothBegun(row, goal);
    hide Run;
    RunMore(begun, Advance(0, true, 0));
    var found := begun + [Advance(0, true, 0)];
    var s := Run(begun);
    assert Run(found) == s.(requests := s.requests[0 := FindUser(0, row, 0, goal)]);
    RunMore(found, Advance(1, true, 0));
    var seen := found + [Advance(1, true, 0)];
    assert Run(seen) == Run(found).(requests := Run(found).requests[1 := ByIdFound(0, None)]);
    RunMore(seen, Advance(1, true, 0));
    actions := seen + [Advance(1, true, 0)];
  }

  /** The session is there, and no request has arrived. */
  lemma SessionIssued(row: Row) returns (actions: seq<Action>)
    requires row == Row("u", None, Some(9), 0, {})
    ensures Run(actions) == State(0, {"u"}, map[0 := row], map[], map[], [row], [], [])
  {
    var added := [AddUser("u")];
    RunMore([], AddUser("u"));
    assert [] + added == added;
    assert Run([]) == INITIAL;
    hide Run;
    assert Run(added) == State(0, {"u"}, map[], map[], map[], [], [], []);
    RunMore(added, Issue("u", 9, {}));
    actions := added + [Issue("u", 9, {})];
  }

  lemma RequestArrives(before: seq<Action>, r: nat, q: Request) returns (actions: seq<Action>)
    requires r !in Run(before).requests && (q.Lookup? || q.ById?)
    ensures
      var s := Run(before);
      Run(actions) == s.(requests := s.requests[r := q], origins := s.origins[r := q])
  {
    RunMore(before, Arrive(r, q));
    actions := before + [Arrive(r, q)];
  }

  lemma BothBegun(row: Row, goal: Goal) returns (actions: seq<Action>)
    requires row == Row("u", None, Some(9), 0, {}) && goal == GetSession(true)
    ensures
      var s := Run(actions);
      && s.now == 0 && s.users == {"u"} && s.rows == map[0 := row]
      && s.requests == map[0 := Lookup(Some(0), goal), 1 := ById(0, None)]
  {
    hide Run;
    var issued := SessionIssued(row);
    var one := RequestArrives(issued, 0, Lookup(Some(0), goal));
    actions := RequestArrives(one, 1, ById(0, None));
  }

  // ---- Exactly when a returned session still stands ----

  /** The session is there and not revoked. */
  predicate Standing(s: State, id: nat) {
    id in s.rows && s.rows[id].revokedAt.None?
  }

  /** The next step of a request at this point revokes the session, if that is still there. */
  predicate Revokes(q: Request, csrf: bool, pick: nat, id: nat) {
    match q
    case Ready(own, _, _, _, goal) => goal == SignOut(false) && csrf && own == id
    case Target(_, _, _, target) => target == id
    case Sweep(_, _, _, _, left) => pick == id && id in left
    case ByIdFound(target, _) => target == id
    case _ => false
  }

  /** The step deletes or revokes the session, which is standing. */
  predicate Ends(s: State, a: Action, id: nat) {
    && Standing(s, id)
    && match a
       case DeleteSessions(user) => s.rows[id].user == user
       case Advance(r, csrf, pick) => r in s.requests && Revokes(s.requests[r], csrf, pick, id)
       case _ => false
  }

  /** A step of a request revokes the session exactly at these points, and changes no other session's end. */
  lemma DecideStands(s: State, r: nat, q: Request, csrf: bool, pick: nat, id: nat)
    requires Standing(s, id)
    ensures
      var t := Make(s, r, Decide(s, q, csrf, pick));
      && id in t.rows && t.rows[id].expiresAt == s.rows[id].expiresAt
      && (Standing(t, id) <==> !Revokes(q, csrf, pick, id))
  {
    hide Expired, Live, RowsOf;
  }

  /** A standing session stands after a step, with the same end, exactly if the step does not end it. */
  lemma StepStands(s: State, a: Action, id: nat)
    requires Numbered(s) && Standing(s, id)
    ensures Standing(Step(s, a), id) <==> !Ends(s, a, id)
    ensures Standing(Step(s, a), id) ==> Step(s, a).rows[id].expiresAt == s.rows[id].expiresAt
  {
    if a.Advance? && a.request in s.requests {
      DecideStands(s, a.request, s.requests[a.request], a.csrf, a.pick, id);
    }
    hide Decide, Make, Revokes;
  }

  /** No step from here on ends the session. */
  predicate NeverEnds(s: State, actions: seq<Action>, id: nat) {
    forall k :: 0 <= k < |actions| ==> !Ends(RunFrom(s, actions[..k]), actions[k], id)
  }

  lemma {:induction false} NeverEndsSplits(s: State, actions: seq<Action>, id: nat)
    requires actions != []
    ensures
      var front := actions[..|actions| - 1];
      NeverEnds(s, actions, id) <==> NeverEnds(s, front, id) && !Ends(RunFrom(s, front), actions[|actions| - 1], id)
  {
    hide RunFrom, Ends;
    var front := actions[..|actions| - 1];
    assert forall k :: 0 <= k < |front| ==> front[..k] == actions[..k] && front[k] == actions[k];
  }

  /** From any reachable state, a standing session stands later exactly if no step between ends it. */
  lemma {:induction false} StandsUnlessEnded(before: seq<Action>, after: seq<Action>, id: nat)
    requires Standing(Run(before), id)
    ensures
      var s, t := Run(before), RunFrom(Run(before), after);
      && (Standing(t, id) <==> NeverEnds(s, after, id))
      && (Standing(t, id) ==> t.rows[id].expiresAt == s.rows[id].expiresAt)
  {
    var s := Run(before);
    if after != [] {
      var front, a := after[..|after| - 1], after[|after| - 1];
      StandsUnlessEnded(before, front, id);
      NeverEndsSplits(s, after, id);
      RunGrows(before, after);
      RunGrows(before, front);
      assert RunFrom(s, after) == Step(RunFrom(s, front), a);
      hide Run, RunFrom, Step, NeverEnds, Ends;
      if Standing(RunFrom(s, front), id) {
        StepStands(RunFrom(s, front), a, id);
      } else {
        RevokedOnce(before, front, a, id);
      }
    }
  }

  /** What stopped standing does not stand again. */
  lemma {:induction false} RevokedOnce(before: seq<Action>, front: seq<Action>, a: Action, id: nat)
    requires Standing(Run(before), id) && !Standing(RunFrom(Run(before), front), id)
    ensures !Standing(Step(RunFrom(Run(before), front), a), id)
  {
    RunNumbered(before);
    RunGrows(before, front);
    StepGrows(RunFrom(Run(before), front), a);
    hide Run, RunFrom, Step;
  }

  /**
   * A session that a request returned was live at the request's own first query, and at any later time
   * it is unrevoked exactly if no step since that query ended it, and live exactly if it has not expired
   * either.
   */
  lemma ReturnedStandsUnlessEnded(actions: seq<Action>, r: nat) returns (k: nat)
    requires r in Run(actions).requests && Run(actions).requests[r].Ended? && Run(actions).requests[r].outcome.Returned?
    ensures
      var s, outcome := Run(actions), Run(actions).requests[r].outcome;
      && k <= |actions| && FoundAt(Run(actions[..k]), r, outcome.id, outcome.read, outcome.at)
      && (Standing(s, outcome.id) <==> NeverEnds(Run(actions[..k]), actions[k..], outcome.id))
      && (outcome.id in s.rows && Live(s.rows[outcome.id], s.now)
          <==> NeverEnds(Run(actions[..k]), actions[k..], outcome.id) && !Expired(outcome.read, s.now))
  {
    ReturnedWasLive(actions, r);
    var outcome := Run(actions).requests[r].outcome;
    hide Run, NeverEnds;
    k :| 0 <= k <= |actions| && FoundAt(Run(actions[..k]), r, outcome.id, outcome.read, outcome.at);
    StandsUnlessEnded(actions[..k], actions[k..], outcome.id);
    RunsCompose(actions[..k], actions[k..]);
    assert actions[..k] + actions[k..] == actions;
  }

  // ---- Signing out, and lists ----

  /**
   * Once a sign-out of all sessions has ended, every session that its query saw is revoked or
   * deleted, and stays so; and these were all the user's sessions in the table at that time.
   */
  lemma {:induction false} SignOutRevokesAll(before: seq<Action>, after: seq<Action>, r: nat, id: nat)
    requires
      r in Run(before).requests && Run(before).requests[r].Ended? && Run(before).requests[r].outcome.SignedOutAll?
      && id in Run(before).requests[r].outcome.seen
    ensures
      var s := Run(before);
      var t := RunFrom(s, after);
      && (id in t.rows ==> t.rows[id].revokedAt.Some?)
      && Saw(s.queries, r, s.requests[r].outcome.user, s.requests[r].outcome.seen)
  {
    RunRequests(before);
    var s := Run(before);
    hide Run;
    assert RequestOk(s, r, s.requests[r]);
    assert Gone(s, id);
    RevocationIsFinal(before, after, id);
  }

  /** A list of sessions holds exactly the user's live sessions in the table that the request saw. */
  lemma ListedAreLive(actions: seq<Action>, r: nat)
    requires r in Run(actions).requests && Run(actions).requests[r].Ended? && Run(actions).requests[r].outcome.Listed?
    ensures
      var outcome := Run(actions).requests[r].outcome;
      SawLive(Run(actions).queries, r, outcome.user, outcome.ids)
  {
    RunRequests(actions);
    hide Run, SawLive;
    assert RequestOk(Run(actions), r, Run(actions).requests[r]);
  }

  // ---- Whose rows are written ----

  /** The user that a request acts for, once it may write. */
  function ActorOf(q: Request): Option<string> {
    match q
    case FindUser(_, read, _, _) => Some(read.user)
    case Touch(_, read, _, _) => Some(read.user)
    case Ready(_, read, _, _, _) => Some(read.user)
    case Target(_, read, _, _) => Some(read.user)
    case Sweep(_, read, _, _, _) => Some(read.user)
    case ByIdFound(_, user) => user
    case _ => None
  }

  /** The request is the one that arrived, and acts for the session that it came with. */
  predicate FromOrigin(s: State, r: nat) {
    && r in s.origins && r in s.requests
    && (s.origins[r].Lookup? || s.origins[r].ById?)
    && Stems(s.created, s.origins[r], s.requests[r])
  }

  predicate Stems(created: seq<Row>, origin: Request, q: Request) {
    match q
    case Lookup(_, _) => origin == q
    case ById(_, _) => origin == q
    case ByIdFound(target, user) => origin == ById(target, user)
    case FindUser(id, _, _, goal) => origin == Lookup(Some(id), goal)
    case Touch(id, _, _, goal) => origin == Lookup(Some(id), goal)
    case Ready(id, _, _, _, goal) => origin == Lookup(Some(id), goal)
    case Target(id, _, _, target) => origin == Lookup(Some(id), Revoke(target))
    case Sweep(id, _, _, _, _) => origin == Lookup(Some(id), SignOut(true))
    case Ended(outcome) => EndsAs(created, origin, outcome)
  }

  /** The user of the session that a request came with. */
  predicate OfUser(created: seq<Row>, origin: Request, user: string) {
    origin.Lookup? && origin.token.Some? && origin.token.value < |created| && created[origin.token.value].user == user
  }

  /** A request has an outcome only of what it asked for, and about the sessions that it named. */
  predicate EndsAs(created: seq<Row>, origin: Request, outcome: Outcome) {
    match outcome
    case Returned(id, _, _) => CameWith(origin, id) && origin.goal.GetSession?
    case Listed(user, _) => OfUser(created, origin, user) && origin.goal.ListSessions?
    case SignedOut(id) => origin == Lookup(Some(id), SignOut(false))
    case SignedOutAll(user, _) => OfUser(created, origin, user) && origin.goal == SignOut(true)
    case Revoked(target) => (origin.Lookup? && origin.goal == Revoke(target)) || (origin.ById? && origin.target == target)
    case Confirmed(id) => origin == Lookup(Some(id), ConfirmTwoFactor)
    case CsrfFailed => origin.Lookup? && !origin.goal.GetSession? && !origin.goal.ListSessions?
    case NotFound => origin.ById? || (origin.Lookup? && origin.goal.Revoke?)
    case _ => origin.Lookup?
  }

  predicate CameWith(origin: Request, id: nat) {
    origin.Lookup? && origin.token == Some(id)
  }

  /**
   * A write of a request with a session cookie changes a row of the user of that session. A write of
   * a call of the server's own changes the row that the call names, of the user that it names, if any.
   */
  predicate WriteOk(s: State, w: Write) {
    && w.id < |s.created| && s.created[w.id].user == w.owner && w.request in s.origins
    && match s.origins[w.request]
       case Lookup(token, _) =>
         token.Some? && token.value < |s.created| && w.owner == s.created[token.value].user && w.actor == Some(w.owner)
       case ById(target, user) => w.id == target && w.actor == user && (user.Some? ==> w.owner == user.value)
       case _ => false
  }

  predicate WritesOk(s: State) {
    forall k :: 0 <= k < |s.log| ==> WriteOk(s, s.log[k])
  }

  ghost predicate OriginsOk(s: State) {
    forall r :: r in s.requests ==> FromOrigin(s, r)
  }

  /** A request updates a row of the user that it acts for, and a call of the server's own the row it names. */
  predicate MayChange(s: State, q: Request, m: Move) {
    m.change.Some? ==>
      var c := m.change.value;
      && c.id in s.rows && c.row.user == s.rows[c.id].user && c.actor == ActorOf(q)
      && (c.actor.Some? || q.ByIdFound?)
      && (c.actor.Some? ==> s.rows[c.id].user == c.actor.value)
      && (q.ByIdFound? ==> c.id == q.target)
  }

  lemma ServeMayChange(s: State, r: nat, q: Request, csrf: bool)
    requires Numbered(s) && q.Ready? && RequestOk(s, r, q)
    ensures MayChange(s, q, Serve(s, q, csrf))
  {
    hide RowsOf, Live;
  }

  lemma DecideMayChange(s: State, r: nat, q: Request, csrf: bool, pick: nat)
    requires Numbered(s) && RequestOk(s, r, q)
    ensures MayChange(s, q, Decide(s, q, csrf, pick))
  {
    hide Serve, Saw, SawLive, Live, Gone, Expired;
    if q.Ready? {
      ServeMayChange(s, r, q, csrf);
    }
  }

  lemma ServeStems(s: State, r: nat, q: Request, csrf: bool, origin: Request)
    requires q.Ready? && RequestOk(s, r, q) && Stems(s.created, origin, q)
    ensures Stems(s.created, origin, Serve(s, q, csrf).next)
  {
    hide RowsOf, Live, Revoking, Updating;
  }

  lemma DecideStems(s: State, r: nat, q: Request, csrf: bool, pick: nat, origin: Request)
    requires RequestOk(s, r, q) && Stems(s.created, origin, q)
    ensures Stems(s.created, origin, Decide(s, q, csrf, pick).next)
  {
    hide Serve, Saw, SawLive, Live, Gone, Expired, Revoking, Updating;
    if q.Ready? {
      ServeStems(s, r, q, csrf, origin);
    }
  }

  lemma OriginKept(s: State, t: State, r: nat)
    requires FromOrigin(s, r) && s.created <= t.created
    requires r in t.requests && t.requests[r] == s.requests[r] && r in t.origins && t.origins[r] == s.origins[r]
    ensures FromOrigin(t, r)
  {
  }

  lemma StepOrigins(s: State, a: Action)
    requires Numbered(s) && RequestsOk(s) && OriginsOk(s)
    ensures OriginsOk(Step(s, a))
  {
    var t := Step(s, a);
    StepGrows(s, a);
    OthersStay(s, a);
    GrowsFields(s, t);
    if a.Advance? && a.request in s.requests {
      var r := a.request;
      assert FromOrigin(s, r);
      DecideStems(s, r, s.requests[r], a.csrf, a.pick, s.origins[r]);
      assert FromOrigin(t, r);
    }
    if a.Arrive? && a.request !in s.requests && (a.start.Lookup? || a.start.ById?) {
      assert FromOrigin(t, a.request);
    }
    hide AdvanceRequest, TableGrows, RequestOk, Numbered, FromOrigin;
    forall r | r in t.requests
      ensures FromOrigin(t, r)
    {
      if r in s.requests && t.requests[r] == s.requests[r] && !(a.Advance? && a.request == r) {
        OriginKept(s, t, r) by { assert FromOrigin(s, r); InOrigins(s, r); }
      }
    }
  }

  lemma InOrigins(s: State, r: nat)
    requires FromOrigin(s, r)
    ensures r in s.origins
  {
  }

  /** A change that this request may make is in order. */
  lemma ChangedOk(s: State, r: nat, m: Move)
    requires Numbered(s) && r in s.requests && RequestOk(s, r, s.requests[r]) && FromOrigin(s, r)
    requires MayChange(s, s.requests[r], m) && m.change.Some?
    ensures WriteOk(s, Write(r, m.change.value.actor, m.change.value.id, m.change.value.row.user))
  {
    hide Saw, SawLive, Live, Gone;
  }

  lemma WriteKept(s: State, t: State, w: Write)
    requires WriteOk(s, w) && s.created <= t.created
    requires forall r :: r in s.origins ==> r in t.origins && t.origins[r] == s.origins[r]
    ensures WriteOk(t, w)
  {
  }

  /** A step writes at most once, and what it writes is in order. */
  lemma StepLogs(s: State, a: Action)
    requires Numbered(s) && RequestsOk(s) && OriginsOk(s)
    ensures Step(s, a).log == s.log || exists w :: WriteOk(s, w) && Step(s, a).log == s.log + [w]
  {
    if a.Advance? && a.request in s.requests {
      var r := a.request;
      var m := Decide(s, s.requests[r], a.csrf, a.pick);
      DecideMayChange(s, r, s.requests[r], a.csrf, a.pick);
      hide Decide;
      assert RequestOk(s, r, s.requests[r]) && FromOrigin(s, r);
      if m.change.Some? {
        ChangedOk(s, r, m);
      }
    }
  }

  lemma StepWrites(s: State, a: Action)
    requires Numbered(s) && RequestsOk(s) && OriginsOk(s) && WritesOk(s) && s.origins.Keys == s.requests.Keys
    ensures WritesOk(Step(s, a))
  {
    var t := Step(s, a);
    StepGrows(s, a);
    OthersStay(s, a);
    GrowsFields(s, t);
    StepLogs(s, a);
    assert forall r :: r in s.origins ==> r in t.origins && t.origins[r] == s.origins[r];
    hide Step, TableGrows, Numbered, RequestOk, FromOrigin, WriteOk;
    forall k | 0 <= k < |t.log|
      ensures WriteOk(t, t.log[k])
    {
      assert WriteOk(s, t.log[k]);
      WriteKept(s, t, t.log[k]);
    }
  }

  /** In every run, a request with a session cookie writes rows of the user of that session only. */
  lemma {:induction false} WritesOwnRowsOnly(actions: seq<Action>)
    ensures WritesOk(Run(actions)) && OriginsOk(Run(actions))
    ensures Run(actions).origins.Keys == Run(actions).requests.Keys
  {
    hide Step, WriteOk, RequestOk, FromOrigin;
    if actions != [] {
      var front := actions[..|actions| - 1];
      WritesOwnRowsOnly(front);
      RunRequests(front);
      StepOrigins(Run(front), actions[|actions| - 1]);
      StepWrites(Run(front), actions[|actions| - 1]);
      StepKeys(Run(front), actions[|actions| - 1]);
    }
  }

  lemma StepKeys(s: State, a: Action)
    requires s.origins.Keys == s.requests.Keys
    ensures Step(s, a).origins.Keys == Step(s, a).requests.Keys
  {
    hide Decide;
  }

  /** Signing out of all sessions writes no row of another user. */
  lemma SignOutTouchesNoOther(actions: seq<Action>, r: nat, k: nat)
    requires r in Run(actions).requests && k < |Run(actions).log| && Run(actions).log[k].request == r
    requires Run(actions).requests[r].Ended? && Run(actions).requests[r].outcome.SignedOutAll?
    ensures Run(actions).log[k].owner == Run(actions).requests[r].outcome.user
    ensures WriteOk(Run(actions), Run(actions).log[k])
  {
    WritesOwnRowsOnly(actions);
    hide Run;
    assert WriteOk(Run(actions), Run(actions).log[k]) && FromOrigin(Run(actions), r);
  }

  // ---- A revoked session is of no use ----

  /** The request carries the token of a session that is gone, and has got nothing for it. */
  predicate Powerless(s: State, r: nat, id: nat) {
    && Gone(s, id) && r in s.requests
    && (match s.requests[r]
        case Lookup(token, _) => token == Some(id)
        case Ended(outcome) => outcome.Unauthenticated? || outcome.RevokedSession?
        case _ => false)
    && forall k :: 0 <= k < |s.log| ==> s.log[k].request != r
  }

  lemma PowerlessStays(s: State, a: Action, r: nat, id: nat)
    requires Numbered(s) && RequestsOk(s) && Powerless(s, r, id)
    ensures Powerless(Step(s, a), r, id)
  {
    var t := Step(s, a);
    StepGrows(s, a);
    GoneKept(s, t);
    OthersStay(s, a);
    hide TableGrows;
    if a.Advance? && a.request == r {
      assert Decide(s, s.requests[r], a.csrf, a.pick).change.None?;
    }
    hide Decide;
  }

  /** A request that comes with a revoked session returns nothing and writes nothing, ever. */
  lemma {:induction false} RevokedSessionActsNever(before: seq<Action>, after: seq<Action>, r: nat, id: nat)
    requires Powerless(Run(before), r, id)
    ensures Powerless(RunFrom(Run(before), after), r, id)
  {
    hide Step, Powerless, RequestOk;
    if after != [] {
      var front := after[..|after| - 1];
      RevokedSessionActsNever(before, front, r, id);
      RunsCompose(before, front);
      RunRequests(before + front);
      PowerlessStays(RunFrom(Run(before), front), after[|after| - 1], r, id);
    }
  }

  lemma {:induction false} RunsCompose(before: seq<Action>, after: seq<Action>)
    ensures RunFrom(Run(before), after) == Run(before + after)
  {
    hide Step;
    if after == [] {
      assert before + after == before;
    } else {
      RunsCompose(before, after[..|after| - 1]);
      assert (before + after)[..|before + after| - 1] == before + after[..|after| - 1];
    }
  }
}
