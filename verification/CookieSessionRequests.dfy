/** What a request with a session cookie knows at each of its points. */
module CookieSessionRequests {
  import opened Text
  import opened CookieSessions
  import opened CookieSessionTable

  // ---- What requests know ----

  /** The session is revoked or deleted, for good. */
  predicate Gone(s: State, i: nat) {
    i < |s.created| && (i in s.rows ==> s.rows[i].revokedAt.Some?)
  }

  /** The first query of a request found this row, and the row passed its test. */
  predicate Known(s: State, id: nat, read: Row, at: int) {
    id < |s.created| && read.user == s.created[id].user && Live(read, at) && at <= s.now
  }

  /** The request asked for all sessions of the user, and these were there. */
  predicate Saw(queries: seq<Query>, r: nat, user: string, seen: set<nat>) {
    exists k :: 0 <= k < |queries| && queries[k].request == r && queries[k].user == user && RowsOf(queries[k].rows, user) == seen
  }

  /** The request asked for the sessions of the user, and these were the live ones. */
  predicate SawLive(queries: seq<Query>, r: nat, user: string, ids: set<nat>) {
    exists k :: 0 <= k < |queries| && queries[k].request == r && queries[k].user == user && AreLive(queries[k], ids)
  }

  /** The sessions of the user in the table that the query saw, unrevoked and with time left. */
  predicate AreLive(q: Query, ids: set<nat>) {
    && (forall i :: i in ids ==> i in q.rows)
    && (forall i :: i in q.rows ==>
          (i in ids <==> q.rows[i].user == q.user && q.rows[i].revokedAt.None?
                         && q.rows[i].expiresAt.Some? && q.at < q.rows[i].expiresAt.value))
  }

  predicate OwnedBy(s: State, ids: set<nat>, user: string) {
    forall i :: i in ids ==> i < |s.created| && s.created[i].user == user
  }

  predicate AllGone(s: State, ids: set<nat>) {
    forall i :: i in ids ==> Gone(s, i)
  }

  predicate RequestOk(s: State, r: nat, q: Request) {
    match q
    case Lookup(_, _) => true
    case FindUser(id, read, at, _) => Known(s, id, read, at)
    case Touch(id, read, at, _) => Known(s, id, read, at)
    case Ready(id, read, at, _, _) => Known(s, id, read, at)
    case Target(id, read, at, target) => Known(s, id, read, at) && OwnedBy(s, {target}, read.user)
    case Sweep(id, read, at, seen, left) =>
      Known(s, id, read, at) && Saw(s.queries, r, read.user, seen) && OwnedBy(s, seen, read.user)
      && left <= seen && AllGone(s, seen - left)
    case ById(_, _) => true
    case ByIdFound(target, user) => target < |s.created| && (user.Some? ==> s.created[target].user == user.value)
    case Ended(outcome) => OutcomeOk(s, r, outcome)
  }

  predicate OutcomeOk(s: State, r: nat, outcome: Outcome) {
    match outcome
    case Returned(id, read, at) => Known(s, id, read, at)
    case Listed(user, ids) => SawLive(s.queries, r, user, ids)
    case SignedOut(id) => Gone(s, id)
    case SignedOutAll(user, seen) => Saw(s.queries, r, user, seen) && AllGone(s, seen)
    case Revoked(target) => Gone(s, target)
    case _ => true
  }

  ghost predicate RequestsOk(s: State) {
    forall r :: r in s.requests ==> RequestOk(s, r, s.requests[r])
  }

  /** Facts about requests outlive the steps of others. */
  lemma FactsKept(s: State, t: State, r: nat, q: Request)
    requires TableGrows(s, t) && Numbered(s) && Numbered(t) && s.queries <= t.queries && RequestOk(s, r, q)
    ensures RequestOk(t, r, q)
  {
    GoneKept(s, t);
    SawKept(s.queries, t.queries);
    hide TableGrows, Numbered, Saw, SawLive, Gone;
    assert s.created <= t.created && s.now <= t.now by { GrowsFields(s, t); }
    hide Live;
  }

  lemma GrowsFields(s: State, t: State)
    requires TableGrows(s, t)
    ensures s.created <= t.created && s.now <= t.now
  {
  }

  lemma GoneKept(s: State, t: State)
    requires TableGrows(s, t)
    ensures forall i :: Gone(s, i) ==> Gone(t, i)
  {
  }

  lemma SawKept(queries: seq<Query>, more: seq<Query>)
    requires queries <= more
    ensures forall r, user, seen :: Saw(queries, r, user, seen) ==> Saw(more, r, user, seen)
    ensures forall r, user, ids :: SawLive(queries, r, user, ids) ==> SawLive(more, r, user, ids)
  {
    forall r, user, ids | SawLive(queries, r, user, ids)
      ensures SawLive(more, r, user, ids)
    {
      var k :| 0 <= k < |queries| && queries[k].request == r && queries[k].user == user && AreLive(queries[k], ids);
      assert more[k] == queries[k];
    }
    forall r, user, seen | Saw(queries, r, user, seen)
      ensures Saw(more, r, user, seen)
    {
      var k :| 0 <= k < |queries| && queries[k].request == r && queries[k].user == user && RowsOf(queries[k].rows, user) == seen;
      assert more[k] == queries[k];
    }
  }

  lemma RowOf(s: State, i: nat)
    requires Numbered(s) && i in s.rows
    ensures i < |s.created| && s.rows[i].user == s.created[i].user
  {
  }

  /** The row that a step revokes is gone after it. */
  lemma RevokingGone(s: State, r: nat, actor: Option<string>, id: nat, next: Request)
    requires id < |s.created|
    ensures Gone(Make(s, r, Move(next, Revoking(s, actor, id), None)), id)
  {
  }

  lemma SweepOk(s: State, r: nat, q: Request, pick: nat)
    requires Numbered(s) && q.Sweep? && RequestOk(s, r, q) && pick in q.left
    ensures
      var m := Decide(s, q, false, pick);
      RequestOk(Make(s, r, m), r, m.next)
  {
    var m := Decide(s, q, false, pick);
    var t := Make(s, r, m);
    DecideChanges(s, q, false, pick);
    MakeGrows(s, r, m);
    FactsKept(s, t, r, q);
    RevokingGone(s, r, Some(q.read.user), pick, m.next);
    hide TableGrows, Saw, SawLive, Known, Gone, Make, Revoking;
    assert q.seen - m.next.left == (q.seen - q.left) + {pick};
  }

  lemma ListOk(s: State, r: nat, q: Request, csrf: bool)
    requires q.Ready? && q.goal.ListSessions?
    ensures
      var m := Serve(s, q, csrf);
      RequestOk(Make(s, r, m), r, m.next)
  {
    var m := Serve(s, q, csrf);
    var queries := Make(s, r, m).queries;
    assert queries[|s.queries|] == Query(r, q.read.user, s.rows, s.now);
    assert AreLive(queries[|s.queries|], m.next.outcome.ids);
  }

  lemma SignOutOk(s: State, r: nat, q: Request, csrf: bool)
    requires Numbered(s) && q.Ready? && q.goal.SignOut? && RequestOk(s, r, q)
    ensures
      var m := Serve(s, q, csrf);
      RequestOk(Make(s, r, m), r, m.next)
  {
    hide SawLive, Live;
    var m := Serve(s, q, csrf);
    if csrf && q.goal.all {
      var t := Make(s, r, m);
      assert t.queries[|s.queries|] == Query(r, q.read.user, s.rows, s.now);
      assert Saw(t.queries, r, q.read.user, m.next.seen);
      hide Saw;
      assert forall i :: i in m.next.seen - m.next.left ==> s.rows[i].revokedAt.Some?;
    } else if csrf {
      RevokingGone(s, r, Some(q.read.user), q.id, m.next);
    }
  }

  lemma ServeOk(s: State, r: nat, q: Request, csrf: bool)
    requires Numbered(s) && q.Ready? && RequestOk(s, r, q)
    ensures
      var m := Serve(s, q, csrf);
      RequestOk(Make(s, r, m), r, m.next)
  {
    hide Saw, SawLive, Live, Revoking, RowsOf;
    match q.goal
    case ListSessions =>
      ListOk(s, r, q, csrf);
    case SignOut(_) =>
      SignOutOk(s, r, q, csrf);
    case _ =>
  }

  /** The request that a step advances knows what its new point needs. */
  lemma DecideOk(s: State, r: nat, q: Request, csrf: bool, pick: nat)
    requires Numbered(s) && RequestOk(s, r, q)
    ensures
      var m := Decide(s, q, csrf, pick);
      RequestOk(Make(s, r, m), r, m.next)
  {
    match q
    case Lookup(token, _) =>
      if token.Some? && token.value in s.rows {
        RowOf(s, token.value);
      }
    case Ready(_, _, _, _, _) => ServeOk(s, r, q, csrf);
    case Target(_, read, _, target) => RevokingGone(s, r, Some(read.user), target, Ended(Revoked(target)));
    case Sweep(_, _, _, seen, left) =>
      if left != {} && pick in left {
        SweepOk(s, r, q, pick);
      } else {
        assert seen - {} == seen;
      }
    case ById(target, _) =>
      if target in s.rows {
        RowOf(s, target);
      }
    case ByIdFound(target, user) => RevokingGone(s, r, user, target, Ended(Revoked(target)));
    case _ =>
      hide Live, Updating;
  }

  lemma StepRequests(s: State, a: Action)
    requires Numbered(s) && RequestsOk(s)
    ensures RequestsOk(Step(s, a))
  {
    var t := Step(s, a);
    StepGrows(s, a);
    OthersStay(s, a);
    if a.Advance? && a.request in s.requests {
      DecideOk(s, a.request, s.requests[a.request], a.csrf, a.pick);
    }
    hide Decide, TableGrows, Numbered, RequestOk;
    forall r | r in t.requests
      ensures RequestOk(t, r, t.requests[r])
    {
      if r in s.requests && t.requests[r] == s.requests[r] {
        FactsKept(s, t, r, s.requests[r]);
      } else if a.Arrive? {
        assert t.requests[r].Lookup? || t.requests[r].ById?;
        StartOk(t, r, t.requests[r]);
      }
    }
  }

  lemma StartOk(s: State, r: nat, q: Request)
    requires q.Lookup? || q.ById?
    ensures RequestOk(s, r, q)
  {
  }

  lemma OthersStay(s: State, a: Action)
    ensures s.queries <= Step(s, a).queries && s.log <= Step(s, a).log
    ensures !a.Arrive? || a.request in s.requests ==> Step(s, a).origins == s.origins
    ensures forall r :: r in s.requests ==> r in Step(s, a).requests
    ensures forall r :: r in Step(s, a).requests && !((a.Advance? || a.Arrive?) && r == a.request) ==>
              r in s.requests && Step(s, a).requests[r] == s.requests[r]
  {
    hide Decide;
  }

  lemma {:induction false} RunRequests(actions: seq<Action>)
    ensures Numbered(Run(actions)) && RequestsOk(Run(actions))
  {
    hide Step, RequestOk;
    RunNumbered(actions);
    if actions != [] {
      var front := actions[..|actions| - 1];
      RunRequests(front);
      StepRequests(Run(front), actions[|actions| - 1]);
    }
  }
}
