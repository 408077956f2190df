/** What every reachable state of the handoff machine satisfies, and that each step keeps it. */
module HandoffInvariant {
  import opened Text
  import opened Handoff

  // ---- The inductive invariant ----

  predicate SameCode(a: Code, b: Code) {
    a.source == b.source && a.target == b.target && a.region == b.region && a.user == b.user && a.expiresAt == b.expiresAt
  }

  /** Some attempt on the code succeeded. */
  ghost predicate Won(attempts: seq<Attempt>, id: nat) {
    exists k :: 0 <= k < |attempts| && attempts[k].id == id && attempts[k].won
  }

  /** This request's attempt on the code succeeded. */
  ghost predicate WonBy(attempts: seq<Attempt>, id: nat, request: nat) {
    exists k :: 0 <= k < |attempts| && attempts[k].id == id && attempts[k].won && attempts[k].request == request
  }

  /** Rows are what was created, apart from the consumption and revocation marks. */
  ghost predicate RowsKept(s: State) {
    && (forall c :: c in s.codes ==>
          c < |s.made| && SameCode(s.codes[c], s.made[c]) && (s.codes[c].consumedAt.Some? <==> Won(s.attempts, c)))
    && (forall i :: i in s.sessions ==> i < |s.created| && s.sessions[i].user == s.created[i].user && s.sessions[i].expiresAt == s.created[i].expiresAt)
  }

  /** Codes come from sessions of the same user, issued sessions from codes, each from earlier ones. */
  predicate Linked(s: State) {
    && (forall c :: 0 <= c < |s.made| ==>
          s.made[c].region != "" && s.made[c].source < |s.created| && s.created[s.made[c].source].user == s.made[c].user)
    && (forall i :: 0 <= i < |s.created| ==>
          && (s.created[i].source.Some? <==> s.created[i].code.Some?)
          && (s.created[i].code.Some? ==> FromCode(s, i, s.created[i].code.value)))
  }

  predicate FromCode(s: State, i: nat, c: nat)
    requires i < |s.created|
  {
    c < |s.made| && s.created[i].source == Some(s.made[c].source) && s.made[c].source < i && s.created[i].user == s.made[c].user
  }

  /** What a request knows when it is at a point. */
  ghost predicate RequestOk(s: State, r: nat, q: Request) {
    match q
    case Start(_, _, _, _) => true
    case Authenticated(_, _, source, _, user) => source < |s.created| && s.created[source].user == user
    case Touched(_, _, source, _, user) => source < |s.created| && s.created[source].user == user
    case Starting(_, _, source, _, user) => source < |s.created| && s.created[source].user == user
    case Looked(target, _, id, row) => id < |s.made| && SameCode(row, s.made[id]) && row.target == target
    case Checked(target, cell, id, row) => Cleared(s, target, cell, id, row)
    case SourceSeen(target, cell, id, row) => Cleared(s, target, cell, id, row)
    case UserSeen(target, cell, id, row) => Cleared(s, target, cell, id, row) && row.user in s.known
    case Consumed(target, cell, id, row) =>
      Cleared(s, target, cell, id, row) && row.user in s.known && WonBy(s.attempts, id, r)
    case Ready(target, cell, id, row) =>
      Cleared(s, target, cell, id, row) && row.user in s.known && WonBy(s.attempts, id, r)
    case _ => true
  }

  /** The row is the code's, it is for this target, and it passed the test of its region. */
  predicate Cleared(s: State, target: Target, cell: string, id: nat, row: Code) {
    id < |s.made| && SameCode(row, s.made[id]) && row.target == target && (cell == "" || row.region == cell)
  }

  /** An attempt succeeds exactly when it is the first one on a code whose row is present. */
  ghost predicate AttemptsOk(attempts: seq<Attempt>) {
    forall k :: 0 <= k < |attempts| ==> (attempts[k].won <==> attempts[k].present && !Won(attempts[..k], attempts[k].id))
  }

  /** Attempts are on codes that were created, and a request whose attempt failed has ended with a conflict. */
  predicate AttemptsEnded(s: State) {
    && (forall k :: 0 <= k < |s.attempts| ==> s.attempts[k].id < |s.made|)
    && forall k :: 0 <= k < |s.attempts| && !s.attempts[k].won ==>
      s.attempts[k].request in s.requests && s.requests[s.attempts[k].request] == Failed(Conflict)
  }

  /** An issue belongs to the request that consumed the code; that request has ended. */
  ghost predicate IssueOk(s: State, i: Issue) {
    && WonBy(s.attempts, i.id, i.request)
    && i.request in s.requests && s.requests[i.request] == Issued(i.id, i.session)
    && i.id < |s.made| && i.session < |s.created| && s.created[i.session].code == Some(i.id)
    && i.region == s.made[i.id].region && i.target == s.made[i.id].target && s.made[i.id].user in s.known
    && (i.cell == "" || i.region == i.cell)
  }

  ghost predicate IssuesOk(s: State) {
    && (forall k :: 0 <= k < |s.issues| ==> IssueOk(s, s.issues[k]))
    && (forall i :: 0 <= i < |s.created| && s.created[i].code.Some? ==> Listed(s.issues, i))
  }

  /** The session is one of the issued ones. */
  ghost predicate Listed(issues: seq<Issue>, session: nat) {
    exists k :: 0 <= k < |issues| && issues[k].session == session
  }

  /** No code has two issued sessions. */
  predicate IssuedOnce(issues: seq<Issue>) {
    forall j, k :: 0 <= j < k < |issues| ==> issues[j].id != issues[k].id
  }

  ghost predicate RequestsOk(s: State) {
    forall r :: r in s.requests ==> RequestOk(s, r, s.requests[r])
  }

  ghost predicate Inv(s: State) {
    && s.users <= s.known && RowsKept(s) && Linked(s) && RequestsOk(s)
    && AttemptsOk(s.attempts) && AttemptsEnded(s) && IssuesOk(s) && IssuedOnce(s.issues)
  }

  // ---- Preservation ----

  lemma WinnersDiffer(attempts: seq<Attempt>, j: nat, k: nat)
    requires AttemptsOk(attempts) && j < k < |attempts| && attempts[j].won && attempts[k].won
    ensures attempts[j].id != attempts[k].id
  {
    assert attempts[..k][j] == attempts[j];
  }

  lemma WonOnce(attempts: seq<Attempt>, id: nat, r: nat, q: nat)
    requires AttemptsOk(attempts) && WonBy(attempts, id, r) && WonBy(attempts, id, q)
    ensures r == q
  {
    hide AttemptsOk;
    var j :| 0 <= j < |attempts| && attempts[j].id == id && attempts[j].won && attempts[j].request == r;
    var k :| 0 <= k < |attempts| && attempts[k].id == id && attempts[k].won && attempts[k].request == q;
    if j < k {
      WinnersDiffer(attempts, j, k);
    } else if k < j {
      WinnersDiffer(attempts, k, j);
    }
  }

  lemma WonGrows(attempts: seq<Attempt>, a: Attempt)
    ensures forall id, r :: WonBy(attempts, id, r) ==> WonBy(attempts + [a], id, r)
    ensures a.won ==> WonBy(attempts + [a], a.id, a.request)
    ensures forall id :: Won(attempts + [a], id) <==> Won(attempts, id) || (a.id == id && a.won)
    ensures AttemptsOk(attempts) && (a.won <==> a.present && !Won(attempts, a.id)) ==> AttemptsOk(attempts + [a])
  {
    var more := attempts + [a];
    assert more[|attempts|] == a;
    assert forall k :: 0 <= k < |attempts| ==> more[k] == attempts[k] && more[..k] == attempts[..k];
    assert more[..|attempts|] == attempts;
    forall id, r | WonBy(attempts, id, r)
      ensures WonBy(more, id, r)
    {
      var k :| 0 <= k < |attempts| && attempts[k].id == id && attempts[k].won && attempts[k].request == r;
      assert more[k] == attempts[k];
    }
    forall id
      ensures Won(more, id) <==> Won(attempts, id) || (a.id == id && a.won)
    {
      if Won(attempts, id) {
        var k :| 0 <= k < |attempts| && attempts[k].id == id && attempts[k].won;
        assert more[k] == attempts[k];
      }
    }
  }

  /** Everything that is said of a request survives growth of the history. */
  lemma RequestsKept(s: State, t: State)
    requires RequestsOk(s)
    requires s.made <= t.made && s.created <= t.created && s.known <= t.known
    requires forall id, r :: WonBy(s.attempts, id, r) ==> WonBy(t.attempts, id, r)
    ensures forall r :: r in s.requests ==> RequestOk(t, r, s.requests[r])
  {
    hide WonBy;
    forall r | r in s.requests
      ensures RequestOk(t, r, s.requests[r])
    {
      assert RequestOk(s, r, s.requests[r]);
    }
  }

  /** Issues survive steps of requests that have not ended with them. */
  lemma IssuesKept(s: State, t: State)
    requires IssuesOk(s) && t.issues == s.issues && s.created == t.created
    requires s.made <= t.made && s.known <= t.known
    requires forall id, r :: WonBy(s.attempts, id, r) ==> WonBy(t.attempts, id, r)
    requires forall r :: r in s.requests && s.requests[r].Issued? ==> r in t.requests && t.requests[r] == s.requests[r]
    ensures IssuesOk(t)
  {
    hide WonBy, Listed;
    forall k | 0 <= k < |s.issues|
      ensures IssueOk(t, t.issues[k])
    {
      assert IssueOk(s, s.issues[k]);
    }
  }

  /** A request that has not ended moves to a point whose facts hold. */
  lemma MoveKeepsInv(s: State, r: nat, q: Request)
    requires Inv(s) && RequestOk(s, r, q)
    requires r in s.requests ==> !s.requests[r].Issued? && !s.requests[r].Failed?
    ensures Inv(To(s, r, q))
  {
    hide Won, WonBy, SameCode, AttemptsOk, IssuesOk, IssuedOnce;
    var t := To(s, r, q);
    LinkedSame(s, t);
    IssuesKept(s, t);
    hide Linked;
    RequestsKept(s, t);
    hide RequestsOk;
    assert RequestOk(t, r, q) by { SameRequestOk(s, t, r, q); }
    AllRequests(s, t, r, q);
  }

  lemma SameRequestOk(s: State, t: State, r: nat, q: Request)
    requires RequestOk(s, r, q) && s.made <= t.made && s.created <= t.created && s.known <= t.known
    requires forall id, r :: WonBy(s.attempts, id, r) ==> WonBy(t.attempts, id, r)
    ensures RequestOk(t, r, q)
  {
    hide WonBy;
  }

  lemma AllRequests(s: State, t: State, r: nat, q: Request)
    requires t.requests == s.requests[r := q] && RequestOk(t, r, q)
    requires forall p :: p in s.requests ==> RequestOk(t, p, s.requests[p])
    ensures RequestsOk(t)
  {
    hide RequestOk;
  }

  /** Nothing changed but the clock, the users and the rows. */
  lemma RowsKeepInv(s: State, t: State)
    requires Inv(s) && RowsKept(t)
    requires t == s.(now := t.now, users := t.users, known := t.known, sessions := t.sessions, codes := t.codes)
    requires s.known <= t.known && t.users <= t.known
    ensures Inv(t)
  {
    hide Won, WonBy, AttemptsOk, IssuesOk, IssuedOnce, RowsKept;
    LinkedSame(s, t);
    IssuesKept(s, t);
    hide Linked;
    RequestsKept(s, t);
  }

  lemma ConsumeKeepsRows(s: State, r: nat, t: State)
    requires Inv(s) && r in s.requests && s.requests[r].UserSeen?
    requires t == Consume(s, r, s.requests[r].id)
    ensures RowsKept(t) && AttemptsOk(t.attempts)
  {
    hide Won, WonBy, AttemptsOk, AttemptsEnded, IssuesOk, IssuedOnce, Linked, RequestsOk;
    var q := s.requests[r];
    assert RequestOk(s, r, q) by { AtRequest(s, r); }
    var present := q.id in s.codes;
    WonGrows(s.attempts, Attempt(q.id, r, present, present && s.codes[q.id].consumedAt.None?));
  }

  lemma ConsumeEndsAttempts(s: State, r: nat)
    requires Inv(s) && r in s.requests && s.requests[r].UserSeen?
    ensures AttemptsEnded(Consume(s, r, s.requests[r].id))
  {
    hide Won, WonBy, AttemptsOk, RowsKept, IssuesOk, IssuedOnce, Linked, RequestsOk;
    assert RequestOk(s, r, s.requests[r]) by { AtRequest(s, r); }
  }

  lemma ConsumeKeepsInv(s: State, r: nat)
    requires Inv(s) && r in s.requests && s.requests[r].UserSeen?
    ensures Inv(Consume(s, r, s.requests[r].id))
  {
    hide Won, WonBy, AttemptsOk, IssuesOk, IssuedOnce, Linked, RequestsOk, AttemptsEnded;
    var q := s.requests[r];
    var t := Consume(s, r, q.id);
    ConsumeKeepsRows(s, r, t);
    ConsumeEndsAttempts(s, r);
    WonGrows(s.attempts, t.attempts[|s.attempts|]);
    LinkedSame(s, t);
    IssuesKept(s, t);
    RequestsKept(s, t);
    assert RequestOk(t, r, t.requests[r]) by { AtRequest(s, r); }
    AllRequests(s, t, r, t.requests[r]);
  }

  lemma CreatedKept(s: State, t: State, session: Session)
    requires Linked(s) && t.made == s.made && t.created == s.created + [session]
    requires session.source.Some? <==> session.code.Some?
    requires session.code.Some? ==> FromCode(t, |s.created|, session.code.value)
    ensures Linked(t)
  {
    hide FromCode;
    forall i | 0 <= i < |s.created|
      ensures t.created[i] == s.created[i]
      ensures forall c :: FromCode(s, i, c) ==> FromCode(t, i, c)
    {
      FromCodeKept(s, t, i);
    }
  }

  lemma FromCodeKept(s: State, t: State, i: nat)
    requires i < |s.created| && s.made <= t.made && s.created <= t.created
    ensures forall c :: FromCode(s, i, c) ==> FromCode(t, i, c)
  {
  }

  lemma IssueKeepsIssues(s: State, r: nat, t: State, issue: Issue)
    requires Inv(s) && r in s.requests && s.requests[r].Ready? && issue.request == r && issue.id == s.requests[r].id
    requires t.issues == s.issues + [issue] && t.attempts == s.attempts && t.made == s.made && t.known == s.known
    requires |t.created| == |s.created| + 1 && s.created <= t.created && issue.session == |s.created|
    requires t.requests == s.requests[r := Issued(issue.id, issue.session)]
    requires IssueOk(t, issue)
    ensures IssuesOk(t) && IssuedOnce(t.issues)
  {
    hide AttemptsOk, WonBy, RowsKept, Linked, AttemptsEnded, Listed;
    assert RequestOk(s, r, s.requests[r]);
    forall k | 0 <= k < |s.issues|
      ensures s.issues[k].id != issue.id && IssueOk(t, s.issues[k])
    {
      assert IssueOk(s, s.issues[k]);
      if s.issues[k].id == issue.id {
        WonOnce(s.attempts, issue.id, r, s.issues[k].request);
      }
    }
    hide Inv, RequestOk, IssueOk;
    ListedMore(s.issues, issue);
    assert forall i :: 0 <= i < |s.created| ==> t.created[i] == s.created[i];
  }

  lemma ListedMore(issues: seq<Issue>, issue: Issue)
    ensures forall i :: Listed(issues + [issue], i) <==> Listed(issues, i) || i == issue.session
  {
    var more := issues + [issue];
    assert more[|issues|] == issue;
    forall i | Listed(issues, i)
      ensures Listed(more, i)
    {
      var k :| 0 <= k < |issues| && issues[k].session == i;
      assert more[k] == issues[k];
    }
  }

  lemma IssueKeepsInv(s: State, r: nat, session: Session)
    requires Inv(s) && r in s.requests && s.requests[r].Ready?
    requires var row := s.requests[r].row;
             session.source == Some(row.source) && session.user == row.user && session.code == Some(s.requests[r].id)
    ensures Inv(IssueSession(s, r, s.requests[r].target, s.requests[r].cell, s.requests[r].row.region, session))
  {
    hide Won, WonBy, AttemptsOk, IssuesOk, Linked, IssuedOnce, FromCode, RequestsOk;
    var q := s.requests[r];
    assert RequestOk(s, r, q) by { AtRequest(s, r); }
    var t := IssueSession(s, r, q.target, q.cell, q.row.region, session);
    RequestsKept(s, t);
    AllRequests(s, t, r, t.requests[r]);
    ReadyFromCode(s, t, r);
    CreatedKept(s, t, session);
    IssueKeepsIssues(s, r, t, t.issues[|s.issues|]);
  }

  lemma AtRequest(s: State, r: nat)
    requires RequestsOk(s) && r in s.requests
    ensures RequestOk(s, r, s.requests[r])
  {
  }

  lemma ReadyFromCode(s: State, t: State, r: nat)
    requires Linked(s) && r in s.requests && s.requests[r].Ready? && RequestOk(s, r, s.requests[r])
    requires t.made == s.made && |t.created| == |s.created| + 1
    requires t.created[|s.created|].source == Some(s.requests[r].row.source)
    requires t.created[|s.created|].user == s.requests[r].row.user
    ensures FromCode(t, |s.created|, s.requests[r].id)
  {
    var q := s.requests[r];
    assert q.row.source == s.made[q.id].source && q.row.user == s.made[q.id].user;
  }

  /** A step that only moves the request. */
  lemma NextKeepsInv(s: State, r: nat)
    requires Inv(s) && r in s.requests
    ensures Inv(To(s, r, Next(s, s.requests[r])))
  {
    hide Inv, RequestOk, RequestsOk, RowsKept, Next;
    var q := s.requests[r];
    if q.Issued? || q.Failed? {
      assert To(s, r, Next(s, q)) == s by { Ended(s, q); }
    } else {
      NextOk(s, r);
      MoveKeepsInv(s, r, Next(s, q));
    }
  }

  lemma Ended(s: State, q: Request)
    requires q.Issued? || q.Failed?
    ensures Next(s, q) == q
  {
  }

  lemma NextOk(s: State, r: nat)
    requires Inv(s) && r in s.requests
    ensures RequestOk(s, r, Next(s, s.requests[r]))
  {
    hide Won, WonBy, SameCode, Linked, AttemptsOk, AttemptsEnded, IssuesOk, IssuedOnce;
    assert RowsKept(s) && Linked(s) && RequestOk(s, r, s.requests[r]);
    hide Inv, RequestsOk, Won;
  }

  lemma LinkedSame(s: State, t: State)
    requires Linked(s) && t.made == s.made && t.created == s.created
    ensures Linked(t)
  {
  }

  lemma MadeKept(s: State, t: State, row: Code)
    requires Linked(s) && t.created == s.created && t.made == s.made + [row]
    requires row.region != "" && row.source < |s.created| && s.created[row.source].user == row.user
    ensures Linked(t)
  {
    hide FromCode;
    forall i: nat, c: nat | i < |s.created| && FromCode(s, i, c)
      ensures FromCode(t, i, c)
    {
      FromCodeKept(s, t, i);
    }
  }

  lemma CreateKeepsInv(s: State, r: nat, row: Code)
    requires Inv(s) && r in s.requests && s.requests[r].Starting? && row.consumedAt.None?
    requires row.region != "" && row.source < |s.created| && s.created[row.source].user == row.user
    ensures Inv(Create(s, r, row))
  {
    hide Won, WonBy, AttemptsOk, IssuesOk, Linked, FromCode, IssuedOnce, RequestsOk;
    var t := Create(s, r, row);
    RequestsKept(s, t);
    AllRequests(s, t, r, t.requests[r]);
    IssuesKept(s, t);
    MadeKept(s, t, row);
    NewCodeUnused(s);
  }

  /** Only codes that exist have been attempted with success. */
  lemma NewCodeUnused(s: State)
    requires Inv(s)
    ensures !Won(s.attempts, |s.made|)
  {
  }

  lemma SignInKeepsInv(s: State, user: string, maxAge: int)
    requires Inv(s)
    ensures Inv(Step(s, SignIn(user, maxAge)))
  {
    hide Won, WonBy, AttemptsOk, Linked, FromCode, IssuedOnce, Listed;
    var t := Step(s, SignIn(user, maxAge));
    RequestsKept(s, t);
    CreatedKept(s, t, t.created[|s.created|]);
    forall k | 0 <= k < |s.issues|
      ensures IssueOk(t, t.issues[k])
    {
      assert IssueOk(s, s.issues[k]);
    }
  }

  lemma AdvanceKeepsInv(s: State, r: nat, age: int)
    requires Inv(s) && r in s.requests
    ensures Inv(AdvanceRequest(s, r, age))
  {
    hide Inv, Next, Create, Consume, IssueSession, RequestsOk;
    match s.requests[r]
    case Starting(_, _, source, cell, user) =>
      if cell == "" {
        NextKeepsInv(s, r);
      } else {
        assert RequestOk(s, r, s.requests[r]) by { KnownAt(s, r); }
        CreateKeepsInv(s, r, Code(source, s.requests[r].target, cell, user, s.now + age, None));
      }
    case UserSeen(_, _, id, _) => ConsumeKeepsInv(s, r);
    case Ready(_, cell, id, row) =>
      IssueKeepsInv(s, r, Session(row.user, s.now + age, Some(row.source), Some(id), false));
    case _ => NextKeepsInv(s, r);
  }

  lemma KnownAt(s: State, r: nat)
    requires Inv(s) && r in s.requests
    ensures RequestOk(s, r, s.requests[r])
  {
  }

  lemma StepKeepsInv(s: State, a: Action)
    requires Inv(s)
    ensures Inv(Step(s, a))
  {
    hide Inv, AdvanceRequest;
    match a
    case SignIn(user, maxAge) => SignInKeepsInv(s, user, maxAge);
    case Advance(r, age) =>
      if r in s.requests {
        AdvanceKeepsInv(s, r, age);
      }
    case ArriveStart(r, target, bearer, source, cell) =>
      if r !in s.requests {
        MoveKeepsInv(s, r, Start(target, bearer || target.Web?, source, cell));
      }
    case ArriveConsume(r, target, cell, code) =>
      if r !in s.requests {
        MoveKeepsInv(s, r, Begin(target, cell, code));
      }
    case _ =>
      RowsRemain(s, a);
      RowsKeepInv(s, Step(s, a));
  }

  lemma RowsRemain(s: State, a: Action)
    requires Inv(s) && (a.Tick? || a.AddUser? || a.DeleteUser? || a.Revoke? || a.DeleteSessions? || a.DeleteCodes?)
    ensures RowsKept(Step(s, a)) && Step(s, a).users <= Step(s, a).known
  {
    hide Won, WonBy, SameCode, AttemptsOk, IssuesOk, IssuedOnce, Linked, RequestsOk;
  }

  /** Every reachable state satisfies the invariant. */
  lemma {:induction false} RunKeepsInv(actions: seq<Action>)
    ensures Inv(Run(actions))
  {
    if actions != [] {
      RunKeepsInv(actions[..|actions| - 1]);
      StepKeepsInv(Run(actions[..|actions| - 1]), actions[|actions| - 1]);
    }
  }
}
