/** Handoffs over whole runs: one session per code, one winner, one user along every chain. */
module HandoffSafety {
  import opened Text
  import opened Handoff
  import opened HandoffInvariant

  // ---- What every run keeps ----

  /** However requests interleave, a code gives at most one session. */
  lemma OneSessionPerCode(actions: seq<Action>, i: nat, j: nat)
    requires i < |Run(actions).created| && j < |Run(actions).created|
    requires Run(actions).created[i].code.Some? && Run(actions).created[i].code == Run(actions).created[j].code
    ensures i == j
  {
    hide Run, WonBy, AttemptsOk, Linked, RowsKept, RequestsOk, AttemptsEnded;
    var s := Run(actions);
    RunKeepsInv(actions);
    assert Listed(s.issues, i) && Listed(s.issues, j);
    var k :| 0 <= k < |s.issues| && s.issues[k].session == i;
    var l :| 0 <= l < |s.issues| && s.issues[l].session == j;
    assert IssueOk(s, s.issues[k]) && IssueOk(s, s.issues[l]) && IssuedOnce(s.issues);
    hide Inv, IssuesOk;
  }

  /** A session is issued only by the request whose update set the code's `consumedAt`, which was null. */
  lemma IssuedAfterConsumption(actions: seq<Action>, k: nat)
    requires k < |Run(actions).issues|
    ensures
      var s := Run(actions);
      var issue := s.issues[k];
      && WonBy(s.attempts, issue.id, issue.request)
      && (forall r :: WonBy(s.attempts, issue.id, r) ==> r == issue.request)
      && (issue.id in s.codes ==> s.codes[issue.id].consumedAt.Some?)
  {
    hide Run, AttemptsOk, Linked, RequestsOk, AttemptsEnded;
    var s := Run(actions);
    RunKeepsInv(actions);
    var issue := s.issues[k];
    assert IssueOk(s, issue);
    forall r | WonBy(s.attempts, issue.id, r)
      ensures r == issue.request
    {
      WonOnce(s.attempts, issue.id, issue.request, r);
    }
    assert Won(s.attempts, issue.id);
  }

  /** The attempt is the only successful one on its code; every other ended in a conflict. */
  predicate OnlyWinner(s: State, w: nat)
    requires w < |s.attempts|
  {
    && s.attempts[w].won
    && forall k :: 0 <= k < |s.attempts| && k != w && s.attempts[k].id == s.attempts[w].id ==>
         !s.attempts[k].won && s.attempts[k].request in s.requests
         && s.requests[s.attempts[k].request] == Failed(Conflict)
  }

  /**
   * Of the requests that reach the conditional update of a code, one wins if any found the row, and
   * all others get a conflict; if none found the row, all do.
   */
  lemma ExactlyOneWinner(actions: seq<Action>, id: nat)
    ensures
      var s := Run(actions);
      (exists k :: 0 <= k < |s.attempts| && s.attempts[k].id == id && s.attempts[k].present)
      <==> (exists w: nat :: w < |s.attempts| && s.attempts[w].id == id && OnlyWinner(s, w))
  {
    hide Run, Linked, RowsKept, RequestsOk, IssuesOk, IssuedOnce;
    var s := Run(actions);
    RunKeepsInv(actions);
    if k :| 0 <= k < |s.attempts| && s.attempts[k].id == id && s.attempts[k].present {
      var w: nat := WinnerUpTo(s.attempts, id, k);
      forall j | 0 <= j < |s.attempts| && j != w && s.attempts[j].id == id
        ensures !s.attempts[j].won
      {
        OtherLoses(s.attempts, w, j);
      }
      assert OnlyWinner(s, w);
    }
  }

  lemma WinnerUpTo(attempts: seq<Attempt>, id: nat, k: nat) returns (w: nat)
    requires AttemptsOk(attempts) && k < |attempts| && attempts[k].id == id && attempts[k].present
    ensures w < |attempts| && attempts[w].id == id && attempts[w].won
  {
    if attempts[k].won {
      w := k;
    } else {
      var j :| 0 <= j < k && attempts[..k][j].id == id && attempts[..k][j].won;
      w := j;
    }
  }

  lemma OtherLoses(attempts: seq<Attempt>, w: nat, j: nat)
    requires AttemptsOk(attempts) && w < |attempts| && j < |attempts| && j != w
    requires attempts[w].won && attempts[j].id == attempts[w].id
    ensures !attempts[j].won
  {
    hide AttemptsOk;
    if attempts[j].won {
      if j < w {
        WinnersDiffer(attempts, j, w);
      } else {
        WinnersDiffer(attempts, w, j);
      }
    }
  }

  /**
   * An issued session has the user of the session that created its code, a user there was, and comes
   * out of the handler that the code was made for; its region is the one
   * of the cell that created the code, which is that of the cell that consumes it, if it has one.
   */
  lemma IssueKeepsIdentity(actions: seq<Action>, k: nat)
    requires k < |Run(actions).issues|
    ensures
      var s := Run(actions);
      var issue := s.issues[k];
      && issue.id < |s.made| && issue.session < |s.created| && s.made[issue.id].source < issue.session
      && s.created[issue.session].user == s.made[issue.id].user == s.created[s.made[issue.id].source].user
      && s.made[issue.id].user in s.known && s.made[issue.id].target == issue.target
      && issue.region == s.made[issue.id].region != ""
      && (issue.cell != "" ==> issue.region == issue.cell)
  {
    hide Run, WonBy, AttemptsOk, RowsKept, RequestsOk, AttemptsEnded;
    var s := Run(actions);
    RunKeepsInv(actions);
    assert IssueOk(s, s.issues[k]);
  }

  /** The sessions handed over one after the other, from the first one to the last. */
  predicate Chain(s: State, path: seq<nat>) {
    && path != []
    && (forall k :: 0 <= k < |path| ==> path[k] < |s.created|)
    && (forall k :: 0 <= k < |path| - 1 ==> s.created[path[k + 1]].source == Some(path[k]))
  }

  /** Along any chain of handoffs the user is the user of the first session, and no session repeats. */
  lemma ChainKeepsUser(actions: seq<Action>, path: seq<nat>, k: nat)
    requires Chain(Run(actions), path) && k < |path|
    ensures Run(actions).created[path[k]].user == Run(actions).created[path[0]].user
    ensures 0 < k ==> path[0] < path[k]
  {
    hide Run, RowsKept, RequestsOk, AttemptsOk, AttemptsEnded, IssuesOk, IssuedOnce;
    var s := Run(actions);
    RunKeepsInv(actions);
    for j := 0 to k
      invariant s.created[path[j]].user == s.created[path[0]].user
      invariant 0 < j ==> path[0] < path[j]
    {
      assert s.created[path[j + 1]].source == Some(path[j]);
    }
  }

  /** Every session goes back, by some chain of handoffs, to a session that was signed in. */
  lemma {:induction false} EverySessionHasARoot(actions: seq<Action>, i: nat) returns (path: seq<nat>)
    requires i < |Run(actions).created|
    ensures Chain(Run(actions), path) && path[|path| - 1] == i
    ensures Run(actions).created[path[0]].source == None
    decreases i
  {
    hide Run, RowsKept, RequestsOk, AttemptsOk, AttemptsEnded, IssuesOk, IssuedOnce;
    var s := Run(actions);
    RunKeepsInv(actions);
    if s.created[i].source.None? {
      path := [i];
    } else {
      var before := EverySessionHasARoot(actions, s.created[i].source.value);
      path := before + [i];
      assert forall k :: 0 <= k < |before| ==> path[k] == before[k];
    }
  }

  // ---- What can no longer happen ----

  predicate Dead(s: State, source: nat) {
    source < |s.created| && (source in s.sessions ==> s.sessions[source].revoked)
  }

  /**
   * The request can no longer lead to a code or a session, for it has a test before it that fails: the
   * session that it starts from is expired, revoked or deleted; or the code that it asks for is expired,
   * or comes from a session that is revoked or deleted.
   */
  predicate Blocked(s: State, r: nat) {
    r in s.requests &&
    match s.requests[r]
    case Start(_, _, source, _) => Dead(s, source) || (source < |s.created| && s.created[source].expiresAt <= s.now)
    case Begin(_, _, code) =>
      code.Some? ==> code.value < |s.made| && (s.made[code.value].expiresAt <= s.now || Dead(s, s.made[code.value].source))
    case Looked(_, _, id, row) =>
      id < |s.made| && SameCode(row, s.made[id]) && (row.expiresAt <= s.now || Dead(s, row.source))
    case Checked(_, _, _, row) => Dead(s, row.source)
    case Failed(_) => true
    case _ => false
  }

  lemma DeadStays(s: State, a: Action, source: nat)
    requires Inv(s) && Dead(s, source)
    ensures Dead(Step(s, a), source)
  {
    hide Won, WonBy, AttemptsOk, IssuesOk, Linked, IssuedOnce, RequestsOk, AttemptsEnded;
  }

  lemma HistoryGrows(s: State, a: Action)
    ensures s.made <= Step(s, a).made && s.created <= Step(s, a).created && s.now <= Step(s, a).now
    ensures forall r :: r in s.requests && !(a.Advance? && a.request == r) ==>
              r in Step(s, a).requests && Step(s, a).requests[r] == s.requests[r]
  {
    hide Next;
    if a.Advance? && a.request in s.requests {
      AdvanceGrows(s, a.request, a.age);
      hide AdvanceRequest;
    }
  }

  lemma AdvanceGrows(s: State, r: nat, age: int)
    requires r in s.requests
    ensures Grows(s, AdvanceRequest(s, r, age), r)
  {
    hide Next;
  }

  predicate Grows(s: State, t: State, r: nat) {
    && s.made <= t.made && s.created <= t.created && s.now == t.now
    && forall q :: q in s.requests && q != r ==> q in t.requests && t.requests[q] == s.requests[q]
  }

  lemma BlockedStays(s: State, a: Action, r: nat)
    requires Inv(s) && Blocked(s, r)
    ensures Blocked(Step(s, a), r)
  {
    HistoryGrows(s, a);
    hide Step, Won, WonBy, AttemptsOk, IssuesOk, Linked, IssuedOnce, RequestsOk, AttemptsEnded;
    forall source | Dead(s, source)
      ensures Dead(Step(s, a), source)
    {
      DeadStays(s, a, source);
    }
    if a.Advance? && a.request == r {
      BlockedAdvances(s, r, a.age);
    }
  }

  lemma BlockedAdvances(s: State, r: nat, age: int)
    requires Inv(s) && Blocked(s, r)
    ensures Blocked(Step(s, Advance(r, age)), r)
  {
    hide Won, WonBy, AttemptsOk, IssuesOk, Linked, IssuedOnce, RequestsOk, AttemptsEnded;
  }

  /** Whatever happens next, a blocked request never creates a code and never issues a session. */
  lemma {:induction false} BlockedNeverIssues(before: seq<Action>, after: seq<Action>, r: nat)
    requires Blocked(Run(before), r)
    ensures Blocked(RunFrom(Run(before), after), r) && !RunFrom(Run(before), after).requests[r].Started?
    ensures forall k :: 0 <= k < |RunFrom(Run(before), after).issues| ==>
              RunFrom(Run(before), after).issues[k].request != r
  {
    var s := RunFrom(Run(before), after);
    RunsCompose(before, after);
    RunKeepsInv(before + after);
    hide Run, Inv;
    if after != [] {
      var front := after[..|after| - 1];
      BlockedNeverIssues(before, front, r);
      RunsCompose(before, front);
      RunKeepsInv(before + front);
      BlockedStays(RunFrom(Run(before), front), after[|after| - 1], r);
    }
    EndsBlocked(s, r);
  }

  lemma EndsBlocked(s: State, r: nat)
    requires Inv(s) && Blocked(s, r)
    ensures forall k :: 0 <= k < |s.issues| ==> s.issues[k].request != r
  {
    hide WonBy, RowsKept, Linked, RequestsOk, AttemptsOk, AttemptsEnded;
    forall k | 0 <= k < |s.issues|
      ensures s.issues[k].request != r
    {
      assert IssueOk(s, s.issues[k]);
    }
  }

  lemma {:induction false} RunsCompose(before: seq<Action>, after: seq<Action>)
    ensures RunFrom(Run(before), after) == Run(before + after)
  {
    hide Step;
    if after == [] {
      assert before + after == before;
    } else {
      var front := after[..|after| - 1];
      RunsCompose(before, front);
      assert (before + after)[..|before + after| - 1] == before + front;
    }
  }
}
