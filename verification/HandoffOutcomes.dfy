/** What a handoff request comes to: exactly why it is refused, and that it completes when nothing is in the way. */
module HandoffOutcomes {
  import opened Text
  import opened Handoff
  import opened HandoffInvariant

  // ---- Why a request is refused ----

  /** The session may be used for a request of its own. */
  predicate Live(s: State, session: nat) {
    session in s.sessions && !s.sessions[session].revoked && s.now < s.sessions[session].expiresAt
  }

  /** The row is of the region of the cell, if the cell has one. */
  predicate InCell(row: Code, cell: string) {
    cell == "" || cell == row.region
  }

  /** The database, at this step of the request, gives this reason to refuse it. */
  predicate Refuses(s: State, q: Request, failure: Failure) {
    match failure
    case Unauthenticated => (q.Start? && !Live(s, q.source)) || (q.Authenticated? && q.user !in s.users)
    case NoRegion => q.Starting? && q.cell == ""
    case MissingCode => q.Begin? && q.code.None?
    case InvalidCode => q.Begin? && q.code.Some? && (q.code.value in s.codes ==> s.codes[q.code.value].target != q.target)
    case WrongRegion => q.Looked? && !InCell(q.row, q.cell)
    case Replayed => q.Looked? && InCell(q.row, q.cell) && q.row.consumedAt.Some?
    case Expired => q.Looked? && InCell(q.row, q.cell) && q.row.consumedAt.None? && q.row.expiresAt <= s.now
    case SourceNotFound =>
      (q.Touched? && q.source !in s.sessions) || ((q.Checked? || q.Consumed?) && q.row.source !in s.sessions)
    case SourceRevoked => q.Checked? && q.row.source in s.sessions && s.sessions[q.row.source].revoked
    case UserNotFound => q.SourceSeen? && q.row.user !in s.users
    case Conflict => q.UserSeen? && (q.id in s.codes ==> s.codes[q.id].consumedAt.Some?)
  }

  lemma AdvanceMoves(s: State, r: nat, age: int)
    requires r in s.requests
    ensures
      var t := AdvanceRequest(s, r, age);
      r in t.requests && t.requests == s.requests[r := t.requests[r]]
  {
    hide Next;
  }

  lemma AdvancePoint(s: State, r: nat, age: int)
    requires r in s.requests
    ensures
      var q := s.requests[r];
      AdvanceRequest(s, r, age).requests[r] ==
        if q.Starting? && q.cell != "" then Started(|s.made|)
        else if q.UserSeen? then
          if q.id in s.codes && s.codes[q.id].consumedAt.None? then
            Consumed(q.target, q.cell, q.id, s.codes[q.id].(consumedAt := Some(s.now)))
          else Failed(Conflict)
        else if q.Ready? then Issued(q.id, |s.created|)
        else Next(s, q)
  {
    hide Next;
  }

  /** A step of a request fails it exactly for a reason that the database gives at that step. */
  lemma StepFailsExactly(s: State, r: nat, age: int, failure: Failure)
    requires r in s.requests && !s.requests[r].Failed?
    ensures
      var t := Step(s, Advance(r, age));
      r in t.requests && (t.requests[r] == Failed(failure) <==> Refuses(s, s.requests[r], failure))
  {
    AdvanceMoves(s, r, age);
    AdvancePoint(s, r, age);
    hide AdvanceRequest;
  }

  lemma StepKeepsFailed(s: State, a: Action, r: nat)
    requires r in s.requests && s.requests[r].Failed?
    ensures r in Step(s, a).requests && Step(s, a).requests[r] == s.requests[r]
  {
    if a.Advance? && a.request in s.requests {
      AdvanceMoves(s, a.request, a.age);
      AdvancePoint(s, a.request, a.age);
    }
    hide AdvanceRequest, Without;
  }

  lemma StepMovesOne(s: State, a: Action, r: nat)
    requires r in Step(s, a).requests && !(a.Advance? && a.request == r)
    ensures if r in s.requests then Step(s, a).requests[r] == s.requests[r]
            else Step(s, a).requests[r].Start? || Step(s, a).requests[r].Begin?
  {
    if a.Advance? && a.request in s.requests {
      AdvanceMoves(s, a.request, a.age);
    }
    hide AdvanceRequest, Without;
  }

  /** In a run, the request was refused at its k-th step for this reason. */
  predicate RefusedAt(actions: seq<Action>, r: nat, k: int, failure: Failure) {
    && 0 <= k < |actions| && actions[k].Advance? && actions[k].request == r
    && r in Run(actions[..k]).requests && Refuses(Run(actions[..k]), Run(actions[..k]).requests[r], failure)
  }

  /** In every run, a request has failed exactly if one of its steps was refused for that reason. */
  lemma {:induction false} FailedExactly(actions: seq<Action>, r: nat, failure: Failure)
    ensures (r in Run(actions).requests && Run(actions).requests[r] == Failed(failure)) <==>
            exists k :: RefusedAt(actions, r, k, failure)
  {
    if actions != [] {
      var front, a := actions[..|actions| - 1], actions[|actions| - 1];
      FailedExactly(front, r, failure);
      assert Run(actions) == Step(Run(front), a);
      assert actions[..|front|] == front;
      RefusedLonger(actions, r, failure);
      FailedStep(Run(front), a, r, failure);
    }
  }

  /** The request fails in this step, or has failed before. */
  lemma FailedStep(s: State, a: Action, r: nat, failure: Failure)
    ensures (r in Step(s, a).requests && Step(s, a).requests[r] == Failed(failure)) <==>
            || (r in s.requests && s.requests[r] == Failed(failure))
            || (a.Advance? && a.request == r && r in s.requests && Refuses(s, s.requests[r], failure))
  {
    if r in s.requests && s.requests[r].Failed? {
      StepKeepsFailed(s, a, r);
      NoReason(s, s.requests[r], failure);
    } else if a.Advance? && a.request == r && r in s.requests {
      StepFailsExactly(s, r, a.age, failure);
    } else if r in Step(s, a).requests {
      StepMovesOne(s, a, r);
    }
    hide Step, Refuses;
  }

  lemma NoReason(s: State, q: Request, failure: Failure)
    requires q.Failed?
    ensures !Refuses(s, q, failure)
  {
  }

  lemma RefusedLonger(actions: seq<Action>, r: nat, failure: Failure)
    requires actions != []
    ensures
      var front := actions[..|actions| - 1];
      (exists k :: RefusedAt(actions, r, k, failure)) <==>
        (exists k :: RefusedAt(front, r, k, failure)) || RefusedAt(actions, r, |front|, failure)
  {
    hide Run, Refuses;
    var front := actions[..|actions| - 1];
    assert forall k :: 0 <= k < |front| ==> front[..k] == actions[..k] && front[k] == actions[k];
    if k :| RefusedAt(front, r, k, failure) {
      assert RefusedAt(actions, r, k, failure);
    }
    if k :| RefusedAt(actions, r, k, failure) && k < |front| {
      assert RefusedAt(front, r, k, failure);
    }
  }

  // ---- What a request has read ----

  /** The request looked the code up while the table had this row. */
  predicate ReadAt(actions: seq<Action>, r: nat, k: int, id: nat, row: Code) {
    && 0 <= k < |actions| && r in Run(actions[..k]).requests && Run(actions[..k]).requests[r].Begin?
    && Run(actions[..k]).requests[r].code == Some(id)
    && id in Run(actions[..k]).codes && Run(actions[..k]).codes[id] == row && row.target == Run(actions[..k]).requests[r].target
  }

  /** The row that a request goes by, until the code is consumed. */
  function RowOf(q: Request): Option<(nat, Code)> {
    match q
    case Looked(_, _, id, row) => Some((id, row))
    case Checked(_, _, id, row) => Some((id, row))
    case SourceSeen(_, _, id, row) => Some((id, row))
    case UserSeen(_, _, id, row) => Some((id, row))
    case _ => None
  }

  lemma StepReads(s: State, a: Action, r: nat)
    requires r in Step(s, a).requests && RowOf(Step(s, a).requests[r]).Some?
    ensures
      var read := RowOf(Step(s, a).requests[r]).value;
      && r in s.requests
      && (RowOf(s.requests[r]) == Some(read)
          || (s.requests[r].Begin? && s.requests[r].code == Some(read.0) && read.0 in s.codes && s.codes[read.0] == read.1
              && read.1.target == s.requests[r].target))
  {
    if a.Advance? && a.request == r {
      assert r in s.requests;
      AdvancePoint(s, r, a.age);
      hide AdvanceRequest;
    } else {
      StepMovesOne(s, a, r);
      hide Step;
    }
  }

  /** Whatever row a request goes by, it was the code's row when the request looked it up. */
  lemma {:induction false} RowWasRead(actions: seq<Action>, r: nat)
    requires r in Run(actions).requests && RowOf(Run(actions).requests[r]).Some?
    ensures
      var read := RowOf(Run(actions).requests[r]).value;
      exists k :: ReadAt(actions, r, k, read.0, read.1)
  {
    assert actions != [];
    var front, a := actions[..|actions| - 1], actions[|actions| - 1];
    var read := RowOf(Run(actions).requests[r]).value;
    StepReads(Run(front), a, r);
    hide Step, RowOf;
    if RowOf(Run(front).requests[r]) == Some(read) {
      RowWasRead(front, r);
      var k :| ReadAt(front, r, k, read.0, read.1);
      assert front[..k] == actions[..k];
      assert ReadAt(actions, r, k, read.0, read.1);
    } else {
      assert actions[..|front|] == front;
      assert ReadAt(actions, r, |front|, read.0, read.1);
    }
  }

  // ---- A request alone ----

  /** The next `n` steps of one request, with no one else in between. */
  function Alone(s: State, r: nat, age: int, n: nat): State
    decreases n
  {
    if n == 0 then s else Step(Alone(s, r, age, n - 1), Advance(r, age))
  }

  /** Only the request has moved, to this point. */
  predicate Reached(s: State, t: State, r: nat, q: Request) {
    t == s.(requests := s.requests[r := q])
  }

  lemma ReachedOn(s: State, t: State, r: nat, q: Request, next: Request, age: int)
    requires Reached(s, t, r, q) && Next(s, q) == next && !q.Starting? && !q.UserSeen? && !q.Ready?
    ensures Reached(s, Step(t, Advance(r, age)), r, next)
  {
    assert Next(t, q) == Next(s, q);
    assert t.requests[r := next] == s.requests[r := next];
  }

  lemma ReachedAt(s: State, t: State, r: nat, q: Request)
    requires Reached(s, t, r, q)
    ensures r in t.requests && t.requests[r] == q
  {
  }

  /** What the tests before the conditional update say of a code, in their order. */
  function Refusal(s: State, target: Target, cell: string, code: Option<nat>): Option<Failure> {
    if code.None? then Some(MissingCode)
    else if !(code.value in s.codes && s.codes[code.value].target == target) then Some(InvalidCode)
    else
      var row := s.codes[code.value];
      if !InCell(row, cell) then Some(WrongRegion)
      else if row.consumedAt.Some? then Some(Replayed)
      else if row.expiresAt <= s.now then Some(Expired)
      else if row.source !in s.sessions then Some(SourceNotFound)
      else if s.sessions[row.source].revoked then Some(SourceRevoked)
      else if row.user !in s.users then Some(UserNotFound)
      else None
  }

  lemma FailedStays(s: State, r: nat, age: int)
    requires r in s.requests && (s.requests[r].Failed? || s.requests[r].Issued? || s.requests[r].Started?)
    ensures Step(s, Advance(r, age)) == s
  {
    assert s.requests[r := s.requests[r]] == s.requests;
  }

  lemma {:induction false} FailedAlone(s: State, r: nat, age: int, m: nat, n: nat)
    requires m <= n && r in Alone(s, r, age, m).requests
    requires var q := Alone(s, r, age, m).requests[r]; q.Failed? || q.Issued? || q.Started?
    ensures Alone(s, r, age, n) == Alone(s, r, age, m)
    decreases n
  {
    hide Step;
    if m < n {
      FailedAlone(s, r, age, m, n - 1);
      FailedStays(Alone(s, r, age, m), r, age);
    }
  }

  /** The four tests before the conditional update. */
  lemma {:induction false} TestsAlone(s: State, r: nat, age: int)
    requires r in s.requests && s.requests[r].Begin?
    ensures
      var q := s.requests[r];
      var refusal := Refusal(s, q.target, q.cell, q.code);
      Reached(s, Alone(s, r, age, 4), r,
              if refusal.Some? then Failed(refusal.value) else UserSeen(q.target, q.cell, q.code.value, s.codes[q.code.value]))
  {
    var q := s.requests[r];
    assert s.requests[r := q] == s.requests;
    assert Alone(s, r, age, 0) == s;
    assert Reached(s, s, r, q);
    var q1 := Next(s, q);
    TestStep(s, r, age, 0, q);
    if !q1.Failed? {
      TestStep(s, r, age, 1, q1);
      var q2 := Next(s, q1);
      if !q2.Failed? {
        TestStep(s, r, age, 2, q2);
        var q3 := Next(s, q2);
        if !q3.Failed? {
          TestStep(s, r, age, 3, q3);
        } else {
          EndsAlone(s, r, age, 3, 4, q3);
        }
      } else {
        EndsAlone(s, r, age, 2, 4, q2);
      }
    } else {
      EndsAlone(s, r, age, 1, 4, q1);
    }
    hide Alone, Step, Reached;
  }

  lemma TestStep(s: State, r: nat, age: int, n: nat, q: Request)
    requires Reached(s, Alone(s, r, age, n), r, q) && (q.Begin? || q.Looked? || q.Checked? || q.SourceSeen?)
    ensures Reached(s, Alone(s, r, age, n + 1), r, Next(s, q))
  {
    hide Step;
    ReachedOn(s, Alone(s, r, age, n), r, q, Next(s, q), age);
  }

  lemma {:induction false} EndsAlone(s: State, r: nat, age: int, m: nat, n: nat, q: Request)
    requires m <= n && Reached(s, Alone(s, r, age, m), r, q) && (q.Failed? || q.Issued? || q.Started?)
    ensures Reached(s, Alone(s, r, age, n), r, q)
  {
    ReachedAt(s, Alone(s, r, age, m), r, q);
    hide Step, Alone;
    FailedAlone(s, r, age, m, n);
  }

  /** The conditional update and what follows, for a request that has passed its tests. */
  lemma IssuesAlone(s: State, t: State, r: nat, age: int, q: Request)
    requires q.UserSeen? && Reached(s, t, r, q) && q.id in s.codes && s.codes[q.id] == q.row && q.row.consumedAt.None?
    requires q.row.source in s.sessions
    ensures
      var row := s.codes[q.id];
      var u := Step(Step(Step(t, Advance(r, age)), Advance(r, age)), Advance(r, age));
      && u.requests == s.requests[r := Issued(q.id, |s.created|)]
      && u.codes == s.codes[q.id := row.(consumedAt := Some(s.now))]
      && u.sessions == s.sessions[|s.created| := Session(row.user, s.now + age, Some(row.source), Some(q.id), false)]
      && u.created == s.created + [Session(row.user, s.now + age, Some(row.source), Some(q.id), false)]
      && u.issues == s.issues + [Issue(q.id, r, |s.created|, q.target, row.region, q.cell)]
      && u.users == s.users && u.made == s.made && u.now == s.now
  {
    var row := s.codes[q.id];
    var marked := row.(consumedAt := Some(s.now));
    var consumed, ready := Consumed(q.target, q.cell, q.id, marked), Ready(q.target, q.cell, q.id, marked);
    ReachedAt(s, t, r, q);
    var a := Step(t, Advance(r, age));
    assert a.requests == t.requests[r := consumed] && a.codes == s.codes[q.id := marked] && a.sessions == s.sessions;
    var b := Step(a, Advance(r, age));
    AfterConsumed(a, r, age);
    assert b == a.(requests := a.requests[r := ready]);
    AfterReady(b, r, age);
    hide Step;
    assert forall x: Request {:trigger s.requests[r := x]} ::
      t.requests[r := consumed][r := ready][r := x] == s.requests[r := x];
  }

  lemma AfterConsumed(s: State, r: nat, age: int)
    requires r in s.requests && s.requests[r].Consumed? && s.requests[r].row.source in s.sessions
    ensures
      var q := s.requests[r];
      Step(s, Advance(r, age)) == s.(requests := s.requests[r := Ready(q.target, q.cell, q.id, q.row)])
  {
  }

  lemma AfterReady(s: State, r: nat, age: int)
    requires r in s.requests && s.requests[r].Ready?
    ensures
      var q, t := s.requests[r], Step(s, Advance(r, age));
      var session := Session(q.row.user, s.now + age, Some(q.row.source), Some(q.id), false);
      && t.requests == s.requests[r := Issued(q.id, |s.created|)] && t.codes == s.codes && t.users == s.users && t.made == s.made
      && t.now == s.now && t.sessions == s.sessions[|s.created| := session] && t.created == s.created + [session]
      && t.issues == s.issues + [Issue(q.id, r, |s.created|, q.target, q.row.region, q.cell)]
  {
  }

  lemma RefusalNone(s: State, target: Target, cell: string, code: Option<nat>)
    requires Refusal(s, target, cell, code).None?
    ensures code.Some? && code.value in s.codes && s.codes[code.value].target == target && InCell(s.codes[code.value], cell)
    ensures s.codes[code.value].consumedAt.None? && s.now < s.codes[code.value].expiresAt
    ensures s.codes[code.value].source in s.sessions && !s.sessions[s.codes[code.value].source].revoked
    ensures s.codes[code.value].user in s.users
  {
  }

  /**
   * A request to exchange or consume a code that is then alone fails for the first reason that the database
   * gives, and changes nothing; without such a reason it consumes the code and issues a new session of the
   * code's user, from its source, in its region. Of sessions and codes, no other is touched.
   */
  lemma {:induction false} ConsumesAlone(s: State, r: nat, age: int)
    requires r in s.requests && s.requests[r].Begin?
    ensures
      var q, t := s.requests[r], Alone(s, r, age, 7);
      match Refusal(s, q.target, q.cell, q.code)
      case Some(failure) => t == s.(requests := s.requests[r := Failed(failure)])
      case None =>
        var id := q.code.value;
        var row := s.codes[id];
        var session := Session(row.user, s.now + age, Some(row.source), Some(id), false);
        && t.requests == s.requests[r := Issued(id, |s.created|)]
        && t.codes == s.codes[id := row.(consumedAt := Some(s.now))]
        && t.sessions == s.sessions[|s.created| := session] && t.created == s.created + [session]
        && t.issues == s.issues + [Issue(id, r, |s.created|, q.target, row.region, q.cell)]
        && t.users == s.users && t.made == s.made && t.now == s.now
  {
    var q := s.requests[r];
    TestsAlone(s, r, age);
    var refusal := Refusal(s, q.target, q.cell, q.code);
    if refusal.Some? {
      hide Refusal;
      EndsAlone(s, r, age, 4, 7, Failed(refusal.value));
      hide Alone;
    } else {
      RefusalNone(s, q.target, q.cell, q.code);
      hide Refusal;
      IssuesAlone(s, Alone(s, r, age, 4), r, age, UserSeen(q.target, q.cell, q.code.value, s.codes[q.code.value]));
      ThreeMore(s, r, age, 4);
      hide Step, Alone, Reached;
    }
  }

  lemma ThreeMore(s: State, r: nat, age: int, n: nat)
    ensures Alone(s, r, age, n + 3) ==
            Step(Step(Step(Alone(s, r, age, n), Advance(r, age)), Advance(r, age)), Advance(r, age))
  {
    hide Step;
    assert Alone(s, r, age, n + 3) == Step(Alone(s, r, age, n + 2), Advance(r, age));
    assert Alone(s, r, age, n + 2) == Step(Alone(s, r, age, n + 1), Advance(r, age));
  }

  // ---- Starting a handoff ----

  /** What the tests say of the session that starts a handoff, in their order. */
  function StartRefusal(s: State, source: nat, cell: string): Option<Failure> {
    if !Live(s, source) then Some(Unauthenticated)
    else if s.sessions[source].user !in s.users then Some(Unauthenticated)
    else if cell == "" then Some(NoRegion)
    else None
  }

  lemma StartStep(s: State, r: nat, age: int, n: nat, q: Request)
    requires Reached(s, Alone(s, r, age, n), r, q)
    requires q.Start? || q.Authenticated? || q.Touched? || (q.Starting? && q.cell == "")
    ensures Reached(s, Alone(s, r, age, n + 1), r, Next(s, q))
  {
    var t := Alone(s, r, age, n);
    ReachedAt(s, t, r, q);
    assert Next(t, q) == Next(s, q);
    assert t.requests[r := Next(s, q)] == s.requests[r := Next(s, q)];
    assert AdvanceRequest(t, r, age) == To(t, r, Next(t, q));
    hide Next;
  }

  /** The last step of a start makes the code. */
  lemma CreateStep(s: State, t: State, r: nat, age: int, q: Request)
    requires Reached(s, t, r, q) && q.Starting? && q.cell != ""
    ensures
      var u := Step(t, Advance(r, age));
      var row := Code(q.source, q.target, q.cell, q.user, s.now + age, None);
      && u.requests == s.requests[r := Started(|s.made|)] && u.codes == s.codes[|s.made| := row] && u.made == s.made + [row]
      && u.sessions == s.sessions && u.created == s.created && u.issues == s.issues && u.users == s.users && u.now == s.now
  {
    ReachedAt(s, t, r, q);
    assert t.requests[r := Started(|s.made|)] == s.requests[r := Started(|s.made|)];
  }

  /** The session of a start, as its steps know it, at the last one before the code is made. */
  lemma StartsUp(s: State, r: nat, age: int)
    requires r in s.requests && s.requests[r].Start? && Live(s, s.requests[r].source)
    requires s.sessions[s.requests[r].source].user in s.users
    ensures
      var q := s.requests[r];
      var n := if q.bearer then 4 else 3;
      Reached(s, Alone(s, r, age, n), r, Starting(q.target, false, q.source, q.cell, s.sessions[q.source].user))
  {
    var q := s.requests[r];
    var user := s.sessions[q.source].user;
    assert s.requests[r := q] == s.requests;
    assert Reached(s, Alone(s, r, age, 0), r, q);
    StartStep(s, r, age, 0, q);
    StartStep(s, r, age, 1, Authenticated(q.target, q.bearer, q.source, q.cell, user));
    StartStep(s, r, age, 2, Touched(q.target, q.bearer, q.source, q.cell, user));
    if q.bearer {
      StartStep(s, r, age, 3, Touched(q.target, false, q.source, q.cell, user));
    }
    hide Alone, Reached;
  }

  /**
   * A request to start a handoff that is then alone makes a code for its session's user, from its session,
   * in the region of the cell, or fails for the first reason that there is.
   */
  lemma {:induction false} StartsAlone(s: State, r: nat, age: int)
    requires r in s.requests && s.requests[r].Start?
    ensures
      var q, t := s.requests[r], Alone(s, r, age, 5);
      match StartRefusal(s, q.source, q.cell)
      case Some(failure) => t == s.(requests := s.requests[r := Failed(failure)])
      case None =>
        var row := Code(q.source, q.target, q.cell, s.sessions[q.source].user, s.now + age, None);
        && t.requests == s.requests[r := Started(|s.made|)] && t.codes == s.codes[|s.made| := row] && t.made == s.made + [row]
        && t.sessions == s.sessions && t.created == s.created && t.issues == s.issues && t.users == s.users && t.now == s.now
  {
    var q := s.requests[r];
    if Live(s, q.source) && s.sessions[q.source].user in s.users {
      var n := if q.bearer then 4 else 3;
      var last := Starting(q.target, false, q.source, q.cell, s.sessions[q.source].user);
      StartsUp(s, r, age);
      if q.cell == "" {
        StartStep(s, r, age, n, last);
        EndsAlone(s, r, age, n + 1, 5, Failed(NoRegion));
        hide Alone;
      } else {
        CreateStep(s, Alone(s, r, age, n), r, age, last);
        assert Alone(s, r, age, n + 1) == Step(Alone(s, r, age, n), Advance(r, age));
        hide Step, Alone, Reached;
        FailedAlone(s, r, age, n + 1, 5);
      }
    } else {
      StartFails(s, r, age);
    }
  }

  lemma {:induction false} StartFails(s: State, r: nat, age: int)
    requires r in s.requests && s.requests[r].Start?
    requires !(Live(s, s.requests[r].source) && s.sessions[s.requests[r].source].user in s.users)
    ensures Alone(s, r, age, 5) == s.(requests := s.requests[r := Failed(Unauthenticated)])
  {
    var q := s.requests[r];
    assert s.requests[r := q] == s.requests;
    assert Reached(s, Alone(s, r, age, 0), r, q);
    StartStep(s, r, age, 0, q);
    if Live(s, q.source) {
      StartStep(s, r, age, 1, Next(s, q));
      EndsAlone(s, r, age, 2, 5, Failed(Unauthenticated));
    } else {
      EndsAlone(s, r, age, 1, 5, Failed(Unauthenticated));
    }
    hide Alone;
  }

  /** In every reachable state the numbers of new codes and sessions are unused, so nothing is overwritten. */
  lemma NewNumbersUnused(actions: seq<Action>)
    ensures |Run(actions).created| !in Run(actions).sessions && |Run(actions).made| !in Run(actions).codes
  {
    RunKeepsInv(actions);
    hide Run, Linked, RequestsOk, AttemptsOk, AttemptsEnded, IssuesOk, IssuedOnce;
  }

  /** The steps of a request alone are a part of a run. */
  lemma {:induction false} AloneRuns(actions: seq<Action>, r: nat, age: int, n: nat)
    ensures Alone(Run(actions), r, age, n) == Run(actions + seq(n, _ => Advance(r, age)))
    decreases n
  {
    hide Step;
    var a := Advance(r, age);
    if n == 0 {
      assert actions + seq(0, _ => a) == actions;
    } else {
      AloneRuns(actions, r, age, n - 1);
      OneMore(actions, a, n);
    }
  }

  lemma OneMore(actions: seq<Action>, a: Action, n: nat)
    requires n > 0
    ensures Run(actions + seq(n, _ => a)) == Step(Run(actions + seq(n - 1, _ => a)), a)
  {
    var all := actions + seq(n, _ => a);
    assert all[..|all| - 1] == actions + seq(n - 1, _ => a) && all[|all| - 1] == a;
  }

  // ---- The rest of the database ----

  /** Signing in makes one new session, of that user, unrevoked and with no handoff behind it. */
  lemma SignsIn(s: State, user: string, maxAge: int)
    ensures
      var t := Step(s, SignIn(user, maxAge));
      var session := Session(user, s.now + maxAge, None, None, false);
      t.sessions == s.sessions[|s.created| := session] && t.created == s.created + [session] && t.codes == s.codes
  {
  }

  /** Deleting a user's sessions, or codes, deletes these and no others. */
  lemma DeletesOwn(s: State, user: string)
    ensures
      var t := Step(s, DeleteSessions(user));
      forall i :: (i in t.sessions <==> i in s.sessions && s.sessions[i].user != user) && (i in t.sessions ==> t.sessions[i] == s.sessions[i])
    ensures
      var t := Step(s, DeleteCodes(user));
      forall c :: (c in t.codes <==> c in s.codes && s.codes[c].user != user) && (c in t.codes ==> t.codes[c] == s.codes[c])
  {
  }
}
