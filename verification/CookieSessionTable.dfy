/** How the table of sessions changes from step to step. */
module CookieSessionTable {
  import opened CookieSessions

  // ---- How the table changes ----

  /** Rows keep their user; what is revoked or gone stays so; new rows are new. */
  predicate TableGrows(s: State, t: State) {
    && s.created <= t.created && s.now <= t.now
    && (forall i :: i in t.rows ==> i < |t.created|)
    && (forall i :: i in t.rows && i < |s.created| ==>
          i in s.rows && t.rows[i].user == s.rows[i].user && (s.rows[i].revokedAt.Some? ==> t.rows[i].revokedAt.Some?))
  }

  predicate Numbered(s: State) {
    && (forall i :: i in s.rows ==> i < |s.created| && s.rows[i].user == s.created[i].user)
  }

  /** The update leaves the row with its user, and revoked if it was. */
  predicate ChangeOk(s: State, m: Move) {
    m.change.Some? ==>
      var c := m.change.value;
      c.id in s.rows && c.row.user == s.rows[c.id].user && (s.rows[c.id].revokedAt.Some? ==> c.row.revokedAt.Some?)
  }

  lemma ServeChanges(s: State, q: Request, csrf: bool)
    requires q.Ready?
    ensures ChangeOk(s, Serve(s, q, csrf))
  {
    hide RowsOf, Live;
  }

  lemma DecideChanges(s: State, q: Request, csrf: bool, pick: nat)
    ensures ChangeOk(s, Decide(s, q, csrf, pick))
  {
    hide Serve, Expired;
    if q.Ready? {
      ServeChanges(s, q, csrf);
    }
  }

  lemma MakeGrows(s: State, r: nat, m: Move)
    requires Numbered(s) && ChangeOk(s, m)
    ensures TableGrows(s, Make(s, r, m)) && Numbered(Make(s, r, m))
  {
  }

  lemma AdvanceGrows(s: State, r: nat, csrf: bool, pick: nat)
    requires Numbered(s) && r in s.requests
    ensures TableGrows(s, AdvanceRequest(s, r, csrf, pick)) && Numbered(AdvanceRequest(s, r, csrf, pick))
  {
    DecideChanges(s, s.requests[r], csrf, pick);
    hide Decide, ChangeOk, Make, TableGrows, Numbered;
    MakeGrows(s, r, Decide(s, s.requests[r], csrf, pick));
  }

  lemma StepGrows(s: State, a: Action)
    requires Numbered(s)
    ensures TableGrows(s, Step(s, a)) && Numbered(Step(s, a))
  {
    hide AdvanceRequest;
    if a.Advance? && a.request in s.requests {
      AdvanceGrows(s, a.request, a.csrf, a.pick);
    }
  }

  lemma {:induction false} RunNumbered(actions: seq<Action>)
    ensures Numbered(Run(actions))
  {
    hide Step;
    if actions != [] {
      RunNumbered(actions[..|actions| - 1]);
      StepGrows(Run(actions[..|actions| - 1]), actions[|actions| - 1]);
    }
  }

  lemma {:induction false} RunGrows(before: seq<Action>, after: seq<Action>)
    ensures TableGrows(Run(before), RunFrom(Run(before), after)) && Numbered(RunFrom(Run(before), after))
  {
    hide Step;
    RunNumbered(before);
    if after != [] {
      RunGrows(before, after[..|after| - 1]);
      StepGrows(RunFrom(Run(before), after[..|after| - 1]), after[|after| - 1]);
    }
  }

  /** In no run does a `revokedAt`, once set, become null again, nor does a deleted session return. */
  lemma {:induction false} RevocationIsFinal(before: seq<Action>, after: seq<Action>, id: nat)
    requires id < |Run(before).created|
    requires id in Run(before).rows ==> Run(before).rows[id].revokedAt.Some?
    ensures
      var t := RunFrom(Run(before), after);
      id in t.rows ==> t.rows[id].revokedAt.Some?
  {
    RunGrows(before, after);
    hide Run, RunFrom;
  }
}
