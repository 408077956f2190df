/**
 * The Svelte session store (authfn/svelte/src/session-store.ts). A version counter makes the answers
 * of overtaken refreshes stale; the rest of the file says, for any order of starts, answers and
 * clears, what the store then shows.
 */
module SessionStore {
  import opened Text

  datatype Session = Session(id: string, region: Option<string>, subjectRegion: Option<string>)

  /** What the store shows. */
  datatype View = View(
    loading: bool, session: Option<Session>, authenticated: bool, region: Option<string>, error: Option<string>)

  const INITIAL := View(true, None, false, None, None)

  function CreateView(session: Option<Session>, loading: bool, error: Option<string>): View {
    View(loading, session, session.Some?, RegionOf(session), error)
  }

  function RegionOf(session: Option<Session>): Option<string> {
    if session.None? then None
    else if session.value.region.Some? then session.value.region
    else session.value.subjectRegion
  }

  /** The answer to a refresh: a session or none, an error envelope, or a failure of the call. */
  datatype Answer = Loaded(session: Option<Session>) | Refused(error: string) | Threw

  const NETWORK_ERROR := "AUTHFN_NETWORK_ERROR"

  function AnswerView(answer: Answer): View {
    match answer
    case Loaded(session) => CreateView(session, false, None)
    case Refused(error) => CreateView(None, false, Some(error))
    case Threw => CreateView(None, false, Some(NETWORK_ERROR))
  }

  // ---- The store ----

  class Store {
    var published: View
    var current: View
    var version: nat
    /** The refreshes that wait for their answer. */
    ghost var pending: set<nat>

    ghost function State(): State
      reads this
    {
      Store(current, version, pending)
    }

    /** The store starts its first refresh at once. */
    constructor ()
      ensures published == current
      ensures State() == Step(START, Start)
    {
      published := INITIAL;
      current := INITIAL;
      version := 0;
      pending := {};
      new;
      var first := StartRefresh();
    }

    method SetState(view: View)
      modifies this`current, this`published
      ensures published == current == view
    {
      current := view;
      published := view;
    }

    /** The part of `refresh` before it awaits the answer. */
    method StartRefresh() returns (mine: nat)
      modifies this
      ensures published == current
      ensures State() == Step(old(State()), Start) && mine == version
    {
      version := version + 1;
      mine := version;
      pending := pending + {mine};
      SetState(current.(loading := true, error := None));
    }

    /** The part of `refresh` after the answer. */
    method FinishRefresh(mine: nat, answer: Answer) returns (result: Option<Session>)
      requires published == current && mine in pending
      modifies this
      ensures published == current
      ensures State() == Step(old(State()), Finish(mine, answer))
      ensures result == current.session
    {
      pending := pending - {mine};
      if mine != version {
        return current.session;
      }
      match answer {
        case Loaded(session) =>
          SetState(CreateView(session, false, None));
          result := session;
        case Refused(error) =>
          SetState(CreateView(None, false, Some(error)));
          result := None;
        case Threw =>
          SetState(CreateView(None, false, Some(NETWORK_ERROR)));
          result := None;
      }
    }

    method Clear()
      modifies this
      ensures published == current
      ensures State() == Step(old(State()), Event.Clear)
    {
      version := version + 1;
      SetState(CreateView(None, false, None));
    }
  }

  // ---- Runs ----

  datatype Event = Start | Finish(version: nat, answer: Answer) | Clear

  datatype State = Store(view: View, version: nat, pending: set<nat>)

  const START := Store(INITIAL, 0, {})

  /** An answer can only come to a refresh that waits for one. */
  function Step(s: State, e: Event): State {
    match e
    case Start => Store(s.view.(loading := true, error := None), s.version + 1, s.pending + {s.version + 1})
    case Clear => Store(CreateView(None, false, None), s.version + 1, s.pending)
    case Finish(v, answer) =>
      if v !in s.pending then s
      else Store(if v == s.version then AnswerView(answer) else s.view, s.version, s.pending - {v})
  }

  /** The events after the first refresh was started. */
  function Run(trace: seq<Event>): State {
    if trace == [] then Step(START, Start) else Step(Run(trace[..|trace| - 1]), trace[|trace| - 1])
  }

  // ---- What the store shows, without a version counter ----

  /** How many of the events replaced what came before; the refresh at the beginning is the first. */
  function Changes(trace: seq<Event>): nat {
    if trace == [] then 1 else Changes(trace[..|trace| - 1]) + if trace[|trace| - 1].Finish? then 0 else 1
  }

  /** The position after the last start or clear; 0 stands for the refresh at the beginning. */
  function LastChange(trace: seq<Event>): (k: nat)
    ensures k <= |trace|
    ensures k > 0 ==> !trace[k - 1].Finish?
    ensures forall i :: k <= i < |trace| ==> trace[i].Finish?
  {
    if trace == [] then 0 else if trace[|trace| - 1].Finish? then LastChange(trace[..|trace| - 1]) else |trace|
  }

  /** The first answer to this refresh among the events. */
  function AnswerTo(trace: seq<Event>, v: nat): Option<Answer> {
    if trace == [] then None
    else if trace[0].Finish? && trace[0].version == v then Some(trace[0].answer)
    else AnswerTo(trace[1..], v)
  }

  /**
   * A clear shows nothing. A start shows the answer to that very refresh, or, until it has come,
   * what was shown before, loading and without an error. Nothing else counts.
   */
  function Shown(trace: seq<Event>): View
    decreases |trace|
  {
    var k := LastChange(trace);
    if k > 0 && trace[k - 1].Clear? then CreateView(None, false, None)
    else
      var answer := AnswerTo(trace[k..], Changes(trace));
      if answer.Some? then AnswerView(answer.value)
      else if k == 0 then INITIAL
      else Shown(trace[..k - 1]).(loading := true, error := None)
  }

  /** The newest change is a refresh whose answer has not come. */
  predicate NewestPending(trace: seq<Event>) {
    var k := LastChange(trace);
    (k == 0 || trace[k - 1].Start?) && AnswerTo(trace[k..], Changes(trace)).None?
  }

  lemma {:induction false} LastChangeExtends(trace: seq<Event>, e: Event)
    ensures LastChange(trace + [e]) == if e.Finish? then LastChange(trace) else |trace| + 1
    ensures Changes(trace + [e]) == Changes(trace) + if e.Finish? then 0 else 1
  {
    assert (trace + [e])[..|trace + [e]| - 1] == trace;
  }

  lemma {:induction false} AnswerExtends(trace: seq<Event>, e: Event, v: nat)
    ensures AnswerTo(trace + [e], v) ==
            if AnswerTo(trace, v).Some? then AnswerTo(trace, v)
            else if e.Finish? && e.version == v then Some(e.answer) else None
  {
    if trace == [] {
      assert (trace + [e])[1..] == [];
      assert AnswerTo([], v) == None;
    } else {
      assert (trace + [e])[1..] == trace[1..] + [e];
      AnswerExtends(trace[1..], e, v);
    }
  }

  /** One more answer, from a view of the events before it. */
  lemma {:induction false} ShownExtends(trace: seq<Event>, e: Event)
    requires e.Finish?
    ensures NewestPending(trace) && e.version == Changes(trace) ==>
              Shown(trace + [e]) == AnswerView(e.answer) && !NewestPending(trace + [e])
    ensures !(NewestPending(trace) && e.version == Changes(trace)) ==>
              Shown(trace + [e]) == Shown(trace) && NewestPending(trace + [e]) == NewestPending(trace)
  {
    LastChangeExtends(trace, e);
    var k, more := LastChange(trace), trace + [e];
    AnswerExtends(trace[k..], e, Changes(trace));
    assert more[k..] == trace[k..] + [e];
    assert k > 0 ==> more[k - 1] == trace[k - 1] && more[..k - 1] == trace[..k - 1];
  }

  lemma {:induction false} ShownAfterChange(trace: seq<Event>, e: Event)
    requires !e.Finish?
    ensures Shown(trace + [e]) == if e.Clear? then CreateView(None, false, None) else Shown(trace).(loading := true, error := None)
    ensures NewestPending(trace + [e]) <==> e.Start?
  {
    LastChangeExtends(trace, e);
    var more := trace + [e];
    assert more[|more|..] == [];
    assert more[..|more| - 1] == trace;
  }

  /** What a run leaves behind. */
  ghost predicate Agrees(trace: seq<Event>) {
    var s := Run(trace);
    && s.view == Shown(trace)
    && s.version == Changes(trace)
    && (s.version in s.pending <==> NewestPending(trace))
    && (forall v :: v in s.pending ==> v <= s.version)
    && (s.view.loading <==> NewestPending(trace))
  }

  lemma {:induction false} RunAgrees(trace: seq<Event>)
    ensures Agrees(trace)
  {
    if trace == [] {
      assert AnswerTo([], 1) == None;
    } else {
      var front, e := trace[..|trace| - 1], trace[|trace| - 1];
      RunAgrees(front);
      assert trace == front + [e];
      LastChangeExtends(front, e);
      hide Shown, NewestPending, LastChange, Changes;
      if e.Finish? {
        ShownExtends(front, e);
      } else {
        ShownAfterChange(front, e);
      }
    }
  }

  /** The view depends on the last start or clear and the answer to that start, as `Shown` says. */
  lemma {:induction false} ShowsNewest(trace: seq<Event>)
    ensures Run(trace).view == Shown(trace)
  {
    RunAgrees(trace);
  }

  /** Two runs whose last change is a refresh that is answered alike show the same. */
  lemma {:induction false} NewestAnswerDecides(a: seq<Event>, b: seq<Event>)
    requires LastChange(a) == 0 || a[LastChange(a) - 1].Start?
    requires LastChange(b) == 0 || b[LastChange(b) - 1].Start?
    requires AnswerTo(a[LastChange(a)..], Changes(a)).Some?
    requires AnswerTo(a[LastChange(a)..], Changes(a)) == AnswerTo(b[LastChange(b)..], Changes(b))
    ensures Run(a).view == Run(b).view
  {
    RunAgrees(a);
    RunAgrees(b);
    hide LastChange, Changes, AnswerTo;
  }

  /** The store is loading exactly while the newest refresh waits for its answer. */
  lemma {:induction false} LoadingWhilePending(trace: seq<Event>)
    ensures Run(trace).view.loading <==> NewestPending(trace)
  {
    RunAgrees(trace);
  }

  /** The states with and without a stale answer differ at most in that its refresh still waits. */
  ghost predicate DiffersInWaiting(s: State, t: State, v: nat) {
    && s.view == t.view && s.version == t.version
    && (s == t || (v < s.version && s.pending == t.pending - {v}))
  }

  lemma StepKeepsDifference(s: State, t: State, v: nat, e: Event)
    requires DiffersInWaiting(s, t, v)
    ensures DiffersInWaiting(Step(s, e), Step(t, e), v)
  {
  }

  lemma {:induction false} RunMore(trace: seq<Event>, e: Event)
    ensures Run(trace + [e]) == Step(Run(trace), e)
  {
    assert (trace + [e])[..|trace|] == trace;
  }

  lemma {:induction false} StaleAnswerLater(trace: seq<Event>, v: nat, answer: Answer, after: seq<Event>)
    requires v != Changes(trace)
    ensures DiffersInWaiting(Run(trace + [Finish(v, answer)] + after), Run(trace + after), v)
  {
    var stale := trace + [Finish(v, answer)];
    if after == [] {
      assert stale + after == stale && trace + after == trace;
      RunMore(trace, Finish(v, answer));
      RunAgrees(trace);
      hide Run, Changes, Shown, NewestPending;
    } else {
      var front, e := after[..|after| - 1], after[|after| - 1];
      StaleAnswerLater(trace, v, answer, front);
      RunMore(stale + front, e);
      RunMore(trace + front, e);
      assert stale + after == stale + front + [e] && trace + after == trace + front + [e];
      StepKeepsDifference(Run(stale + front), Run(trace + front), v, e);
    }
  }

  /** The answer of an overtaken refresh changes nothing that is shown, then or after any further events. */
  lemma {:induction false} StaleAnswerIgnored(trace: seq<Event>, v: nat, answer: Answer, after: seq<Event>)
    requires v != Changes(trace)
    ensures Run(trace + [Finish(v, answer)] + after).view == Run(trace + after).view
  {
    StaleAnswerLater(trace, v, answer, after);
    hide Run, Changes;
  }

  // ---- What a run shows next ----

  /** The answer to the newest refresh is shown whole: the session of a loaded one, the error of the others. */
  lemma {:induction false} AnswerShown(trace: seq<Event>, answer: Answer)
    requires NewestPending(trace)
    ensures
      var view := Run(trace + [Finish(Changes(trace), answer)]).view;
      && !view.loading
      && view.session == (if answer.Loaded? then answer.session else None)
      && (answer.Loaded? ==> view.error == None)
      && (answer.Refused? ==> view.error == Some(answer.error))
      && (answer.Threw? ==> view.error == Some("AUTHFN_NETWORK_ERROR"))
  {
    RunAgrees(trace);
    RunMore(trace, Finish(Changes(trace), answer));
  }

  /** A refresh keeps showing the session of before while it loads; a clear shows none. */
  lemma {:induction false} ChangeShown(trace: seq<Event>)
    ensures
      var before, view := Run(trace).view, Run(trace + [Start]).view;
      view.loading && view.error == None && view.session == before.session && view.region == before.region
    ensures
      var view := Run(trace + [Clear]).view;
      !view.loading && view.error == None && view.session == None && view.region == None
  {
    RunMore(trace, Start);
    RunMore(trace, Clear);
  }

  /** Before any answer or change the store is loading, with no session. */
  lemma ShownAtFirst()
    ensures
      var view := Run([]).view;
      view.loading && view.error == None && view.session == None && view.region == None && !view.authenticated
  {
  }

  /** The region of a session is its own, else that of its subject. */
  lemma {:induction false} RegionExact(trace: seq<Event>)
    requires Run(trace).view.session.Some?
    ensures
      var view := Run(trace).view;
      var session := view.session.value;
      view.region == (match session.region case Some(r) => Some(r) case None => session.subjectRegion)
  {
    ViewsAreConsistent(trace);
  }

  /** Whoever looks sees a consistent view: the flags and the region follow from the session. */
  lemma {:induction false} ViewsAreConsistent(trace: seq<Event>)
    ensures
      var view := Run(trace).view;
      && (view.authenticated <==> view.session.Some?)
      && view.region == RegionOf(view.session)
      && (view.error.Some? ==> view.session.None? && !view.loading)
  {
    if trace != [] {
      ViewsAreConsistent(trace[..|trace| - 1]);
    }
  }
}
