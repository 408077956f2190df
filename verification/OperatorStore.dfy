/**
 * The in-memory operator store and cursor paging (apifn/admin/src/operator-service.ts): records live
 * in one map under joined keys, and lists are handed out page by page.
 */
module OperatorStore {
  import opened Text
  import opened Sorting

  datatype Scope = Scope(installation: string, workspace: string, project: string, environment: Option<string>)

  /** A spec or an environment; `data` is everything but its identifier and scope. */
  datatype Entry<T> = Entry(id: string, scope: Scope, data: T)

  function EnvironmentText(scope: Scope): string {
    if scope.environment.Some? then scope.environment.value else ""
  }

  function Key(scope: Scope, id: string): string {
    scope.installation + "\0" + (scope.workspace + "\0" + (scope.project + "\0" + (EnvironmentText(scope) + "\0" + id)))
  }

  // ---- When keys tell records apart ----

  predicate NulFreeScope(scope: Scope) {
    Free(scope.installation, '\0') && Free(scope.workspace, '\0') && Free(scope.project, '\0') && Free(EnvironmentText(scope), '\0')
  }

  lemma JoinInjective(a: string, x: string, b: string, y: string)
    requires Free(a, '\0') && Free(b, '\0')
    ensures a + "\0" + x == b + "\0" + y <==> a == b && x == y
  {
    var s, t := a + "\0" + x, b + "\0" + y;
    if s == t {
      assert s[|a|] == '\0' && t[|b|] == '\0';
      assert forall k :: 0 <= k < |a| ==> s[k] == a[k];
      assert forall k :: 0 <= k < |b| ==> t[k] == b[k];
      assert |a| == |b|;
      assert s[..|a|] == a && t[..|b|] == b;
      assert s[|a| + 1..] == x && t[|b| + 1..] == y;
    }
  }

  /** Scopes that differ at most in an absent and an empty environment. */
  predicate Alike(s: Scope, t: Scope) {
    s.(environment := None) == t.(environment := None) && EnvironmentText(s) == EnvironmentText(t)
  }

  /** Keys of scopes without NUL are equal exactly when the identifiers are and the scopes are alike. */
  lemma KeysExact(s: Scope, i: string, t: Scope, j: string)
    requires NulFreeScope(s) && NulFreeScope(t)
    ensures Key(s, i) == Key(t, j) <==> Alike(s, t) && i == j
  {
    var s4, t4 := EnvironmentText(s) + "\0" + i, EnvironmentText(t) + "\0" + j;
    var s3, t3 := s.project + "\0" + s4, t.project + "\0" + t4;
    var s2, t2 := s.workspace + "\0" + s3, t.workspace + "\0" + t3;
    JoinInjective(EnvironmentText(s), i, EnvironmentText(t), j);
    JoinInjective(s.project, s4, t.project, t4);
    JoinInjective(s.workspace, s3, t.workspace, t3);
    JoinInjective(s.installation, s2, t.installation, t2);
  }

  /** No two of these scopes share a key; scopes that are not clean may share keys with them. */
  predicate Clean(scope: Scope) {
    NulFreeScope(scope) && scope.environment != Some("")
  }

  lemma CleanKeysDiffer(s: Scope, i: string, t: Scope, j: string)
    requires Clean(s) && Clean(t)
    ensures Key(s, i) == Key(t, j) <==> s == t && i == j
  {
    KeysExact(s, i, t, j);
  }

  /** Two scopes have a key in common exactly if the joined text of one begins with that of the other. */
  lemma ScopesCollide(s: Scope, t: Scope)
    ensures (exists i, j :: Key(s, i) == Key(t, j)) <==> Key(s, "") <= Key(t, "") || Key(t, "") <= Key(s, "")
  {
    forall scope, id
      ensures Key(scope, id) == Key(scope, "") + id
    {
      KeySplits(scope, id);
    }
    hide Key;
    var a, b := Key(s, ""), Key(t, "");
    if a <= b {
      assert a + b[|a|..] == b + "";
      assert Key(s, b[|a|..]) == Key(t, "");
    } else if b <= a {
      assert b + a[|b|..] == a + "";
      assert Key(s, "") == Key(t, a[|b|..]);
    }
    if i, j :| Key(s, i) == Key(t, j) {
      PrefixesOfOne(a, i, b, j);
    }
  }

  lemma KeySplits(scope: Scope, id: string)
    ensures Key(scope, id) == Key(scope, "") + id
  {
    var e := EnvironmentText(scope) + "\0";
    assert EnvironmentText(scope) + "\0" + id == (EnvironmentText(scope) + "\0" + "") + id;
  }

  lemma PrefixesOfOne(a: string, x: string, b: string, y: string)
    requires a + x == b + y
    ensures a <= b || b <= a
  {
    assert forall k :: 0 <= k < |a| ==> (a + x)[k] == a[k];
    assert forall k :: 0 <= k < |b| ==> (b + y)[k] == b[k];
  }

  /** Neither condition on clean scopes can be dropped. */
  lemma UncleanKeysCollide(id: string)
    ensures Key(Scope("i", "w", "p", None), id) == Key(Scope("i", "w", "p", Some("")), id)
    ensures Key(Scope("i\0w", "p", "e", None), id) == Key(Scope("i", "w", "p", Some("e\0")), id)
  {
    assert "i\0w" == "i" + "\0" + "w";
    assert "e\0" == "e" + "\0";
    calc {
      Key(Scope("i\0w", "p", "e", None), id);
      ("i" + "\0" + "w") + "\0" + ("p" + "\0" + ("e" + "\0" + ("" + "\0" + id)));
      "i" + "\0" + ("w" + "\0" + ("p" + "\0" + (("e" + "\0") + "\0" + id)));
      Key(Scope("i", "w", "p", Some("e\0")), id);
    }
  }

  // ---- The store ----

  /** The entries by key, and the keys in the order in which they were first set. */
  datatype State<T> = State(order: seq<string>, values: map<string, Entry<T>>)

  function Remove(order: seq<string>, key: string): seq<string> {
    if order == [] then []
    else if order[0] == key then Remove(order[1..], key)
    else [order[0]] + Remove(order[1..], key)
  }

  function Put<T>(s: State<T>, entry: Entry<T>): State<T> {
    var key := Key(entry.scope, entry.id);
    State(if key in s.values then s.order else s.order + [key], s.values[key := entry])
  }

  function Get<T>(s: State<T>, scope: Scope, id: string): Option<Entry<T>> {
    var key := Key(scope, id);
    if key in s.values then Some(s.values[key]) else None
  }

  function Delete<T>(s: State<T>, scope: Scope, id: string): State<T> {
    var key := Key(scope, id);
    if key in s.values then State(Remove(s.order, key), s.values - {key}) else s
  }

  /** The entries whose scope has this prefix, in order. */
  function Select<T>(order: seq<string>, values: map<string, Entry<T>>, prefix: string): seq<Entry<T>>
    requires forall key :: key in order ==> key in values
  {
    if order == [] then []
    else
      var entry := values[order[0]];
      (if Key(entry.scope, "") == prefix then [entry] else []) + Select(order[1..], values, prefix)
  }

  /** The order lists the keys once each, and each entry is under its own key. */
  ghost predicate Valid<T>(s: State<T>) {
    && Distinct(s.order)
    && (forall key :: key in s.order <==> key in s.values)
    && (forall key :: key in s.values ==> Key(s.values[key].scope, s.values[key].id) == key)
  }

  function List<T>(s: State<T>, scope: Scope): seq<Entry<T>>
    requires Valid(s)
  {
    Select(s.order, s.values, Key(scope, ""))
  }

  class MemoryStore<T> {
    var order: seq<string>
    var values: map<string, Entry<T>>

    ghost function View(): State<T>
      reads this
    {
      State(order, values)
    }

    constructor ()
      ensures View() == State([], map[]) && Valid(View())
    {
      order, values := [], map[];
    }

    method PutEntry(entry: Entry<T>)
      requires Valid(View())
      modifies this
      ensures View() == Put(old(View()), entry) && Valid(View())
    {
      var key := Key(entry.scope, entry.id);
      PutValid(View(), entry);
      if key !in values {
        order := order + [key];
      }
      values := values[key := entry];
    }

    method GetEntry(scope: Scope, id: string) returns (entry: Option<Entry<T>>)
      ensures entry == Get(View(), scope, id)
    {
      var key := Key(scope, id);
      entry := if key in values then Some(values[key]) else None;
    }

    method ListEntries(scope: Scope) returns (entries: seq<Entry<T>>)
      requires Valid(View())
      ensures entries == List(View(), scope)
    {
      var prefix := Key(scope, "");
      entries := [];
      for i := |order| downto 0
        invariant entries == Select(order[i..], values, prefix)
      {
        assert order[i] in order;
        var entry := values[order[i]];
        if Key(entry.scope, "") == prefix {
          entries := [entry] + entries;
        }
        assert order[i..] == [order[i]] + order[i + 1..];
      }
      assert order[0..] == order;
    }

    method DeleteEntry(scope: Scope, id: string) returns (found: bool)
      requires Valid(View())
      modifies this
      ensures View() == Delete(old(View()), scope, id) && Valid(View())
      ensures found <==> Get(old(View()), scope, id).Some?
    {
      var key := Key(scope, id);
      DeleteValid(View(), scope, id);
      found := key in values;
      if found {
        order := Remove(order, key);
        values := values - {key};
      }
    }
  }

  lemma PutValid<T>(s: State<T>, entry: Entry<T>)
    requires Valid(s)
    ensures Valid(Put(s, entry))
  {
    hide Key;
  }

  lemma {:induction false} RemoveExact(order: seq<string>, key: string)
    ensures forall k :: k in Remove(order, key) <==> k in order && k != key
    ensures Distinct(order) ==> Distinct(Remove(order, key))
  {
    if order != [] {
      RemoveExact(order[1..], key);
      forall k
        ensures k in order <==> k == order[0] || k in order[1..]
      {
        assert order == [order[0]] + order[1..];
      }
      var rest := Remove(order[1..], key);
      if Distinct(order) {
        assert Distinct(order[1..]) && order[0] !in order[1..];
        assert Distinct([order[0]] + rest);
      }
    }
  }

  lemma DeleteValid<T>(s: State<T>, scope: Scope, id: string)
    requires Valid(s)
    ensures Valid(Delete(s, scope, id))
  {
    RemoveExact(s.order, Key(scope, id));
    hide Key, Remove;
  }

  // ---- The nested map that it stands for ----

  type Nested<T> = map<Scope, map<string, Entry<T>>>

  function Inner<T>(n: Nested<T>, scope: Scope): map<string, Entry<T>> {
    if scope in n then n[scope] else map[]
  }

  datatype Op<T> =
    | DoPut(entry: Entry<T>)
    | DoGet(where: Scope, id: string)
    | DoList(where: Scope)
    | DoDelete(where: Scope, id: string)

  function ScopeOf<T>(op: Op<T>): Scope {
    if op.DoPut? then op.entry.scope else op.where
  }

  function Apply<T>(s: State<T>, op: Op<T>): State<T> {
    match op
    case DoPut(entry) => Put(s, entry)
    case DoDelete(scope, id) => Delete(s, scope, id)
    case _ => s
  }

  function ApplyNested<T>(n: Nested<T>, op: Op<T>): Nested<T> {
    match op
    case DoPut(entry) => n[entry.scope := Inner(n, entry.scope)[entry.id := entry]]
    case DoDelete(scope, id) => n[scope := Inner(n, scope) - {id}]
    case _ => n
  }

  /** What an operation does to the inner map of its own scope. */
  function ApplyInner<T>(inner: map<string, Entry<T>>, op: Op<T>): map<string, Entry<T>> {
    match op
    case DoPut(entry) => inner[entry.id := entry]
    case DoDelete(_, id) => inner - {id}
    case _ => inner
  }

  lemma InnerStep<T>(n: Nested<T>, op: Op<T>, scope: Scope)
    ensures Inner(ApplyNested(n, op), scope) == if ScopeOf(op) == scope then ApplyInner(Inner(n, scope), op) else Inner(n, scope)
  {
  }

  function Find<T>(n: Nested<T>, scope: Scope, id: string): Option<Entry<T>> {
    if id in Inner(n, scope) then Some(Inner(n, scope)[id]) else None
  }

  function Run<T>(ops: seq<Op<T>>): State<T> {
    if ops == [] then State([], map[]) else Apply(Run(ops[..|ops| - 1]), ops[|ops| - 1])
  }

  function RunNested<T>(ops: seq<Op<T>>): Nested<T> {
    if ops == [] then map[] else ApplyNested(RunNested(ops[..|ops| - 1]), ops[|ops| - 1])
  }

  lemma {:induction false} RunValid<T>(ops: seq<Op<T>>)
    ensures Valid(Run(ops))
  {
    if ops != [] {
      var front, op := ops[..|ops| - 1], ops[|ops| - 1];
      RunValid(front);
      match op {
        case DoPut(entry) => PutValid(Run(front), entry);
        case DoDelete(scope, id) => DeleteValid(Run(front), scope, id);
        case _ =>
      }
      hide Valid, Put, Delete;
    }
  }

  /** The flat map holds, under the joined keys of clean scopes, exactly what the nested map does. */
  ghost predicate Refines<T(!new)>(s: State<T>, n: Nested<T>) {
    && (forall scope, id :: Clean(scope) ==> Get(s, scope, id) == Find(n, scope, id))
    && (forall key :: key in s.values ==> Clean(s.values[key].scope))
  }

  lemma PutRefines<T(!new)>(s: State<T>, n: Nested<T>, entry: Entry<T>)
    requires Refines(s, n) && Clean(entry.scope)
    ensures Refines(Put(s, entry), ApplyNested(n, DoPut(entry)))
  {
    hide Key, Clean;
    var m := ApplyNested(n, DoPut(entry));
    forall scope, id | Clean(scope)
      ensures Get(Put(s, entry), scope, id) == Find(m, scope, id)
    {
      CleanKeysDiffer(scope, id, entry.scope, entry.id);
      InnerStep(n, DoPut(entry), scope);
      hide Inner, ApplyNested;
      assert Get(s, scope, id) == Find(n, scope, id);
    }
    hide Get, Find;
  }

  lemma DeleteRefines<T(!new)>(s: State<T>, n: Nested<T>, where: Scope, which: string)
    requires Refines(s, n) && Clean(where)
    ensures Refines(Delete(s, where, which), ApplyNested(n, DoDelete(where, which)))
  {
    hide Key, Clean, Remove;
    var m := ApplyNested(n, DoDelete(where, which));
    forall scope, id | Clean(scope)
      ensures Get(Delete(s, where, which), scope, id) == Find(m, scope, id)
    {
      CleanKeysDiffer(scope, id, where, which);
      InnerStep(n, DoDelete(where, which), scope);
      hide Inner, ApplyNested;
      assert Get(s, scope, id) == Find(n, scope, id);
    }
    hide Get, Find;
  }

  ghost predicate CleanOps<T>(ops: seq<Op<T>>) {
    forall k :: 0 <= k < |ops| ==> Clean(ScopeOf(ops[k]))
  }

  lemma {:induction false} RunRefines<T(!new)>(ops: seq<Op<T>>)
    requires CleanOps(ops)
    ensures Refines(Run(ops), RunNested(ops))
  {
    hide Clean;
    if ops != [] {
      var front, op := ops[..|ops| - 1], ops[|ops| - 1];
      RunRefines(front);
      assert Clean(ScopeOf(op));
      hide Refines, Put, Delete;
      match op {
        case DoPut(entry) => PutRefines(Run(front), RunNested(front), entry);
        case DoDelete(scope, id) => DeleteRefines(Run(front), RunNested(front), scope, id);
        case _ =>
      }
    }
  }

  lemma {:induction false} SelectExact<T(!new)>(order: seq<string>, values: map<string, Entry<T>>, prefix: string)
    requires Distinct(order) && forall key :: key in order ==> key in values && Key(values[key].scope, values[key].id) == key
    ensures Distinct(Select(order, values, prefix))
    ensures forall e :: e in Select(order, values, prefix) <==>
              Key(e.scope, e.id) in order && values[Key(e.scope, e.id)] == e && Key(e.scope, "") == prefix
  {
    hide Key;
    if order != [] {
      assert order == [order[0]] + order[1..];
      SelectExact(order[1..], values, prefix);
    }
  }

  /**
   * In any run over clean scopes, a get and a delete find what the nested map has, and a list is the
   * inner map of its scope, each entry once.
   */
  lemma {:induction false} AgreesWithNested<T(!new)>(ops: seq<Op<T>>, scope: Scope, id: string)
    requires CleanOps(ops) && Clean(scope)
    ensures
      var inner := Inner(RunNested(ops), scope);
      Get(Run(ops), scope, id) == if id in inner then Some(inner[id]) else None
    ensures Valid(Run(ops))
    ensures
      var inner := Inner(RunNested(ops), scope);
      var entries := List(Run(ops), scope);
      Distinct(entries) && forall e :: e in entries <==> e.id in inner && inner[e.id] == e
  {
    RunValid(ops);
    RunRefines(ops);
    var s, n := Run(ops), RunNested(ops);
    SelectExact(s.order, s.values, Key(scope, ""));
    InnerKeyed(ops, scope);
    hide Key, Clean, Run, RunNested, Select;
    forall e: Entry<T>
      ensures e in List(s, scope) <==> e.id in Inner(n, scope) && Inner(n, scope)[e.id] == e
    {
      if e.scope == scope {
        assert Get(s, scope, e.id) == Find(n, scope, e.id);
      } else if Key(e.scope, e.id) in s.values && s.values[Key(e.scope, e.id)] == e {
        CleanKeysDiffer(e.scope, "", scope, "");
      }
    }
  }

  lemma {:induction false} InnerKeyed<T>(ops: seq<Op<T>>, scope: Scope)
    ensures forall id :: id in Inner(RunNested(ops), scope) ==> Inner(RunNested(ops), scope)[id].scope == scope
    ensures forall id :: id in Inner(RunNested(ops), scope) ==> Inner(RunNested(ops), scope)[id].id == id
  {
    if ops != [] {
      var front, op := ops[..|ops| - 1], ops[|ops| - 1];
      InnerKeyed(front, scope);
      InnerStep(RunNested(front), op, scope);
      hide Inner, ApplyNested;
    }
  }

  // ---- Scopes do not see each other ----

  function InScope<T>(ops: seq<Op<T>>, scope: Scope): seq<Op<T>> {
    if ops == [] then []
    else
      var op := ops[|ops| - 1];
      InScope(ops[..|ops| - 1], scope) + if ScopeOf(op) == scope then [op] else []
  }

  lemma {:induction false} NestedIsolated<T>(ops: seq<Op<T>>, scope: Scope)
    ensures Inner(RunNested(ops), scope) == Inner(RunNested(InScope(ops, scope)), scope)
  {
    if ops != [] {
      var front, op := ops[..|ops| - 1], ops[|ops| - 1];
      NestedIsolated(front, scope);
      var kept := InScope(front, scope);
      InnerStep(RunNested(front), op, scope);
      InnerStep(RunNested(kept), op, scope);
      hide Inner, ApplyNested;
      assert (kept + [op])[..|kept + [op]| - 1] == kept;
      assert kept + [] == kept;
    }
  }

  lemma {:induction false} InScopeClean<T>(ops: seq<Op<T>>, scope: Scope)
    requires CleanOps(ops)
    ensures CleanOps(InScope(ops, scope))
  {
    if ops != [] {
      InScopeClean(ops[..|ops| - 1], scope);
    }
  }

  /** What an operation does to the list of its own scope. */
  function ApplyList<T>(entries: seq<Entry<T>>, op: Op<T>): seq<Entry<T>> {
    match op
    case DoPut(entry) => if Listed(entries, entry.id) then Overwrite(entries, entry) else entries + [entry]
    case DoDelete(_, id) => Without(entries, id)
    case _ => entries
  }

  predicate Listed<T>(entries: seq<Entry<T>>, id: string) {
    exists k :: 0 <= k < |entries| && entries[k].id == id
  }

  function Overwrite<T>(entries: seq<Entry<T>>, e: Entry<T>): seq<Entry<T>> {
    if entries == [] then [] else [if entries[0].id == e.id then e else entries[0]] + Overwrite(entries[1..], e)
  }

  function Without<T>(entries: seq<Entry<T>>, id: string): seq<Entry<T>> {
    if entries == [] then [] else (if entries[0].id == id then [] else [entries[0]]) + Without(entries[1..], id)
  }

  /** The keys are those of their entries, and these are in clean scopes. */
  ghost predicate Keyed<T>(order: seq<string>, values: map<string, Entry<T>>) {
    forall key :: key in order ==>
      key in values && Key(values[key].scope, values[key].id) == key && Clean(values[key].scope)
  }

  lemma InPrefix<T>(entry: Entry<T>, scope: Scope)
    requires Clean(entry.scope) && Clean(scope)
    ensures Key(entry.scope, "") == Key(scope, "") <==> entry.scope == scope
  {
    CleanKeysDiffer(entry.scope, "", scope, "");
  }

  lemma {:induction false} OverwriteCons<T>(head: Entry<T>, rest: seq<Entry<T>>, e: Entry<T>)
    ensures Overwrite([head] + rest, e) == [if head.id == e.id then e else head] + Overwrite(rest, e)
  {
    assert ([head] + rest)[1..] == rest;
  }

  lemma {:induction false} WithoutCons<T>(head: Entry<T>, rest: seq<Entry<T>>, id: string)
    ensures Without([head] + rest, id) == (if head.id == id then [] else [head]) + Without(rest, id)
  {
    assert ([head] + rest)[1..] == rest;
  }

  /** The part of a list that comes from its first key. */
  function HeadOf<T>(head: Entry<T>, scope: Scope): seq<Entry<T>> {
    if head.scope == scope then [head] else []
  }

  lemma {:induction false} SelectHead<T>(order: seq<string>, values: map<string, Entry<T>>, scope: Scope)
    requires order != [] && (forall key :: key in order ==> key in values)
    requires Clean(values[order[0]].scope) && Clean(scope)
    ensures Select(order, values, Key(scope, "")) ==
            HeadOf(values[order[0]], scope) + Select(order[1..], values, Key(scope, ""))
  {
    InPrefix(values[order[0]], scope);
    hide Key, Clean;
  }

  lemma {:induction false} SelectPut<T>(order: seq<string>, values: map<string, Entry<T>>, e: Entry<T>, scope: Scope)
    requires Keyed(order, values) && Clean(e.scope) && Clean(scope)
    ensures
      var entries := Select(order, values, Key(scope, ""));
      Select(order, values[Key(e.scope, e.id) := e], Key(scope, "")) == if e.scope == scope then Overwrite(entries, e) else entries
  {
    if order != [] {
      var key, after := Key(e.scope, e.id), values[Key(e.scope, e.id) := e];
      var head, rest := values[order[0]], Select(order[1..], values, Key(scope, ""));
      assert Clean(head.scope);
      CleanKeysDiffer(head.scope, head.id, e.scope, e.id);
      assert order[0] == key <==> head.scope == e.scope && head.id == e.id;
      hide Key, Clean, Overwrite;
      SelectHead(order, values, scope);
      SelectHead(order, after, scope);
      SelectPut(order[1..], values, e, scope);
      hide Select;
      OverwriteCons(head, rest, e);
      assert [] + rest == rest && [] + Overwrite(rest, e) == Overwrite(rest, e);
    }
  }

  lemma {:induction false} WithoutHead<T>(head: Entry<T>, rest: seq<Entry<T>>, where: Scope, id: string, scope: Scope, gone: bool)
    requires gone <==> head.scope == where && head.id == id
    ensures (if gone then [] else HeadOf(head, scope)) + (if where == scope then Without(rest, id) else rest)
         == if where == scope then Without(HeadOf(head, scope) + rest, id) else HeadOf(head, scope) + rest
  {
    WithoutCons(head, rest, id);
    hide Without;
    assert [] + rest == rest;
  }

  lemma {:induction false} RemoveHead(order: seq<string>, key: string)
    requires order != []
    ensures Remove(order, key) == if order[0] == key then Remove(order[1..], key) else [order[0]] + Remove(order[1..], key)
    ensures ([order[0]] + Remove(order[1..], key))[1..] == Remove(order[1..], key)
  {
  }

  /** What is selected when a key is removed, given what is selected of the rest. */
  lemma {:induction false} SelectRemovedHead<T>(
    order: seq<string>, values: map<string, Entry<T>>, key: string, scope: Scope, tail: seq<Entry<T>>)
    requires order != [] && Keyed(order, values) && Clean(scope)
    requires forall k :: k in Remove(order, key) ==> k in order && k != key
    requires forall k :: k in Remove(order[1..], key) ==> k in order[1..] && k != key
    requires Select(Remove(order[1..], key), values - {key}, Key(scope, "")) == tail
    ensures Select(Remove(order, key), values - {key}, Key(scope, "")) ==
            (if order[0] == key then [] else HeadOf(values[order[0]], scope)) + tail
  {
    var left := Remove(order[1..], key);
    RemoveHead(order, key);
    hide Key, Clean, Select, Remove, HeadOf;
    if order[0] == key {
      assert [] + tail == tail;
    } else {
      assert [order[0]] + left == Remove(order, key);
      SelectHead([order[0]] + left, values - {key}, scope);
    }
  }

  lemma {:induction false} SelectRemoved<T>(order: seq<string>, values: map<string, Entry<T>>, where: Scope, id: string, scope: Scope)
    requires Keyed(order, values) && Clean(where) && Clean(scope)
    requires forall k :: k in Remove(order, Key(where, id)) ==> k in order && k != Key(where, id)
    ensures
      var entries := Select(order, values, Key(scope, ""));
      Select(Remove(order, Key(where, id)), values - {Key(where, id)}, Key(scope, ""))
      == if where == scope then Without(entries, id) else entries
  {
    if order != [] {
      var key := Key(where, id);
      var head, rest := values[order[0]], Select(order[1..], values, Key(scope, ""));
      assert Clean(head.scope) && Key(head.scope, head.id) == order[0];
      CleanKeysDiffer(head.scope, head.id, where, id);
      hide Key, Clean, Without, Select, Remove, HeadOf;
      RemoveExact(order[1..], key);
      SelectHead(order, values, scope);
      SelectRemoved(order[1..], values, where, id, scope);
      SelectRemovedHead(order, values, key, scope, if where == scope then Without(rest, id) else rest);
      hide Keyed;
      WithoutHead(head, rest, where, id, scope, order[0] == key);
    }
  }

  lemma {:induction false} SelectUnfolds<T>(order: seq<string>, values: map<string, Entry<T>>, prefix: string)
    requires order != [] && forall k :: k in order ==> k in values
    ensures Select(order, values, prefix) ==
            (if Key(values[order[0]].scope, "") == prefix then [values[order[0]]] else []) + Select(order[1..], values, prefix)
  {
  }

  lemma RestAppended(order: seq<string>, key: string)
    requires order != []
    ensures (order + [key])[0] == order[0] && (order + [key])[1..] == order[1..] + [key]
  {
  }

  lemma {:induction false} SelectAppended<T>(order: seq<string>, key: string, values: map<string, Entry<T>>, prefix: string)
    requires forall k :: k in order + [key] ==> k in values
    ensures Select(order + [key], values, prefix) ==
            Select(order, values, prefix) + if Key(values[key].scope, "") == prefix then [values[key]] else []
  {
    hide Key;
    if order == [] {
      assert order + [key] == [key] && [key][1..] == [];
    } else {
      SelectAppended(order[1..], key, values, prefix);
      SelectUnfolds(order, values, prefix);
      SelectUnfolds(order + [key], values, prefix);
      hide Select;
      RestAppended(order, key);
    }
  }

  lemma {:induction false} OverwriteAbsent<T>(entries: seq<Entry<T>>, e: Entry<T>)
    requires !Listed(entries, e.id)
    ensures Overwrite(entries, e) == entries
  {
    if entries != [] {
      assert forall k :: 0 <= k < |entries[1..]| ==> entries[1..][k] == entries[k + 1];
      OverwriteAbsent(entries[1..], e);
    }
  }

  lemma {:induction false} WithoutAbsent<T>(entries: seq<Entry<T>>, id: string)
    requires !Listed(entries, id)
    ensures Without(entries, id) == entries
  {
    if entries != [] {
      assert forall k :: 0 <= k < |entries[1..]| ==> entries[1..][k] == entries[k + 1];
      WithoutAbsent(entries[1..], id);
    }
  }

  /** An identifier is listed in its scope exactly if its key is set. */
  lemma ListedExact<T(!new)>(s: State<T>, scope: Scope, id: string)
    requires Valid(s) && Keyed(s.order, s.values) && Clean(scope)
    ensures Listed(List(s, scope), id) <==> Key(scope, id) in s.values
  {
    hide Key, Clean;
    SelectExact(s.order, s.values, Key(scope, ""));
    var entries := List(s, scope);
    if k :| 0 <= k < |entries| && entries[k].id == id {
      assert entries[k] in entries;
      InPrefix(entries[k], scope);
    }
    if Key(scope, id) in s.values {
      var e := s.values[Key(scope, id)];
      CleanKeysDiffer(e.scope, e.id, scope, id);
      assert e in entries;
    }
  }

  lemma PutLists<T(!new)>(s: State<T>, e: Entry<T>, scope: Scope)
    requires Valid(s) && Keyed(s.order, s.values) && Clean(e.scope) && Clean(scope) && Valid(Put(s, e))
    ensures List(Put(s, e), scope) == if e.scope == scope then ApplyList(List(s, scope), DoPut(e)) else List(s, scope)
  {
    var key := Key(e.scope, e.id);
    SelectPut(s.order, s.values, e, scope);
    ListedExact(s, e.scope, e.id);
    InPrefix(e, scope);
    hide Key, Clean, Listed, Overwrite, Select, Keyed;
    if key !in s.values {
      SelectAppended(s.order, key, s.values[key := e], Key(scope, ""));
      if e.scope == scope {
        OverwriteAbsent(List(s, scope), e);
      }
    }
  }

  lemma DeleteLists<T(!new)>(s: State<T>, where: Scope, id: string, scope: Scope)
    requires Valid(s) && Keyed(s.order, s.values) && Clean(where) && Clean(scope) && Valid(Delete(s, where, id))
    ensures List(Delete(s, where, id), scope)
         == if where == scope then ApplyList(List(s, scope), DoDelete(where, id)) else List(s, scope)
  {
    RemoveExact(s.order, Key(where, id));
    SelectRemoved(s.order, s.values, where, id, scope);
    ListedExact(s, where, id);
    hide Key, Clean, Listed, Without, Select, Keyed, Remove;
    if Key(where, id) !in s.values && where == scope {
      WithoutAbsent(List(s, scope), id);
    }
  }

  /** The list of a scope as its own operations make it. */
  function RunList<T>(ops: seq<Op<T>>, scope: Scope): seq<Entry<T>> {
    if ops == [] then []
    else
      var before, op := RunList(ops[..|ops| - 1], scope), ops[|ops| - 1];
      if ScopeOf(op) == scope then ApplyList(before, op) else before
  }

  lemma RefinesKeyed<T(!new)>(s: State<T>, n: Nested<T>)
    requires Valid(s) && Refines(s, n)
    ensures Keyed(s.order, s.values)
  {
    hide Key, Clean;
  }

  lemma {:induction false} RunLists<T(!new)>(ops: seq<Op<T>>, scope: Scope)
    requires CleanOps(ops) && Clean(scope)
    ensures Valid(Run(ops)) && List(Run(ops), scope) == RunList(ops, scope)
  {
    RunValid(ops);
    if ops != [] {
      var front, op := ops[..|ops| - 1], ops[|ops| - 1];
      RunLists(front, scope);
      RunRefines(front);
      RefinesKeyed(Run(front), RunNested(front));
      assert Clean(ScopeOf(op));
      hide Valid, Refines, Keyed, Clean, List, ApplyList, Put, Delete;
      match op {
        case DoPut(e) => PutLists(Run(front), e, scope);
        case DoDelete(where, id) => DeleteLists(Run(front), where, id, scope);
        case _ => QuietList(RunList(front, scope), op);
      }
    }
  }

  lemma QuietList<T>(entries: seq<Entry<T>>, op: Op<T>)
    requires op.DoGet? || op.DoList?
    ensures ApplyList(entries, op) == entries
  {
  }

  lemma {:induction false} RunListInScope<T>(ops: seq<Op<T>>, scope: Scope)
    ensures RunList(InScope(ops, scope), scope) == RunList(ops, scope)
  {
    hide ApplyList;
    if ops != [] {
      var front, op := ops[..|ops| - 1], ops[|ops| - 1];
      RunListInScope(front, scope);
      var kept := InScope(front, scope);
      assert (kept + [op])[..|kept + [op]| - 1] == kept;
      assert kept + [] == kept;
    }
  }

  /** What other scopes do, before or between, changes no result in this one, nor the order of a list. */
  lemma {:induction false} ScopesIsolated<T(!new)>(ops: seq<Op<T>>, scope: Scope, id: string)
    requires CleanOps(ops) && Clean(scope)
    ensures Get(Run(ops), scope, id) == Get(Run(InScope(ops, scope)), scope, id)
    ensures Valid(Run(ops)) && Valid(Run(InScope(ops, scope)))
    ensures List(Run(ops), scope) == List(Run(InScope(ops, scope)), scope)
  {
    var kept := InScope(ops, scope);
    InScopeClean(ops, scope);
    NestedIsolated(ops, scope);
    AgreesWithNested(ops, scope, id);
    AgreesWithNested(kept, scope, id);
    RunLists(ops, scope);
    RunLists(kept, scope);
    RunListInScope(ops, scope);
    hide Run, RunNested, InScope, List, Get, Clean, Inner, RunList;
  }
}
