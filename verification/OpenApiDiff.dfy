/** Comparing two OpenAPI documents: apifn/python/apifn/diff.py. */
module OpenApiDiff {
  import opened OpenApi
  import opened Sorting
  import opened Text

  /** A parameter; an entry that is not an object is `Other`. The texts are those that `str` gives. */
  datatype Parameter = Parameter(required: bool, place: Option<string>, name: Option<string>) | Other

  datatype Member = Member(verb: string, parameters: seq<Parameter>)

  /** The members of an entry of `paths`; none if it is not an object. */
  type Members = seq<Member>

  /** A method in lower case and a path. */
  type Key = (string, string)

  type Operations = map<Key, seq<Parameter>>

  const METHODS := {"get", "post", "put", "patch", "delete", "head", "options", "trace"}

  datatype Kind = EndpointRemoved | RequiredParamAdded(place: string, name: string) | EndpointAdded

  datatype Entry = Entry(kind: Kind, breaking: bool, key: Key)

  datatype Summary = Summary(total: nat, breaking: nat, nonBreaking: nat)

  // ---- Operations and required parameters ----

  /** The operations of one path on top of those before; of two spellings of a method the later counts. */
  function AddMembers(ops: Operations, path: string, members: seq<Member>, lower: string -> string): Operations {
    if members == [] then ops
    else
      var last := members[|members| - 1];
      var before := AddMembers(ops, path, members[..|members| - 1], lower);
      if lower(last.verb) in METHODS then before[(lower(last.verb), path) := last.parameters] else before
  }

  function OperationsOf(paths: seq<PathItem<Members>>, lower: string -> string): Operations {
    if paths == [] then map[]
    else
      var last := paths[|paths| - 1];
      AddMembers(OperationsOf(paths[..|paths| - 1], lower), last.path, last.operations, lower)
  }

  method IterOperations(paths: seq<PathItem<Members>>, lower: string -> string) returns (out: Operations)
    ensures out == OperationsOf(paths, lower)
  {
    out := map[];
    for i := 0 to |paths|
      invariant out == OperationsOf(paths[..i], lower)
    {
      ghost var before := out;
      var members := paths[i].operations;
      for j := 0 to |members|
        invariant out == AddMembers(before, paths[i].path, members[..j], lower)
      {
        assert members[..j + 1][..j] == members[..j];
        var m := lower(members[j].verb);
        if m in METHODS {
          out := out[(m, paths[i].path) := members[j].parameters];
        }
      }
      assert members[..|members|] == members;
      assert paths[..i + 1][..i] == paths[..i];
    }
    assert paths[..|paths|] == paths;
  }

  function PlaceAndName(p: Parameter): (string, string)
    requires p.Parameter?
  {
    (if p.place.Some? then p.place.value else "query", if p.name.Some? then p.name.value else "")
  }

  function Required(parameters: seq<Parameter>): set<(string, string)> {
    set p | p in parameters && p.Parameter? && p.required :: PlaceAndName(p)
  }

  /** The list has a required parameter of this place and name; without a place it is a query parameter. */
  predicate Demands(parameters: seq<Parameter>, place: string, name: string) {
    exists k :: 0 <= k < |parameters| && IsRequired(parameters[k], place, name)
  }

  predicate IsRequired(p: Parameter, place: string, name: string) {
    && p.Parameter? && p.required
    && (p.place == Some(place) || (p.place == None && place == "query"))
    && (p.name == Some(name) || (p.name == None && name == ""))
  }

  lemma RequiredIs(parameters: seq<Parameter>, place: string, name: string)
    ensures (place, name) in Required(parameters) <==> Demands(parameters, place, name)
  {
    if k :| 0 <= k < |parameters| && IsRequired(parameters[k], place, name) {
      assert parameters[k] in parameters && PlaceAndName(parameters[k]) == (place, name);
    }
    if (place, name) in Required(parameters) {
      var p :| p in parameters && p.Parameter? && p.required && PlaceAndName(p) == (place, name);
      var k :| 0 <= k < |parameters| && parameters[k] == p;
      assert IsRequired(parameters[k], place, name);
    }
  }

  method RequiredParams(parameters: seq<Parameter>) returns (required: set<(string, string)>)
    ensures required == Required(parameters)
    ensures forall place, name :: (place, name) in required <==> Demands(parameters, place, name)
  {
    required := {};
    for i := 0 to |parameters|
      invariant required == Required(parameters[..i])
    {
      var p := parameters[i];
      assert parameters[..i + 1] == parameters[..i] + [p];
      if p.Parameter? && p.required {
        required := required + {PlaceAndName(p)};
      }
    }
    assert parameters[..|parameters|] == parameters;
    forall place, name
      ensures (place, name) in required <==> Demands(parameters, place, name)
    {
      RequiredIs(parameters, place, name);
    }
  }

  // ---- The entries of a comparison ----

  function Removed(before: Operations, after: Operations): set<Entry> {
    set key | key in before.Keys - after.Keys :: Entry(EndpointRemoved, true, key)
  }

  function Added(before: Operations, after: Operations): set<Entry> {
    set key | key in after.Keys - before.Keys :: Entry(EndpointAdded, false, key)
  }

  function NewlyRequired(key: Key, before: Operations, after: Operations): set<Entry>
    requires key in before && key in after
  {
    set p | p in Required(after[key]) - Required(before[key]) :: Entry(RequiredParamAdded(p.0, p.1), true, key)
  }

  function AllNewlyRequired(keys: set<Key>, before: Operations, after: Operations): set<Entry>
    requires keys <= before.Keys * after.Keys
  {
    set key, e | key in keys && e in NewlyRequired(key, before, after) :: e
  }

  function Entries(before: Operations, after: Operations): set<Entry> {
    Removed(before, after) + (AllNewlyRequired(before.Keys * after.Keys, before, after) + Added(before, after))
  }

  /** What an entry says of the two lists of operations. */
  predicate Says(before: Operations, after: Operations, e: Entry) {
    match e.kind
    case EndpointRemoved => e.breaking && e.key in before && e.key !in after
    case EndpointAdded => !e.breaking && e.key in after && e.key !in before
    case RequiredParamAdded(place, name) =>
      && e.breaking && e.key in before && e.key in after
      && Demands(after[e.key], place, name) && !Demands(before[e.key], place, name)
  }

  /** An operation is gone, or one that stayed has a required parameter that none was required for before. */
  ghost predicate Breaks(before: Operations, after: Operations) {
    exists key :: key in before && (key !in after || Tightened(before[key], after[key]))
  }

  ghost predicate Tightened(before: seq<Parameter>, after: seq<Parameter>) {
    exists place, name :: Demands(after, place, name) && !Demands(before, place, name)
  }

  /** The entries are exactly those that are true of the two lists of operations. */
  lemma EntriesSay(before: Operations, after: Operations, e: Entry)
    ensures e in Entries(before, after) <==> Says(before, after, e)
  {
    hide Required, Demands;
    if e.kind.RequiredParamAdded? && e.key in before && e.key in after {
      var place, name := e.kind.place, e.kind.name;
      RequiredIs(before[e.key], place, name);
      RequiredIs(after[e.key], place, name);
      if e.breaking && Demands(after[e.key], place, name) && !Demands(before[e.key], place, name) {
        assert (place, name) in Required(after[e.key]) - Required(before[e.key]);
        assert e in NewlyRequired(e.key, before, after);
      }
    }
  }

  /** So the comparison breaks exactly if an operation is gone or has been tightened. */
  lemma CompatibleUnlessBreaks(before: Operations, after: Operations)
    ensures Compatible(before, after) <==> !Breaks(before, after)
  {
    hide Required, Demands;
    forall key | key in before && key in after
      ensures Required(after[key]) <= Required(before[key]) <==> !Tightened(before[key], after[key])
    {
      forall place, name
        ensures (place, name) in Required(after[key]) <==> Demands(after[key], place, name)
        ensures (place, name) in Required(before[key]) <==> Demands(before[key], place, name)
      {
        RequiredIs(after[key], place, name);
        RequiredIs(before[key], place, name);
      }
      SubsetByPairs(Required(after[key]), Required(before[key]));
    }
  }

  lemma SubsetByPairs(a: set<(string, string)>, b: set<(string, string)>)
    ensures a <= b <==> forall place, name :: (place, name) in a ==> (place, name) in b
  {
    if forall place, name :: (place, name) in a ==> (place, name) in b {
      forall p | p in a
        ensures p in b
      {
        assert p == (p.0, p.1);
      }
    }
  }

  /** Parameters that are optional, or no objects, do not matter. */
  lemma OptionalIgnored(a: seq<Parameter>, p: Parameter, b: seq<Parameter>, place: string, name: string)
    requires p.Other? || !p.required
    ensures Demands(a + [p] + b, place, name) <==> Demands(a + b, place, name)
  {
    hide IsRequired;
    var with, without := a + [p] + b, a + b;
    assert !IsRequired(p, place, name) by { NotRequired(p, place, name); }
    if k :| 0 <= k < |with| && IsRequired(with[k], place, name) {
      assert k != |a|;
      assert without[if k < |a| then k else k - 1] == with[k];
    }
    if k :| 0 <= k < |without| && IsRequired(without[k], place, name) {
      assert with[if k < |a| then k else k + 1] == without[k];
    }
  }

  lemma NotRequired(p: Parameter, place: string, name: string)
    requires p.Other? || !p.required
    ensures !IsRequired(p, place, name)
  {
  }

  /** Making a parameter optional breaks nothing; making one required that was not demanded breaks. */
  lemma LoosenedOrTightened(before: Operations, key: Key, k: nat, required: bool, place: string, name: string)
    requires key in before && k < |before[key]| && before[key][k].Parameter?
    requires IsRequired(before[key][k].(required := true), place, name)
    ensures
      var after := before[key := before[key][k := before[key][k].(required := required)]];
      Breaks(before, after) <==> required && !Demands(before[key], place, name)
  {
    var p := before[key][k];
    var parameters := before[key][k := p.(required := required)];
    forall x, y | Demands(parameters, x, y)
      ensures Demands(before[key], x, y) || (required && x == place && y == name)
    {
      var j :| 0 <= j < |parameters| && IsRequired(parameters[j], x, y);
      if j != k {
        assert IsRequired(before[key][j], x, y);
      }
    }
    if required && !Demands(before[key], place, name) {
      assert IsRequired(parameters[k], place, name);
      assert Tightened(before[key], parameters);
    }
    hide Demands;
    assert forall other :: other in before && other != key ==> !Tightened(before[other], before[other]);
  }

  function SetOf<T(==)>(s: seq<T>): set<T> {
    set x | x in s
  }

  /** The list holds these entries, each once. */
  ghost predicate Lists<T(!new)>(s: seq<T>, members: set<T>) {
    Distinct(s) && forall x :: x in s <==> x in members
  }

  method SortedSet<T(==, !new)>(members: set<T>, leq: Order<T>) returns (s: seq<T>)
    ensures Lists(s, members)
    ensures TotalPreorder(leq) ==> Sorted(s, leq)
  {
    var left, any := members, [];
    while left != {}
      invariant left <= members && Lists(any, members - left)
    {
      var x :| x in left;
      left, any := left - {x}, any + [x];
    }
    s := Sort(any, leq);
    SortPermutes(any, leq);
    DistinctPermuted(any, s);
    if TotalPreorder(leq) {
      SortSorts(any, leq);
    }
  }

  function Rank(kind: Kind): nat {
    if kind.EndpointRemoved? then 0 else if kind.RequiredParamAdded? then 1 else 2
  }

  /** Removals first, then new requirements, then additions; by operation, then by parameter. */
  predicate EntryLeq(a: Entry, b: Entry, leq: Order<Key>) {
    if Rank(a.kind) != Rank(b.kind) then Rank(a.kind) < Rank(b.kind)
    else if a.key != b.key then leq(a.key, b.key)
    else a.kind.RequiredParamAdded? ==> leq((a.kind.place, a.kind.name), (b.kind.place, b.kind.name))
  }

  ghost predicate InOrder(entries: seq<Entry>, leq: Order<Key>) {
    forall i, j :: 0 <= i < j < |entries| ==> EntryLeq(entries[i], entries[j], leq)
  }

  lemma ListsTogether<T(!new)>(s: seq<T>, a: set<T>, t: seq<T>, b: set<T>)
    requires Lists(s, a) && Lists(t, b) && a !! b
    ensures Lists(s + t, a + b)
  {
    forall i, j | 0 <= i < |s| && 0 <= j < |t|
      ensures s[i] != t[j]
    {
      assert s[i] in s && t[j] in t;
    }
  }

  /** The first members of a list, as a set. */
  lemma ListsFront<T(!new)>(s: seq<T>, i: nat)
    requires Distinct(s) && i < |s|
    ensures Lists(s[..i], SetOf(s[..i])) && SetOf(s[..i + 1]) == SetOf(s[..i]) + {s[i]} && s[i] !in SetOf(s[..i])
  {
    assert s[..i + 1] == s[..i] + [s[i]];
  }

  method Endpoints(members: set<Key>, kind: Kind, breaking: bool, leq: Order<Key>) returns (entries: seq<Entry>)
    requires !kind.RequiredParamAdded?
    ensures Lists(entries, set key | key in members :: Entry(kind, breaking, key))
    ensures TotalPreorder(leq) ==> InOrder(entries, leq)
  {
    var keys := SortedSet(members, leq);
    entries := [];
    for i := 0 to |keys|
      invariant |entries| == i && forall j :: 0 <= j < i ==> entries[j] == Entry(kind, breaking, keys[j])
    {
      entries := entries + [Entry(kind, breaking, keys[i])];
    }
    EndpointsListed(keys, members, entries, kind, breaking);
  }

  method AddedRequired(key: Key, before: Operations, after: Operations, leq: Order<Key>) returns (entries: seq<Entry>)
    requires key in before && key in after
    ensures Lists(entries, NewlyRequired(key, before, after))
    ensures TotalPreorder(leq) ==> InOrder(entries, leq)
  {
    var b := RequiredParams(before[key]);
    var a := RequiredParams(after[key]);
    var added := SortedSet(a - b, leq);
    entries := [];
    for i := 0 to |added|
      invariant |entries| == i
      invariant forall j :: 0 <= j < i ==> entries[j] == Entry(RequiredParamAdded(added[j].0, added[j].1), true, key)
    {
      entries := entries + [Entry(RequiredParamAdded(added[i].0, added[i].1), true, key)];
    }
    forall e
      ensures e in entries <==> e in NewlyRequired(key, before, after)
    {
      if e in NewlyRequired(key, before, after) {
        var p :| p in Required(after[key]) - Required(before[key]) && e == Entry(RequiredParamAdded(p.0, p.1), true, key);
        assert p in added;
      }
      if e in entries {
        var j :| 0 <= j < |entries| && entries[j] == e;
        assert added[j] in added;
      }
    }
  }

  lemma InOrderTogether(s: seq<Entry>, t: seq<Entry>, leq: Order<Key>)
    requires InOrder(s, leq) && InOrder(t, leq) && forall a, b :: a in s && b in t ==> EntryLeq(a, b, leq)
    ensures InOrder(s + t, leq)
  {
    hide EntryLeq;
    forall i, j | 0 <= i < |s| && 0 <= j < |t|
      ensures EntryLeq(s[i], t[j], leq)
    {
      assert s[i] in s && t[j] in t;
    }
  }

  method CommonEntries(before: Operations, after: Operations, leq: Order<Key>) returns (entries: seq<Entry>)
    ensures Lists(entries, AllNewlyRequired(before.Keys * after.Keys, before, after))
    ensures TotalPreorder(leq) ==> InOrder(entries, leq)
  {
    var keys := SortedSet(before.Keys * after.Keys, leq);
    entries := [];
    for i := 0 to |keys|
      invariant SetOf(keys[..i]) <= before.Keys * after.Keys
      invariant Lists(entries, AllNewlyRequired(SetOf(keys[..i]), before, after))
      invariant TotalPreorder(leq) ==> InOrder(entries, leq)
    {
      assert keys[i] in keys;
      ListsFront(keys, i);
      var more := AddedRequired(keys[i], before, after, leq);
      ListsTogether(
        entries, AllNewlyRequired(SetOf(keys[..i]), before, after), more, NewlyRequired(keys[i], before, after));
      assert AllNewlyRequired(SetOf(keys[..i + 1]), before, after)
          == AllNewlyRequired(SetOf(keys[..i]), before, after) + NewlyRequired(keys[i], before, after);
      if TotalPreorder(leq) {
        NextKeyLater(keys, i, before, after, entries, more, leq);
        InOrderTogether(entries, more, leq);
      }
      entries := entries + more;
    }
    assert keys[..|keys|] == keys;
    assert SetOf(keys) == before.Keys * after.Keys;
  }

  lemma NextKeyLater(
    keys: seq<Key>, i: nat, before: Operations, after: Operations, s: seq<Entry>, t: seq<Entry>, leq: Order<Key>)
    requires Distinct(keys) && Sorted(keys, leq) && i < |keys| && SetOf(keys) <= before.Keys * after.Keys
    requires SetOf(keys[..i]) <= before.Keys * after.Keys && keys[i] in before && keys[i] in after
    requires Lists(s, AllNewlyRequired(SetOf(keys[..i]), before, after)) && Lists(t, NewlyRequired(keys[i], before, after))
    ensures forall a, b :: a in s && b in t ==> EntryLeq(a, b, leq)
  {
    forall a, b | a in s && b in t
      ensures EntryLeq(a, b, leq)
    {
      assert a.key in keys[..i] && a.kind.RequiredParamAdded? && b.key == keys[i] && b.kind.RequiredParamAdded?;
      var k :| 0 <= k < i && keys[k] == a.key;
    }
  }

  function CountBreaking(entries: seq<Entry>): nat {
    if entries == [] then 0 else CountBreaking(entries[..|entries| - 1]) + if entries[|entries| - 1].breaking then 1 else 0
  }

  method AllEntries(before: Operations, after: Operations, leq: Order<Key>) returns (entries: seq<Entry>)
    ensures Lists(entries, Entries(before, after))
    ensures TotalPreorder(leq) ==> InOrder(entries, leq)
  {
    var gone := Endpoints(before.Keys - after.Keys, EndpointRemoved, true, leq);
    var common := CommonEntries(before, after, leq);
    var arrived := Endpoints(after.Keys - before.Keys, EndpointAdded, false, leq);
    var all := AllNewlyRequired(before.Keys * after.Keys, before, after);
    assert forall e :: e in all ==> e.kind.RequiredParamAdded?;
    ListsTogether(common, all, arrived, Added(before, after));
    ListsTogether(gone, Removed(before, after), common + arrived, all + Added(before, after));
    entries := gone + (common + arrived);
    if TotalPreorder(leq) {
      InOrderTogether(common, arrived, leq);
      InOrderTogether(gone, common + arrived, leq);
    }
  }

  method Summarize(entries: seq<Entry>) returns (summary: Summary)
    ensures summary.total == |entries| == summary.breaking + summary.nonBreaking
    ensures summary.breaking == CountBreaking(entries)
    ensures summary.breaking > 0 <==> exists e :: e in entries && e.breaking
  {
    var breaking := 0;
    var nonBreaking := 0;
    for i := 0 to |entries|
      invariant breaking == CountBreaking(entries[..i]) && breaking + nonBreaking == i
    {
      assert entries[..i + 1][..i] == entries[..i];
      if entries[i].breaking {
        breaking := breaking + 1;
      } else {
        nonBreaking := nonBreaking + 1;
      }
    }
    assert entries[..|entries|] == entries;
    summary := Summary(|entries|, breaking, nonBreaking);
    SomeBreaking(entries);
  }

  /** The comparison: its entries in order, the summary, and whether anything breaks. */
  method DiffOpenApi(first: seq<PathItem<Members>>, second: seq<PathItem<Members>>, lower: string -> string, leq: Order<Key>)
    returns (entries: seq<Entry>, summary: Summary, hasBreaking: bool)
    ensures Lists(entries, Entries(OperationsOf(first, lower), OperationsOf(second, lower)))
    ensures TotalPreorder(leq) ==> InOrder(entries, leq)
    ensures summary.total == |entries| == summary.breaking + summary.nonBreaking
    ensures summary.breaking == CountBreaking(entries)
    ensures forall e :: e in entries <==> Says(OperationsOf(first, lower), OperationsOf(second, lower), e)
    ensures hasBreaking <==> !Compatible(OperationsOf(first, lower), OperationsOf(second, lower))
    ensures hasBreaking <==> Breaks(OperationsOf(first, lower), OperationsOf(second, lower))
  {
    var before := IterOperations(first, lower);
    var after := IterOperations(second, lower);
    entries := AllEntries(before, after, leq);
    summary := Summarize(entries);
    hasBreaking := summary.breaking > 0;
    BreakingExact(before, after);
    CompatibleUnlessBreaks(before, after);
    forall e
      ensures e in Entries(before, after) <==> Says(before, after, e)
    {
      EntriesSay(before, after, e);
    }
    hide Entries, Compatible, Breaks, Says, InOrder, CountBreaking;
  }

  lemma EndpointsListed(keys: seq<Key>, members: set<Key>, entries: seq<Entry>, kind: Kind, breaking: bool)
    requires Lists(keys, members)
    requires |entries| == |keys| && forall i :: 0 <= i < |keys| ==> entries[i] == Entry(kind, breaking, keys[i])
    ensures Lists(entries, set key | key in members :: Entry(kind, breaking, key))
  {
    forall e
      ensures e in entries <==> e in set key | key in members :: Entry(kind, breaking, key)
    {
      if e in (set key | key in members :: Entry(kind, breaking, key)) {
        assert e.key in keys;
      }
      if e in entries {
        var j :| 0 <= j < |entries| && entries[j] == e;
        assert keys[j] in keys;
      }
    }
  }

  lemma {:induction false} SomeBreaking(entries: seq<Entry>)
    ensures CountBreaking(entries) > 0 <==> exists e :: e in entries && e.breaking
  {
    if entries != [] {
      var front, last := entries[..|entries| - 1], entries[|entries| - 1];
      SomeBreaking(front);
      assert entries == front + [last];
      assert forall e :: e in entries <==> e in front || e == last;
    }
  }

  // ---- What a comparison says ----

  /** Every operation is still there and asks for no parameter that it did not ask for before. */
  predicate Compatible(before: Operations, after: Operations) {
    && before.Keys <= after.Keys
    && forall key :: key in before ==> key in after && Required(after[key]) <= Required(before[key])
  }

  /** Something breaks exactly if an operation disappeared or asks for a new parameter. */
  lemma BreakingExact(before: Operations, after: Operations)
    ensures (exists e :: e in Entries(before, after) && e.breaking) <==> !Compatible(before, after)
  {
    hide Required;
    if !Compatible(before, after) {
      if key :| key in before && key !in after {
        assert Entry(EndpointRemoved, true, key) in Removed(before, after);
      } else {
        var key :| key in before && key in after && !(Required(after[key]) <= Required(before[key]));
        var p :| p in Required(after[key]) && p !in Required(before[key]);
        assert p in Required(after[key]) - Required(before[key]);
        assert Entry(RequiredParamAdded(p.0, p.1), true, key) in NewlyRequired(key, before, after);
        assert Entry(RequiredParamAdded(p.0, p.1), true, key) in Entries(before, after);
      }
    }
    if e :| e in Entries(before, after) && e.breaking {
      assert e !in Added(before, after);
    }
  }

  /** Changes that break nothing can be made one after the other. */
  lemma CompatibleChains(a: Operations, b: Operations, c: Operations)
    requires Compatible(a, b) && Compatible(b, c)
    ensures Compatible(a, c)
  {
    forall key | key in a
      ensures key in c && Required(c[key]) <= Required(a[key])
    {
      assert key in b;
    }
  }

  /** Nothing breaks either way exactly when the operations and their required parameters are the same. */
  lemma CompatibleBothWays(a: Operations, b: Operations)
    ensures Compatible(a, b) && Compatible(b, a) <==>
            a.Keys == b.Keys && forall key :: key in a ==> key in b && Required(a[key]) == Required(b[key])
  {
    hide Required;
  }

  /** What is removed on the way there is what is added on the way back. */
  lemma RemovalsAreAdditions(a: Operations, b: Operations, key: Key)
    ensures Entry(EndpointRemoved, true, key) in Entries(a, b) <==> Entry(EndpointAdded, false, key) in Entries(b, a)
    ensures Entry(EndpointAdded, false, key) in Entries(a, b) <==> Entry(EndpointRemoved, true, key) in Entries(b, a)
  {
  }

  // ---- Which operations there are ----

  /** The j-th member of the i-th path spells this operation. */
  predicate Spells(paths: seq<PathItem<Members>>, i: int, j: int, key: Key, lower: string -> string) {
    && 0 <= i < |paths| && 0 <= j < |paths[i].operations| && paths[i].path == key.1
    && lower(paths[i].operations[j].verb) == key.0 && key.0 in HTTP_METHODS
  }

  /** No later member spells it. */
  ghost predicate LastSpelling(paths: seq<PathItem<Members>>, i: int, j: int, key: Key, lower: string -> string) {
    && Spells(paths, i, j, key, lower)
    && forall m, n :: Spells(paths, m, n, key, lower) ==> m < i || (m == i && n <= j)
  }

  lemma MethodsAreThese(m: string)
    ensures m in METHODS <==> m in HTTP_METHODS
  {
  }

  lemma {:induction false} MembersAre(ops: Operations, path: string, members: seq<Member>, key: Key, lower: string -> string)
    ensures
      var after := AddMembers(ops, path, members, lower);
      if exists j :: Named(path, members, j, key, lower) then
        key in after && exists j :: Named(path, members, j, key, lower) && after[key] == members[j].parameters
                                    && forall n :: Named(path, members, n, key, lower) ==> n <= j
      else (key in after <==> key in ops) && (key in ops ==> after[key] == ops[key])
  {
    MethodsAreThese(key.0);
    if members != [] {
      var front, last := members[..|members| - 1], members[|members| - 1];
      MembersAre(ops, path, front, key, lower);
      assert members == front + [last];
      assert forall j :: Named(path, members, j, key, lower) <==>
               Named(path, front, j, key, lower) || (j == |front| && path == key.1 && lower(last.verb) == key.0 && key.0 in HTTP_METHODS);
      hide HTTP_METHODS;
      if path == key.1 && lower(last.verb) == key.0 && key.0 in HTTP_METHODS {
        assert Named(path, members, |front|, key, lower);
      }
    }
  }

  predicate Named(path: string, members: seq<Member>, j: int, key: Key, lower: string -> string) {
    0 <= j < |members| && path == key.1 && lower(members[j].verb) == key.0 && key.0 in HTTP_METHODS
  }

  lemma SpellingIndex(paths: seq<PathItem<Members>>, key: Key, lower: string -> string)
    ensures forall m, n :: Spells(paths, m, n, key, lower) ==> 0 <= m < |paths|
  {
  }

  /** An operation is there exactly if some member spells it, with the parameters of the last that does. */
  lemma {:induction false} OperationsAre(paths: seq<PathItem<Members>>, key: Key, lower: string -> string)
    ensures
      var ops := OperationsOf(paths, lower);
      && (key in ops <==> exists i, j :: Spells(paths, i, j, key, lower))
      && (key in ops ==> exists i, j :: LastSpelling(paths, i, j, key, lower) && ops[key] == paths[i].operations[j].parameters)
  {
    if paths != [] {
      var front, last := paths[..|paths| - 1], paths[|paths| - 1];
      OperationsAre(front, key, lower);
      MembersAre(OperationsOf(front, lower), last.path, last.operations, key, lower);
      assert paths == front + [last];
      forall i, j
        ensures Spells(paths, i, j, key, lower) <==>
                Spells(front, i, j, key, lower) || (i == |front| && Named(last.path, last.operations, j, key, lower))
      {
      }
      hide Spells, Named, AddMembers;
      if j :| Named(last.path, last.operations, j, key, lower)
              && OperationsOf(paths, lower)[key] == last.operations[j].parameters
              && forall n :: Named(last.path, last.operations, n, key, lower) ==> n <= j {
        assert Spells(paths, |front|, j, key, lower);
        assert forall m, n :: Spells(front, m, n, key, lower) ==> m < |front| by { SpellingIndex(front, key, lower); }
        assert LastSpelling(paths, |front|, j, key, lower);
      } else if key in OperationsOf(front, lower) {
        var i, j :| LastSpelling(front, i, j, key, lower)
                    && OperationsOf(front, lower)[key] == front[i].operations[j].parameters;
        assert LastSpelling(paths, i, j, key, lower);
      }
    }
  }

  // ---- Methods in several spellings ----

  /** The member's parameters are those of its operation. */
  predicate Kept(ops: Operations, path: string, member: Member, lower: string -> string) {
    lower(member.verb) in METHODS ==>
      (lower(member.verb), path) in ops && ops[(lower(member.verb), path)] == member.parameters
  }

  /** The members spell one and the same method. */
  predicate Same(a: Member, b: Member, lower: string -> string) {
    lower(a.verb) == lower(b.verb) && lower(a.verb) in METHODS
  }

  /** Members that spell one method have the same parameters. */
  ghost predicate Agree(members: seq<Member>, lower: string -> string) {
    forall i, j :: 0 <= i < j < |members| && Same(members[i], members[j], lower) ==>
      members[i].parameters == members[j].parameters
  }

  /** Adding the members of one path leaves the other paths alone, and keeps members that agree. */
  lemma {:induction false} MembersKept(ops: Operations, path: string, members: seq<Member>, lower: string -> string)
    ensures
      var after := AddMembers(ops, path, members, lower);
      forall key: Key :: key.1 != path ==> (key in after <==> key in ops) && (key in ops ==> after[key] == ops[key])
    ensures Agree(members, lower) ==>
              forall i :: 0 <= i < |members| ==> Kept(AddMembers(ops, path, members, lower), path, members[i], lower)
  {
    if members != [] {
      MembersKept(ops, path, members[..|members| - 1], lower);
    }
  }

  /** Every member of the first paths is kept. */
  ghost predicate AllKept(ops: Operations, paths: seq<PathItem<Members>>, lower: string -> string) {
    forall i, j :: 0 <= i < |paths| && 0 <= j < |paths[i].operations| ==> Kept(ops, paths[i].path, paths[i].operations[j], lower)
  }

  lemma {:induction false} AgreeingKept(paths: seq<PathItem<Members>>, lower: string -> string)
    requires DistinctPaths(paths) && forall i :: 0 <= i < |paths| ==> Agree(paths[i].operations, lower)
    ensures AllKept(OperationsOf(paths, lower), paths, lower)
  {
    hide Agree;
    if paths != [] {
      var front, last := paths[..|paths| - 1], paths[|paths| - 1];
      AgreeingKept(front, lower);
      MembersKept(OperationsOf(front, lower), last.path, last.operations, lower);
      var ops := OperationsOf(paths, lower);
      forall i, j | 0 <= i < |paths| && 0 <= j < |paths[i].operations|
        ensures Kept(ops, paths[i].path, paths[i].operations[j], lower)
      {
        if i < |front| {
          assert Kept(OperationsOf(front, lower), front[i].path, front[i].operations[j], lower);
        }
      }
    }
  }

  /**
   * The comparison sees every operation of a document, with its own parameters, exactly if no path
   * has two members that spell one method differently and differ in their parameters.
   */
  lemma {:induction false} SpellingsExact(paths: seq<PathItem<Members>>, lower: string -> string)
    requires DistinctPaths(paths)
    ensures AllKept(OperationsOf(paths, lower), paths, lower) <==>
            forall i :: 0 <= i < |paths| ==> Agree(paths[i].operations, lower)
  {
    if forall i :: 0 <= i < |paths| ==> Agree(paths[i].operations, lower) {
      AgreeingKept(paths, lower);
    }
    hide OperationsOf;
    if AllKept(OperationsOf(paths, lower), paths, lower) {
      forall i, j, k | 0 <= i < |paths| && 0 <= j < k < |paths[i].operations|
                       && Same(paths[i].operations[j], paths[i].operations[k], lower)
        ensures paths[i].operations[j].parameters == paths[i].operations[k].parameters
      {
        assert Kept(OperationsOf(paths, lower), paths[i].path, paths[i].operations[j], lower);
        assert Kept(OperationsOf(paths, lower), paths[i].path, paths[i].operations[k], lower);
      }
    }
  }
}
