/** Request collections and the order of their items: apifn/collections/src/types.ts, reader.ts. */
module Collections {
  import opened Sorting
  import opened Text

  datatype RequestInfo = RequestInfo(name: Option<string>, order: Option<real>)

  /** A request file; `http` and `extra` stand for the sections that no code here looks into. */
  datatype Request = Request(info: RequestInfo, http: string, extra: string)

  datatype Item =
    | RequestItem(name: string, path: string, request: Option<Request>, order: Option<real>)
    | Folder(name: string, path: string, children: seq<Item>, order: Option<real>)

  datatype Environment = Environment(name: string, variables: map<string, string>)

  datatype CollectionInfo =
    CollectionInfo(name: string, description: Option<string>, version: Option<string>, kind: Option<string>)

  datatype Collection =
    Collection(info: CollectionInfo, environments: map<string, Environment>, items: seq<Item>, rootDir: string)

  /** A YAML object by the fields that the reader looks at; `None` is absent or of another type. */
  datatype Doc = Doc(
    name: Option<string>, order: Option<real>, description: Option<string>, version: Option<string>,
    variables: Option<map<string, string>>, info: Option<RequestInfo>, http: Option<string>, extra: string)

  const EMPTY_DOC := Doc(None, None, None, None, None, None, None, "")

  /** `localeCompare(a, b) <= 0`; any total preorder. */
  type Collation = Order<string>

  // ---- Sorting by sequence number, then name ----

  function SortKey(item: Item): real {
    match item.order
    case Some(n) => n
    case None => MAX_SAFE_INTEGER as real
  }

  /** The comparison function is not positive. */
  predicate Leq(a: Item, b: Item, le: Collation) {
    if SortKey(a) != SortKey(b) then SortKey(a) < SortKey(b) else le(a.name, b.name)
  }

  predicate Less(a: Item, b: Item, le: Collation) {
    !Leq(b, a, le)
  }

  /** The stable sort. */
  function SortBySeqThenName(items: seq<Item>, le: Collation): seq<Item> {
    Sort(items, (a, b) => Leq(a, b, le))
  }

  ghost predicate Ascending(items: seq<Item>, le: Collation) {
    forall i, j :: 0 <= i < j < |items| ==> Leq(items[i], items[j], le)
  }

  ghost predicate StrictlyAscending(items: seq<Item>, le: Collation) {
    forall i, j :: 0 <= i < j < |items| ==> Less(items[i], items[j], le)
  }

  lemma SortAscends(items: seq<Item>, le: Collation)
    requires TotalPreorder(le)
    ensures Ascending(SortBySeqThenName(items, le), le)
    ensures multiset(SortBySeqThenName(items, le)) == multiset(items)
  {
    var leq := (a, b) => Leq(a, b, le);
    SortPermutes(items, leq);
    SortSorts(items, leq);
  }

  /** The number that an item sorts by: its own, or the largest safe integer. */
  predicate SortsBy(item: Item, n: real) {
    item.order == Some(n) || (item.order.None? && n == 9007199254740991.0)
  }

  /** Lower numbers come first, items without a number sort by the largest one, equal numbers go by the name. */
  lemma OrderExact(a: Item, b: Item, m: real, n: real, le: Collation)
    requires SortsBy(a, m) && SortsBy(b, n)
    ensures Leq(a, b, le) <==> m < n || (m == n && le(a.name, b.name))
  {
  }

  /** Items that the order holds equal stay in the order that they came in. */
  lemma SortKeepsTies(items: seq<Item>, le: Collation, x: Item)
    requires TotalPreorder(le)
    ensures
      var leq := (a, b) => Leq(a, b, le);
      Alike(SortBySeqThenName(items, le), x, leq) == Alike(items, x, leq)
  {
    var leq := (a, b) => Leq(a, b, le);
    SortStable(items, x, leq);
  }

  lemma SameHead(s: seq<Item>, t: seq<Item>, le: Collation)
    requires Ascending(s, le) && StrictlyAscending(t, le) && multiset(s) == multiset(t) && s != [] && t != []
    ensures s[0] == t[0]
  {
    assert s[0] in multiset(t) && t[0] in multiset(s);
    var j :| 0 <= j < |t| && t[j] == s[0];
    var i :| 0 <= i < |s| && s[i] == t[0];
    assert j > 0 ==> Less(t[0], t[j], le);
    assert i > 0 ==> Leq(s[0], s[i], le);
  }

  lemma SameTails(s: seq<Item>, t: seq<Item>)
    requires s != [] && t != [] && s[0] == t[0] && multiset(s) == multiset(t)
    ensures multiset(s[1..]) == multiset(t[1..])
  {
    assert s == [s[0]] + s[1..] && t == [t[0]] + t[1..];
    assert multiset(s[1..]) == multiset(s) - multiset{s[0]} == multiset(t[1..]);
  }

  lemma {:induction false} AscendingUnique(s: seq<Item>, t: seq<Item>, le: Collation)
    requires Ascending(s, le) && StrictlyAscending(t, le) && multiset(s) == multiset(t)
    ensures s == t
  {
    hide Leq, Less;
    assert |s| == |multiset(s)| == |t|;
    if s != [] {
      SameHead(s, t, le);
      SameTails(s, t);
      AscendingUnique(s[1..], t[1..], le);
      assert s == [s[0]] + s[1..] && t == [t[0]] + t[1..];
    }
  }

  /** A strictly ascending list is recovered by sorting any arrangement of its members. */
  lemma SortRecovers(s: seq<Item>, items: seq<Item>, le: Collation)
    requires TotalPreorder(le) && StrictlyAscending(items, le)
    requires Distinct(s) && forall x :: x in s <==> x in items
    ensures SortBySeqThenName(s, le) == items
  {
    assert Distinct(items);
    forall x: Item
      ensures multiset(s)[x] == multiset(items)[x]
    {
      DistinctMultiset(s, x);
      DistinctMultiset(items, x);
    }
    assert multiset(s) == multiset(items);
    SortAscends(s, le);
    AscendingUnique(SortBySeqThenName(s, le), items, le);
  }
}
