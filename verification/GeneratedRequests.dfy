/** The generated requests are the operations of the document, each once. */
module GeneratedRequests {
  import opened Text
  import opened Sorting
  import opened Collections
  import opened OpenApi
  import opened Generator

  // ---- Each operation exactly once ----

  /** The document has this operation. */
  ghost predicate HasOperation(paths: seq<PathItem<Operations>>, r: Record) {
    r.verb in HTTP_METHODS
    && exists i :: 0 <= i < |paths| && paths[i].path == r.path && (r.verb, r.operation) in paths[i].operations.Items
  }

  lemma {:induction false} RecordsOfExact(item: PathItem<Operations>, methods: seq<string>)
    requires Distinct(methods)
    ensures Distinct(RecordsOf(item, methods))
    ensures forall r :: r in RecordsOf(item, methods) <==>
              r.path == item.path && r.verb in methods && (r.verb, r.operation) in item.operations.Items
  {
    if methods != [] {
      var front, last := methods[..|methods| - 1], methods[|methods| - 1];
      RecordsOfExact(item, front);
      assert methods == front + [last];
      forall r
        ensures r in RecordsOf(item, methods) <==>
                r.path == item.path && r.verb in methods && (r.verb, r.operation) in item.operations.Items
      {
        assert r.verb in methods <==> r.verb in front || r.verb == last;
      }
    }
  }

  lemma {:induction false} RecordsExact(paths: seq<PathItem<Operations>>)
    requires DistinctPaths(paths)
    ensures Distinct(Records(paths))
    ensures forall r :: r in Records(paths) <==> HasOperation(paths, r)
  {
    if paths != [] {
      var front, last := paths[..|paths| - 1], paths[|paths| - 1];
      RecordsExact(front);
      assert Distinct(HTTP_METHODS);
      RecordsOfExact(last, HTTP_METHODS);
      hide RecordsOf;
      var first, more := Records(front), RecordsOf(last, HTTP_METHODS);
      forall r
        ensures HasOperation(paths, r) <==> HasOperation(front, r) || r in more
      {
        HasSplits(front, last, r);
        assert paths == front + [last];
      }
      forall i, j | 0 <= i < |first| && 0 <= j < |more|
        ensures first[i] != more[j]
      {
        assert first[i] in first && more[j] in more;
        assert HasOperation(front, first[i]);
      }
    }
  }

  lemma HasSplits(front: seq<PathItem<Operations>>, last: PathItem<Operations>, r: Record)
    ensures HasOperation(front + [last], r) <==>
            HasOperation(front, r) || (r.verb in HTTP_METHODS && last.path == r.path && (r.verb, r.operation) in last.operations.Items)
  {
    var paths := front + [last];
    assert paths[|front|] == last;
    if HasOperation(front, r) {
      var i :| 0 <= i < |front| && front[i].path == r.path && (r.verb, r.operation) in front[i].operations.Items;
      assert paths[i] == front[i];
    }
  }

  lemma {:induction false} KeysExact(tools: Tools, options: Options, records: seq<Record>)
    ensures Distinct(Keys(tools, options, records))
    ensures forall key :: key in Keys(tools, options, records) <==> exists r :: r in records && GroupKey(tools, options, r) == key
  {
    hide GroupKey;
    if records != [] {
      var front, last := records[..|records| - 1], records[|records| - 1];
      KeysExact(tools, options, front);
      assert records == front + [last];
      forall key
        ensures key in Keys(tools, options, records) <==> exists r :: r in records && GroupKey(tools, options, r) == key
      {
        assert forall r :: r in records <==> r in front || r == last;
      }
    }
  }

  lemma {:induction false} MembersExact(tools: Tools, options: Options, records: seq<Record>, key: string)
    requires Distinct(records)
    ensures Distinct(Members(tools, options, records, key))
    ensures forall r :: r in Members(tools, options, records, key) <==> r in records && GroupKey(tools, options, r) == key
  {
    hide GroupKey;
    if records != [] {
      var front, last := records[..|records| - 1], records[|records| - 1];
      MembersExact(tools, options, front, key);
      assert records == front + [last];
    }
  }

  /** The sorted operations of a group are its operations, each once. */
  lemma SortedMembersExact(tools: Tools, options: Options, records: seq<Record>, key: string)
    requires Distinct(records)
    ensures Distinct(SortedMembers(tools, options, records, key))
    ensures forall r :: r in SortedMembers(tools, options, records, key) <==> r in records && GroupKey(tools, options, r) == key
  {
    var members := Members(tools, options, records, key);
    MembersExact(tools, options, records, key);
    SortPermutes(members, (a, b) => RecordLeq(tools, a, b));
    hide Sort, Members, GroupKey;
    DistinctPermuted(members, SortedMembers(tools, options, records, key));
  }

  lemma SortedKeysExact(tools: Tools, options: Options, records: seq<Record>)
    ensures Distinct(SortedKeys(tools, options, records))
    ensures forall key :: key in SortedKeys(tools, options, records) <==> exists r :: r in records && GroupKey(tools, options, r) == key
  {
    var keys := Keys(tools, options, records);
    KeysExact(tools, options, records);
    SortPermutes(keys, tools.le);
    hide Sort, Keys, GroupKey;
    DistinctPermuted(keys, SortedKeys(tools, options, records));
  }

  /** The operation whose request is the `j`-th one of the `i`-th folder. */
  predicate Position(tools: Tools, options: Options, records: seq<Record>, i: int, j: int) {
    0 <= i < |SortedKeys(tools, options, records)|
    && 0 <= j < |SortedMembers(tools, options, records, SortedKeys(tools, options, records)[i])|
  }

  function RecordAt(tools: Tools, options: Options, records: seq<Record>, i: int, j: int): Record
    requires Position(tools, options, records, i, j)
  {
    SortedMembers(tools, options, records, SortedKeys(tools, options, records)[i])[j]
  }

  lemma ItemAt(tools: Tools, options: Options, records: seq<Record>, i: int, j: int)
    requires Position(tools, options, records, i, j)
    ensures
      var items, key := Folders(tools, options, records), SortedKeys(tools, options, records)[i];
      && i < |items| && items[i].Folder? && items[i].path == key && items[i].order == Some((i + 1) as real)
      && items[i].name == tools.title(key)
      && j < |items[i].children|
      && items[i].children[j] == CreateRequestItem(tools, key, RecordAt(tools, options, records, i, j), j + 1)
  {
    hide SortedKeys, SortedMembers, CreateRequestItem;
  }

  /** A request at a position is that of an operation of the document, in the folder of its group. */
  lemma RequestsAreOperations(tools: Tools, options: Options, document: Document, i: int, j: int)
    requires DistinctPaths(document.paths)
    requires Position(tools, options, Records(document.paths), i, j)
    ensures
      var items := Generated(tools, options, document).items;
      var r := RecordAt(tools, options, Records(document.paths), i, j);
      && HasOperation(document.paths, r)
      && i < |items| && items[i].Folder? && items[i].path == GroupKey(tools, options, r) && items[i].order == Some((i + 1) as real)
      && items[i].name == tools.title(items[i].path)
      && j < |items[i].children| && items[i].children[j] == CreateRequestItem(tools, items[i].path, r, j + 1)
  {
    var records := Records(document.paths);
    RecordsExact(document.paths);
    var key := SortedKeys(tools, options, records)[i];
    SortedMembersExact(tools, options, records, key);
    ItemAt(tools, options, records, i, j);
    hide Records, SortedMembers, SortedKeys, GroupKey, CreateRequestItem, HasOperation, Folders, Distinct;
    assert RecordAt(tools, options, records, i, j) in SortedMembers(tools, options, records, key);
  }

  /** Nothing else is in the collection: its items are folders, none of them empty, and each request has a position. */
  lemma NothingElse(tools: Tools, options: Options, document: Document, i: int)
    requires 0 <= i < |Generated(tools, options, document).items|
    ensures
      var folder := Generated(tools, options, document).items[i];
      && folder.Folder? && folder.children != []
      && forall j :: 0 <= j < |folder.children| ==> Position(tools, options, Records(document.paths), i, j)
  {
    var records := Records(document.paths);
    var key := SortedKeys(tools, options, records)[i];
    SortedKeysExact(tools, options, records);
    assert key in SortedKeys(tools, options, records);
    MembersThere(tools, options, records, key);
    hide Records, SortedKeys, Members, GroupKey;
  }

  lemma {:induction false} MembersThere(tools: Tools, options: Options, records: seq<Record>, key: string)
    requires exists r :: r in records && GroupKey(tools, options, r) == key
    ensures Members(tools, options, records, key) != [] && SortedMembers(tools, options, records, key) != []
  {
    hide GroupKey;
    MembersAny(tools, options, records, key);
    SortPermutes(Members(tools, options, records, key), (a, b) => RecordLeq(tools, a, b));
  }

  lemma {:induction false} MembersAny(tools: Tools, options: Options, records: seq<Record>, key: string)
    requires exists r :: r in records && GroupKey(tools, options, r) == key
    ensures Members(tools, options, records, key) != []
  {
    hide GroupKey;
    if records != [] {
      var front, last := records[..|records| - 1], records[|records| - 1];
      assert records == front + [last];
      if GroupKey(tools, options, last) != key {
        MembersAny(tools, options, front, key);
      }
    }
  }

  /** Every operation of the document has one position, and only one. */
  lemma OperationsArePlacedOnce(tools: Tools, options: Options, document: Document, r: Record)
    requires DistinctPaths(document.paths) && HasOperation(document.paths, r)
    ensures
      var records := Records(document.paths);
      exists i, j ::
        && Position(tools, options, records, i, j) && RecordAt(tools, options, records, i, j) == r
        && forall k, l :: Position(tools, options, records, k, l) && RecordAt(tools, options, records, k, l) == r ==> k == i && l == j
  {
    var records := Records(document.paths);
    RecordsExact(document.paths);
    hide Records, HasOperation;
    var i, j := PositionOf(tools, options, records, r);
    forall k, l | Position(tools, options, records, k, l) && RecordAt(tools, options, records, k, l) == r
      ensures k == i && l == j
    {
      OnePosition(tools, options, records, i, j, k, l);
    }
  }

  lemma PositionOf(tools: Tools, options: Options, records: seq<Record>, r: Record) returns (i: int, j: int)
    requires Distinct(records) && r in records
    ensures Position(tools, options, records, i, j) && RecordAt(tools, options, records, i, j) == r
  {
    SortedKeysExact(tools, options, records);
    var key := GroupKey(tools, options, r);
    SortedMembersExact(tools, options, records, key);
    hide SortedKeys, SortedMembers, GroupKey;
    assert key in SortedKeys(tools, options, records);
    i :| 0 <= i < |SortedKeys(tools, options, records)| && SortedKeys(tools, options, records)[i] == key;
    j :| 0 <= j < |SortedMembers(tools, options, records, key)| && SortedMembers(tools, options, records, key)[j] == r;
  }

  lemma OnePosition(tools: Tools, options: Options, records: seq<Record>, i: int, j: int, k: int, l: int)
    requires Distinct(records)
    requires Position(tools, options, records, i, j) && Position(tools, options, records, k, l)
    requires RecordAt(tools, options, records, i, j) == RecordAt(tools, options, records, k, l)
    ensures i == k && j == l
  {
    SortedKeysExact(tools, options, records);
    var keys := SortedKeys(tools, options, records);
    var r := RecordAt(tools, options, records, i, j);
    SortedMembersExact(tools, options, records, keys[i]);
    SortedMembersExact(tools, options, records, keys[k]);
    hide SortedKeys, SortedMembers, GroupKey;
    assert r in SortedMembers(tools, options, records, keys[i]);
    assert r in SortedMembers(tools, options, records, keys[k]);
  }

  /** The comparison calls no two different texts equal. */
  ghost predicate Antisymmetric(le: Collation) {
    forall a, b :: le(a, b) && le(b, a) ==> a == b
  }

  /** Within a folder the requests are in the order of their paths, then methods. */
  lemma MembersInOrder(tools: Tools, options: Options, records: seq<Record>, key: string)
    requires TotalPreorder(tools.le) && Antisymmetric(tools.le)
    ensures Sorted(SortedMembers(tools, options, records, key), (a, b) => RecordLeq(tools, a, b))
  {
    var leq := (a, b) => RecordLeq(tools, a, b);
    assert TotalPreorder(leq) by {
      RecordsCompare(tools);
    }
    SortSorts(Members(tools, options, records, key), leq);
  }

  lemma RecordsCompare(tools: Tools)
    requires TotalPreorder(tools.le) && Antisymmetric(tools.le)
    ensures forall a, b :: RecordLeq(tools, a, b) || RecordLeq(tools, b, a)
    ensures forall a, b, c :: RecordLeq(tools, a, b) && RecordLeq(tools, b, c) ==> RecordLeq(tools, a, c)
  {
  }

  /** Folders are in the order of their keys. */
  lemma FoldersInOrder(tools: Tools, options: Options, records: seq<Record>)
    requires TotalPreorder(tools.le)
    ensures Sorted(SortedKeys(tools, options, records), tools.le)
  {
    SortSorts(Keys(tools, options, records), tools.le);
  }
}
