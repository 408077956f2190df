/**
 * Generating a collection from an OpenAPI document (apifn/collections/src/generator.ts): every
 * operation becomes one request in the folder of its group, and the result is a collection that
 * survives being written and read, under conditions on names that are stated exactly.
 */
module Generator {
  import opened Text
  import opened Sorting
  import opened Collections
  import opened CollectionPaths
  import opened OpenApi
  import PathPipeline

  datatype Operation =
    Operation(operationId: Option<string>, summary: Option<string>, tag: Option<string>, body: Option<string>)

  /** The operations of one path, by method. */
  type Operations = map<string, Operation>

  datatype Document = Document(
    title: string, version: Option<string>, description: Option<string>, server: Option<string>, paths: seq<PathItem<Operations>>)

  datatype Record = Record(path: string, verb: string, operation: Operation)

  datatype Options = Options(byTag: bool, baseUrl: Option<string>, environment: string)

  /**
   * What the generator takes from the language: `toLowerCase`, the title of a slug, `localeCompare`,
   * and the text of the `http` section for a method, an address and a body.
   */
  datatype Tools = Tools(
    lower: string -> string, title: string -> string, le: Collation, http: (string, string, Option<string>) -> string)

  // ---- Slugs ----

  predicate Alnum(c: char) {
    'a' <= c <= 'z' || '0' <= c <= '9'
  }

  /** Runs of other characters become one dash. */
  function DashRuns(s: string, inRun: bool): string {
    if s == "" then ""
    else if Alnum(s[0]) then [s[0]] + DashRuns(s[1..], false)
    else if inRun then DashRuns(s[1..], true)
    else "-" + DashRuns(s[1..], true)
  }

  /** Runs of dashes become one. */
  function Collapse(s: string): string {
    if |s| < 2 then s
    else if s[0] == '-' && s[1] == '-' then Collapse(s[1..])
    else [s[0]] + Collapse(s[1..])
  }

  function Slugify(tools: Tools, s: string): string {
    Collapse(DropTrailing(DropLeading(DashRuns(tools.lower(s), false), '-'), '-'))
  }

  predicate Slug(s: string) {
    (forall k :: 0 <= k < |s| ==> Alnum(s[k]) || s[k] == '-') && (s != "" ==> Alnum(s[0]))
  }

  lemma {:induction false} DashRunsShape(s: string, inRun: bool)
    ensures forall k :: 0 <= k < |DashRuns(s, inRun)| ==> Alnum(DashRuns(s, inRun)[k]) || DashRuns(s, inRun)[k] == '-'
  {
    if s != "" {
      DashRunsShape(s[1..], false);
      DashRunsShape(s[1..], true);
    }
  }

  predicate Dashed(s: string) {
    forall k :: 0 <= k < |s| ==> Alnum(s[k]) || s[k] == '-'
  }

  lemma {:induction false} DropLeadingShape(s: string)
    requires Dashed(s)
    ensures Slug(DropLeading(s, '-'))
  {
    if s != "" && s[0] == '-' {
      DropLeadingShape(s[1..]);
    }
  }

  lemma {:induction false} DropTrailingShape(s: string)
    requires Slug(s)
    ensures Slug(DropTrailing(s, '-'))
  {
    if s != "" && s[|s| - 1] == '-' {
      DropTrailingShape(s[..|s| - 1]);
    }
  }

  lemma {:induction false} CollapseShape(s: string)
    requires Dashed(s)
    ensures Dashed(Collapse(s)) && (s != "" ==> Collapse(s) != "" && Collapse(s)[0] == s[0])
  {
    if |s| >= 2 {
      CollapseShape(s[1..]);
    }
  }

  /** A slug has letters, digits and dashes only, and starts with a letter or digit. */
  lemma SlugifyShape(tools: Tools, s: string)
    ensures Slug(Slugify(tools, s))
  {
    var dashed := DashRuns(tools.lower(s), false);
    DashRunsShape(tools.lower(s), false);
    DropLeadingShape(dashed);
    DropTrailingShape(DropLeading(dashed, '-'));
    CollapseShape(DropTrailing(DropLeading(dashed, '-'), '-'));
    hide DashRuns, DropLeading, DropTrailing, Collapse;
  }

  // ---- Operations, group keys and requests ----

  /** The operations of one path, in the order of the methods. */
  function RecordsOf(item: PathItem<Operations>, methods: seq<string>): seq<Record> {
    if methods == [] then []
    else
      var last := methods[|methods| - 1];
      RecordsOf(item, methods[..|methods| - 1])
      + if last in item.operations then [Record(item.path, last, item.operations[last])] else []
  }

  function Records(paths: seq<PathItem<Operations>>): seq<Record> {
    if paths == [] then [] else Records(paths[..|paths| - 1]) + RecordsOf(paths[|paths| - 1], HTTP_METHODS)
  }

  method CollectOperations(document: Document) returns (records: seq<Record>)
    ensures records == Records(document.paths)
  {
    records := [];
    for i := 0 to |document.paths|
      invariant records == Records(document.paths[..i])
    {
      var item := document.paths[i];
      ghost var before := records;
      for j := 0 to |HTTP_METHODS|
        invariant records == before + RecordsOf(item, HTTP_METHODS[..j])
      {
        assert HTTP_METHODS[..j + 1][..j] == HTTP_METHODS[..j];
        if HTTP_METHODS[j] in item.operations {
          records := records + [Record(item.path, HTTP_METHODS[j], item.operations[HTTP_METHODS[j]])];
        }
      }
      assert HTTP_METHODS[..|HTTP_METHODS|] == HTTP_METHODS;
      assert document.paths[..i + 1][..i] == document.paths[..i];
    }
    assert document.paths[..|document.paths|] == document.paths;
  }

  /** The first segment that is not empty. */
  function FirstPart(path: string): Option<string> {
    if path == "" then None
    else if FirstSegment(path) != "" then Some(FirstSegment(path))
    else FirstPart(path[1..])
  }

  function GroupKeyByPath(tools: Tools, path: string): string {
    match FirstPart(path)
    case Some(part) => Slugify(tools, part)
    case None => "root"
  }

  function GroupKey(tools: Tools, options: Options, r: Record): string {
    if options.byTag then
      Slugify(tools, if r.operation.tag.Some? then r.operation.tag.value else GroupKeyByPath(tools, r.path))
    else GroupKeyByPath(tools, r.path)
  }

  lemma GroupKeyShape(tools: Tools, options: Options, r: Record)
    ensures Slug(GroupKey(tools, options, r))
  {
    hide Slugify, FirstPart;
    forall s
      ensures Slug(Slugify(tools, s))
    {
      SlugifyShape(tools, s);
    }
  }

  function Or(first: Option<string>, second: string): string {
    if first in [None, Some("")] then second else first.value
  }

  function RequestName(tools: Tools, r: Record): string {
    Or(r.operation.operationId, Or(r.operation.summary, tools.title(r.verb + " " + r.path)))
  }

  function WithoutBraces(s: string): string {
    if s == "" then "" else (if s[0] in "{}" then "" else [s[0]]) + WithoutBraces(s[1..])
  }

  function FileStem(tools: Tools, r: Record): string {
    var name := Slugify(tools, RequestName(tools, r));
    var fallback := Slugify(tools, WithoutBraces(r.path));
    if name != "" then name else r.verb + "-" + if fallback != "" then fallback else "root"
  }

  function FileName(tools: Tools, r: Record): string {
    FileStem(tools, r) + ".yml"
  }

  function RequestOf(tools: Tools, r: Record, n: nat): Request {
    Request(RequestInfo(Some(RequestName(tools, r)), Some(n as real)), tools.http(r.verb, PathPipeline.RequestUrl(r.path), r.operation.body), "")
  }

  /** The request of an operation, as the `n`-th one of its folder. */
  function CreateRequestItem(tools: Tools, key: string, r: Record, n: nat): Item {
    RequestItem(RequestName(tools, r), key + "/" + FileName(tools, r), Some(RequestOf(tools, r, n)), Some(n as real))
  }

  // ---- Folders ----

  /** The keys in the order of their first operation. */
  function Keys(tools: Tools, options: Options, records: seq<Record>): seq<string> {
    if records == [] then []
    else
      var before := Keys(tools, options, records[..|records| - 1]);
      var key := GroupKey(tools, options, records[|records| - 1]);
      if key in before then before else before + [key]
  }

  /** The operations with this key, in their order. */
  function Members(tools: Tools, options: Options, records: seq<Record>, key: string): seq<Record> {
    if records == [] then []
    else
      var last := records[|records| - 1];
      Members(tools, options, records[..|records| - 1], key) + if GroupKey(tools, options, last) == key then [last] else []
  }

  /** By path, then by method. */
  predicate RecordLeq(tools: Tools, a: Record, b: Record) {
    if a.path != b.path then tools.le(a.path, b.path) else tools.le(a.verb, b.verb)
  }

  function SortedMembers(tools: Tools, options: Options, records: seq<Record>, key: string): seq<Record> {
    Sort(Members(tools, options, records, key), (a, b) => RecordLeq(tools, a, b))
  }

  function Children(tools: Tools, key: string, members: seq<Record>): (items: seq<Item>)
    ensures |items| == |members|
  {
    seq(|members|, i requires 0 <= i < |members| => CreateRequestItem(tools, key, members[i], i + 1))
  }

  function FolderOf(tools: Tools, options: Options, records: seq<Record>, key: string, n: nat): Item {
    Folder(tools.title(key), key, Children(tools, key, SortedMembers(tools, options, records, key)), Some(n as real))
  }

  function SortedKeys(tools: Tools, options: Options, records: seq<Record>): seq<string> {
    Sort(Keys(tools, options, records), tools.le)
  }

  function Folders(tools: Tools, options: Options, records: seq<Record>): (items: seq<Item>)
    ensures |items| == |SortedKeys(tools, options, records)|
  {
    var keys := SortedKeys(tools, options, records);
    seq(|keys|, i requires 0 <= i < |keys| => FolderOf(tools, options, records, keys[i], i + 1))
  }

  /** The map from keys to operations, in the order in which the keys came up. */
  class Groups {
    var keys: seq<string>
    var members: map<string, seq<Record>>

    constructor ()
      ensures keys == [] && members == map[]
    {
      keys, members := [], map[];
    }

    ghost predicate Holds(tools: Tools, options: Options, records: seq<Record>)
      reads this
    {
      && keys == Keys(tools, options, records)
      && (forall key :: key in members <==> key in keys)
      && (forall key :: key in members ==> members[key] == Members(tools, options, records, key))
    }

    method Add(tools: Tools, options: Options, ghost before: seq<Record>, r: Record)
      requires Holds(tools, options, before)
      modifies this
      ensures Holds(tools, options, before + [r])
    {
      NoKeyNoMembers(tools, options, before);
      assert (before + [r])[..|before|] == before;
      var key := GroupKey(tools, options, r);
      if key in members {
        members := members[key := members[key] + [r]];
      } else {
        keys := keys + [key];
        members := members[key := [r]];
      }
    }

    method ToFolderItems(tools: Tools, options: Options, ghost records: seq<Record>) returns (folders: seq<Item>)
      requires Holds(tools, options, records)
      ensures folders == Folders(tools, options, records)
    {
      folders := [];
      var sorted := Sort(keys, tools.le);
      SortPermutes(keys, tools.le);
      hide Keys, Members, RecordLeq, CreateRequestItem, Sort;
      for i := 0 to |sorted|
        invariant |folders| == i
        invariant folders == Folders(tools, options, records)[..i]
      {
        var key := sorted[i];
        assert key in multiset(sorted);
        assert key in keys;
        var children := Children(tools, key, Sort(members[key], (a, b) => RecordLeq(tools, a, b)));
        assert children == Children(tools, key, SortedMembers(tools, options, records, key));
        folders := folders + [Folder(tools.title(key), key, children, Some((i + 1) as real))];
      }
    }
  }

  lemma {:induction false} NoKeyNoMembers(tools: Tools, options: Options, records: seq<Record>)
    ensures forall key :: key !in Keys(tools, options, records) ==> Members(tools, options, records, key) == []
  {
    hide GroupKey;
    if records != [] {
      NoKeyNoMembers(tools, options, records[..|records| - 1]);
    }
  }

  /** The collection, with no root directory yet. */
  function Generated(tools: Tools, options: Options, document: Document): Collection {
    var base := if options.baseUrl.Some? then options.baseUrl.value
                else if document.server.Some? then document.server.value else "http://localhost:3000";
    Collection(
      CollectionInfo(document.title, document.description, document.version, Some("collection")),
      map[options.environment := Environment(options.environment, map["baseUrl" := base])],
      Folders(tools, options, Records(document.paths)), "")
  }

  method OpenAPIToCollection(tools: Tools, options: Options, document: Document) returns (c: Collection)
    ensures c == Generated(tools, options, document)
  {
    var operations := CollectOperations(document);
    var grouped := new Groups();
    for i := 0 to |operations|
      invariant grouped.Holds(tools, options, operations[..i])
    {
      grouped.Add(tools, options, operations[..i], operations[i]);
      assert operations[..i] + [operations[i]] == operations[..i + 1];
    }
    assert operations[..|operations|] == operations;
    var base := if options.baseUrl.Some? then options.baseUrl.value
                else if document.server.Some? then document.server.value else "http://localhost:3000";
    var items := grouped.ToFolderItems(tools, options, operations);
    c := Collection(
      CollectionInfo(document.title, document.description, document.version, Some("collection")),
      map[options.environment := Environment(options.environment, map["baseUrl" := base])],
      items, "");
  }
}
