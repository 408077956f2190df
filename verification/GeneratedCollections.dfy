/** When a generated collection survives being written and read. */
module GeneratedCollections {
  import opened Text
  import opened Sorting
  import opened Collections
  import opened CollectionEntries
  import opened CollectionPaths
  import opened CollectionReader
  import opened CollectionWriter
  import opened CollectionReread
  import opened CollectionRoundTrip
  import opened OpenApi
  import opened Generator
  import opened GeneratedFiles
  import opened GeneratedRequests

  // ---- When the collection survives being written and read ----

  lemma NotRootFile(path: string, k: nat)
    requires k < |path| && path[k] == '/'
    ensures path != ROOT_FILE
  {
  }

  lemma SuffixKept(prefix: string, s: string)
    requires EndsWith(s, ".yml")
    ensures IsYml(prefix + s)
  {
    assert (prefix + s)[|prefix + s| - 4..] == s[|s| - 4..];
  }

  lemma FilePath(key: string, file: string)
    requires key != "" && GoodSegment(file) && EndsWith(file, ".yml")
    ensures
      var path := key + "/" + file;
      && Prefix(key) <= path && path[|Prefix(key)|..] == file
      && IsYml(path) && Basename(path) == file && path != ROOT_FILE
  {
    BasenameOf(key, file);
    SuffixKept(key + "/", file);
    hide Basename, Dirname, IsYml, EndsWith;
    var path := key + "/" + file;
    assert path[|key|] == '/';
    NotRootFile(path, |key|);
  }

  /** Whether a generated request is one that the reader gives back. */
  lemma {:induction false} RequestWellFormed(tools: Tools, key: string, r: Record, n: nat, le: Collation)
    requires r.verb in HTTP_METHODS && key != ""
    ensures WellFormedItem(CreateRequestItem(tools, key, r, n), key, le) <==> FileName(tools, r) != FOLDER_FILE
  {
    FileNameShape(tools, r);
    FilePath(key, FileName(tools, r));
    hide FileName, RequestName, Basename, IsYml, EndsWith, GoodSegment, Prefix;
  }

  lemma ChildrenAscend(tools: Tools, key: string, members: seq<Record>, le: Collation)
    ensures StrictlyAscending(Children(tools, key, members), le)
  {
    hide RequestOf, RequestName, FileName;
  }

  lemma SamePath(key: string, a: string, b: string)
    ensures key + "/" + a == key + "/" + b <==> a == b
  {
    assert (key + "/" + a)[|key| + 1..] == a && (key + "/" + b)[|key| + 1..] == b;
  }

  lemma {:induction false} ItemsByIndex(items: seq<Item>, dir: string, le: Collation)
    ensures WellFormedItems(items, dir, le) <==>
            && (forall i :: 0 <= i < |items| ==> WellFormedItem(items[i], dir, le))
            && (forall i, j :: 0 <= i < j < |items| ==> items[i].path != items[j].path)
            && StrictlyAscending(items, le)
  {
    hide WellFormedItem, StrictlyAscending;
  }

  lemma {:induction false} ChildrenByIndex(tools: Tools, key: string, members: seq<Record>, i: nat, j: nat, le: Collation)
    requires key != "" && i < |members| && j < |members| && members[i].verb in HTTP_METHODS
    ensures
      var items := Children(tools, key, members);
      && (WellFormedItem(items[i], key, le) <==> FileName(tools, members[i]) != FOLDER_FILE)
      && (items[i].path == items[j].path <==> FileName(tools, members[i]) == FileName(tools, members[j]))
  {
    hide FileName, WellFormedItem, RequestName, RequestOf, HTTP_METHODS;
    RequestWellFormed(tools, key, members[i], i + 1, le);
    SamePath(key, FileName(tools, members[i]), FileName(tools, members[j]));
  }

  /** Whether the requests of a folder are ones that the reader gives back. */
  lemma {:induction false} ChildrenWellFormed(tools: Tools, key: string, members: seq<Record>, le: Collation)
    requires key != "" && forall i :: 0 <= i < |members| ==> members[i].verb in HTTP_METHODS
    ensures WellFormedItems(Children(tools, key, members), key, le) <==>
            && (forall i :: 0 <= i < |members| ==> FileName(tools, members[i]) != FOLDER_FILE)
            && (forall i, j :: 0 <= i < j < |members| ==> FileName(tools, members[i]) != FileName(tools, members[j]))
  {
    var items := Children(tools, key, members);
    ChildrenAscend(tools, key, members, le);
    ItemsByIndex(items, key, le);
    hide *;
    forall i, j | 0 <= i < |members| && 0 <= j < |members|
      ensures WellFormedItem(items[i], key, le) <==> FileName(tools, members[i]) != FOLDER_FILE
      ensures items[i].path == items[j].path <==> FileName(tools, members[i]) == FileName(tools, members[j])
    {
      ChildrenByIndex(tools, key, members, i, j, le);
    }
  }

  /** The same, operation by operation. */
  ghost predicate GoodFiles(tools: Tools, options: Options, records: seq<Record>, key: string) {
    && (forall r :: r in records && GroupKey(tools, options, r) == key ==> FileName(tools, r) != FOLDER_FILE)
    && (forall r, q :: r in records && q in records && r != q && GroupKey(tools, options, r) == key && GroupKey(tools, options, q) == key ==>
          FileName(tools, r) != FileName(tools, q))
  }

  lemma GoodFilesByIndex(tools: Tools, options: Options, records: seq<Record>, key: string, members: seq<Record>)
    requires Distinct(members)
    requires forall r :: r in members <==> r in records && GroupKey(tools, options, r) == key
    ensures GoodFiles(tools, options, records, key) <==>
            && (forall i :: 0 <= i < |members| ==> FileName(tools, members[i]) != FOLDER_FILE)
            && (forall i, j :: 0 <= i < j < |members| ==> FileName(tools, members[i]) != FileName(tools, members[j]))
  {
    hide GroupKey, FileName;
  }

  /** Whether a generated folder is one that the reader gives back. */
  lemma FolderWellFormed(tools: Tools, options: Options, document: Document, key: string, n: nat, le: Collation)
    requires DistinctPaths(document.paths) && Slug(key)
    ensures
      var records := Records(document.paths);
      WellFormedItem(FolderOf(tools, options, records, key, n), "", le) <==>
        key !in ["", "environments"] && GoodFiles(tools, options, records, key)
  {
    var records := Records(document.paths);
    var members := SortedMembers(tools, options, records, key);
    RecordsExact(document.paths);
    SortedMembersExact(tools, options, records, key);
    FolderItself(FolderOf(tools, options, records, key, n), le);
    hide Records, SortedMembers, GroupKey, FileName, WellFormedItem, WellFormedItems, GoodFiles, Distinct;
    forall i | 0 <= i < |members|
      ensures members[i].verb in HTTP_METHODS
    {
      assert members[i] in members;
    }
    if key != "" {
      ChildrenWellFormed(tools, key, members, le);
      GoodFilesByIndex(tools, options, records, key, members);
      hide *;
    }
  }

  lemma {:induction false} FolderItself(folder: Item, le: Collation)
    requires folder.Folder? && Slug(folder.path)
    ensures WellFormedItem(folder, "", le) <==>
            folder.path !in ["", "environments"] && WellFormedItems(folder.children, folder.path, le)
  {
    hide WellFormedItems;
    assert folder.path[0..] == folder.path;
  }

  /**
   * The group has a key, which is not the reader's own directory, and its files have different names,
   * none of them the reader's own.
   */
  ghost predicate GoodGroup(tools: Tools, options: Options, records: seq<Record>, key: string) {
    key !in ["", "environments"] && GoodFiles(tools, options, records, key)
  }

  /** Every group is good, and no text that the writer drops is empty. */
  ghost predicate GoodNames(tools: Tools, options: Options, document: Document) {
    var records := Records(document.paths);
    && (forall r :: r in records ==> GoodGroup(tools, options, records, GroupKey(tools, options, r)))
    && document.version != Some("") && document.description != Some("")
    && SafeFileStem(options.environment) && options.environment[0] != '.'
  }

  lemma GroupsByKey(tools: Tools, options: Options, records: seq<Record>, keys: seq<string>)
    requires forall key :: key in keys <==> exists r :: r in records && GroupKey(tools, options, r) == key
    ensures (forall i :: 0 <= i < |keys| ==> GoodGroup(tools, options, records, keys[i]))
            <==> (forall r :: r in records ==> GoodGroup(tools, options, records, GroupKey(tools, options, r)))
  {
    hide GroupKey, GoodGroup;
    if forall i :: 0 <= i < |keys| ==> GoodGroup(tools, options, records, keys[i]) {
      forall r | r in records
        ensures GoodGroup(tools, options, records, GroupKey(tools, options, r))
      {
        assert GroupKey(tools, options, r) in keys;
      }
    }
    if forall r :: r in records ==> GoodGroup(tools, options, records, GroupKey(tools, options, r)) {
      forall i | 0 <= i < |keys|
        ensures GoodGroup(tools, options, records, keys[i])
      {
        assert keys[i] in keys;
      }
    }
  }

  lemma EachFolderWellFormed(tools: Tools, options: Options, document: Document, i: nat, le: Collation)
    requires DistinctPaths(document.paths) && i < |SortedKeys(tools, options, Records(document.paths))|
    ensures
      var records := Records(document.paths);
      var key := SortedKeys(tools, options, records)[i];
      var item := Folders(tools, options, records)[i];
      item.path == key && (WellFormedItem(item, "", le) <==> GoodGroup(tools, options, records, key))
  {
    var records := Records(document.paths);
    var keys := SortedKeys(tools, options, records);
    SortedKeysExact(tools, options, records);
    hide Records, SortedKeys, WellFormedItem, GoodFiles, Slug, GroupKey;
    assert keys[i] in keys;
    var r :| r in records && GroupKey(tools, options, r) == keys[i];
    GroupKeyShape(tools, options, r);
    FolderWellFormed(tools, options, document, keys[i], i + 1, le);
  }

  lemma FoldersWellFormed(tools: Tools, options: Options, document: Document, le: Collation)
    requires DistinctPaths(document.paths)
    ensures
      var records := Records(document.paths);
      WellFormedItems(Folders(tools, options, records), "", le) <==>
        forall r :: r in records ==> GoodGroup(tools, options, records, GroupKey(tools, options, r))
  {
    var records := Records(document.paths);
    var keys := SortedKeys(tools, options, records);
    var items := Folders(tools, options, records);
    SortedKeysExact(tools, options, records);
    ItemsByIndex(items, "", le);
    FoldersAscend(tools, options, records, le);
    GroupsByKey(tools, options, records, keys);
    hide *;
    assert forall i, j :: 0 <= i < j < |keys| ==> keys[i] != keys[j] by { DistinctMeans(keys); }
    forall i | 0 <= i < |keys|
      ensures items[i].path == keys[i]
      ensures WellFormedItem(items[i], "", le) <==> GoodGroup(tools, options, records, keys[i])
    {
      EachFolderWellFormed(tools, options, document, i, le);
    }
  }

  lemma DistinctMeans(keys: seq<string>)
    requires Distinct(keys)
    ensures forall i, j :: 0 <= i < j < |keys| ==> keys[i] != keys[j]
  {
  }

  lemma FoldersAscend(tools: Tools, options: Options, records: seq<Record>, le: Collation)
    ensures StrictlyAscending(Folders(tools, options, records), le)
  {
    hide SortedKeys, SortedMembers, Children;
  }

  /** The result, given a directory, is well formed exactly when its names are good. */
  lemma GeneratedWellFormed(tools: Tools, options: Options, document: Document, dir: string, le: Collation)
    requires DistinctPaths(document.paths) && dir != ""
    ensures WellFormed(Generated(tools, options, document).(rootDir := dir), le) <==> GoodNames(tools, options, document)
  {
    FoldersWellFormed(tools, options, document, le);
    hide WellFormedItems, Folders, Records, GroupKey, GoodGroup, SafeFileStem;
  }

  // ---- What the writer and the reader make of it ----

  lemma ChildFlat(tools: Tools, key: string, r: Record, n: nat)
    requires r.verb in HTTP_METHODS
    ensures FlatRequest(CreateRequestItem(tools, key, r, n), key)
  {
    FileNameShape(tools, r);
    hide FileStem, RequestOf, RequestName, Slug;
  }

  lemma ChildrenFlat(tools: Tools, key: string, members: seq<Record>)
    requires forall r :: r in members ==> r.verb in HTTP_METHODS
    ensures forall x :: x in Children(tools, key, members) ==> FlatRequest(x, key)
  {
    hide FlatRequest, CreateRequestItem, HTTP_METHODS;
    forall x | x in Children(tools, key, members)
      ensures FlatRequest(x, key)
    {
      var j :| 0 <= j < |members| && x == CreateRequestItem(tools, key, members[j], j + 1);
      ChildFlat(tools, key, members[j], j + 1);
    }
  }

  lemma KeySlug(tools: Tools, options: Options, records: seq<Record>, i: nat)
    requires i < |SortedKeys(tools, options, records)|
    ensures Slug(SortedKeys(tools, options, records)[i])
  {
    var keys := SortedKeys(tools, options, records);
    SortedKeysExact(tools, options, records);
    hide SortedKeys, Slug, GroupKey;
    assert keys[i] in keys;
    var r :| r in records && GroupKey(tools, options, r) == keys[i];
    GroupKeyShape(tools, options, r);
  }

  lemma FolderFlat(tools: Tools, options: Options, document: Document, i: nat)
    requires DistinctPaths(document.paths) && i < |SortedKeys(tools, options, Records(document.paths))|
    ensures Flat(Folders(tools, options, Records(document.paths))[i])
  {
    var records := Records(document.paths);
    var key := SortedKeys(tools, options, records)[i];
    MembersHaveMethods(tools, options, document, key);
    KeySlug(tools, options, records, i);
    hide Records, SortedKeys, SortedMembers, GroupKey, Slug, FlatRequest, Children, HTTP_METHODS;
    ChildrenFlat(tools, key, SortedMembers(tools, options, records, key));
  }

  lemma MembersHaveMethods(tools: Tools, options: Options, document: Document, key: string)
    requires DistinctPaths(document.paths)
    ensures forall r :: r in SortedMembers(tools, options, Records(document.paths), key) ==> r.verb in HTTP_METHODS
  {
    RecordsExact(document.paths);
    SortedMembersExact(tools, options, Records(document.paths), key);
    hide Records, SortedMembers, GroupKey, Distinct;
  }

  lemma ChildrenUntied(tools: Tools, key: string, members: seq<Record>, le: Collation)
    ensures Untied(Children(tools, key, members), le)
  {
    ChildrenAscend(tools, key, members, le);
    hide StrictlyAscending, RequestOf, RequestName, FileName;
  }

  /** Numbers tell generated siblings apart. */
  lemma GeneratedUntied(tools: Tools, options: Options, records: seq<Record>, le: Collation)
    ensures Untied(Folders(tools, options, records), le)
  {
    var keys := SortedKeys(tools, options, records);
    FoldersAscend(tools, options, records, le);
    hide StrictlyAscending, SortedKeys, SortedMembers, Children;
    forall item | item in Folders(tools, options, records)
      ensures Untied(item.children, le)
    {
      var i :| 0 <= i < |keys| && item == FolderOf(tools, options, records, keys[i], i + 1);
      ChildrenUntied(tools, keys[i], SortedMembers(tools, options, records, keys[i]), le);
    }
  }

  /** The writer leaves a plain directory, whatever the names are. */
  lemma GeneratedPlain(tools: Tools, options: Options, document: Document, dir: string, names: seq<string>)
    requires DistinctPaths(document.paths) && dir != ""
    requires forall n :: n in names ==> n in Generated(tools, options, document).environments
    ensures PlainDirectory(AfterCollection(map[], Generated(tools, options, document).(rootDir := dir), names).0)
  {
    var c := Generated(tools, options, document).(rootDir := dir);
    var items := Folders(tools, options, Records(document.paths));
    forall x | x in items
      ensures Flat(x)
    {
      var i :| 0 <= i < |items| && items[i] == x;
      FolderFlat(tools, options, document, i);
    }
    hide Flat, Folders, Records, PlainDirectory, AfterCollection;
    FlatPlain(c, names);
  }

  /** What is read back is the generated collection only if that one is well formed. */
  lemma SurvivorWellFormed(
    tools: Tools, options: Options, document: Document, dir: string, names: seq<string>, paths: seq<string>, le: Collation)
    requires TotalPreorder(le) && DistinctPaths(document.paths) && dir != ""
    requires
      var c := Generated(tools, options, document).(rootDir := dir);
      && (forall n :: n in names ==> n in c.environments) && Lists(paths, AfterCollection(map[], c, names).0)
      && Read(dir, AfterCollection(map[], c, names).0, paths, le) == Some(c)
    ensures WellFormed(Generated(tools, options, document).(rootDir := dir), le)
  {
    var c := Generated(tools, options, document).(rootDir := dir);
    GeneratedPlain(tools, options, document, dir, names);
    GeneratedUntied(tools, options, Records(document.paths), le);
    var files := AfterCollection(map[], c, names).0;
    hide AfterCollection, PlainDirectory, Untied, WellFormed, Folders, Records, LoadFiles, BuildItems;
    ReadWellFormed(dir, files, paths, le);
  }

  /**
   * The collection that is generated from a document, written and read back is the generated one exactly
   * when the names are good.
   */
  lemma GeneratedSurvives(
    tools: Tools, options: Options, document: Document, dir: string, names: seq<string>, paths: seq<string>, le: Collation)
    requires TotalPreorder(le) && DistinctPaths(document.paths) && dir != ""
    requires
      var c := Generated(tools, options, document).(rootDir := dir);
      (forall n :: n in names <==> n in c.environments) && Lists(paths, AfterCollection(map[], c, names).0)
    ensures
      var c := Generated(tools, options, document).(rootDir := dir);
      Read(dir, AfterCollection(map[], c, names).0, paths, le) == Some(c) <==> GoodNames(tools, options, document)
  {
    var c := Generated(tools, options, document).(rootDir := dir);
    GeneratedWellFormed(tools, options, document, dir, le);
    hide WellFormed, Generated, GoodNames, Read, AfterCollection, Lists;
    if GoodNames(tools, options, document) {
      RoundTrip(c, names, paths, le);
    } else if Read(dir, AfterCollection(map[], c, names).0, paths, le) == Some(c) {
      SurvivorWellFormed(tools, options, document, dir, names, paths, le);
    }
  }

  /** An operation called "folder" makes a file that the reader takes for something else. */
  lemma NamedFolder(
    tools: Tools, options: Options, document: Document, r: Record, dir: string, names: seq<string>, paths: seq<string>,
    le: Collation)
    requires TotalPreorder(le) && DistinctPaths(document.paths) && HasOperation(document.paths, r) && dir != ""
    requires r.operation.operationId == Some("folder") && tools.lower("folder") == "folder"
    requires
      var c := Generated(tools, options, document).(rootDir := dir);
      (forall n :: n in names <==> n in c.environments) && Lists(paths, AfterCollection(map[], c, names).0)
    ensures FileName(tools, r) == FOLDER_FILE
    ensures
      var c := Generated(tools, options, document).(rootDir := dir);
      Read(dir, AfterCollection(map[], c, names).0, paths, le) != Some(c)
  {
    RecordsExact(document.paths);
    GeneratedSurvives(tools, options, document, dir, names, paths, le);
    FolderNamed(tools, r);
    var records := Records(document.paths);
    hide Generated, FileName, Records, GroupKey, Read, AfterCollection, Lists;
    assert r in records;
    assert !GoodFiles(tools, options, records, GroupKey(tools, options, r));
  }

  lemma FolderNamed(tools: Tools, r: Record)
    requires r.operation.operationId == Some("folder") && tools.lower("folder") == "folder"
    ensures FileName(tools, r) == FOLDER_FILE
  {
    SlugOfFolder(tools);
    hide Slugify, WithoutBraces;
    assert RequestName(tools, r) == "folder";
    assert "folder" + ".yml" == FOLDER_FILE;
  }

  lemma SlugOfFolder(tools: Tools)
    requires tools.lower("folder") == "folder"
    ensures Slugify(tools, "folder") == "folder"
  {
    assert DashRuns("folder", false) == "folder" by {
      DashRunsKeeps("folder");
    }
    CollapseKeeps("folder");
  }

  lemma {:induction false} DashRunsKeeps(s: string)
    requires forall k :: 0 <= k < |s| ==> Alnum(s[k])
    ensures DashRuns(s, false) == s
  {
    if s != "" {
      DashRunsKeeps(s[1..]);
    }
  }

  lemma {:induction false} CollapseKeeps(s: string)
    requires forall k :: 0 <= k < |s| ==> Alnum(s[k])
    ensures Collapse(s) == s
  {
    if |s| >= 2 {
      CollapseKeeps(s[1..]);
    }
  }
}
