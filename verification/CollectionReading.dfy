/** What is read from a directory, whoever wrote it: every request and folder file, each in its own folder. */
module CollectionReading {
  import opened Sorting
  import opened Text
  import opened Collections
  import opened CollectionPaths
  import opened CollectionReader
  import opened CollectionRebuild
  import opened CollectionReread

  /** A path as a directory listing gives it: no empty segment. */
  predicate Tidy(path: string) {
    && path != "" && path[0] != '/' && path[|path| - 1] != '/'
    && forall k :: 0 <= k < |path| - 1 ==> !(path[k] == '/' && path[k + 1] == '/')
  }

  /** The item lies in this directory of the tree; the list itself lies at `here`. */
  ghost predicate Holds(items: seq<Item>, here: string, dir: string, item: Item) {
    || (dir == here && item in items)
    || exists k :: 0 <= k < |items| && items[k].Folder? && Holds(items[k].children, items[k].path, dir, item)
  }

  ghost predicate Clean(c: Context) {
    && Consistent(c)
    && (forall p :: p in c.requestPaths ==> Tidy(p))
    && (forall d :: d in c.folderPaths ==> d == "" || Tidy(d))
  }

  // ---- One level of the tree ----

  /** The rest of a tidy path below a directory begins with a segment. */
  lemma RestOf(here: string, path: string)
    requires Tidy(path) && Prefix(here) <= path
    ensures var rest := path[|Prefix(here)|..]; rest != "" && FirstSegment(rest) != "" && path == Prefix(here) + rest
  {
    var prefix := Prefix(here);
    assert here != "" ==> prefix[|prefix| - 1] == '/' == path[|prefix| - 1];
  }

  lemma DirectPlace(here: string, path: string)
    requires Tidy(path) && Prefix(here) <= path
    ensures Direct(Prefix(here), path) <==> Dirname(path) == here
  {
    var rest := path[|Prefix(here)|..];
    assert path == Prefix(here) + rest;
    BaseFree(path);
    hide Tidy, Basename, Dirname;
    if Free(rest, '/') {
      BasenameOf(here, rest);
    }
    if Dirname(path) == here {
      DirAndBase(path);
      assert path == Prefix(here) + Basename(path);
      assert rest == Basename(path);
    }
  }

  lemma BaseFree(path: string)
    ensures Free(Basename(path), '/') && (Dirname(path) == "" && path != "" && path[0] != '/' ==> Basename(path) == path)
  {
  }

  /** The folder at this path, as the reader makes it. */
  function FolderOf(c: Context, path: string, le: Collation): Item
    requires forall p :: p in c.requestPaths ==> p in c.requests
  {
    FolderItem(Dirname(path), Basename(path), BuildItems(path, c, le), c)
  }

  lemma FolderAtIs(c: Context, here: string, name: string, le: Collation)
    requires (forall p :: p in c.requestPaths ==> p in c.requests) && Free(name, '/') && name != ""
    ensures FolderAt(here, name, c, le) == FolderOf(c, Prefix(here) + name, le)
    ensures Dirname(Prefix(here) + name) == here
  {
    hide BuildItems, Dirname, Basename;
    BasenameOf(here, name);
  }

  /** Something lies in this folder or below. */
  ghost predicate Populated(c: Context, dir: string) {
    || dir in c.folderPaths
    || (exists p :: p in c.requestPaths && dir + "/" <= p)
    || (exists d :: d in c.folderPaths && dir + "/" <= d)
  }

  /** The folder names of a directory are the populated folders directly in it. */
  lemma NamesPopulated(c: Context, here: string, name: string)
    requires Clean(c)
    ensures name in FolderNames(Prefix(here), c) <==> name != "" && Free(name, '/') && Populated(c, Prefix(here) + name)
  {
    hide FolderNames, Tidy, FirstSegment, Names, Prefix, Populated;
    FolderNamesAre(Prefix(here), c);
    forall p | p in c.requestPaths
      ensures Names(Prefix(here), p, false, name) <==> name != "" && Free(name, '/') && Prefix(here) + name + "/" <= p
    {
      RequestNames(Prefix(here), p, name);
    }
    forall d | d in c.folderPaths
      ensures Names(Prefix(here), d, true, name) <==>
              name != "" && Free(name, '/') && (d == Prefix(here) + name || Prefix(here) + name + "/" <= d)
    {
      FolderNamed(Prefix(here), d, name);
    }
    PopulatedIs(c, Prefix(here) + name);
  }

  lemma PopulatedIs(c: Context, dir: string)
    ensures Populated(c, dir) <==>
            || (exists p :: p in c.requestPaths && dir + "/" <= p)
            || (exists d :: d in c.folderPaths && (d == dir || dir + "/" <= d))
  {
  }

  lemma RequestNames(prefix: string, path: string, name: string)
    ensures Names(prefix, path, false, name) <==> name != "" && Free(name, '/') && prefix + name + "/" <= path
  {
    if prefix + name + "/" <= path {
      assert path[..|prefix|] == (prefix + name + "/")[..|prefix|] == prefix;
      var rest := path[|prefix|..];
      assert rest[..|name| + 1] == path[|prefix|..|prefix| + |name| + 1] == name + "/";
      assert rest[..|name|] == (name + "/")[..|name|] == name;
      assert rest[|name|] == rest[..|name| + 1][|name|] == '/';
      if Free(name, '/') {
        FirstSegmentIs(rest, name);
      }
    }
    if Names(prefix, path, false, name) {
      var rest := path[|prefix|..];
      assert rest[|name|] == '/' && rest[..|name|] == name;
      assert path[..|prefix| + |name| + 1] == prefix + name + "/";
    }
  }

  lemma FolderNamed(prefix: string, path: string, name: string)
    ensures Names(prefix, path, true, name) <==>
            name != "" && Free(name, '/') && (path == prefix + name || prefix + name + "/" <= path)
  {
    RequestNames(prefix, path, name);
    if prefix <= path {
      var rest := path[|prefix|..];
      assert path == prefix + rest;
      if Free(rest, '/') {
        FirstSegmentIs(rest, rest);
      }
    }
    assert path == prefix + name ==> path[|prefix|..] == name;
  }

  /** The items of a directory: the requests directly in it, and the folders that are kept. */
  lemma {:induction false} ItemsAre(c: Context, here: string, le: Collation, x: Item)
    requires TotalPreorder(le) && Clean(c)
    ensures x in BuildItems(here, c, le) <==>
            || (x.path in c.requestPaths && Direct(Prefix(here), x.path) && x == ReadRequest(x.path, c.requests[x.path]))
            || (exists n :: n in FolderNames(Prefix(here), c) && x == FolderAt(here, n, c, le) && Kept(x, c))
  {
    hide Direct, FolderNames, DirectRequests, BuildFolders, SortBySeqThenName, FolderItem, ReadRequest, Tidy, Kept;
    var prefix := Prefix(here);
    var names := FolderNames(prefix, c);
    FolderNamesAre(prefix, c);
    DirectAre(prefix, c.requestPaths, c.requests);
    FoldersAre(here, names, c, le);
    SortMembers(DirectRequests(prefix, c.requestPaths, c.requests) + BuildFolders(here, names, c, le), le);
  }

  // ---- Requests ----

  /** A request file below a directory is found there, in the folder of its own directory. */
  lemma {:induction false} RequestFound(c: Context, here: string, le: Collation, path: string)
    requires TotalPreorder(le) && Clean(c) && path in c.requestPaths && Prefix(here) <= path
    ensures Holds(BuildItems(here, c, le), here, Dirname(path), ReadRequest(path, c.requests[path]))
    decreases Room(here, c)
  {
    var item := ReadRequest(path, c.requests[path]);
    var rest := path[|Prefix(here)|..];
    assert Tidy(path);
    hide Tidy, BuildItems, Room, FolderNames, FirstSegment, Dirname, Direct, Names;
    RestOf(here, path);
    DirectPlace(here, path);
    if Direct(Prefix(here), path) {
      ItemsAre(c, here, le, item);
    } else {
      var name := FirstSegment(rest);
      NextName(c, here, path, name);
      FolderNamesFit(here, c, name);
      RequestFound(c, Prefix(here) + name, le, path);
      ChildHolds(c, here, name, le, Dirname(path), item);
    }
  }

  lemma NextName(c: Context, here: string, path: string, name: string)
    requires Clean(c) && path in c.requestPaths && Prefix(here) <= path && !Direct(Prefix(here), path)
    requires name == FirstSegment(path[|Prefix(here)|..]) && name != ""
    ensures name in FolderNames(Prefix(here), c) && Prefix(Prefix(here) + name) <= path
  {
    hide FolderNames, Tidy, FirstSegment;
    FolderNamesAre(Prefix(here), c);
    assert Names(Prefix(here), path, false, name);
    RequestNames(Prefix(here), path, name);
  }

  /** What the children of a folder hold is held by the list that the folder is in. */
  lemma {:induction false} ChildHolds(c: Context, here: string, name: string, le: Collation, dir: string, item: Item)
    requires TotalPreorder(le) && Clean(c) && name in FolderNames(Prefix(here), c)
    requires Holds(BuildItems(Prefix(here) + name, c, le), Prefix(here) + name, dir, item)
    ensures Holds(BuildItems(here, c, le), here, dir, item)
  {
    var folder := FolderAt(here, name, c, le);
    assert folder.Folder? && folder.children == BuildItems(Prefix(here) + name, c, le) && folder.path == Prefix(here) + name;
    hide BuildItems, FolderNames, FolderItem, Tidy;
    assert folder.children != [];
    ItemsAre(c, here, le, folder);
    var items := BuildItems(here, c, le);
    var k :| 0 <= k < |items| && items[k] == folder;
  }

  /** Every item that is held is in this list, or in that of a folder in it. */
  lemma {:induction false} HeldFrom(c: Context, here: string, le: Collation, dir: string, item: Item)
    requires TotalPreorder(le) && Clean(c) && Holds(BuildItems(here, c, le), here, dir, item)
    ensures || (dir == here && item in BuildItems(here, c, le))
            || exists n :: n in FolderNames(Prefix(here), c) && Holds(BuildItems(Prefix(here) + n, c, le), Prefix(here) + n, dir, item)
  {
    var items := BuildItems(here, c, le);
    hide BuildItems, FolderNames, Tidy, Direct;
    if !(dir == here && item in items) {
      var k :| 0 <= k < |items| && items[k].Folder? && Holds(items[k].children, items[k].path, dir, item);
      ItemsAre(c, here, le, items[k]);
      var n :| n in FolderNames(Prefix(here), c) && items[k] == FolderAt(here, n, c, le);
      assert Holds(BuildItems(Prefix(here) + n, c, le), Prefix(here) + n, dir, item);
    }
  }

  /** An item that is held is a request file's in its directory, or the folder of a populated path. */
  lemma {:induction false} HeldIs(c: Context, here: string, le: Collation, dir: string, item: Item)
    requires TotalPreorder(le) && Clean(c) && Holds(BuildItems(here, c, le), here, dir, item)
    ensures dir == Dirname(item.path) && Prefix(here) <= item.path
    ensures item.RequestItem? ==> item.path in c.requestPaths && item == ReadRequest(item.path, c.requests[item.path])
    ensures item.Folder? ==> item.path != "" && Populated(c, item.path) && item == FolderOf(c, item.path, le)
    decreases Room(here, c)
  {
    hide BuildItems, FolderNames, Tidy, Direct, Room, Holds, Populated, FolderItem, Dirname, Prefix;
    HeldFrom(c, here, le, dir, item);
    if n :| n in FolderNames(Prefix(here), c) && Holds(BuildItems(Prefix(here) + n, c, le), Prefix(here) + n, dir, item) {
      FolderNamesFit(here, c, n);
      HeldIs(c, Prefix(here) + n, le, dir, item);
      PrefixLonger(here, n, item.path);
    } else {
      ItemsAre(c, here, le, item);
      ItemIs(c, here, le, item);
    }
  }

  lemma PrefixLonger(here: string, name: string, path: string)
    requires Prefix(Prefix(here) + name) <= path
    ensures Prefix(here) <= path
  {
    var prefix := Prefix(here);
    assert prefix <= Prefix(prefix + name);
    assert path[..|prefix|] == Prefix(prefix + name)[..|prefix|];
  }

  lemma {:induction false} ItemIs(c: Context, here: string, le: Collation, x: Item)
    requires TotalPreorder(le) && Clean(c) && x in BuildItems(here, c, le)
    ensures here == Dirname(x.path) && Prefix(here) <= x.path
    ensures x.RequestItem? ==> x.path in c.requestPaths && x == ReadRequest(x.path, c.requests[x.path])
    ensures x.Folder? ==> x.path != "" && Populated(c, x.path) && x == FolderOf(c, x.path, le)
  {
    ItemsAre(c, here, le, x);
    hide BuildItems, FolderNames, Tidy, Populated, Dirname, FolderOf;
    if n :| n in FolderNames(Prefix(here), c) && x == FolderAt(here, n, c, le) {
      NamesPopulated(c, here, n);
      FolderAtIs(c, here, n, le);
    } else {
      DirectPlace(here, x.path);
    }
  }

  /** A folder that something lies in or below is found in the folder of its own directory. */
  lemma {:induction false} FolderFound(c: Context, here: string, le: Collation, path: string)
    requires TotalPreorder(le) && Clean(c) && Tidy(path) && Populated(c, path) && Prefix(here) <= path
    ensures Holds(BuildItems(here, c, le), here, Dirname(path), FolderOf(c, path, le))
    decreases Room(here, c)
  {
    var rest := path[|Prefix(here)|..];
    var item := FolderOf(c, path, le);
    RestOf(here, path);
    var name := FirstSegment(rest);
    hide Tidy, BuildItems, Room, FolderNames, FirstSegment, Dirname, Populated, FolderOf, Prefix, Holds;
    if Free(rest, '/') {
      NamesPopulated(c, here, rest);
      FolderAtIs(c, here, rest, le);
      FolderNamesFit(here, c, rest);
      if path !in c.folders {
        PopulatedBelow(c, path);
        PrefixOf(path);
        if p :| p in c.requestPaths && path + "/" <= p {
          RequestFound(c, path, le, p);
          HoldsSome(BuildItems(path, c, le), path, Dirname(p), ReadRequest(p, c.requests[p]));
        } else {
          var d :| d in c.folderPaths && path + "/" <= d;
          BelowNotEmpty(path, d);
          PopulatedIs(c, d);
          FolderFound(c, path, le, d);
          HoldsSome(BuildItems(path, c, le), path, Dirname(d), FolderOf(c, d, le));
        }
      }
      KeptFolder(c, here, rest, le);
    } else {
      UpperName(c, here, path, name);
      FolderNamesFit(here, c, name);
      FolderFound(c, Prefix(here) + name, le, path);
      ChildHolds(c, here, name, le, Dirname(path), item);
    }
  }

  lemma {:induction false} HoldsSome(items: seq<Item>, here: string, dir: string, item: Item)
    requires Holds(items, here, dir, item)
    ensures items != []
  {
  }

  lemma PrefixOf(path: string)
    ensures path != "" ==> Prefix(path) == path + "/"
  {
  }

  lemma BelowNotEmpty(path: string, below: string)
    requires path + "/" <= below
    ensures below != ""
  {
  }

  lemma PopulatedBelow(c: Context, path: string)
    requires Clean(c) && Populated(c, path) && path !in c.folders
    ensures (exists p :: p in c.requestPaths && path + "/" <= p) || (exists d :: d in c.folderPaths && path + "/" <= d)
  {
  }

  lemma {:induction false} KeptFolder(c: Context, here: string, name: string, le: Collation)
    requires TotalPreorder(le) && Clean(c) && name in FolderNames(Prefix(here), c)
    requires Prefix(here) + name in c.folders || BuildItems(Prefix(here) + name, c, le) != []
    ensures Holds(BuildItems(here, c, le), here, here, FolderAt(here, name, c, le))
  {
    var folder := FolderAt(here, name, c, le);
    assert folder.Folder? && folder.children == BuildItems(Prefix(here) + name, c, le) && folder.path == Prefix(here) + name;
    hide BuildItems, FolderNames, FolderItem, Tidy;
    ItemsAre(c, here, le, folder);
  }

  /** Above a populated folder there is a populated folder. */
  lemma UpperName(c: Context, here: string, path: string, name: string)
    requires Clean(c) && Populated(c, path) && Prefix(here) <= path && !Free(path[|Prefix(here)|..], '/')
    requires name == FirstSegment(path[|Prefix(here)|..]) && name != ""
    ensures name in FolderNames(Prefix(here), c) && Prefix(Prefix(here) + name) <= path
  {
    hide FolderNames, Tidy;
    var rest := path[|Prefix(here)|..];
    var upper := Prefix(here) + name;
    assert path == Prefix(here) + rest;
    assert rest[|name|] == '/' && rest[..|name|] == name;
    assert path[..|upper| + 1] == upper + "/";
    NamesPopulated(c, here, name);
    assert upper + "/" <= path;
    hide Free, FirstSegment;
    if p :| p in c.requestPaths && path + "/" <= p {
      StillBelow(upper, path, p);
    } else if d :| d in c.folderPaths && path + "/" <= d {
      StillBelow(upper, path, d);
    }
    assert Populated(c, upper);
  }

  lemma StillBelow(upper: string, path: string, below: string)
    requires upper + "/" <= path
    requires path + "/" <= below
    ensures upper + "/" <= below
  {
    assert below[..|upper| + 1] == (path + "/")[..|upper| + 1] == path[..|upper| + 1];
  }

  // ---- Order ----

  /** No item twice, lower numbers first, equal numbers by name; the same in every folder. */
  ghost predicate InOrder(items: seq<Item>, le: Collation) {
    && Distinct(items) && Ascending(items, le)
    && forall k :: 0 <= k < |items| && items[k].Folder? ==> InOrder(items[k].children, le)
  }

  lemma {:induction false} BuiltInOrder(c: Context, here: string, le: Collation)
    requires TotalPreorder(le) && Clean(c)
    ensures InOrder(BuildItems(here, c, le), le)
    decreases Room(here, c)
  {
    var items := BuildItems(here, c, le);
    BuiltOnce(c, here, le);
    hide BuildItems, FolderNames, Tidy, Direct, Room, Ascending, FolderItem;
    forall k | 0 <= k < |items| && items[k].Folder?
      ensures InOrder(items[k].children, le)
    {
      ItemsAre(c, here, le, items[k]);
      var n :| n in FolderNames(Prefix(here), c) && items[k] == FolderAt(here, n, c, le);
      FolderNamesFit(here, c, n);
      BuiltInOrder(c, Prefix(here) + n, le);
      FolderChildren(c, here, n, le);
    }
  }

  lemma {:induction false} FolderChildren(c: Context, here: string, name: string, le: Collation)
    requires forall p :: p in c.requestPaths ==> p in c.requests
    ensures FolderAt(here, name, c, le).Folder? && FolderAt(here, name, c, le).children == BuildItems(Prefix(here) + name, c, le)
  {
    hide BuildItems;
  }

  lemma {:induction false} BuiltOnce(c: Context, here: string, le: Collation)
    requires TotalPreorder(le) && Clean(c)
    ensures Distinct(BuildItems(here, c, le)) && Ascending(BuildItems(here, c, le), le)
  {
    hide Direct, FolderNames, DirectRequests, BuildFolders, SortBySeqThenName, FolderItem, ReadRequest, Tidy, Kept, Ascending;
    var prefix := Prefix(here);
    var names := FolderNames(prefix, c);
    FolderNamesAre(prefix, c);
    DirectAre(prefix, c.requestPaths, c.requests);
    FoldersAre(here, names, c, le);
    var requests, folders := DirectRequests(prefix, c.requestPaths, c.requests), BuildFolders(here, names, c, le);
    assert forall x :: x in requests ==> x.RequestItem? by { ReadsAreRequests(c); }
    TwoKinds(requests, folders);
    SortAscends(requests + folders, le);
    DistinctPermuted(requests + folders, SortBySeqThenName(requests + folders, le));
  }

  lemma ReadsAreRequests(c: Context)
    ensures forall p :: p in c.requests ==> ReadRequest(p, c.requests[p]).RequestItem?
  {
  }

  lemma TwoKinds(requests: seq<Item>, folders: seq<Item>)
    requires Distinct(requests) && Distinct(folders)
    requires (forall x :: x in requests ==> x.RequestItem?) && forall x :: x in folders ==> x.Folder?
    ensures Distinct(requests + folders)
  {
    var all := requests + folders;
    forall i, j | 0 <= i < j < |all|
      ensures all[i] != all[j]
    {
      assert i < |requests| <= j ==> requests[i] in requests && folders[j - |requests|] in folders;
    }
  }

  // ---- Files ----

  predicate InEnvironments(path: string) {
    StartsWith(path, "environments/")
  }

  /** A file that holds a request: not the root file, not among the environments, no folder file, and with both sections. */
  predicate RequestFile(files: map<string, Doc>, path: string) {
    && path in files && Selected(path) && path != "opencollection.yml" && !InEnvironments(path)
    && Basename(path) != "folder.yml" && files[path].info.Some? && files[path].http.Some?
  }

  predicate FolderFile(files: map<string, Doc>, path: string) {
    path in files && Selected(path) && !InEnvironments(path) && Basename(path) == "folder.yml"
  }

  function RequestOf(path: string, doc: Doc): Item
    requires doc.info.Some? && doc.http.Some?
  {
    var info := doc.info.value;
    RequestItem(match info.name case Some(name) => name case None => Stem(path),
                path, Some(Request(info, doc.http.value, doc.extra)), info.order)
  }

  /** The file gives the environment of this name. */
  predicate Gives(path: string, name: string) {
    InEnvironments(path) && Stem(path) == name
  }

  /** Of the listed files, this is the last one that gives the environment. */
  ghost predicate LastGiving(paths: seq<string>, k: int, name: string) {
    && 0 <= k < |paths| && Gives(paths[k], name)
    && forall j :: k < j < |paths| ==> !Gives(paths[j], name)
  }

  ghost predicate RequestsLoaded(requests: map<string, Request>, files: map<string, Doc>, done: seq<string>) {
    && (forall p :: p in requests <==> p in done && RequestFile(files, p))
    && (forall p :: p in requests ==> ReadRequest(p, requests[p]) == RequestOf(p, files[p]))
  }

  ghost predicate FoldersLoaded(folders: map<string, FolderMeta>, files: map<string, Doc>, done: seq<string>) {
    forall d ::
      && (d in folders <==> FolderPath(d) in done && FolderFile(files, FolderPath(d)))
      && (d in folders ==> folders[d] == FolderMeta(files[FolderPath(d)].name, files[FolderPath(d)].order))
  }

  /** The folder file of a directory. */
  function FolderPath(dir: string): string {
    Prefix(dir) + "folder.yml"
  }

  function EnvironmentOf(name: string, doc: Doc): Environment {
    Environment(name, match doc.variables case Some(v) => v case None => map[])
  }

  ghost predicate NamesLoaded(names: set<string>, done: seq<string>) {
    forall n :: n in names <==> exists p :: p in done && Gives(p, n)
  }

  ghost predicate EnvironmentsLoaded(environments: map<string, Environment>, files: map<string, Doc>, done: seq<string>) {
    forall n, k :: LastGiving(done, k, n) && done[k] in files && n in environments ==>
      environments[n] == EnvironmentOf(n, files[done[k]])
  }

  /** What was loaded comes from these files, and all of it. */
  ghost predicate LoadedAll(st: Loaded, files: map<string, Doc>, done: seq<string>) {
    && RequestsLoaded(st.context.requests, files, done)
    && FoldersLoaded(st.context.folders, files, done)
    && NamesLoaded(st.environments.Keys, done)
    && EnvironmentsLoaded(st.environments, files, done)
  }

  lemma FolderFileIs(path: string)
    requires Tidy(path) && Basename(path) == "folder.yml"
    ensures path == FolderPath(Dirname(path))
  {
    DirAndBase(path);
    BaseFree(path);
    assert path != "" && path[0] != '/';
    hide Dirname, Basename, Tidy;
    if Dirname(path) != "" {
      assert Prefix(Dirname(path)) + "folder.yml" == Dirname(path) + "/" + "folder.yml";
    }
  }

  lemma FolderPathIs(dir: string)
    ensures Basename(FolderPath(dir)) == "folder.yml" && Dirname(FolderPath(dir)) == dir
  {
    BasenameOf(dir, "folder.yml");
  }

  /** Each file is loaded as one of the three kinds, or not at all. */
  lemma LoadEffect(st: Loaded, files: map<string, Doc>, path: string)
    requires path in files && Selected(path)
    ensures
      var t, doc := LoadFile(st, path, files[path]), files[path];
      && t.context.requests == (if RequestFile(files, path)
                                then st.context.requests[path := Request(doc.info.value, doc.http.value, doc.extra)]
                                else st.context.requests)
      && t.context.folders == (if FolderFile(files, path)
                               then st.context.folders[Dirname(path) := FolderMeta(doc.name, doc.order)]
                               else st.context.folders)
      && t.environments == (if InEnvironments(path) then st.environments[Stem(path) := EnvironmentOf(Stem(path), doc)]
                            else st.environments)
  {
    SelectedYml(path);
    RootBase();
    Constants(path);
    hide Basename, Dirname, Stem, Selected, IsYml, InEnvironments, StartsWith;
    LoadKinds(st, path, files[path]);
    hide LoadFile;
  }

  /** What loading a file does, by its kind. */
  lemma LoadKinds(st: Loaded, path: string, doc: Doc)
    requires IsYml(path)
    ensures
      var t, c := LoadFile(st, path, doc), st.context;
      var environment, folder := StartsWith(path, ENVIRONMENTS), Basename(path) == FOLDER_FILE;
      && (path == ROOT_FILE ==> t == st)
      && (path != ROOT_FILE && environment ==>
            t.context == c && t.environments == st.environments[Stem(path) := EnvironmentOf(Stem(path), doc)])
      && (path != ROOT_FILE && !environment ==> t.environments == st.environments)
      && (path != ROOT_FILE && !environment && folder ==>
            t.context.requests == c.requests && t.context.folders == c.folders[Dirname(path) := FolderMeta(doc.name, doc.order)])
      && (path != ROOT_FILE && !environment && !folder ==>
            && t.context.folders == c.folders
            && t.context.requests == (if doc.info.Some? && doc.http.Some?
                                      then c.requests[path := Request(doc.info.value, doc.http.value, doc.extra)] else c.requests))
  {
    hide Basename, Dirname, Stem, IsYml, StartsWith;
  }

  lemma Constants(path: string)
    ensures (path == ROOT_FILE <==> path == "opencollection.yml") && (StartsWith(path, ENVIRONMENTS) <==> InEnvironments(path))
    ensures Basename(path) == FOLDER_FILE <==> Basename(path) == "folder.yml"
  {
    hide Basename, StartsWith;
  }

  lemma RootBase()
    ensures Basename("opencollection.yml") != "folder.yml" && !InEnvironments("opencollection.yml")
  {
    var root := "opencollection.yml";
    assert |root| == 18 && root[0] == 'o' && root[8] == 'e';
    hide Basename, InEnvironments;
    if Basename(root) == "folder.yml" {
      BaseStarts(root, "folder.yml");
    }
    if InEnvironments(root) {
      EnvironmentsStart(root);
    }
  }

  lemma BaseStarts(path: string, name: string)
    requires Basename(path) == name && name != ""
    ensures |name| <= |path| && path[|path| - |name|] == name[0]
  {
  }

  lemma EnvironmentsStart(path: string)
    requires InEnvironments(path)
    ensures path != "" && path[0] == 'e'
  {
    assert "environments/"[0] == 'e';
  }

  lemma MoreRequests(requests: map<string, Request>, files: map<string, Doc>, done: seq<string>, path: string)
    requires RequestsLoaded(requests, files, done) && path in files
    ensures
      var doc := files[path];
      RequestsLoaded(if RequestFile(files, path) then requests[path := Request(doc.info.value, doc.http.value, doc.extra)] else requests,
                     files, done + [path])
  {
    hide RequestFile, Stem;
    assert forall p :: p in done + [path] <==> p in done || p == path;
    assert RequestFile(files, path) ==> files[path].info.Some? && files[path].http.Some? by { BothSections(files, path); }
  }

  lemma BothSections(files: map<string, Doc>, path: string)
    ensures RequestFile(files, path) ==> files[path].info.Some? && files[path].http.Some?
  {
  }

  lemma MoreFolders(folders: map<string, FolderMeta>, files: map<string, Doc>, done: seq<string>, path: string)
    requires FoldersLoaded(folders, files, done) && path in files && Tidy(path)
    ensures FoldersLoaded(if FolderFile(files, path) then folders[Dirname(path) := FolderMeta(files[path].name, files[path].order)]
                          else folders, files, done + [path])
  {
    hide FolderFile, Dirname, Tidy, FolderPath;
    var dir := Dirname(path);
    if FolderFile(files, path) {
      FolderFileBase(files, path);
      FolderFileIs(path);
    }
    forall d
      ensures FolderPath(d) in done + [path] <==> FolderPath(d) in done || FolderPath(d) == path
      ensures FolderPath(d) == path ==> d == dir
    {
      FolderPathIs(d);
    }
  }

  lemma LastMore(done: seq<string>, path: string, k: int, name: string)
    requires LastGiving(done + [path], k, name)
    ensures if Gives(path, name) then k == |done| else 0 <= k < |done| && LastGiving(done, k, name)
    ensures (done + [path])[k] == if k == |done| then path else done[k]
  {
    hide Gives;
    assert (done + [path])[|done|] == path;
    assert forall j :: 0 <= j < |done| ==> (done + [path])[j] == done[j];
  }

  lemma MoreNames(names: set<string>, done: seq<string>, path: string)
    requires NamesLoaded(names, done)
    ensures NamesLoaded(if InEnvironments(path) then names + {Stem(path)} else names, done + [path])
  {
    assert forall n :: Gives(path, n) <==> InEnvironments(path) && Stem(path) == n;
    hide Gives, InEnvironments, Stem;
    forall n
      ensures (exists p :: p in done + [path] && Gives(p, n)) <==> (exists p :: p in done && Gives(p, n)) || Gives(path, n)
    {
      assert path in done + [path];
      if p :| p in done && Gives(p, n) {
        assert p in done + [path];
      }
    }
  }

  lemma MoreEnvironments(environments: map<string, Environment>, files: map<string, Doc>, done: seq<string>, path: string)
    requires EnvironmentsLoaded(environments, files, done) && path in files
    ensures EnvironmentsLoaded(if InEnvironments(path) then environments[Stem(path) := EnvironmentOf(Stem(path), files[path])]
                               else environments, files, done + [path])
  {
    forall n, k | LastGiving(done + [path], k, n)
      ensures if Gives(path, n) then k == |done| else 0 <= k < |done| && LastGiving(done, k, n)
      ensures (done + [path])[k] == if k == |done| then path else done[k]
    {
      LastMore(done, path, k, n);
    }
    assert forall n :: Gives(path, n) <==> InEnvironments(path) && Stem(path) == n;
    hide Gives, InEnvironments, Stem, LastGiving, EnvironmentOf;
  }

  lemma LoadOne(st: Loaded, files: map<string, Doc>, done: seq<string>, path: string)
    requires LoadedAll(st, files, done) && path in files && Selected(path) && Tidy(path)
    ensures LoadedAll(LoadFile(st, path, files[path]), files, done + [path])
  {
    hide RequestsLoaded, FoldersLoaded, NamesLoaded, EnvironmentsLoaded;
    hide RequestFile, FolderFile, LoadFile, Dirname, Stem, Selected, Tidy, InEnvironments, EnvironmentOf;
    LoadEffect(st, files, path);
    MoreRequests(st.context.requests, files, done, path);
    MoreFolders(st.context.folders, files, done, path);
    MoreNames(st.environments.Keys, done, path);
    MoreEnvironments(st.environments, files, done, path);
    KeyAdded(st.environments, Stem(path), EnvironmentOf(Stem(path), files[path]));
  }

  lemma KeyAdded(m: map<string, Environment>, key: string, value: Environment)
    ensures m[key := value].Keys == m.Keys + {key}
  {
  }

  /** The whole listing is loaded. */
  lemma {:induction false} LoadsAll(st: Loaded, files: map<string, Doc>, done: seq<string>, paths: seq<string>)
    requires LoadedAll(st, files, done) && forall p :: p in paths ==> p in files && Selected(p) && Tidy(p)
    ensures LoadedAll(LoadFiles(st, paths, files), files, done + paths)
    decreases paths
  {
    hide LoadedAll, LoadFile, Selected, Tidy;
    if paths == [] {
      assert done + paths == done;
    } else {
      LoadOne(st, files, done, paths[0]);
      LoadsAll(LoadFile(st, paths[0], files[paths[0]]), files, done + [paths[0]], paths[1..]);
      assert done + [paths[0]] + paths[1..] == done + paths;
    }
  }

  lemma NothingLoaded(files: map<string, Doc>)
    ensures LoadedAll(EMPTY, files, [])
  {
  }

  // ---- Reading ----

  /** A directory with a root file, and the listing of its files. */
  ghost predicate Listing(files: map<string, Doc>, paths: seq<string>) {
    "opencollection.yml" in files && Lists(paths, files) && forall p :: p in paths ==> Tidy(p)
  }

  /** A request or folder file lies in this directory, or below. */
  ghost predicate InUse(files: map<string, Doc>, dir: string) {
    exists p :: (RequestFile(files, p) || FolderFile(files, p)) && dir + "/" <= p
  }

  function ItemsOf(files: map<string, Doc>, paths: seq<string>, le: Collation): seq<Item>
    requires forall p :: p in paths ==> p in files
    requires "opencollection.yml" in files
  {
    Read("", files, paths, le).value.items
  }

  /** What the reader builds from, and what that is made of. */
  lemma Loads(files: map<string, Doc>, paths: seq<string>, le: Collation) returns (c: Context)
    requires Listing(files, paths)
    ensures Clean(c) && ItemsOf(files, paths, le) == BuildItems("", c, le)
    ensures RequestsLoaded(c.requests, files, paths) && FoldersLoaded(c.folders, files, paths)
  {
    NothingLoaded(files);
    LoadsAll(EMPTY, files, [], paths);
    assert [] + paths == paths;
    LoadFilesKeys(EMPTY, paths, files);
    c := LoadFiles(EMPTY, paths, files).context;
    hide LoadFiles, BuildItems, RequestFile, FolderFile, Tidy, Selected;
    forall d | d in c.folderPaths
      ensures d == "" || Tidy(d)
    {
      TidyAbove(d);
    }
  }

  lemma TidyAbove(dir: string)
    requires Tidy(FolderPath(dir))
    ensures dir == "" || Tidy(dir)
  {
    var path := FolderPath(dir);
    if dir != "" {
      assert forall k :: 0 <= k < |dir| ==> path[k] == dir[k];
      assert path[|dir|] == '/';
    }
  }

  /**
   * The requests of the tree are exactly the request files, each with the name and number that it gives, or
   * that of its file, and each in the folder of its own directory.
   */
  lemma {:induction false} RequestsExact(files: map<string, Doc>, paths: seq<string>, le: Collation, dir: string, item: Item)
    requires TotalPreorder(le) && Listing(files, paths) && item.RequestItem?
    ensures Holds(ItemsOf(files, paths, le), "", dir, item) <==>
            RequestFile(files, item.path) && dir == Dirname(item.path) && item == RequestOf(item.path, files[item.path])
  {
    var c := Loads(files, paths, le);
    InListing(files, paths, item.path);
    hide BuildItems, RequestFile, Dirname, Holds, ReadRequest, RequestOf, Tidy, ItemsOf;
    if Holds(BuildItems("", c, le), "", dir, item) {
      HeldIs(c, "", le, dir, item);
    }
    if RequestFile(files, item.path) {
      RequestFound(c, "", le, item.path);
    }
  }

  lemma InListing(files: map<string, Doc>, paths: seq<string>, path: string)
    requires Lists(paths, files)
    ensures RequestFile(files, path) || FolderFile(files, path) ==> path in paths
  {
  }

  /** A loaded context has something in a directory exactly if a request or folder file lies in it or below. */
  lemma UsedPopulated(files: map<string, Doc>, paths: seq<string>, c: Context, dir: string)
    requires Listing(files, paths) && Clean(c) && dir != ""
    requires RequestsLoaded(c.requests, files, paths) && FoldersLoaded(c.folders, files, paths)
    ensures Populated(c, dir) <==> InUse(files, dir)
  {
    hide RequestFile, FolderFile, Tidy, Selected, FolderPath;
    forall p
      ensures RequestFile(files, p) || FolderFile(files, p) ==> p in paths && Tidy(p)
    {
      InListing(files, paths, p);
    }
    if d :| d in c.folderPaths && (d == dir || dir + "/" <= d) {
      BelowFolder(dir, d);
      assert FolderFile(files, FolderPath(d));
    }
    if p :| FolderFile(files, p) && dir + "/" <= p {
      FolderFileBase(files, p);
      FolderFileIs(p);
      AboveFolder(dir, Dirname(p));
      PopulatedIs(c, dir);
    }
  }

  lemma FolderFileBase(files: map<string, Doc>, path: string)
    requires FolderFile(files, path)
    ensures Basename(path) == "folder.yml"
  {
  }

  lemma BelowFolder(dir: string, d: string)
    requires dir != "" && (d == dir || dir + "/" <= d)
    ensures dir + "/" <= FolderPath(d)
  {
    assert FolderPath(d) == d + "/" + "folder.yml";
    assert (d + "/" + "folder.yml")[..|d| + 1] == d + "/";
    if d != dir {
      StillBelow(dir, d, FolderPath(d));
    }
  }

  lemma AboveFolder(dir: string, d: string)
    requires dir != "" && dir + "/" <= FolderPath(d)
    ensures d == dir || dir + "/" <= d
  {
    var path := FolderPath(d);
    assert path[|dir|] == '/' && path[..|dir|] == dir && path[..|dir| + 1] == dir + "/";
    assert Free("folder.yml", '/') && (d == "" ==> path == "folder.yml");
    if d != "" {
      assert path[|d|] == '/' && forall k :: |d| < k < |path| ==> path[k] == "folder.yml"[k - |d| - 1];
      assert |dir| <= |d|;
      assert path[..|d|] == d;
      if |dir| < |d| {
        assert d[..|dir| + 1] == path[..|dir| + 1];
      }
    }
  }

  /** The name and number of a folder: those of its folder file, else its own name and none. */
  predicate NamedAs(files: map<string, Doc>, item: Item) {
    var file := FolderPath(item.path);
    && item.name == (if FolderFile(files, file) && files[file].name.Some? then files[file].name.value else Basename(item.path))
    && item.order == if FolderFile(files, file) then files[file].order else None
  }

  /** Every folder of the tree is one in use, lies in the folder of its own directory, and is named by its folder file. */
  lemma {:induction false} FoldersExact(files: map<string, Doc>, paths: seq<string>, le: Collation, dir: string, item: Item)
    requires TotalPreorder(le) && Listing(files, paths)
    requires item.Folder? && Holds(ItemsOf(files, paths, le), "", dir, item)
    ensures dir == Dirname(item.path) && InUse(files, item.path) && NamedAs(files, item)
  {
    var c := Loads(files, paths, le);
    HeldIs(c, "", le, dir, item);
    UsedPopulated(files, paths, c, item.path);
    UsedStart(files, paths, item.path);
    FolderOfNamed(files, paths, c, item.path, le);
    hide BuildItems, Holds, ItemsOf, FolderOf, NamedAs;
  }

  lemma UsedStart(files: map<string, Doc>, paths: seq<string>, dir: string)
    requires Listing(files, paths) && InUse(files, dir) && dir != ""
    ensures dir[0] != '/'
  {
    hide RequestFile, FolderFile, Selected;
    var p :| (RequestFile(files, p) || FolderFile(files, p)) && dir + "/" <= p;
    InListing(files, paths, p);
    assert Tidy(p) && p[0] == (dir + "/")[0];
  }

  lemma FolderOfNamed(files: map<string, Doc>, paths: seq<string>, c: Context, path: string, le: Collation)
    requires Listing(files, paths) && Clean(c) && FoldersLoaded(c.folders, files, paths)
    requires path != "" && path[0] != '/'
    ensures FolderOf(c, path, le).Folder? && FolderOf(c, path, le).path == path && NamedAs(files, FolderOf(c, path, le))
  {
    DirAndBase(path);
    BaseFree(path);
    hide BuildItems, Basename, Dirname, RequestFile, FolderFile, Tidy, FolderPath, Selected;
    InListing(files, paths, FolderPath(path));
  }

  /** Every directory in use is a folder of the tree. */
  lemma FoldersThere(files: map<string, Doc>, paths: seq<string>, le: Collation, path: string)
    requires TotalPreorder(le) && Listing(files, paths) && Tidy(path) && InUse(files, path)
    ensures exists item: Item :: item.Folder? && item.path == path && Holds(ItemsOf(files, paths, le), "", Dirname(path), item)
  {
    var c := Loads(files, paths, le);
    UsedPopulated(files, paths, c, path);
    FolderFound(c, "", le, path);
    FolderOfNamed(files, paths, c, path, le);
    hide BuildItems, Holds, ItemsOf, FolderOf, NamedAs;
  }

  /** The rest of the collection: what the root file says, the order of the items, and the environments. */
  lemma RootExact(rootDir: string, files: map<string, Doc>, paths: seq<string>, le: Collation)
    requires TotalPreorder(le) && Listing(files, paths)
    ensures
      var root := files["opencollection.yml"];
      var r := Read(rootDir, files, paths, le);
      && r.Some? && r.value.items == ItemsOf(files, paths, le) && InOrder(r.value.items, le) && r.value.rootDir == rootDir
      && r.value.info == CollectionInfo(match root.name case Some(name) => name case None => "Collection",
                                        root.description, root.version, Some("collection"))
      && NamesLoaded(r.value.environments.Keys, paths) && EnvironmentsLoaded(r.value.environments, files, paths)
  {
    NothingLoaded(files);
    LoadsAll(EMPTY, files, [], paths);
    assert [] + paths == paths;
    var c := Loads(files, paths, le);
    BuiltInOrder(c, "", le);
    hide LoadFiles, BuildItems, NamesLoaded, EnvironmentsLoaded, RequestsLoaded, FoldersLoaded, InOrder;
  }
}
