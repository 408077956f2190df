/** Reading a collection from a directory: apifn/collections/src/reader.ts. */
module CollectionReader {
  import opened Sorting
  import opened Text
  import opened Collections
  import opened CollectionPaths

  datatype FolderMeta = FolderMeta(name: Option<string>, order: Option<real>)

  /** Request files and folder files by path, with the paths in the order of insertion. */
  datatype Context = Context(
    requestPaths: seq<string>, requests: map<string, Request>,
    folderPaths: seq<string>, folders: map<string, FolderMeta>)

  ghost predicate Consistent(c: Context) {
    && (forall p :: p in c.requestPaths <==> p in c.requests)
    && (forall p :: p in c.folderPaths <==> p in c.folders)
    && Distinct(c.requestPaths)
  }

  // ---- Building the items of one directory ----

  function ReadRequest(path: string, request: Request): Item {
    RequestItem(if request.info.name.Some? then request.info.name.value else Stem(path),
                path, Some(request), request.info.order)
  }

  /** A file directly in the directory with this prefix. */
  predicate Direct(prefix: string, path: string) {
    prefix <= path && Free(path[|prefix|..], '/')
  }

  function DirectRequests(prefix: string, paths: seq<string>, requests: map<string, Request>): seq<Item>
    requires forall p :: p in paths ==> p in requests
  {
    if paths == [] then []
    else
      var rest := DirectRequests(prefix, paths[1..], requests);
      if Direct(prefix, paths[0]) then [ReadRequest(paths[0], requests[paths[0]])] + rest else rest
  }

  /** The child folder that a path below the prefix belongs to; a request file itself is no folder. */
  predicate Names(prefix: string, path: string, isFolder: bool, name: string) {
    && prefix <= path && name != "" && name == FirstSegment(path[|prefix|..])
    && (isFolder || !Free(path[|prefix|..], '/'))
  }

  function AddName(names: seq<string>, prefix: string, path: string, isFolder: bool): seq<string> {
    if prefix <= path then
      var first := FirstSegment(path[|prefix|..]);
      if Names(prefix, path, isFolder, first) && first !in names then names + [first] else names
    else names
  }

  function AddNames(names: seq<string>, prefix: string, paths: seq<string>, isFolder: bool): seq<string>
    decreases paths
  {
    if paths == [] then names
    else AddNames(AddName(names, prefix, paths[0], isFolder), prefix, paths[1..], isFolder)
  }

  /** The folder names of the directory, each once. */
  function FolderNames(prefix: string, c: Context): seq<string> {
    AddNames(AddNames([], prefix, c.requestPaths, false), prefix, c.folderPaths, true)
  }

  lemma {:induction false} AddNamesAdds(names: seq<string>, prefix: string, paths: seq<string>, isFolder: bool)
    requires Distinct(names)
    ensures var r := AddNames(names, prefix, paths, isFolder);
            && Distinct(r)
            && forall n :: n in r <==> n in names || exists p :: p in paths && Names(prefix, p, isFolder, n)
    decreases paths
  {
    if paths != [] {
      var more := AddName(names, prefix, paths[0], isFolder);
      AddNamesAdds(more, prefix, paths[1..], isFolder);
      assert paths == [paths[0]] + paths[1..];
      forall n
        ensures n in AddNames(names, prefix, paths, isFolder) <==>
                n in names || exists p :: p in paths && Names(prefix, p, isFolder, n)
      {
        assert n in more <==> n in names || Names(prefix, paths[0], isFolder, n);
      }
    }
  }

  lemma FolderNamesAre(prefix: string, c: Context)
    ensures Distinct(FolderNames(prefix, c))
    ensures forall n :: n in FolderNames(prefix, c) <==>
                        || (exists p :: p in c.requestPaths && Names(prefix, p, false, n))
                        || (exists p :: p in c.folderPaths && Names(prefix, p, true, n))
  {
    AddNamesAdds([], prefix, c.requestPaths, false);
    AddNamesAdds(AddNames([], prefix, c.requestPaths, false), prefix, c.folderPaths, true);
  }

  function Longest(paths: seq<string>): (n: nat)
    ensures forall p :: p in paths ==> |p| <= n
  {
    if paths == [] then 0
    else
      var n := Longest(paths[1..]);
      if |paths[0]| > n then |paths[0]| else n
  }

  /** How much longer than `dir` a path can be: what bounds the recursion. */
  function Room(dir: string, c: Context): int {
    var a, b := Longest(c.requestPaths), Longest(c.folderPaths);
    (if a > b then a else b) - |dir|
  }

  /** The recursion descends only along prefixes of known paths. */
  lemma FolderNamesFit(dir: string, c: Context, name: string)
    requires name in FolderNames(Prefix(dir), c)
    ensures 0 <= Room(Prefix(dir) + name, c) < Room(dir, c)
  {
    FolderNamesAre(Prefix(dir), c);
    var prefix := Prefix(dir);
    if p :| p in c.requestPaths && Names(prefix, p, false, name) {
      assert |prefix + name| <= |p|;
    } else {
      var p :| p in c.folderPaths && Names(prefix, p, true, name);
      assert |prefix + name| <= |p|;
    }
  }

  function FolderItem(dir: string, name: string, children: seq<Item>, c: Context): Item {
    var path := Prefix(dir) + name;
    var meta := if path in c.folders then c.folders[path] else FolderMeta(None, None);
    Folder(if meta.name.Some? then meta.name.value else name, path, children, meta.order)
  }

  /** Folders without children and without a folder file are dropped. */
  predicate Kept(folder: Item, c: Context)
    requires folder.Folder?
  {
    folder.children != [] || folder.path in c.folders
  }

  function BuildItems(dir: string, c: Context, le: Collation): seq<Item>
    requires forall p :: p in c.requestPaths ==> p in c.requests
    decreases Room(dir, c), 1, 0
  {
    var prefix := Prefix(dir);
    SortBySeqThenName(DirectRequests(prefix, c.requestPaths, c.requests)
                      + BuildFolders(dir, FolderNames(prefix, c), c, le), le)
  }

  function BuildFolders(dir: string, names: seq<string>, c: Context, le: Collation): seq<Item>
    requires forall p :: p in c.requestPaths ==> p in c.requests
    requires forall n :: n in names ==> n in FolderNames(Prefix(dir), c)
    decreases Room(dir, c), 0, |names|
  {
    if names == [] then []
    else
      FolderNamesFit(dir, c, names[0]);
      var folder := FolderItem(dir, names[0], BuildItems(Prefix(dir) + names[0], c, le), c);
      var rest := BuildFolders(dir, names[1..], c, le);
      if Kept(folder, c) then [folder] + rest else rest
  }

  lemma {:induction false} BuildFoldersSplit(dir: string, names: seq<string>, last: string, c: Context, le: Collation)
    requires forall p :: p in c.requestPaths ==> p in c.requests
    requires forall n :: n in names ==> n in FolderNames(Prefix(dir), c)
    requires last in FolderNames(Prefix(dir), c)
    ensures var folder := FolderItem(dir, last, BuildItems(Prefix(dir) + last, c, le), c);
            BuildFolders(dir, names + [last], c, le) ==
            BuildFolders(dir, names, c, le) + if Kept(folder, c) then [folder] else []
  {
    hide FolderNames, BuildItems;
    if names == [] {
      assert names + [last] == [last] && [last][1..] == [];
    } else {
      BuildFoldersSplit(dir, names[1..], last, c, le);
      assert (names + [last])[1..] == names[1..] + [last];
    }
  }

  lemma {:induction false} NoFolders(dir: string, c: Context, le: Collation)
    requires forall p :: p in c.requestPaths ==> p in c.requests
    ensures BuildFolders(dir, [], c, le) == []
  {
  }

  /** The recursive method, with the loops that collect the folder names. */
  method BuildFolderItems(dir: string, c: Context, le: Collation) returns (items: seq<Item>)
    requires forall p :: p in c.requestPaths ==> p in c.requests
    ensures items == BuildItems(dir, c, le)
    decreases Room(dir, c)
  {
    hide Names, Longest, AddName, DirectRequests, SortBySeqThenName, Kept, Free, BuildFolders, FirstSegment;
    var prefix := Prefix(dir);
    var directRequests := DirectRequests(prefix, c.requestPaths, c.requests);
    var names := [];
    for i := 0 to |c.requestPaths|
      invariant AddNames([], prefix, c.requestPaths, false) == AddNames(names, prefix, c.requestPaths[i..], false)
    {
      names := AddName(names, prefix, c.requestPaths[i], false);
      assert c.requestPaths[i..][1..] == c.requestPaths[i + 1..];
    }
    ghost var start := names;
    for i := 0 to |c.folderPaths|
      invariant AddNames(start, prefix, c.folderPaths, true) == AddNames(names, prefix, c.folderPaths[i..], true)
    {
      names := AddName(names, prefix, c.folderPaths[i], true);
      assert c.folderPaths[i..][1..] == c.folderPaths[i + 1..];
    }
    assert names == FolderNames(prefix, c);
    hide AddNames, FolderNames;
    var folders := [];
    NoFolders(dir, c, le);
    for i := 0 to |names|
      invariant folders == BuildFolders(dir, names[..i], c, le)
    {
      FolderNamesFit(dir, c, names[i]);
      var children := BuildFolderItems(prefix + names[i], c, le);
      var folder := FolderItem(dir, names[i], children, c);
      BuildFoldersSplit(dir, names[..i], names[i], c, le);
      assert names[..i + 1] == names[..i] + [names[i]];
      if Kept(folder, c) {
        folders := folders + [folder];
      }
    }
    assert names[..|names|] == names;
    items := SortBySeqThenName(directRequests + folders, le);
  }

  // ---- Sorting the files of the directory by kind ----

  datatype Loaded = Loaded(context: Context, environments: map<string, Environment>)

  const EMPTY := Loaded(Context([], map[], [], map[]), map[])

  const ROOT_FILE := "opencollection.yml"
  const FOLDER_FILE := "folder.yml"
  const ENVIRONMENTS := "environments/"

  function Put<T(==)>(keys: seq<T>, key: T): seq<T> {
    if key in keys then keys else keys + [key]
  }

  /** What one file contributes. */
  function LoadFile(st: Loaded, path: string, doc: Doc): Loaded {
    var c := st.context;
    if path == ROOT_FILE then st
    else if StartsWith(path, ENVIRONMENTS) && IsYml(path) then
      var name := Stem(path);
      var variables := if doc.variables.Some? then doc.variables.value else map[];
      st.(environments := st.environments[name := Environment(name, variables)])
    else if Basename(path) == FOLDER_FILE then
      var dir := Dirname(path);
      st.(context := c.(folderPaths := Put(c.folderPaths, dir),
                        folders := c.folders[dir := FolderMeta(doc.name, doc.order)]))
    else if doc.info.Some? && doc.http.Some? then
      st.(context := c.(requestPaths := Put(c.requestPaths, path),
                        requests := c.requests[path := Request(doc.info.value, doc.http.value, doc.extra)]))
    else st
  }

  function LoadFiles(st: Loaded, paths: seq<string>, files: map<string, Doc>): Loaded
    requires forall p :: p in paths ==> p in files
    decreases paths
  {
    if paths == [] then st else LoadFiles(LoadFile(st, paths[0], files[paths[0]]), paths[1..], files)
  }

  lemma {:induction false} LoadFilesKeys(st: Loaded, paths: seq<string>, files: map<string, Doc>)
    requires forall p :: p in paths ==> p in files
    requires Consistent(st.context)
    ensures Consistent(LoadFiles(st, paths, files).context)
    decreases paths
  {
    if paths != [] {
      LoadFilesKeys(LoadFile(st, paths[0], files[paths[0]]), paths[1..], files);
    }
  }

  function ReadInfo(doc: Doc): CollectionInfo {
    CollectionInfo(if doc.name.Some? then doc.name.value else "Collection", doc.description, doc.version,
                   Some("collection"))
  }

  /** `paths` lists the files that the pattern selects, each once, in the order of the file system. */
  ghost predicate Lists(paths: seq<string>, files: map<string, Doc>) {
    Distinct(paths) && forall p :: p in paths <==> p in files && Selected(p)
  }

  /** The collection that is read, or none without a root file. */
  function Read(rootDir: string, files: map<string, Doc>, paths: seq<string>, le: Collation): Option<Collection>
    requires forall p :: p in paths ==> p in files
  {
    if ROOT_FILE !in files then None
    else
      LoadFilesKeys(EMPTY, paths, files);
      var loaded := LoadFiles(EMPTY, paths, files);
      Some(Collection(ReadInfo(files[ROOT_FILE]), loaded.environments, BuildItems("", loaded.context, le), rootDir))
  }

  /** The reader's loop over the files, followed by the recursive build. */
  method ReadCollection(rootDir: string, files: map<string, Doc>, paths: seq<string>, le: Collation)
    returns (r: Option<Collection>)
    requires forall p :: p in paths ==> p in files
    ensures r == Read(rootDir, files, paths, le)
  {
    hide LoadFile, BuildItems;
    if ROOT_FILE !in files {
      return None;
    }
    LoadFilesKeys(EMPTY, paths, files);
    var loaded := EMPTY;
    for i := 0 to |paths|
      invariant LoadFiles(EMPTY, paths, files) == LoadFiles(loaded, paths[i..], files)
    {
      loaded := LoadFile(loaded, paths[i], files[paths[i]]);
      assert paths[i..][1..] == paths[i + 1..];
    }
    var items := BuildFolderItems("", loaded.context, le);
    return Some(Collection(ReadInfo(files[ROOT_FILE]), loaded.environments, items, rootDir));
  }
}
