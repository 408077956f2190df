/** The other way round: collections that were read can be written and read again. */
module CollectionReread {
  import opened Sorting
  import opened Text
  import opened Collections
  import opened CollectionPaths
  import opened CollectionWriter
  import opened CollectionReader
  import opened CollectionEntries
  import opened CollectionRebuild
  import opened CollectionRoundTrip

  // ---- Collections that were read ----

  /** Paths that a directory of plainly named files can hold; no file is also a directory. */
  ghost predicate Sound(c: Context) {
    && (forall p :: p in c.requestPaths ==> p in c.requests && Readable(p, File(c.requests[p])))
    && (forall f :: f in c.folderPaths ==> Place(f))
    && (forall p, q :: p in c.requestPaths && (q in c.requestPaths || q in c.folderPaths) ==> !(p + "/" <= q))
    && (forall p :: p in c.requestPaths ==> p !in c.folderPaths)
  }

  /** No two siblings compare as equal. */
  ghost predicate Untied(items: seq<Item>, le: Collation) {
    && StrictlyAscending(items, le)
    && forall item :: item in items && item.Folder? ==> Untied(item.children, le)
  }

  /** The first segment of what a good path adds to a directory is a good segment. */
  lemma HeadGood(dir: string, path: string)
    requires Prefix(dir) <= path && GoodPath(path) && FirstSegment(path[|Prefix(dir)|..]) != ""
    ensures GoodSegment(FirstSegment(path[|Prefix(dir)|..]))
  {
    var rest := path[|Prefix(dir)|..];
    var name := FirstSegment(rest);
    assert forall k :: 0 <= k < |name| ==> path[|Prefix(dir)| + k] == rest[k] == name[k];
    assert dir != "" ==> path[|Prefix(dir)| - 1] == '/';
    assert name[0] == path[|Prefix(dir)|];
  }

  lemma BelowOther(dir: string, name: string)
    requires dir != "" && FirstSegment(dir) != "environments"
    ensures Prefix(dir) + name != "environments"
  {
    FirstSegmentIs(Prefix(dir) + name, FirstSegment(dir));
    FirstSegmentIs("environments", "environments");
  }

  lemma HeadPlace(dir: string, path: string, name: string)
    requires Place(dir) && Prefix(dir) <= path && path != "" && Place(path)
    requires name == FirstSegment(path[|Prefix(dir)|..]) && name != ""
    ensures GoodSegment(name) && Place(Prefix(dir) + name) && Prefix(dir) + name != "environments"
  {
    hide GoodPath, GoodSegment;
    HeadGood(dir, path);
    if dir == "" {
      assert path[|Prefix(dir)|..] == path;
      assert Prefix(dir) + name == name;
    } else {
      BelowOther(dir, name);
    }
    PlaceChild(dir, name);
  }

  lemma {:induction false} DirectWellFormed(c: Context, dir: string, le: Collation, path: string)
    requires Sound(c) && path in c.requestPaths && path in c.requests && Direct(Prefix(dir), path)
    ensures WellFormedItem(ReadRequest(path, c.requests[path]), dir, le)
  {
    hide Stem, Basename, IsYml;
    var name := path[|Prefix(dir)|..];
    assert Readable(path, File(c.requests[path]));
    assert name == "" ==> path == Prefix(dir);
    FirstSegmentIs(name, name);
    HeadGood(dir, path);
  }

  /** The known path that a folder name comes from. */
  lemma NameSource(c: Context, dir: string, name: string) returns (path: string)
    requires Consistent(c) && Sound(c) && name in FolderNames(Prefix(dir), c)
    ensures Prefix(dir) <= path && name != "" && name == FirstSegment(path[|Prefix(dir)|..])
    ensures path != "" && Place(path)
    ensures path in c.folderPaths || (path in c.requestPaths && Prefix(dir) + name + "/" <= path)
  {
    hide FolderNames, Place, Readable, Names, FirstSegment;
    FolderNamesAre(Prefix(dir), c);
    NamesFirst(Prefix(dir), name);
    if p :| p in c.requestPaths && Names(Prefix(dir), p, false, name) {
      path := p;
      assert Readable(p, File(c.requests[p]));
      ReadablePlace(p, File(c.requests[p]));
      DeeperName(dir, path, name);
    } else {
      path :| path in c.folderPaths && Names(Prefix(dir), path, true, name);
    }
  }

  lemma NamesFirst(prefix: string, name: string)
    ensures forall p, isFolder :: Names(prefix, p, isFolder, name) ==>
              prefix <= p && name != "" && name == FirstSegment(p[|prefix|..])
  {
  }

  lemma DeeperName(dir: string, path: string, name: string)
    requires Names(Prefix(dir), path, false, name)
    ensures Prefix(dir) + name + "/" <= path
  {
    var rest := path[|Prefix(dir)|..];
    assert rest != name && rest[|name|] == '/';
    assert path == Prefix(dir) + rest;
  }

  lemma ReadablePlace(path: string, entry: Entry)
    requires Readable(path, entry)
    ensures path != "" && Place(path)
  {
  }

  lemma {:induction false} FolderShape(c: Context, dir: string, le: Collation, name: string)
    requires Consistent(c) && Sound(c) && Place(dir) && name in FolderNames(Prefix(dir), c)
    ensures var folder := FolderAt(dir, name, c, le);
            && folder.Folder? && folder.path == Prefix(dir) + name
            && folder.children == BuildItems(Prefix(dir) + name, c, le)
    ensures GoodSegment(name) && Place(Prefix(dir) + name) && Prefix(dir) + name != "environments"
  {
    hide Sound, Place, GoodSegment, FolderNames, BuildItems;
    var path := NameSource(c, dir, name);
    HeadPlace(dir, path, name);
  }

  lemma {:induction false} FolderWellFormed(c: Context, dir: string, le: Collation, name: string)
    requires Consistent(c) && Sound(c) && Place(dir) && name in FolderNames(Prefix(dir), c)
    requires WellFormedItems(BuildItems(Prefix(dir) + name, c, le), Prefix(dir) + name, le)
    ensures WellFormedItem(FolderAt(dir, name, c, le), dir, le)
  {
    hide Sound, Place, GoodSegment, FolderNames, BuildItems, WellFormedItems, FolderItem;
    FolderShape(c, dir, le, name);
    assert (Prefix(dir) + name)[|Prefix(dir)|..] == name;
  }

  /** No folder has the path of a request file. */
  lemma NoClash(c: Context, dir: string, path: string, name: string)
    requires Consistent(c) && Sound(c) && name in FolderNames(Prefix(dir), c) && path in c.requestPaths
    ensures path != Prefix(dir) + name
  {
    hide Place, Readable, FolderNames;
    var source := NameSource(c, dir, name);
    var rest := source[|Prefix(dir)|..];
    assert source == Prefix(dir) + rest;
    if rest != name {
      assert rest[|name|] == '/';
      assert Prefix(dir) + name + "/" <= source;
    }
  }

  lemma SortMembers(s: seq<Item>, le: Collation)
    requires TotalPreorder(le)
    ensures forall x :: x in SortBySeqThenName(s, le) <==> x in s
  {
    SortAscends(s, le);
    forall x: Item
      ensures x in SortBySeqThenName(s, le) <==> x in s
    {
      assert x in multiset(s) <==> x in multiset(SortBySeqThenName(s, le));
    }
  }

  /** The members of a built list, and the paths that tell them apart. */
  ghost predicate BuiltItem(c: Context, dir: string, le: Collation, x: Item)
    requires forall p :: p in c.requestPaths ==> p in c.requests
  {
    || (x.path in c.requestPaths && Direct(Prefix(dir), x.path) && x == ReadRequest(x.path, c.requests[x.path]))
    || (exists n :: n in FolderNames(Prefix(dir), c) && x == FolderAt(dir, n, c, le))
  }

  lemma {:induction false} BuiltItems(c: Context, dir: string, le: Collation)
    requires TotalPreorder(le) && Consistent(c)
    ensures forall x :: x in BuildItems(dir, c, le) ==> BuiltItem(c, dir, le, x)
  {
    hide Direct, FolderNames, DirectRequests, BuildFolders, SortBySeqThenName, FolderItem, ReadRequest;
    var prefix := Prefix(dir);
    var names := FolderNames(prefix, c);
    FolderNamesAre(prefix, c);
    DirectAre(prefix, c.requestPaths, c.requests);
    FoldersAre(dir, names, c, le);
    SortMembers(DirectRequests(prefix, c.requestPaths, c.requests) + BuildFolders(dir, names, c, le), le);
  }

  lemma SamePathSameItem(c: Context, dir: string, le: Collation, x: Item, y: Item)
    requires Consistent(c) && Sound(c) && Place(dir)
    requires BuiltItem(c, dir, le, x) && BuiltItem(c, dir, le, y) && x.path == y.path
    ensures x == y
  {
    hide Sound, Place, Direct, FolderNames, BuildItems, FolderItem;
    if n :| n in FolderNames(Prefix(dir), c) && x == FolderAt(dir, n, c, le) {
      FolderShape(c, dir, le, n);
      if m :| m in FolderNames(Prefix(dir), c) && y == FolderAt(dir, m, c, le) {
        FolderShape(c, dir, le, m);
        assert (Prefix(dir) + n)[|Prefix(dir)|..] == n && (Prefix(dir) + m)[|Prefix(dir)|..] == m;
      } else {
        NoClash(c, dir, y.path, n);
      }
    } else if m :| m in FolderNames(Prefix(dir), c) && y == FolderAt(dir, m, c, le) {
      FolderShape(c, dir, le, m);
      NoClash(c, dir, x.path, m);
    }
  }

  /** Reading yields well-formed items, as long as no siblings tie. */
  lemma {:induction false} BuildWellFormed(c: Context, dir: string, le: Collation)
    requires TotalPreorder(le) && Consistent(c) && Sound(c) && Place(dir) && Untied(BuildItems(dir, c, le), le)
    ensures WellFormedItems(BuildItems(dir, c, le), dir, le)
    decreases Room(dir, c)
  {
    hide Sound, Less, Leq, Direct, Room, Place, BuildItems, WellFormedItem, FolderNames, FolderItem, ReadRequest, TotalPreorder;
    var items := BuildItems(dir, c, le);
    BuiltItems(c, dir, le);
    forall x | x in items
      ensures WellFormedItem(x, dir, le)
    {
      if n :| n in FolderNames(Prefix(dir), c) && x == FolderAt(dir, n, c, le) {
        FolderNamesFit(dir, c, n);
        FolderShape(c, dir, le, n);
        BuildWellFormed(c, Prefix(dir) + n, le);
        FolderWellFormed(c, dir, le, n);
      } else {
        DirectWellFormed(c, dir, le, x.path);
      }
    }
    forall i, j | 0 <= i < j < |items|
      ensures items[i].path != items[j].path
    {
      NotSelfLess(items[i], le);
      if items[i].path == items[j].path {
        SamePathSameItem(c, dir, le, items[i], items[j]);
      }
    }
  }

  lemma NotSelfLess(x: Item, le: Collation)
    requires TotalPreorder(le)
    ensures !Less(x, x, le)
  {
  }

  /** A directory with plain file names, none of them also a directory, and safe environment names. */
  ghost predicate PlainDirectory(files: Files) {
    && ROOT_FILE in files
    && files[ROOT_FILE].description != Some("") && files[ROOT_FILE].version != Some("")
    && (forall p :: p in files && Selected(p) ==> GoodPath(p))
    && (forall p :: p in files && Selected(p) && StartsWith(p, ENVIRONMENTS) ==>
          SafeFileStem(Stem(p)) && Stem(p)[0] != '.')
    && (forall p, q :: p in files && q in files && Selected(p) && Selected(q) ==> !(p + "/" <= q))
  }

  /** What loading keeps, file by file. */
  ghost predicate LoadedFrom(st: Loaded, files: Files) {
    && GoodEnvironments(st.environments)
    && (forall p :: p in st.context.requests ==>
          p in files && Selected(p) && !StartsWith(p, ENVIRONMENTS) && Basename(p) != FOLDER_FILE && p != ROOT_FILE)
    && (forall d :: d in st.context.folders ==>
          exists p :: p in files && Selected(p) && !StartsWith(p, ENVIRONMENTS) && Basename(p) == FOLDER_FILE && Dirname(p) == d)
  }

  lemma {:induction false} LoadsFrom(st: Loaded, files: Files, paths: seq<string>)
    requires PlainDirectory(files) && LoadedFrom(st, files)
    requires forall p :: p in paths ==> p in files && Selected(p)
    ensures LoadedFrom(LoadFiles(st, paths, files), files)
    decreases paths
  {
    hide Selected, Basename, Dirname, Stem, SafeFileStem, GoodPath, StartsWith;
    if paths != [] {
      var p := paths[0];
      SelectedYml(p);
      assert LoadedFrom(LoadFile(st, p, files[p]), files);
      LoadsFrom(LoadFile(st, p, files[p]), files, paths[1..]);
    }
  }

  lemma SelectedYml(path: string)
    requires Selected(path)
    ensures IsYml(path)
  {
  }

  lemma RequestReadable(path: string, request: Request)
    requires GoodPath(path) && IsYml(path) && !StartsWith(path, ENVIRONMENTS)
    requires Basename(path) != FOLDER_FILE && path != ROOT_FILE
    ensures Readable(path, File(request))
  {
    hide IsYml, Basename;
    NotEnvironments(path);
    HeadNotEnvironments(path);
  }

  lemma HeadNotEnvironments(path: string)
    requires path != "environments" && !StartsWith(path, ENVIRONMENTS)
    ensures FirstSegment(path) != "environments"
  {
    var head := FirstSegment(path);
    if head != path {
      assert path == head + "/" + path[|head| + 1..];
    }
  }

  /** A path below the root is its directory and its base name. */
  lemma DirAndBase(file: string)
    ensures Dirname(file) == "" || file == Dirname(file) + "/" + Basename(file)
  {
    var i := LastSlash(file);
    hide LastSlash;
    if i >= 0 {
      assert file == file[..i] + [file[i]] + file[i + 1..];
    }
  }

  lemma GoodDir(dir: string, name: string)
    requires GoodPath(dir + "/" + name)
    ensures GoodPath(dir)
  {
    var file := dir + "/" + name;
    assert file[|dir|] == '/';
    assert forall k :: 0 <= k < |dir| ==> file[k] == dir[k];
  }

  lemma FolderFileText(dir: string)
    ensures dir + "/" + FOLDER_FILE == dir + "/folder.yml"
  {
    assert "/" + FOLDER_FILE == "/folder.yml";
    assert dir + "/" + FOLDER_FILE == dir + ("/" + FOLDER_FILE);
  }

  /** The directory of a folder file. */
  lemma FolderFilePlace(file: string)
    requires GoodPath(file) && !StartsWith(file, ENVIRONMENTS) && Basename(file) == FOLDER_FILE
    ensures Place(Dirname(file))
    ensures Dirname(file) != "" ==> file == Dirname(file) + "/folder.yml"
  {
    hide LastSlash, Basename, Dirname, GoodPath, StartsWith, FirstSegment;
    var dir := Dirname(file);
    DirAndBase(file);
    if dir != "" {
      FolderFileText(dir);
      GoodDir(dir, FOLDER_FILE);
      if FirstSegment(dir) == "environments" {
        HeadOfDir(dir, FOLDER_FILE);
      }
    }
  }

  lemma HeadOfDir(dir: string, name: string)
    requires FirstSegment(dir) == "environments"
    ensures StartsWith(dir + "/" + name, ENVIRONMENTS)
  {
    var file := dir + "/" + name;
    assert dir == "environments" || dir[12] == '/';
    assert forall k :: 0 <= k < 12 ==> file[k] == dir[k] == "environments"[k];
    assert file[12] == '/';
    assert file[..13] == ENVIRONMENTS;
  }

  /** What is loaded from a plain directory is sound. */
  lemma LoadedSound(st: Loaded, files: Files)
    requires PlainDirectory(files) && LoadedFrom(st, files) && Consistent(st.context)
    ensures Sound(st.context)
  {
    hide Selected, Basename, Dirname, Stem, SafeFileStem, GoodPath, StartsWith, IsYml, Readable, Place;
    var c := st.context;
    forall p | p in c.requestPaths
      ensures Readable(p, File(c.requests[p]))
    {
      SelectedYml(p);
      RequestReadable(p, c.requests[p]);
    }
    forall d | d in c.folderPaths
      ensures Place(d) && forall p :: p in c.requestPaths ==> p != d && !(p + "/" <= d)
    {
      var file :| file in files && Selected(file) && !StartsWith(file, ENVIRONMENTS) &&
                  Basename(file) == FOLDER_FILE && Dirname(file) == d;
      FolderFilePlace(file);
      forall p | p in c.requestPaths
        ensures p != d && !(p + "/" <= d)
      {
        RequestReadable(p, c.requests[p]) by { SelectedYml(p); }
        RequestNotEmpty(p, c.requests[p]);
        assert !(p + "/" <= file);
      }
    }
  }

  lemma RequestNotEmpty(path: string, request: Request)
    requires Readable(path, File(request))
    ensures path != ""
  {
  }

  /** What is read from a plain directory is well formed, as long as no two siblings compare as equal. */
  lemma ReadWellFormed(rootDir: string, files: Files, paths: seq<string>, le: Collation)
    requires TotalPreorder(le) && rootDir != "" && PlainDirectory(files) && Lists(paths, files)
    requires ROOT_FILE in files && Untied(Read(rootDir, files, paths, le).value.items, le)
    ensures WellFormed(Read(rootDir, files, paths, le).value, le)
  {
    hide Selected, BuildItems, LoadFiles, WellFormedItems, Untied, Basename, GoodPath, SafeFileStem, Sound, PlainDirectory;
    RootPlain(files);
    var st := LoadFiles(EMPTY, paths, files);
    LoadFilesKeys(EMPTY, paths, files);
    LoadsFrom(EMPTY, files, paths);
    LoadedSound(st, files);
    BuildWellFormed(st.context, "", le);
  }

  /**
   * A collection read from a plain directory survives being written and read again, as long as no two
   * siblings compare as equal.
   */
  lemma ReadWriteRead(rootDir: string, files: Files, paths: seq<string>, names: seq<string>, again: seq<string>, le: Collation)
    requires TotalPreorder(le) && rootDir != "" && PlainDirectory(files) && Lists(paths, files)
    requires var c := Read(rootDir, files, paths, le).value;
             && Untied(c.items, le) && (forall n :: n in names <==> n in c.environments)
             && Lists(again, AfterCollection(map[], c, names).0)
    ensures var c := Read(rootDir, files, paths, le);
            c.Some? && Read(rootDir, AfterCollection(map[], c.value, names).0, again, le) == c
  {
    hide Selected, BuildItems, LoadFiles, AfterCollection, WellFormed, Untied, PlainDirectory;
    RootPlain(files);
    ReadWellFormed(rootDir, files, paths, le);
    RoundTrip(Read(rootDir, files, paths, le).value, names, again, le);
  }

  lemma RootPlain(files: Files)
    requires PlainDirectory(files)
    ensures ROOT_FILE in files && files[ROOT_FILE].description != Some("") && files[ROOT_FILE].version != Some("")
  {
  }
}
