/** The writer's part of the round trip: the files that it leaves, and what each of them is loaded as. */
module CollectionFiles {
  import opened Text
  import opened Collections
  import opened CollectionPaths
  import opened CollectionWriter
  import opened CollectionReader
  import opened CollectionEntries
  import opened CollectionRebuild

  // ---- The files that the writer leaves ----

  /** `after` is `before` with one file for each entry. */
  ghost predicate Stored(before: Files, after: Files, entries: map<string, Entry>) {
    && (forall file :: file in after ==> file in before || FiledIn(entries, file))
    && (forall p :: p in entries ==> HasFile(after, p, entries[p]))
    && (forall file :: file in before ==>
          file in after && (after[file] == before[file] || FiledIn(entries, file)))
  }

  predicate HasFile(files: Files, path: string, entry: Entry) {
    FileOf(path, entry) in files && files[FileOf(path, entry)] == DocOf(entry)
  }

  /** No two entries share a file. */
  lemma FileOfInjective(p: string, e: Entry, q: string, f: Entry)
    requires Readable(p, e) && Readable(q, f) && FileOf(p, e) == FileOf(q, f)
    ensures p == q
  {
    hide Basename, Place, IsYml;
    if e.File? && f.Dir? {
      FolderFileName(q);
    } else if e.Dir? && f.File? {
      FolderFileName(p);
    } else if e.Dir? {
      assert (p + "/folder.yml")[..|p|] == (q + "/folder.yml")[..|q|];
    }
  }

  lemma FolderFileName(dir: string)
    requires dir != ""
    ensures Basename(dir + "/folder.yml") == FOLDER_FILE && Dirname(dir + "/folder.yml") == dir
  {
    hide Basename, Dirname;
    BasenameOf(dir, FOLDER_FILE);
    assert dir + "/folder.yml" == Prefix(dir) + FOLDER_FILE;
  }

  ghost predicate AllReadable(entries: map<string, Entry>) {
    forall p :: p in entries ==> Readable(p, entries[p])
  }

  lemma StoredThen(a: Files, b: Files, c: Files, first: map<string, Entry>, second: map<string, Entry>)
    requires Stored(a, b, first) && Stored(b, c, second)
    requires AllReadable(first) && AllReadable(second) && first.Keys !! second.Keys
    ensures Stored(a, c, first + second)
  {
    hide Readable, FileOf, DocOf;
    var both := first + second;
    forall p | p in both
      ensures HasFile(c, p, both[p])
    {
      if p in first {
        forall q | q in second
          ensures FileOf(q, second[q]) != FileOf(p, first[p])
        {
          if FileOf(q, second[q]) == FileOf(p, first[p]) {
            FileOfInjective(p, first[p], q, second[q]);
          }
        }
        assert HasFile(b, p, first[p]);
      } else {
        assert HasFile(c, p, second[p]);
      }
    }
    StoredGrows(a, b, c, first, second);
  }

  /** The file belongs to one of the entries. */
  ghost predicate FiledIn(entries: map<string, Entry>, file: string) {
    exists p :: p in entries && FileOf(p, entries[p]) == file
  }

  lemma FiledInBoth(first: map<string, Entry>, second: map<string, Entry>, file: string)
    requires first.Keys !! second.Keys && (FiledIn(first, file) || FiledIn(second, file))
    ensures FiledIn(first + second, file)
  {
    hide FileOf;
    var both := first + second;
    if FiledIn(first, file) {
      var p :| p in first && FileOf(p, first[p]) == file;
      assert p in both && both[p] == first[p];
    } else {
      var p :| p in second && FileOf(p, second[p]) == file;
      assert p in both && both[p] == second[p];
    }
  }

  lemma StoredGrows(a: Files, b: Files, c: Files, first: map<string, Entry>, second: map<string, Entry>)
    requires Stored(a, b, first) && Stored(b, c, second) && first.Keys !! second.Keys
    ensures forall file :: file in c ==> file in a || FiledIn(first + second, file)
    ensures forall file :: file in a ==> file in c && (c[file] == a[file] || FiledIn(first + second, file))
  {
    hide FileOf, DocOf, FiledIn, HasFile;
    forall file | FiledIn(first, file) || FiledIn(second, file)
      ensures FiledIn(first + second, file)
    {
      FiledInBoth(first, second, file);
    }
  }

  lemma {:induction false} EntriesReadable(items: seq<Item>, dir: string, le: Collation)
    requires Place(dir) && WellFormedItems(items, dir, le)
    ensures AllReadable(Entries(items))
  {
    forall p | p in Entries(items)
      ensures Readable(p, Entries(items)[p])
    {
      ItemsEntries(items, dir, le, p);
    }
  }

  lemma {:induction false} HeadDisjoint(items: seq<Item>, dir: string, le: Collation)
    requires Place(dir) && WellFormedItems(items, dir, le) && items != []
    ensures AllReadable(EntriesOf(items[0])) && AllReadable(Entries(items[1..]))
    ensures EntriesOf(items[0]).Keys !! Entries(items[1..]).Keys
  {
    hide WellFormedItem, Readable, EntriesOf, Less, Under, Entries;
    EntriesReadable(items[1..], dir, le);
    forall p | p in EntriesOf(items[0])
      ensures Readable(p, EntriesOf(items[0])[p]) && p !in Entries(items[1..])
    {
      ItemEntries(items[0], dir, le, p);
      if p in Entries(items[1..]) {
        ItemsEntries(items[1..], dir, le, p);
        var i :| 0 <= i < |items[1..]| && p in EntriesOf(items[1..][i]) && Under(items[1..][i].path, p);
        OwnerUnique(items, dir, le, items[0], items[i + 1], p);
      }
    }
  }

  /** Writing well-formed items succeeds and stores exactly their entries. */
  lemma {:induction false} WritesEntries(files: Files, items: seq<Item>, dir: string, le: Collation)
    requires Place(dir) && WellFormedItems(items, dir, le)
    ensures var (after, status) := AfterItems(files, items);
            status.Written? && Stored(files, after, Entries(items))
    decreases items, 0
  {
    hide WellFormedItem, Readable, EntriesOf, Less, AfterItem;
    if items == [] {
      assert Stored(files, files, map[]);
    } else {
      var (first, _) := AfterItem(files, items[0]);
      WritesEntry(files, items[0], dir, le);
      WritesEntries(first, items[1..], dir, le);
      HeadDisjoint(items, dir, le);
      StoredThen(files, first, AfterItems(first, items[1..]).0, EntriesOf(items[0]), Entries(items[1..]));
    }
  }

  lemma StoreOne(files: Files, path: string, entry: Entry)
    ensures Stored(files, files[FileOf(path, entry) := DocOf(entry)], map[path := entry])
  {
    hide FileOf, DocOf;
    assert path in map[path := entry];
  }

  lemma {:induction false} WritesEntry(files: Files, item: Item, dir: string, le: Collation)
    requires Place(dir) && WellFormedItem(item, dir, le)
    ensures var (after, status) := AfterItem(files, item);
            status.Written? && Stored(files, after, EntriesOf(item))
    decreases item, 1
  {
    hide GoodSegment, GoodPath, IsYml, Basename, SafePath, Stored, Readable, Less, WellFormedItems;
    ItemPlace(item, dir, le);
    GoodPathSafe(item.path);
    match item
    case RequestItem(_, path, request, _) =>
      StoreOne(files, path, File(request.value));
    case Folder(name, path, children, order) =>
      var mark := Dir(FolderMeta(Some(name), order));
      StoreOne(files, path, mark);
      WritesEntries(files[path + "/folder.yml" := DocOf(mark)], children, path, le);
      FolderDisjoint(item, dir, le);
      StoredThen(files, files[path + "/folder.yml" := DocOf(mark)],
                 AfterItems(files[path + "/folder.yml" := DocOf(mark)], children).0,
                 map[path := mark], Entries(children));
  }

  lemma {:induction false} ItemPlace(item: Item, dir: string, le: Collation)
    requires Place(dir) && WellFormedItem(item, dir, le)
    ensures Place(item.path) && GoodPath(item.path)
  {
    assert item.path == Prefix(dir) + item.path[|Prefix(dir)|..];
    if item.RequestItem? {
      NotEnvironments(item.path);
    }
    PlaceChild(dir, item.path[|Prefix(dir)|..]);
  }

  lemma {:induction false} FolderDisjoint(folder: Item, dir: string, le: Collation)
    requires Place(dir) && WellFormedItem(folder, dir, le) && folder.Folder?
    ensures var mark := map[folder.path := Dir(FolderMeta(Some(folder.name), folder.order))];
            AllReadable(mark) && AllReadable(Entries(folder.children)) && mark.Keys !! Entries(folder.children).Keys
  {
    hide Readable, GoodSegment, Less, WellFormedItems, Entries;
    PlaceOfFolder(folder, dir, le);
    EntriesReadable(folder.children, folder.path, le);
    FolderMark(folder, dir, le);
    ItemEntries(folder, dir, le, folder.path);
    FolderEntries(folder, dir, le, folder.path);
  }

  // ---- Reading the files back ----

  /** The files of a collection: the root file, one for each environment, one for each entry, no others. */
  ghost predicate FilesAre(files: Files, c: Collection) {
    && ROOT_FILE in files && files[ROOT_FILE] == RootDoc(c.info)
    && (forall n :: n in c.environments ==>
          EnvironmentPath(n) in files && files[EnvironmentPath(n)] == EnvironmentDoc(c.environments[n]))
    && (forall p :: p in Entries(c.items) ==> HasFile(files, p, Entries(c.items)[p]))
    && (forall file :: file in files ==>
          file == ROOT_FILE || FiledIn(Entries(c.items), file) ||
          exists n :: n in c.environments && EnvironmentPath(n) == file)
  }

  /** Everything loaded so far is in the collection. */
  ghost predicate PartOf(st: Loaded, c: Collection) {
    && (forall p :: p in st.context.requests ==>
          p in Entries(c.items) && Entries(c.items)[p] == File(st.context.requests[p]))
    && (forall p :: p in st.context.folders ==>
          p in Entries(c.items) && Entries(c.items)[p] == Dir(st.context.folders[p]))
    && (forall n :: n in st.environments ==>
          n in c.environments && c.environments[n] == st.environments[n])
  }

  /** What `file` stands for has been loaded. */
  ghost predicate Includes(st: Loaded, c: Collection, file: string) {
    && (forall p :: p in Entries(c.items) && FileOf(p, Entries(c.items)[p]) == file ==>
          if Entries(c.items)[p].File? then p in st.context.requests else p in st.context.folders)
    && (forall n :: n in c.environments && EnvironmentPath(n) == file ==> n in st.environments)
  }

  predicate Grows(a: Loaded, b: Loaded) {
    && a.context.requests.Keys <= b.context.requests.Keys
    && a.context.folders.Keys <= b.context.folders.Keys
    && a.environments.Keys <= b.environments.Keys
  }

  /** How the reader classifies the paths of environments and of entries. */
  lemma EnvironmentFile(name: string)
    requires SafeFileStem(name) && name[0] != '.'
    ensures var file := EnvironmentPath(name);
            && file != ROOT_FILE && StartsWith(file, ENVIRONMENTS) && FirstSegment(file) == "environments"
            && IsYml(file) && Stem(file) == name && Selected(file)
  {
    hide LastSlash, Basename;
    var file := EnvironmentPath(name);
    var base := name + ".yml";
    assert file == Prefix("environments") + base;
    assert Free(base, '/');
    BasenameOf("environments", base);
    FirstSegmentIs(file, "environments");
    assert file[|file| - 4..] == ".yml" && base[|base| - 4..] == ".yml";
    assert base[..|base| - 4] == name;
    assert file[12] == '/' != ROOT_FILE[12];
  }

  lemma EntryFile(path: string, entry: Entry)
    requires Readable(path, entry)
    ensures var file := FileOf(path, entry);
            && file != ROOT_FILE && !StartsWith(file, ENVIRONMENTS) && FirstSegment(file) != "environments"
            && (Basename(file) == FOLDER_FILE <==> entry.Dir?) && (entry.Dir? ==> Dirname(file) == path)
            && Selected(file)
  {
    hide LastSlash, Basename, Dirname, GoodPath, IsYml;
    var file := FileOf(path, entry);
    if entry.Dir? {
      FolderFileName(path);
      FirstSegmentIs(file, FirstSegment(path));
      assert file[|path|] == '/';
      assert forall k :: 0 <= k < |ROOT_FILE| ==> ROOT_FILE[k] != '/';
    }
    EnvironmentHead(file);
    SelectedFile(path, entry);
  }

  lemma EnvironmentHead(file: string)
    requires FirstSegment(file) != "environments"
    ensures !StartsWith(file, ENVIRONMENTS)
  {
    if StartsWith(file, ENVIRONMENTS) {
      assert file[12] == ENVIRONMENTS[12];
      FirstSegmentIs(file, "environments");
    }
  }

  lemma SelectedFile(path: string, entry: Entry)
    requires Readable(path, entry)
    ensures Selected(FileOf(path, entry))
  {
    hide Basename;
    if entry.Dir? {
      SelectedFolderFile(path);
    }
  }

  lemma SelectedFolderFile(dir: string)
    requires GoodPath(dir)
    ensures Selected(dir + "/folder.yml")
  {
    var file := dir + "/folder.yml";
    assert file[|file| - 4..] == ".yml";
    assert forall k :: 0 <= k < |dir| ==> file[k] == dir[k];
    forall k | 0 <= k < |file| && file[k] == '.'
      ensures k > 0 && file[k - 1] != '/'
    {
      if k >= |dir| {
        assert file[k] == "/folder.yml"[k - |dir|];
      }
    }
  }

  /** What loading an environment file does. */
  lemma EnvironmentEffect(st: Loaded, n: string, env: Environment)
    requires SafeFileStem(n) && n[0] != '.' && env.name == n
    ensures LoadFile(st, EnvironmentPath(n), EnvironmentDoc(env)) == st.(environments := st.environments[n := env])
  {
    hide Basename, Dirname, IsYml, Stem, StartsWith, SafeFileStem, EnvironmentPath, Selected, FirstSegment;
    EnvironmentFile(n);
  }

  lemma LoadEnvironment(st: Loaded, c: Collection, n: string)
    requires PartOf(st, c) && AllReadable(Entries(c.items)) && GoodEnvironments(c.environments)
    requires n in c.environments
    ensures var st' := LoadFile(st, EnvironmentPath(n), EnvironmentDoc(c.environments[n]));
            PartOf(st', c) && Includes(st', c, EnvironmentPath(n)) && Grows(st, st')
  {
    hide Readable, Entries, LoadFile, SafeFileStem, EnvironmentPath, FileOf, FirstSegment;
    EnvironmentEffect(st, n, c.environments[n]);
    forall m | m in c.environments && EnvironmentPath(m) == EnvironmentPath(n)
      ensures m == n
    {
      EnvironmentFile(n);
      EnvironmentFile(m);
    }
    forall p | p in Entries(c.items)
      ensures FileOf(p, Entries(c.items)[p]) != EnvironmentPath(n)
    {
      EnvironmentFile(n);
      EntryFile(p, Entries(c.items)[p]);
    }
  }

  /** What loading the file of an entry does. */
  lemma EntryEffect(st: Loaded, path: string, entry: Entry)
    requires Readable(path, entry)
    ensures var st' := LoadFile(st, FileOf(path, entry), DocOf(entry));
            && st'.environments == st.environments
            && match entry
               case File(request) =>
                 st'.context.requests == st.context.requests[path := request] && st'.context.folders == st.context.folders
               case Dir(meta) =>
                 st'.context.requests == st.context.requests && st'.context.folders == st.context.folders[path := meta]
  {
    hide Readable, Basename, Dirname, IsYml, Stem, StartsWith, FileOf, Selected, FirstSegment;
    EntryFile(path, entry);
    if entry.File? {
      FileOfRequest(path, entry);
    }
  }

  lemma FileOfRequest(path: string, entry: Entry)
    requires entry.File?
    ensures FileOf(path, entry) == path
  {
  }

  lemma LoadEntry(st: Loaded, c: Collection, path: string)
    requires PartOf(st, c) && AllReadable(Entries(c.items)) && GoodEnvironments(c.environments)
    requires path in Entries(c.items)
    ensures var entry := Entries(c.items)[path];
            var st' := LoadFile(st, FileOf(path, entry), DocOf(entry));
            PartOf(st', c) && Includes(st', c, FileOf(path, entry)) && Grows(st, st')
  {
    hide Readable, Entries, LoadFile, DocOf, FileOf, SafeFileStem, EnvironmentPath, FirstSegment;
    var entry := Entries(c.items)[path];
    EntryEffect(st, path, entry);
    forall m | m in c.environments
      ensures EnvironmentPath(m) != FileOf(path, entry)
    {
      EnvironmentFile(m);
      EntryFile(path, entry);
    }
    forall p | p in Entries(c.items) && FileOf(p, Entries(c.items)[p]) == FileOf(path, entry)
      ensures p == path
    {
      FileOfInjective(p, Entries(c.items)[p], path, entry);
    }
  }

  lemma LoadRoot(st: Loaded, c: Collection, doc: Doc)
    requires PartOf(st, c) && AllReadable(Entries(c.items)) && GoodEnvironments(c.environments)
    ensures LoadFile(st, ROOT_FILE, doc) == st && Includes(st, c, ROOT_FILE)
  {
    hide Readable, Entries, SafeFileStem, EnvironmentPath, FileOf, Selected;
    forall m | m in c.environments
      ensures EnvironmentPath(m) != ROOT_FILE
    {
      EnvironmentFile(m);
    }
    forall p | p in Entries(c.items)
      ensures FileOf(p, Entries(c.items)[p]) != ROOT_FILE
    {
      EntryFile(p, Entries(c.items)[p]);
    }
  }

  lemma LoadKnown(st: Loaded, c: Collection, files: Files, file: string)
    requires PartOf(st, c) && AllReadable(Entries(c.items)) && GoodEnvironments(c.environments) && FilesAre(files, c)
    requires file in files
    ensures var st' := LoadFile(st, file, files[file]);
            PartOf(st', c) && Includes(st', c, file) && Grows(st, st')
  {
    hide PartOf, Includes, Entries, LoadFile, EnvironmentPath, FileOf;
    if file == ROOT_FILE {
      LoadRoot(st, c, files[file]);
    } else if FiledIn(Entries(c.items), file) {
      var p :| p in Entries(c.items) && FileOf(p, Entries(c.items)[p]) == file;
      assert HasFile(files, p, Entries(c.items)[p]);
      LoadEntry(st, c, p);
    } else {
      var n :| n in c.environments && EnvironmentPath(n) == file;
      LoadEnvironment(st, c, n);
    }
  }

  lemma {:induction false} LoadAll(st: Loaded, c: Collection, files: Files, paths: seq<string>)
    requires PartOf(st, c) && AllReadable(Entries(c.items)) && GoodEnvironments(c.environments) && FilesAre(files, c)
    requires forall p :: p in paths ==> p in files
    ensures var st' := LoadFiles(st, paths, files);
            PartOf(st', c) && Grows(st, st') && forall p :: p in paths ==> Includes(st', c, p)
    decreases paths
  {
    hide PartOf, Entries, LoadFile, EnvironmentPath, FileOf, FilesAre, AllReadable, GoodEnvironments;
    if paths != [] {
      var next := LoadFile(st, paths[0], files[paths[0]]);
      LoadKnown(st, c, files, paths[0]);
      LoadAll(next, c, files, paths[1..]);
    }
  }

  /** What every file stands for has been loaded. */
  ghost predicate AllLoaded(st: Loaded, c: Collection, files: Files) {
    PartOf(st, c) && forall file :: file in files && Selected(file) ==> Includes(st, c, file)
  }

  lemma EnvironmentsLoaded(st: Loaded, c: Collection, files: Files)
    requires AllLoaded(st, c, files) && FilesAre(files, c) && GoodEnvironments(c.environments)
    ensures st.environments == c.environments
  {
    hide Entries, EnvironmentPath, FileOf, Selected, SafeFileStem, HasFile, FiledIn, FirstSegment;
    forall n | n in c.environments
      ensures n in st.environments
    {
      EnvironmentFile(n);
      assert Includes(st, c, EnvironmentPath(n));
    }
  }

  lemma EntryLoaded(st: Loaded, c: Collection, files: Files, path: string)
    requires AllLoaded(st, c, files) && FilesAre(files, c) && AllReadable(Entries(c.items)) && path in Entries(c.items)
    ensures if Entries(c.items)[path].File? then path in st.context.requests else path in st.context.folders
  {
    var entry := Entries(c.items)[path];
    hide Entries, EnvironmentPath, FileOf, Selected, Readable, DocOf, FiledIn, FirstSegment;
    EntryFile(path, entry);
    assert HasFile(files, path, entry);
    assert Includes(st, c, FileOf(path, entry));
  }

  /** From the files of a well-formed collection the reader loads its environments and its entries. */
  lemma {:induction false} LoadsCollection(c: Collection, files: Files, paths: seq<string>, le: Collation)
    requires WellFormed(c, le) && FilesAre(files, c) && Lists(paths, files)
    ensures var st := LoadFiles(EMPTY, paths, files);
            && st.environments == c.environments && Consistent(st.context) && Represents(st.context, c.items, "")
  {
    hide Entries, WellFormedItems, LoadFiles, Selected, AllReadable, GoodEnvironments, FilesAre, Includes;
    EntriesReadable(c.items, "", le);
    LoadAll(EMPTY, c, files, paths);
    LoadFilesKeys(EMPTY, paths, files);
    var st := LoadFiles(EMPTY, paths, files);
    EnvironmentsLoaded(st, c, files);
    forall p
      ensures SameAt(st.context, Entries(c.items), p)
    {
      if p in Entries(c.items) {
        EntryLoaded(st, c, files, p);
      }
    }
  }
}
