/** The reader's part of the round trip: rebuilding the tree of items from its paths. */
module CollectionRebuild {
  import opened Sorting
  import opened Text
  import opened Collections
  import opened CollectionPaths
  import opened CollectionReader
  import opened CollectionEntries

  // ---- Rebuilding the tree from the paths ----

  ghost predicate SameAt(c: Context, entries: map<string, Entry>, path: string) {
    && (path in c.requests <==> path in entries && entries[path].File?)
    && (path in c.requests ==> entries[path] == File(c.requests[path]))
    && (path in c.folders <==> path in entries && entries[path].Dir?)
    && (path in c.folders ==> entries[path] == Dir(c.folders[path]))
  }

  /** Below `dir` the loaded paths are the entries of `items`. */
  ghost predicate Represents(c: Context, items: seq<Item>, dir: string) {
    forall path :: Prefix(dir) <= path ==> SameAt(c, Entries(items), path)
  }

  /** The item that an entry belongs to. */
  lemma Owner(items: seq<Item>, dir: string, le: Collation, path: string) returns (item: Item)
    requires Place(dir) && WellFormedItems(items, dir, le) && path in Entries(items)
    ensures item in items && WellFormedItem(item, dir, le) && Under(item.path, path)
    ensures path in EntriesOf(item) && Entries(items)[path] == EntriesOf(item)[path]
    ensures Readable(path, Entries(items)[path])
    ensures Prefix(dir) <= path && FirstSegment(path[|Prefix(dir)|..]) == item.path[|Prefix(dir)|..]
  {
    hide WellFormedItem, EntriesOf, Entries, Readable, Under, Less, GoodSegment;
    ItemsEntries(items, dir, le, path);
    var i :| 0 <= i < |items| && path in EntriesOf(items[i]) && Under(items[i].path, path);
    item := items[i];
    EntriesInclude(items, dir, le, item, path);
    ItemHead(item, dir, le, path);
  }

  /** A folder's entries are its own mark and, strictly below it, those of its children. */
  lemma {:induction false} FolderEntries(folder: Item, dir: string, le: Collation, path: string)
    requires Place(dir) && WellFormedItem(folder, dir, le) && folder.Folder? && path in EntriesOf(folder)
    ensures if path == folder.path
            then path !in Entries(folder.children) && EntriesOf(folder)[path] == Dir(FolderMeta(Some(folder.name), folder.order))
            else path in Entries(folder.children) && EntriesOf(folder)[path] == Entries(folder.children)[path]
                 && folder.path + "/" <= path
  {
    hide WellFormedItems, Readable, Less, GoodSegment;
    var name := folder.path[|Prefix(dir)|..];
    assert folder.path == Prefix(dir) + name;
    PlaceOfFolder(folder, dir, le);
    if path in Entries(folder.children) {
      ItemsEntries(folder.children, folder.path, le, path);
    }
  }

  lemma {:induction false} PlaceOfFolder(folder: Item, dir: string, le: Collation)
    requires Place(dir) && WellFormedItem(folder, dir, le) && folder.Folder?
    ensures Place(folder.path) && folder.path != ""
  {
    var name := folder.path[|Prefix(dir)|..];
    assert folder.path == Prefix(dir) + name;
    PlaceChild(dir, name);
  }

  lemma {:induction false} RepresentsChild(c: Context, items: seq<Item>, dir: string, le: Collation, folder: Item)
    requires Place(dir) && WellFormedItems(items, dir, le) && Represents(c, items, dir)
    requires folder in items && folder.Folder?
    ensures Represents(c, folder.children, folder.path)
  {
    hide Readable, Less, GoodSegment, Entries;
    assert WellFormedItem(folder, dir, le);
    PlaceOfFolder(folder, dir, le);
    forall path | Prefix(folder.path) <= path
      ensures SameAt(c, Entries(folder.children), path)
    {
      assert Under(folder.path, path) && path != folder.path;
      ItemHead(folder, dir, le, path);
      assert SameAt(c, Entries(items), path);
      if path in Entries(items) {
        var item := Owner(items, dir, le, path);
        OwnerUnique(items, dir, le, item, folder, path);
        FolderEntries(folder, dir, le, path);
      }
      if path in Entries(folder.children) {
        assert path in EntriesOf(folder);
        EntriesInclude(items, dir, le, folder, path);
        FolderEntries(folder, dir, le, path);
      }
    }
  }

  lemma {:induction false} DirectAre(prefix: string, paths: seq<string>, requests: map<string, Request>)
    requires Distinct(paths) && forall p :: p in paths ==> p in requests
    ensures var items := DirectRequests(prefix, paths, requests);
            && Distinct(items)
            && forall x :: x in items <==>
                 x.path in paths && Direct(prefix, x.path) && x == ReadRequest(x.path, requests[x.path])
  {
    if paths != [] {
      DirectAre(prefix, paths[1..], requests);
      assert paths == [paths[0]] + paths[1..];
    }
  }

  function FolderAt(dir: string, name: string, c: Context, le: Collation): Item
    requires forall p :: p in c.requestPaths ==> p in c.requests
  {
    FolderItem(dir, name, BuildItems(Prefix(dir) + name, c, le), c)
  }

  lemma {:induction false} FoldersAre(dir: string, names: seq<string>, c: Context, le: Collation)
    requires forall p :: p in c.requestPaths ==> p in c.requests
    requires Distinct(names) && forall n :: n in names ==> n in FolderNames(Prefix(dir), c)
    ensures var items := BuildFolders(dir, names, c, le);
            && Distinct(items)
            && (forall x :: x in items ==> x.Folder?)
            && forall x :: x in items <==>
                 exists n :: n in names && x == FolderAt(dir, n, c, le) && Kept(x, c)
    decreases names
  {
    hide FolderNames, BuildItems;
    if names != [] {
      FoldersAre(dir, names[1..], c, le);
      assert names == [names[0]] + names[1..];
      var folder := FolderAt(dir, names[0], c, le);
      forall x
        ensures x in BuildFolders(dir, names, c, le) <==>
                exists n :: n in names && x == FolderAt(dir, n, c, le) && Kept(x, c)
      {
      }
      assert folder !in BuildFolders(dir, names[1..], c, le) by {
        forall n | n in names[1..]
          ensures FolderAt(dir, n, c, le).path != folder.path
        {
          assert (Prefix(dir) + n)[|Prefix(dir)|..] == n;
          assert (Prefix(dir) + names[0])[|Prefix(dir)|..] == names[0];
        }
      }
    }
  }

  /** A request file of a folder lies below the directory of the folder, not in it. */
  lemma {:induction false} FolderFile(folder: Item, dir: string, le: Collation, path: string)
    requires Place(dir) && WellFormedItem(folder, dir, le) && folder.Folder?
    requires path in EntriesOf(folder) && EntriesOf(folder)[path].File?
    ensures !Direct(Prefix(dir), path)
  {
    FolderEntries(folder, dir, le, path);
    assert path[|Prefix(dir)|..][|folder.path| - |Prefix(dir)|] == path[|folder.path|] == '/';
  }

  /** A request file found in the directory is a request item of the list. */
  lemma {:induction false} DirectIsItem(c: Context, items: seq<Item>, dir: string, le: Collation, path: string)
    requires Place(dir) && WellFormedItems(items, dir, le) && Represents(c, items, dir)
    requires path in c.requests && Direct(Prefix(dir), path)
    ensures ReadRequest(path, c.requests[path]) in items
  {
    hide Readable, Less, GoodSegment, Entries, WellFormedItems;
    assert SameAt(c, Entries(items), path);
    var item := Owner(items, dir, le, path);
    if item.Folder? {
      FolderFile(item, dir, le, path);
    }
  }

  /** A request item of the list is found as a file of the directory. */
  lemma {:induction false} ItemIsDirect(c: Context, items: seq<Item>, dir: string, le: Collation, item: Item)
    requires Place(dir) && WellFormedItems(items, dir, le) && Represents(c, items, dir)
    requires item in items && item.RequestItem?
    ensures item.path in c.requests && Direct(Prefix(dir), item.path)
    ensures item == ReadRequest(item.path, c.requests[item.path])
  {
    hide Readable, Less, Entries;
    assert WellFormedItem(item, dir, le);
    EntriesInclude(items, dir, le, item, item.path);
    assert SameAt(c, Entries(items), item.path);
  }

  lemma {:induction false} FolderOwner(item: Item, dir: string, le: Collation, path: string)
    requires WellFormedItem(item, dir, le) && path in EntriesOf(item) && Prefix(dir) <= path
    requires EntriesOf(item)[path].Dir? || !Free(path[|Prefix(dir)|..], '/')
    ensures item.Folder?
  {
    hide Less, WellFormedItems, IsYml, Basename, Prefix;
  }

  /** The folder names found below the directory are those of the folder items. */
  lemma NameIsItem(c: Context, items: seq<Item>, dir: string, le: Collation, path: string, isFolder: bool, name: string)
    returns (item: Item)
    requires Place(dir) && WellFormedItems(items, dir, le) && Represents(c, items, dir)
    requires if isFolder then path in c.folders else path in c.requests
    requires Names(Prefix(dir), path, isFolder, name)
    ensures item in items && item.Folder? && item.path == Prefix(dir) + name
  {
    hide Readable, Less, Entries, EntriesOf, WellFormedItems, Place, FirstSegment, Under;
    assert SameAt(c, Entries(items), path);
    item := Owner(items, dir, le, path);
    FolderOwner(item, dir, le, path);
    assert item.path == Prefix(dir) + item.path[|Prefix(dir)|..];
  }

  function LocalName(dir: string, path: string): string {
    if Prefix(dir) <= path then path[|Prefix(dir)|..] else ""
  }

  lemma {:induction false} ItemIsName(c: Context, items: seq<Item>, dir: string, le: Collation, item: Item)
    requires Place(dir) && WellFormedItems(items, dir, le) && Represents(c, items, dir)
    requires item in items && item.Folder?
    ensures var name := LocalName(dir, item.path);
            && item.path == Prefix(dir) + name && Names(Prefix(dir), item.path, true, name)
    ensures item.path in c.folders && c.folders[item.path] == FolderMeta(Some(item.name), item.order)
  {
    hide Readable, Less, Entries;
    assert WellFormedItem(item, dir, le);
    ItemHead(item, dir, le, item.path);
    FolderMark(item, dir, le);
    EntriesInclude(items, dir, le, item, item.path);
    assert SameAt(c, Entries(items), item.path);
  }

  lemma {:induction false} FolderMark(folder: Item, dir: string, le: Collation)
    requires Place(dir) && WellFormedItem(folder, dir, le) && folder.Folder?
    ensures folder.path in EntriesOf(folder)
    ensures EntriesOf(folder)[folder.path] == Dir(FolderMeta(Some(folder.name), folder.order))
  {
    FolderEntries(folder, dir, le, folder.path);
  }

  ghost predicate Rebuilt(c: Context, items: seq<Item>, le: Collation)
    requires forall p :: p in c.requestPaths ==> p in c.requests
  {
    forall item :: item in items && item.Folder? ==> BuildItems(item.path, c, le) == item.children
  }

  /** With its children rebuilt, each folder name gives back its folder item. */
  lemma {:induction false} FolderRecovers(c: Context, items: seq<Item>, dir: string, le: Collation, item: Item)
    requires Consistent(c) && Place(dir) && WellFormedItems(items, dir, le) && Represents(c, items, dir)
    requires item in items && item.Folder? && Rebuilt(c, items, le)
    ensures var name := LocalName(dir, item.path);
            && item.path == Prefix(dir) + name && name in FolderNames(Prefix(dir), c)
            && item == FolderAt(dir, name, c, le) && Kept(item, c)
  {
    hide Readable, Less, Entries, WellFormedItems, BuildItems, Names;
    ItemIsName(c, items, dir, le, item);
    FolderNamesAre(Prefix(dir), c);
  }

  lemma {:induction false} FoldersRecover(c: Context, items: seq<Item>, dir: string, le: Collation)
    requires Consistent(c) && Place(dir) && WellFormedItems(items, dir, le) && Represents(c, items, dir)
    requires Rebuilt(c, items, le)
    ensures var folders := BuildFolders(dir, FolderNames(Prefix(dir), c), c, le);
            && Distinct(folders) && forall x :: x in folders <==> x in items && x.Folder?
  {
    hide Readable, Less, Entries, WellFormedItems, BuildItems, BuildFolders, Names, Represents, FolderItem;
    var names := FolderNames(Prefix(dir), c);
    FolderNamesAre(Prefix(dir), c);
    FoldersAre(dir, names, c, le);
    forall x | x in items && x.Folder?
      ensures x in BuildFolders(dir, names, c, le)
    {
      FolderRecovers(c, items, dir, le, x);
    }
    forall n | n in names
      ensures FolderAt(dir, n, c, le) in items
    {
      var item: Item;
      if p :| p in c.requestPaths && Names(Prefix(dir), p, false, n) {
        item := NameIsItem(c, items, dir, le, p, false, n);
      } else {
        var p :| p in c.folderPaths && Names(Prefix(dir), p, true, n);
        item := NameIsItem(c, items, dir, le, p, true, n);
      }
      FolderRecovers(c, items, dir, le, item);
      assert (Prefix(dir) + n)[|Prefix(dir)|..] == n;
    }
  }

  /** The recursive build recovers every well-formed tree from its paths. */
  lemma {:induction false} BuildRecovers(c: Context, items: seq<Item>, dir: string, le: Collation)
    requires TotalPreorder(le) && Consistent(c) && Place(dir)
    requires WellFormedItems(items, dir, le) && Represents(c, items, dir)
    ensures BuildItems(dir, c, le) == items
    decreases items
  {
    forall item | item in items && item.Folder?
      ensures BuildItems(item.path, c, le) == item.children
    {
      assert WellFormedItem(item, dir, le);
      PlaceOfFolder(item, dir, le);
      RepresentsChild(c, items, dir, le, item);
      BuildRecovers(c, item.children, item.path, le);
    }
    LevelRecovers(c, items, dir, le);
  }

  lemma DistinctConcat(a: seq<Item>, b: seq<Item>)
    requires Distinct(a) && Distinct(b) && forall x :: x in a ==> x !in b
    ensures Distinct(a + b)
  {
    forall i, j | 0 <= i < j < |a + b|
      ensures (a + b)[i] != (a + b)[j]
    {
      if i < |a| <= j {
        assert a[i] in a && b[j - |a|] in b;
      }
    }
  }

  lemma {:induction false} LevelRecovers(c: Context, items: seq<Item>, dir: string, le: Collation)
    requires TotalPreorder(le) && Consistent(c) && Place(dir)
    requires WellFormedItems(items, dir, le) && Represents(c, items, dir) && Rebuilt(c, items, le)
    ensures BuildItems(dir, c, le) == items
  {
    hide Readable, Less, Entries, WellFormedItem, BuildFolders, Represents, Rebuilt, Direct;
    var prefix := Prefix(dir);
    var direct := DirectRequests(prefix, c.requestPaths, c.requests);
    var folders := BuildFolders(dir, FolderNames(prefix, c), c, le);
    DirectAre(prefix, c.requestPaths, c.requests);
    FoldersRecover(c, items, dir, le);
    forall x
      ensures x in direct <==> x in items && x.RequestItem?
    {
      if x in direct {
        DirectIsItem(c, items, dir, le, x.path);
      }
      if x in items && x.RequestItem? {
        ItemIsDirect(c, items, dir, le, x);
      }
    }
    DistinctConcat(direct, folders);
    SortRecovers(direct + folders, items, le);
  }
}
