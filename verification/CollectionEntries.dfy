/** The collections that files can represent, and what such a tree holds, by path. */
module CollectionEntries {
  import opened Text
  import opened Collections
  import opened CollectionPaths
  import opened CollectionWriter
  import opened CollectionReader

  // ---- Collections that files can represent ----

  /**
   * An item in its directory: its path adds one segment, a request carries the name and number of its
   * own file, and no path is one that the reader keeps for another purpose.
   */
  ghost predicate WellFormedItem(item: Item, dir: string, le: Collation)
    decreases item, 1
  {
    && Prefix(dir) <= item.path && GoodSegment(item.path[|Prefix(dir)|..])
    && match item
       case RequestItem(_, path, request, _) =>
         && request.Some? && item == ReadRequest(path, request.value)
         && IsYml(path) && Basename(path) != FOLDER_FILE && path != ROOT_FILE
       case Folder(_, path, children, _) =>
         path != "environments" && WellFormedItems(children, path, le)
  }

  /** Siblings have different paths and are strictly ordered by number, then name. */
  ghost predicate WellFormedItems(items: seq<Item>, dir: string, le: Collation)
    decreases items, 0
  {
    && (forall item :: item in items ==> WellFormedItem(item, dir, le))
    && (forall i, j :: 0 <= i < j < |items| ==> items[i].path != items[j].path)
    && StrictlyAscending(items, le)
  }

  ghost predicate GoodEnvironments(environments: map<string, Environment>) {
    forall n :: n in environments ==> environments[n].name == n && SafeFileStem(n) && n[0] != '.'
  }

  ghost predicate WellFormed(c: Collection, le: Collation) {
    && c.rootDir != ""
    && c.info.kind == Some("collection") && c.info.description != Some("") && c.info.version != Some("")
    && GoodEnvironments(c.environments)
    && WellFormedItems(c.items, "", le)
  }

  // ---- What a tree holds, by path ----

  datatype Entry = File(request: Request) | Dir(meta: FolderMeta)

  function Entries(items: seq<Item>): map<string, Entry>
    decreases items, 0
  {
    if items == [] then map[] else EntriesOf(items[0]) + Entries(items[1..])
  }

  function EntriesOf(item: Item): map<string, Entry>
    decreases item, 1
  {
    match item
    case RequestItem(_, path, request, _) =>
      if request.Some? then map[path := File(request.value)] else map[]
    case Folder(name, path, children, order) =>
      map[path := Dir(FolderMeta(Some(name), order))] + Entries(children)
  }

  function FileOf(path: string, entry: Entry): string {
    if entry.File? then path else path + "/folder.yml"
  }

  function DocOf(entry: Entry): Doc {
    match entry
    case File(request) => RequestDoc(request)
    case Dir(meta) => EMPTY_DOC.(name := meta.name, order := meta.order)
  }

  /** A directory in which items can stand. */
  predicate Place(dir: string) {
    dir == "" || (GoodPath(dir) && FirstSegment(dir) != "environments")
  }

  lemma PlaceChild(dir: string, name: string)
    requires Place(dir) && GoodSegment(name) && Prefix(dir) + name != "environments"
    ensures Place(Prefix(dir) + name) && Prefix(dir) + name != ""
  {
    hide GoodPath;
    GoodChild(dir, name);
    if dir == "" {
      assert Prefix(dir) + name == name;
      FirstSegmentIs(name, name);
    } else {
      FirstSegmentIs(Prefix(dir) + name, FirstSegment(dir));
    }
  }

  /** A slash-free name is the first segment of every path at or below it. */
  lemma HeadIs(dir: string, name: string, path: string)
    requires Free(name, '/') && Under(Prefix(dir) + name, path)
    ensures Prefix(dir) <= path && FirstSegment(path[|Prefix(dir)|..]) == name
  {
    var rest := path[|Prefix(dir)|..];
    assert name <= rest && (rest == name || rest[|name|] == '/');
    FirstSegmentIs(rest, name);
  }

  lemma UnderTrans(dir: string, name: string, path: string)
    requires dir != "" && Under(Prefix(dir) + name, path)
    ensures dir + "/" <= path && Under(dir, path)
  {
  }

  /** Where the entries of an item are, and that the reader takes them for what they are. */
  ghost predicate Readable(path: string, entry: Entry) {
    && path != "" && Place(path)
    && (entry.File? ==> IsYml(path) && Basename(path) != FOLDER_FILE && path != ROOT_FILE)
  }

  lemma {:induction false} ItemEntries(item: Item, dir: string, le: Collation, path: string)
    requires Place(dir) && WellFormedItem(item, dir, le) && path in EntriesOf(item)
    ensures Under(item.path, path) && Readable(path, EntriesOf(item)[path])
    decreases item, 1
  {
    hide GoodSegment, GoodPath, Basename, IsYml;
    var name := item.path[|Prefix(dir)|..];
    assert item.path == Prefix(dir) + name;
    if item.RequestItem? {
      NotEnvironments(item.path);
    }
    PlaceChild(dir, name);
    if item.Folder? && path in Entries(item.children) {
      ItemsEntries(item.children, item.path, le, path);
    }
  }

  lemma NotEnvironments(path: string)
    requires IsYml(path)
    ensures path != "environments"
  {
    if EndsWith(path, ".yml") {
      assert path[|path| - 1] == path[|path| - 4..][3];
    } else {
      assert path[|path| - 1] == path[|path| - 5..][4];
    }
    assert "environments"[11] == 's';
  }

  lemma {:induction false} ItemBelow(item: Item, dir: string, le: Collation, path: string)
    requires WellFormedItem(item, dir, le) && Under(item.path, path)
    ensures dir != "" ==> dir + "/" <= path
  {
    hide GoodSegment, Less, WellFormedItems, ReadRequest, IsYml, Basename;
    assert item.path == Prefix(dir) + item.path[|Prefix(dir)|..];
    if dir != "" {
      UnderTrans(dir, item.path[|Prefix(dir)|..], path);
    }
  }

  lemma {:induction false} ItemsEntries(items: seq<Item>, dir: string, le: Collation, path: string)
    requires Place(dir) && WellFormedItems(items, dir, le) && path in Entries(items)
    ensures Readable(path, Entries(items)[path]) && (dir != "" ==> dir + "/" <= path)
    ensures exists i :: 0 <= i < |items| && path in EntriesOf(items[i]) && Under(items[i].path, path)
    decreases items, 0
  {
    hide WellFormedItem, EntriesOf, Readable, Less, Free;
    if path in Entries(items[1..]) {
      ItemsEntries(items[1..], dir, le, path);
      var i :| 0 <= i < |items[1..]| && path in EntriesOf(items[1..][i]) && Under(items[1..][i].path, path);
      assert items[i + 1] == items[1..][i];
    } else {
      ItemEntries(items[0], dir, le, path);
      ItemBelow(items[0], dir, le, path);
    }
  }

  lemma {:induction false} ItemHead(item: Item, dir: string, le: Collation, path: string)
    requires WellFormedItem(item, dir, le) && Under(item.path, path)
    ensures Prefix(dir) <= path && FirstSegment(path[|Prefix(dir)|..]) == item.path[|Prefix(dir)|..]
    ensures item.path == Prefix(dir) + FirstSegment(path[|Prefix(dir)|..])
  {
    assert item.path == Prefix(dir) + item.path[|Prefix(dir)|..];
    HeadIs(dir, item.path[|Prefix(dir)|..], path);
  }

  /** Different siblings own different paths. */
  lemma {:induction false} OwnerUnique(items: seq<Item>, dir: string, le: Collation, a: Item, b: Item, path: string)
    requires WellFormedItems(items, dir, le) && a in items && b in items
    requires Under(a.path, path) && Under(b.path, path)
    ensures a == b
  {
    hide WellFormedItem, Less, GoodSegment, Under;
    assert WellFormedItem(a, dir, le) && WellFormedItem(b, dir, le);
    ItemHead(a, dir, le, path);
    ItemHead(b, dir, le, path);
  }

  /** The entries of each item are in the entries of the list, unchanged. */
  lemma {:induction false} EntriesInclude(items: seq<Item>, dir: string, le: Collation, item: Item, path: string)
    requires Place(dir) && WellFormedItems(items, dir, le) && item in items && path in EntriesOf(item)
    ensures path in Entries(items) && Entries(items)[path] == EntriesOf(item)[path]
    decreases |items|
  {
    hide WellFormedItem, EntriesOf, Readable, Under, Less;
    ItemEntries(item, dir, le, path);
    if path in Entries(items[1..]) {
      ItemsEntries(items[1..], dir, le, path);
      var i :| 0 <= i < |items[1..]| && path in EntriesOf(items[1..][i]) && Under(items[1..][i].path, path);
      OwnerUnique(items, dir, le, item, items[i + 1], path);
      EntriesInclude(items[1..], dir, le, item, path);
    } else if item != items[0] {
      assert item in items[1..];
      EntriesInclude(items[1..], dir, le, item, path);
    }
  }
}
