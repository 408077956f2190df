/**
 * Which paths the writer refuses, and that nothing it writes lies outside the root directory. Segments are
 * named here by the slashes and backslashes around them.
 */
module CollectionContainment {
  import opened Text
  import opened Collections
  import opened CollectionPaths
  import opened CollectionReader
  import opened CollectionWriter

  // ---- Segments of a path ----

  /** The text `x` stands at index `i`, between separators or the ends of the path. */
  predicate SegmentAt(path: string, i: int, x: string) {
    && 0 <= i <= i + |x| <= |path| && path[i..i + |x|] == x
    && (i == 0 || IsSeparator(path[i - 1])) && (i + |x| == |path| || IsSeparator(path[i + |x|]))
  }

  ghost predicate HasSegment(path: string, x: string) {
    exists i :: SegmentAt(path, i, x)
  }

  /** An absolute path, a path with a segment that is empty, "." or "..", or one that starts with "..". */
  ghost predicate Unsafe(path: string) {
    || path == "" || IsSeparator(path[0]) || IsSeparator(path[|path| - 1])
    || HasSegment(path, ".") || HasSegment(path, "..") || (|path| >= 2 && path[..2] == "..")
  }

  /** The path with one slash for each run of separators. */
  function Normalized(path: string): string {
    if path == "" then ""
    else if !IsSeparator(path[0]) then [path[0]] + Normalized(path[1..])
    else if |path| > 1 && IsSeparator(path[1]) then Normalized(path[1..])
    else "/" + Normalized(path[1..])
  }

  predicate Unseparated(s: string) {
    forall k :: 0 <= k < |s| ==> !IsSeparator(s[k])
  }

  /** The first part is what stands before the first separator. */
  lemma {:induction false} FirstPart(path: string)
    ensures var part := Split(path)[0];
            part <= path && Unseparated(part) && (part == path || IsSeparator(path[|part|]))
    decreases |path|
  {
    if path != "" {
      FirstPart(path[1..]);
      if !IsSeparator(path[0]) {
        assert path == [path[0]] + path[1..];
      }
    }
  }

  /** A separator-free text at the start of the path is the first part. */
  lemma {:induction false} FirstPartIs(path: string, x: string)
    requires Unseparated(x)
    ensures SegmentAt(path, 0, x) <==> Split(path)[0] == x
  {
    FirstPart(path);
    var part := Split(path)[0];
    hide Split;
    assert forall k :: 0 <= k < |part| ==> path[k] == part[k];
    assert path[0..|part|] == part;
    if SegmentAt(path, 0, x) {
      assert forall k :: 0 <= k < |x| ==> path[k] == x[k];
      assert |x| == |part|;
    }
  }

  /** Segments further on are those of the path without its first character. */
  lemma SegmentShifts(path: string, i: int, x: string)
    requires path != "" && i >= 1 && x != "" && Unseparated(x)
    ensures SegmentAt(path, i, x) <==>
            SegmentAt(path[1..], i - 1, x) && (i == 1 ==> IsSeparator(path[0]))
  {
    if 0 <= i <= i + |x| <= |path| {
      RestSlice(path, i, i + |x|);
    }
  }

  lemma RestSlice(path: string, from: int, to: int)
    requires 1 <= from <= to <= |path|
    ensures path[1..][from - 1..to - 1] == path[from..to]
  {
  }

  lemma {:induction false} LaterParts(path: string, x: string)
    requires x != "" && Unseparated(x)
    ensures x in Split(path)[1..] <==> exists i :: i >= 1 && SegmentAt(path, i, x)
    decreases |path|
  {
    if path == "" {
      assert [""][1..] == [];
    } else {
      var rest := path[1..];
      LaterParts(rest, x);
      FirstPartIs(rest, x);
      forall i | i >= 1
        ensures SegmentAt(path, i, x) <==> SegmentAt(rest, i - 1, x) && (i == 1 ==> IsSeparator(path[0]))
      {
        SegmentShifts(path, i, x);
      }
      LaterPartsStep(path, x);
    }
  }

  lemma {:induction false} LaterPartsStep(path: string, x: string)
    requires path != "" && x != "" && Unseparated(x)
    requires x in Split(path[1..])[1..] <==> exists i :: i >= 1 && SegmentAt(path[1..], i, x)
    requires SegmentAt(path[1..], 0, x) <==> Split(path[1..])[0] == x
    requires forall i :: i >= 1 ==>
               (SegmentAt(path, i, x) <==> SegmentAt(path[1..], i - 1, x) && (i == 1 ==> IsSeparator(path[0])))
    ensures x in Split(path)[1..] <==> exists i :: i >= 1 && SegmentAt(path, i, x)
  {
    SplitStep(path);
    NoneAtSeparator(path[1..], x);
    SegmentsShift(path, x);
    hide Split, SegmentAt;
    var parts := Split(path[1..]);
    assert parts == [parts[0]] + parts[1..];
    assert x in parts <==> SegmentAt(path[1..], 0, x) || exists i :: i >= 1 && SegmentAt(path[1..], i, x);
  }

  lemma NoneAtSeparator(path: string, x: string)
    requires x != "" && Unseparated(x)
    ensures path != "" && IsSeparator(path[0]) ==> !SegmentAt(path, 0, x)
  {
    if SegmentAt(path, 0, x) {
      assert path[0] == path[0..|x|][0];
    }
  }

  lemma SegmentsShift(path: string, x: string)
    requires path != "" && forall i :: i >= 1 ==>
               (SegmentAt(path, i, x) <==> SegmentAt(path[1..], i - 1, x) && (i == 1 ==> IsSeparator(path[0])))
    ensures (exists i :: i >= 1 && SegmentAt(path, i, x)) <==>
            || (IsSeparator(path[0]) && SegmentAt(path[1..], 0, x))
            || exists j :: j >= 1 && SegmentAt(path[1..], j, x)
  {
    hide SegmentAt;
    if j :| j >= 1 && SegmentAt(path[1..], j, x) {
      assert SegmentAt(path, j + 1, x);
    }
    if IsSeparator(path[0]) && SegmentAt(path[1..], 0, x) {
      assert SegmentAt(path, 1, x);
    }
  }

  lemma {:induction false} SplitStep(path: string)
    requires path != ""
    ensures
      var parts := Split(path[1..]);
      Split(path)[1..] == if IsSeparator(path[0]) && !(|path| > 1 && IsSeparator(path[1])) then parts else parts[1..]
  {
  }

  /** The separator-free texts between separators are the parts. */
  lemma {:induction false} PartsAreSegments(path: string, x: string)
    requires x != "" && Unseparated(x)
    ensures x in Split(path) <==> HasSegment(path, x)
  {
    LaterParts(path, x);
    FirstPartIs(path, x);
    var parts := Split(path);
    hide Split, SegmentAt;
    assert parts == [parts[0]] + parts[1..];
    if i :| SegmentAt(path, i, x) {
      assert i >= 0 by { SegmentIndex(path, i, x); }
    }
  }

  lemma SegmentIndex(path: string, i: int, x: string)
    requires SegmentAt(path, i, x)
    ensures 0 <= i <= i + |x| <= |path|
  {
  }

  /** A part is empty exactly at the ends: runs of separators count as one. */
  lemma {:induction false} EmptyParts(path: string)
    ensures "" in Split(path) <==> path == "" || IsSeparator(path[0]) || IsSeparator(path[|path| - 1])
  {
    EmptyLater(path);
    var parts := Split(path);
    assert parts == [parts[0]] + parts[1..];
  }

  lemma {:induction false} EmptyLater(path: string)
    ensures "" in Split(path)[1..] <==> path != "" && IsSeparator(path[|path| - 1])
    ensures Split(path)[0] == "" <==> path == "" || IsSeparator(path[0])
    decreases |path|
  {
    if path != "" {
      EmptyLater(path[1..]);
      SplitStep(path);
      var parts := Split(path[1..]);
      assert parts == [parts[0]] + parts[1..];
    }
  }

  lemma {:induction false} JoinNormalizes(path: string)
    ensures Join(Split(path)) == Normalized(path)
    decreases |path|
  {
    if path != "" {
      JoinNormalizes(path[1..]);
      var parts := Split(path[1..]);
      if IsSeparator(path[0]) {
        assert ([""] + parts)[1..] == parts;
      } else {
        assert ([[path[0]] + parts[0]] + parts[1..])[1..] == parts[1..];
      }
    }
  }

  /** The path check refuses exactly the unsafe paths, and resolves the others to their normal form. */
  lemma {:induction false} SafePathExact(path: string)
    ensures SafePath(path) == if Unsafe(path) then None else Some(Normalized(path))
  {
    PartsAreSegments(path, ".");
    PartsAreSegments(path, "..");
    EmptyParts(path);
    JoinNormalizes(path);
    FirstPart(path);
    DotsFirst(path, Split(path)[0]);
    hide Split, Join, Normalized, HasSegment;
  }

  lemma DotsFirst(path: string, part: string)
    requires part <= path && Unseparated(part) && (part == path || IsSeparator(path[|part|]))
    ensures StartsWith(part, "..") <==> |path| >= 2 && path[..2] == ".."
  {
    assert forall k :: 0 <= k < |part| ==> path[k] == part[k];
    if |path| >= 2 && path[..2] == ".." {
      assert path[0] == path[..2][0] && path[1] == path[..2][1];
      assert |part| >= 2;
      assert part[..2] == "..";
    }
  }

  // ---- Paths of written files ----

  /** A path below the root: not empty, not absolute, and no segment between slashes leaves or repeats a directory. */
  ghost predicate Contained(file: string) {
    && file != "" && Free(file, '\\')
    && forall i, x :: SegmentAt(file, i, x) ==> x !in ["", ".", ".."]
  }

  /** The normal form has its separators where the path has them, all of them slashes and none beside another. */
  lemma {:induction false} NormalShape(path: string)
    ensures Free(Normalized(path), '\\')
    ensures path == "" <==> Normalized(path) == ""
    ensures path != "" ==> (IsSeparator(Normalized(path)[0]) <==> IsSeparator(path[0]))
    ensures path != "" && !IsSeparator(path[0]) ==> Normalized(path)[0] == path[0]
    ensures path != "" ==> (IsSeparator(Normalized(path)[|Normalized(path)| - 1]) <==> IsSeparator(path[|path| - 1]))
    ensures NoneTwice(Normalized(path))
    decreases |path|
  {
    if path != "" {
      NormalShape(path[1..]);
      var rest := Normalized(path[1..]);
      if !IsSeparator(path[0]) {
        assert Normalized(path) == [path[0]] + rest;
        hide Normalized;
        HeadAdded(path[0], rest);
      } else if |path| > 1 && IsSeparator(path[1]) {
        assert Normalized(path) == rest;
        hide Normalized, NoneTwice;
      } else {
        assert Normalized(path) == ['/'] + rest;
        hide Normalized;
        HeadAdded('/', rest);
      }
    }
  }

  /** No separator beside another. */
  predicate NoneTwice(s: string) {
    forall k :: 0 <= k < |s| - 1 ==> !(IsSeparator(s[k]) && IsSeparator(s[k + 1]))
  }

  lemma HeadAdded(c: char, rest: string)
    requires Free(rest, '\\') && c != '\\' && NoneTwice(rest) && !(c == '/' && rest != "" && IsSeparator(rest[0]))
    ensures Free([c] + rest, '\\') && NoneTwice([c] + rest)
  {
    var s := [c] + rest;
    assert forall k :: 0 < k < |s| ==> s[k] == rest[k - 1];
  }

  /** Segments do not change in the normal form. */
  lemma {:induction false} NormalSplit(path: string)
    ensures Split(Normalized(path)) == Split(path)
    decreases |path|
  {
    if path != "" {
      NormalSplit(path[1..]);
      NormalShape(path[1..]);
      var rest := Normalized(path[1..]);
      if !IsSeparator(path[0]) {
        assert ([path[0]] + rest)[1..] == rest;
      } else if !(|path| > 1 && IsSeparator(path[1])) {
        assert ("/" + rest)[1..] == rest;
        assert |path| > 1 ==> !IsSeparator(rest[0]);
      }
    }
  }

  lemma NoEmptySegment(file: string, i: int)
    requires file != "" && !IsSeparator(file[0]) && !IsSeparator(file[|file| - 1])
    requires forall k :: 0 <= k < |file| - 1 ==> !(IsSeparator(file[k]) && IsSeparator(file[k + 1]))
    ensures !SegmentAt(file, i, "")
  {
  }

  lemma {:induction false} NormalContained(path: string)
    requires !Unsafe(path)
    ensures Contained(Normalized(path))
  {
    var file := Normalized(path);
    NormalShape(path);
    NormalSplit(path);
    PartsAreSegments(path, ".");
    PartsAreSegments(path, "..");
    PartsAreSegments(file, ".");
    PartsAreSegments(file, "..");
    hide Split, Normalized, SegmentAt;
    forall i
      ensures !SegmentAt(file, i, "")
    {
      NoEmptySegment(file, i);
    }
  }

  /** A file of an extension in a contained directory is contained. */
  lemma FileContained(dir: string, name: string)
    requires Contained(dir) && name != "" && name !in [".", ".."] && Unseparated(name)
    ensures Contained(dir + "/" + name)
  {
    var file := dir + "/" + name;
    assert file[|dir|] == '/';
    assert forall k :: 0 <= k < |dir| ==> file[k] == dir[k];
    assert forall k :: |dir| < k < |file| ==> file[k] == name[k - |dir| - 1];
    forall i, x | SegmentAt(file, i, x)
      ensures x !in ["", ".", ".."]
    {
      if x in ["", ".", ".."] {
        SegmentSide(dir, name, i, x);
      }
    }
  }

  /** A separator-free segment lies on one side of a slash. */
  lemma SegmentSide(dir: string, name: string, i: int, x: string)
    requires Unseparated(name) && Unseparated(x) && SegmentAt(dir + "/" + name, i, x)
    ensures SegmentAt(dir, i, x) || (i == |dir| + 1 && x == name)
  {
    var file := dir + "/" + name;
    assert file[|dir|] == '/';
    assert forall k :: 0 <= k < |x| ==> file[i + k] == x[k];
    if i <= |dir| {
      assert i + |x| <= |dir|;
      assert dir[i..i + |x|] == x;
    } else {
      assert i == |dir| + 1;
      assert file[i..i + |x|] == name[..|x|];
    }
  }

  // ---- What the writer refuses, and what it writes ----

  /** Every file that is new or has changed is below the root. */
  ghost predicate Inside(before: Files, after: Files) {
    && (forall file :: file in before ==> file in after)
    && (forall file :: file in after && (file !in before || after[file] != before[file]) ==> Contained(file))
  }

  /** An item is refused for its own path exactly if that is unsafe, and then no file has changed. */
  lemma {:induction false} WriterRefuses(files: Files, item: Item)
    ensures AfterItem(files, item).1 == UnsafePath(item.path) <==> Unsafe(item.path) && (item.RequestItem? ==> item.request.Some?)
    ensures Unsafe(item.path) ==> AfterItem(files, item).0 == files
  {
    SafePathExact(item.path);
    hide SafePath, Unsafe, Normalized, AfterItems;
    match item
    case Folder(name, path, children, order) =>
      if !Unsafe(path) {
        RefusedAreUnsafe(files[Normalized(path) + "/folder.yml" := FolderDoc(name, order)], children);
      }
    case _ =>
  }

  lemma {:induction false} RefusedAreUnsafe(files: Files, items: seq<Item>)
    ensures var status := AfterItems(files, items).1; status.UnsafePath? ==> Unsafe(status.path)
    decreases items, 0
  {
    hide SafePath, Unsafe, AfterItem;
    if items != [] {
      RefusedIsUnsafe(files, items[0]);
      RefusedAreUnsafe(AfterItem(files, items[0]).0, items[1..]);
    }
  }

  lemma {:induction false} RefusedIsUnsafe(files: Files, item: Item)
    ensures var status := AfterItem(files, item).1; status.UnsafePath? ==> Unsafe(status.path)
    decreases item, 1
  {
    SafePathExact(item.path);
    hide SafePath, Unsafe, Normalized, AfterItems;
    if item.Folder? && !Unsafe(item.path) {
      RefusedAreUnsafe(files[Normalized(item.path) + "/folder.yml" := FolderDoc(item.name, item.order)], item.children);
    }
  }

  lemma InsideThen(a: Files, b: Files, c: Files)
    requires Inside(a, b) && Inside(b, c)
    ensures Inside(a, c)
  {
    hide Contained;
  }

  lemma InsideAdds(files: Files, file: string, doc: Doc)
    requires Contained(file)
    ensures Inside(files, files[file := doc])
  {
    hide Contained;
  }

  /** Writing an item, a request or a folder of any depth, changes only files below the root. */
  lemma {:induction false} ItemInside(files: Files, item: Item)
    ensures Inside(files, AfterItem(files, item).0)
    decreases item, 1
  {
    SafePathExact(item.path);
    if !Unsafe(item.path) {
      NormalContained(item.path);
      var path := Normalized(item.path);
      hide SafePath, Unsafe, Normalized, Contained, AfterItems, Inside;
      match item
      case RequestItem(_, _, request, _) =>
        if request.Some? {
          InsideAdds(files, path, RequestDoc(request.value));
        } else {
          InsideSame(files);
        }
      case Folder(name, _, children, order) =>
        var more := files[path + "/folder.yml" := FolderDoc(name, order)];
        assert AfterItem(files, item).0 == AfterItems(more, children).0;
        hide AfterItem;
        FolderInside(files, path, FolderDoc(name, order));
        ItemsInside(more, children);
        InsideThen(files, more, AfterItems(more, children).0);
    } else {
      InsideSame(files);
    }
  }

  lemma FolderInside(files: Files, dir: string, doc: Doc)
    requires Contained(dir)
    ensures Inside(files, files[dir + "/folder.yml" := doc])
  {
    hide Contained;
    FileContained(dir, "folder.yml");
    FolderText(dir);
    InsideAdds(files, dir + "/folder.yml", doc);
  }

  lemma FolderText(path: string)
    ensures path + "/" + "folder.yml" == path + "/folder.yml"
  {
    assert "/" + "folder.yml" == "/folder.yml";
    assert path + "/" + "folder.yml" == path + ("/" + "folder.yml");
  }

  lemma InsideSame(files: Files)
    ensures Inside(files, files)
  {
  }

  lemma {:induction false} ItemsInside(files: Files, items: seq<Item>)
    ensures Inside(files, AfterItems(files, items).0)
    decreases items, 0
  {
    hide Inside, AfterItem;
    if items == [] {
      InsideSame(files);
    } else {
      ItemInside(files, items[0]);
      var first := AfterItem(files, items[0]).0;
      ItemsInside(first, items[1..]);
      InsideThen(files, first, AfterItems(first, items[1..]).0);
    }
  }

  // ---- Environments, and the whole collection ----

  const UPPER := "ABCDEFGHIJKLMNOPQRSTUVWXYZ"
  const LOWER := "abcdefghijklmnopqrstuvwxyz"
  const DIGITS := "0123456789"

  /** The name of an environment as a file name: of these characters only, and neither of the two directories. */
  ghost predicate Legal(name: string) {
    name !in ["", ".", ".."] && forall k :: 0 <= k < |name| ==> name[k] in UPPER || name[k] in LOWER || name[k] in DIGITS || name[k] in "._-"
  }

  lemma Uppers(c: char)
    ensures 'A' <= c <= 'Z' <==> c in UPPER
  {
    Alphabet(UPPER, 'A', c);
  }

  lemma Lowers(c: char)
    ensures 'a' <= c <= 'z' <==> c in LOWER
  {
    Alphabet(LOWER, 'a', c);
  }

  lemma Digits(c: char)
    ensures '0' <= c <= '9' <==> c in DIGITS
  {
    Alphabet(DIGITS, '0', c);
  }

  /** Membership in a list of consecutive characters. */
  lemma Alphabet(list: string, first: char, c: char)
    requires list != "" && forall k :: 0 <= k < |list| ==> list[k] as int == first as int + k
    ensures first <= c <= list[|list| - 1] <==> c in list
  {
    if first <= c <= list[|list| - 1] {
      assert list[c as int - first as int] == c;
    }
  }

  lemma StemLegal(name: string)
    ensures SafeFileStem(name) <==> Legal(name)
  {
    forall k | 0 <= k < |name|
      ensures SafeChar(name[k]) <==> name[k] in UPPER || name[k] in LOWER || name[k] in DIGITS || name[k] in "._-"
    {
      Uppers(name[k]);
      Lowers(name[k]);
      Digits(name[k]);
      hide UPPER, LOWER, DIGITS;
    }
    hide SafeChar, UPPER, LOWER, DIGITS;
  }

  /** The environments are all written exactly if their names are legal; else the first illegal name is refused. */
  lemma {:induction false} EnvironmentsRefuse(files: Files, environments: map<string, Environment>, names: seq<string>)
    requires forall n :: n in names ==> n in environments
    ensures
      var status := AfterEnvironments(files, environments, names).1;
      if forall i :: 0 <= i < |names| ==> Legal(names[i]) then status == Written
      else exists i :: 0 <= i < |names| && !Legal(names[i]) && (forall j :: 0 <= j < i ==> Legal(names[j])) && status == UnsafeName(names[i])
    decreases names
  {
    hide SafeFileStem, Legal;
    if names != [] {
      StemLegal(names[0]);
      if Legal(names[0]) {
        var rest := names[1..];
        EnvironmentsRefuse(files[EnvironmentPath(names[0]) := EnvironmentDoc(environments[names[0]])], environments, rest);
        assert forall i :: 0 <= i < |rest| ==> rest[i] == names[i + 1];
        if i :| 0 <= i < |rest| && !Legal(rest[i]) && forall j :: 0 <= j < i ==> Legal(rest[j]) {
          assert !Legal(names[i + 1]) && forall j :: 0 <= j < i + 1 ==> Legal(names[j]);
        }
      }
    }
  }

  lemma {:induction false} EnvironmentsInside(files: Files, environments: map<string, Environment>, names: seq<string>)
    requires forall n :: n in names ==> n in environments
    ensures Inside(files, AfterEnvironments(files, environments, names).0)
    decreases names
  {
    hide Inside;
    InsideSame(files);
    if names != [] && SafeFileStem(names[0]) {
      var doc := EnvironmentDoc(environments[names[0]]);
      var next := files[EnvironmentPath(names[0]) := doc];
      EnvironmentContained(names[0]);
      InsideAdds(files, EnvironmentPath(names[0]), doc);
      EnvironmentsInside(next, environments, names[1..]);
      InsideThen(files, next, AfterEnvironments(next, environments, names[1..]).0);
    }
  }

  lemma EnvironmentContained(name: string)
    requires SafeFileStem(name)
    ensures Contained(EnvironmentPath(name))
  {
    OneSegment("environments");
    FileContained("environments", name + ".yml");
    assert "environments" + "/" + (name + ".yml") == EnvironmentPath(name);
  }

  lemma OneSegment(name: string)
    requires name !in ["", ".", ".."] && Unseparated(name)
    ensures Contained(name)
  {
    forall i, x | SegmentAt(name, i, x)
      ensures x == name
    {
      assert i == 0 && |x| == |name| && name[0..|name|] == name;
    }
  }

  /** Writing a whole collection changes only files below its root directory, also when it stops early. */
  lemma CollectionInside(files: Files, c: Collection, names: seq<string>)
    requires forall n :: n in names ==> n in c.environments
    ensures Inside(files, AfterCollection(files, c, names).0)
  {
    InsideSame(files);
    if c.rootDir != "" {
      var start := files[ROOT_FILE := RootDoc(c.info)];
      OneSegment(ROOT_FILE);
      InsideAdds(files, ROOT_FILE, RootDoc(c.info));
      EnvironmentsInside(start, c.environments, names);
      var env := AfterEnvironments(start, c.environments, names).0;
      ItemsInside(env, c.items);
      hide Inside, AfterEnvironments, AfterItems;
      InsideThen(files, start, env);
      InsideThen(files, env, AfterItems(env, c.items).0);
    }
  }
}
