/** The files that the writer leaves for a generated collection, also when it stops early. */
module GeneratedFiles {
  import opened Text
  import opened Collections
  import opened CollectionPaths
  import opened CollectionReader
  import opened CollectionReread
  import opened CollectionWriter
  import opened OpenApi
  import opened Generator

  // ---- Names of files ----

  lemma FileNameShape(tools: Tools, r: Record)
    requires r.verb in HTTP_METHODS
    ensures FileStem(tools, r) != "" && Slug(FileStem(tools, r))
    ensures GoodSegment(FileName(tools, r)) && EndsWith(FileName(tools, r), ".yml")
  {
    var fallback := Slugify(tools, WithoutBraces(r.path));
    SlugifyShape(tools, RequestName(tools, r));
    SlugifyShape(tools, WithoutBraces(r.path));
    VerbShape(r.verb);
    StemShape(r.verb, if fallback != "" then fallback else "root");
    YmlShape(FileStem(tools, r));
    hide Slugify, RequestName, WithoutBraces;
  }

  lemma StemShape(verb: string, tail: string)
    requires verb != "" && Slug(verb) && Slug(tail)
    ensures Slug(verb + "-" + tail)
  {
  }

  lemma YmlShape(stem: string)
    ensures EndsWith(stem + ".yml", ".yml")
    ensures stem != "" && Slug(stem) ==> GoodSegment(stem + ".yml")
  {
    var file := stem + ".yml";
    assert forall k :: 0 <= k < |stem| ==> file[k] == stem[k];
    assert file[|file| - 4..] == ".yml";
  }

  lemma VerbShape(verb: string)
    requires verb in HTTP_METHODS
    ensures verb != "" && Slug(verb)
  {
  }

  // ---- Paths of files ----

  /** A file in a directory below the root whose name has neither slashes nor dots. */
  ghost predicate Shape(file: string, dir: string, stem: string) {
    dir != "" && Slug(dir) && SafeFileStem(stem) && file == dir + "/" + (stem + ".yml")
  }

  ghost predicate Shaped(file: string) {
    file == ROOT_FILE || exists dir, stem :: Shape(file, dir, stem)
  }

  lemma ShapeText(file: string, dir: string, stem: string)
    requires Shape(file, dir, stem)
    ensures 0 < |dir| < |file| - 5 && file[|dir|] == '/' && file[|dir| + 1] == stem[0]
    ensures forall k :: 0 <= k < |dir| ==> Plain(file[k]) && file[k] != '.'
    ensures forall k :: |dir| < k < |file| ==> Plain(file[k])
    ensures file[|file| - 4] == '.'
  {
    assert forall k :: 0 <= k < |dir| ==> file[k] == dir[k];
    assert forall k :: |dir| < k <= |dir| + |stem| ==> file[k] == stem[k - |dir| - 1];
    assert forall k :: |dir| + |stem| < k < |file| ==> file[k] == ".yml"[k - |dir| - |stem| - 1];
  }

  predicate Plain(c: char) {
    c != '/' && c != '\\'
  }

  lemma ShapeStem(file: string, dir: string, stem: string)
    requires Shape(file, dir, stem)
    ensures Stem(file) == stem
  {
    var name := stem + ".yml";
    YmlShape(stem);
    hide LastSlash, Basename, Dirname;
    assert Free(name, '/');
    BasenameOf(dir, name);
    assert file == Prefix(dir) + name;
    assert name[..|name| - 4] == stem;
  }

  /** One slash at most, no dot before it, and a dot before the extension. */
  ghost predicate Flattened(file: string) {
    && |file| >= 4 && file[|file| - 4] == '.' && file[|file| - 1] != '/'
    && (forall i, k :: 0 <= k < i < |file| && file[i] == '/' ==> file[k] != '.' && file[k] != '/')
    && (forall i :: 0 <= i < |file| ==> file[i] != '\\')
    && file[0] != '/'
  }

  lemma ShapedText(file: string)
    requires Shaped(file)
    ensures Flattened(file)
  {
    if file != ROOT_FILE {
      var dir, stem :| Shape(file, dir, stem);
      ShapeText(file, dir, stem);
      hide Shape;
    }
  }

  lemma FlattenedGood(file: string)
    requires Flattened(file) && Selected(file)
    ensures GoodPath(file)
  {
    hide IsYml;
  }

  lemma SelectedGood(file: string)
    requires Shaped(file) && Selected(file)
    ensures GoodPath(file)
    ensures StartsWith(file, ENVIRONMENTS) ==> SafeFileStem(Stem(file)) && Stem(file)[0] != '.'
  {
    ShapedText(file);
    FlattenedGood(file);
    hide Stem, Flattened, GoodPath, IsYml;
    if file != ROOT_FILE {
      var dir, stem :| Shape(file, dir, stem);
      ShapeText(file, dir, stem);
      ShapeStem(file, dir, stem);
    }
  }

  lemma PrefixChars(p: string, q: string)
    requires |p| >= 4 && p + "/" <= q
    ensures |p| < |q| && q[|p|] == '/' && q[|p| - 4] == p[|p| - 4]
  {
    assert q[|p|] == (p + "/")[|p|];
    assert q[|p| - 4] == (p + "/")[|p| - 4];
  }

  /** No file is also a directory. */
  lemma NotBelow(p: string, q: string)
    requires Shaped(p) && Shaped(q)
    ensures !(p + "/" <= q)
  {
    ShapedText(p);
    ShapedText(q);
    hide Shaped;
    if p + "/" <= q {
      PrefixChars(p, q);
    }
  }

  /** Files of this shape and the root file, with this document in the latter. */
  ghost predicate ShapedFiles(files: Files, root: Doc) {
    ROOT_FILE in files && files[ROOT_FILE] == root && forall file :: file in files ==> Shaped(file)
  }

  lemma ShapedPlain(files: Files, root: Doc)
    requires ShapedFiles(files, root) && root.description != Some("") && root.version != Some("")
    ensures PlainDirectory(files)
  {
    hide Shaped, Selected, GoodPath, Stem, StartsWith;
    forall p | p in files && Selected(p)
      ensures GoodPath(p) && (StartsWith(p, ENVIRONMENTS) ==> SafeFileStem(Stem(p)) && Stem(p)[0] != '.')
    {
      SelectedGood(p);
    }
    forall p, q | p in files && q in files
      ensures !(p + "/" <= q)
    {
      NotBelow(p, q);
    }
  }

  lemma Adds(files: Files, root: Doc, dir: string, stem: string, doc: Doc)
    requires ShapedFiles(files, root) && dir != "" && Slug(dir) && SafeFileStem(stem)
    ensures ShapedFiles(files[dir + "/" + (stem + ".yml") := doc], root)
  {
    var file := dir + "/" + (stem + ".yml");
    assert Shape(file, dir, stem);
    ShapeText(file, dir, stem);
    assert Free(ROOT_FILE, '/');
  }

  lemma SlugSafe(stem: string)
    requires stem != "" && Slug(stem)
    ensures SafeFileStem(stem) && GoodPath(stem) && GoodSegment(stem)
  {
  }

  // ---- What the writer makes of a generated collection ----

  /** A folder of requests only, by names of the right kind. */
  ghost predicate Flat(item: Item) {
    item.Folder? && Slug(item.path) && forall x :: x in item.children ==> FlatRequest(x, item.path)
  }

  ghost predicate FlatRequest(item: Item, dir: string) {
    && item.RequestItem? && item.request.Some?
    && exists stem :: stem != "" && Slug(stem) && item.path == dir + "/" + (stem + ".yml")
  }

  lemma {:induction false} RequestShaped(files: Files, root: Doc, item: Item, dir: string)
    requires ShapedFiles(files, root) && dir != "" && Slug(dir) && FlatRequest(item, dir)
    ensures ShapedFiles(AfterItem(files, item).0, root)
  {
    hide ShapedFiles, SafePath, Slug, GoodPath, GoodSegment, SafeFileStem;
    var stem :| stem != "" && Slug(stem) && item.path == dir + "/" + (stem + ".yml");
    SlugSafe(dir);
    SlugSafe(stem);
    YmlShape(stem);
    GoodChild(dir, stem + ".yml");
    assert item.path == Prefix(dir) + (stem + ".yml");
    GoodPathSafe(item.path);
    Adds(files, root, dir, stem, RequestDoc(item.request.value));
  }

  lemma {:induction false} RequestsShaped(files: Files, root: Doc, items: seq<Item>, dir: string)
    requires ShapedFiles(files, root) && dir != "" && Slug(dir) && forall x :: x in items ==> FlatRequest(x, dir)
    ensures ShapedFiles(AfterItems(files, items).0, root)
    decreases items
  {
    hide ShapedFiles, Slug, FlatRequest, AfterItem;
    if items != [] {
      RequestShaped(files, root, items[0], dir);
      RequestsShaped(AfterItem(files, items[0]).0, root, items[1..], dir);
    }
  }

  lemma {:induction false} FolderShaped(files: Files, root: Doc, item: Item)
    requires ShapedFiles(files, root) && Flat(item)
    ensures ShapedFiles(AfterItem(files, item).0, root)
  {
    hide ShapedFiles, SafePath, Slug, FlatRequest, GoodPath, AfterItems, GoodSegment;
    if item.path == "" {
      EmptyPath();
    } else {
      SlugSafe(item.path);
      GoodPathSafe(item.path);
      var doc := FolderDoc(item.name, item.order);
      Adds(files, root, item.path, "folder", doc) by {
        assert SafeFileStem("folder");
      }
      assert item.path + "/" + ("folder" + ".yml") == item.path + "/folder.yml" by {
        assert "/" + ("folder" + ".yml") == "/folder.yml";
        assert item.path + "/" + ("folder" + ".yml") == item.path + ("/" + ("folder" + ".yml"));
      }
      RequestsShaped(files[item.path + "/folder.yml" := doc], root, item.children, item.path);
    }
  }

  lemma EmptyPath()
    ensures SafePath("") == None
  {
  }

  lemma {:induction false} FoldersShaped(files: Files, root: Doc, items: seq<Item>)
    requires ShapedFiles(files, root) && forall x :: x in items ==> Flat(x)
    ensures ShapedFiles(AfterItems(files, items).0, root)
    decreases items
  {
    hide ShapedFiles, Flat, AfterItem;
    if items != [] {
      FolderShaped(files, root, items[0]);
      FoldersShaped(AfterItem(files, items[0]).0, root, items[1..]);
    }
  }

  lemma {:induction false} EnvironmentsShaped(files: Files, root: Doc, environments: map<string, Environment>, names: seq<string>)
    requires ShapedFiles(files, root) && forall n :: n in names ==> n in environments
    ensures ShapedFiles(AfterEnvironments(files, environments, names).0, root)
    decreases names
  {
    hide ShapedFiles, SafeFileStem;
    if names != [] && SafeFileStem(names[0]) {
      var doc := EnvironmentDoc(environments[names[0]]);
      Adds(files, root, "environments", names[0], doc);
      assert "environments" + "/" + (names[0] + ".yml") == EnvironmentPath(names[0]);
      EnvironmentsShaped(files[EnvironmentPath(names[0]) := doc], root, environments, names[1..]);
    }
  }

  /** A collection of flat folders leaves a plain directory, wherever the writer stops. */
  lemma FlatPlain(c: Collection, names: seq<string>)
    requires c.rootDir != "" && (forall n :: n in names ==> n in c.environments) && forall x :: x in c.items ==> Flat(x)
    ensures PlainDirectory(AfterCollection(map[], c, names).0)
  {
    var root := RootDoc(c.info);
    var start: Files := map[ROOT_FILE := root];
    assert ShapedFiles(start, root);
    hide ShapedFiles, Flat, PlainDirectory, AfterItems, AfterEnvironments;
    EnvironmentsShaped(start, root, c.environments, names);
    var env := AfterEnvironments(start, c.environments, names).0;
    FoldersShaped(env, root, c.items);
    ShapedPlain(AfterCollection(map[], c, names).0, root);
  }
}
