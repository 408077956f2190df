/** Relative file paths of a collection directory: apifn/collections/src/reader.ts, writer.ts. */
module CollectionPaths {
  import opened Text

  /** The prefix that the paths below a directory share; the root directory is "". */
  function Prefix(dir: string): string {
    if dir == "" then "" else dir + "/"
  }

  /** `path` is `dir` or lies below it. */
  predicate Under(dir: string, path: string) {
    path == dir || dir + "/" <= path
  }

  /** `s.split("/")[0]` */
  function FirstSegment(s: string): (r: string)
    ensures r <= s && Free(r, '/')
    ensures r == s || s[|r|] == '/'
  {
    var i := IndexOf(s, '/', 0);
    FirstSegmentFree(s);
    if i < 0 then s else s[..i]
  }

  lemma {:induction false} FirstSegmentFree(s: string)
    ensures var i := IndexOf(s, '/', 0); Free(if i < 0 then s else s[..i], '/')
  {
    var i := IndexOf(s, '/', 0);
    var r := if i < 0 then s else s[..i];
    forall k | 0 <= k < |r|
      ensures r[k] != '/'
    {
      assert !CharAt(s, '/', k);
    }
  }

  /** The first segment is the only slash-free text that a slash, or the end, follows. */
  lemma FirstSegmentIs(s: string, r: string)
    requires r <= s && Free(r, '/') && (r == s || s[|r|] == '/')
    ensures FirstSegment(s) == r
  {
    var f := FirstSegment(s);
    assert forall k :: 0 <= k < |f| ==> s[k] == f[k];
    assert forall k :: 0 <= k < |r| ==> s[k] == r[k];
  }

  /** The index of the last slash, or -1. */
  function LastSlash(s: string): (r: int)
    ensures -1 <= r < |s| && (r >= 0 ==> s[r] == '/')
    ensures forall k :: r < k < |s| ==> s[k] != '/'
  {
    if s == "" then -1
    else if s[|s| - 1] == '/' then |s| - 1
    else LastSlash(s[..|s| - 1])
  }

  function Basename(path: string): string {
    path[LastSlash(path) + 1..]
  }

  /** The directory of a file, with "" for the root. */
  function Dirname(path: string): string {
    if LastSlash(path) < 0 then "" else path[..LastSlash(path)]
  }

  lemma BasenameOf(dir: string, name: string)
    requires Free(name, '/')
    ensures Basename(Prefix(dir) + name) == name && Dirname(Prefix(dir) + name) == dir
  {
    hide LastSlash;
    var path := Prefix(dir) + name;
    assert forall k :: |Prefix(dir)| <= k < |path| ==> path[k] == name[k - |Prefix(dir)|];
    if dir != "" {
      assert path[|dir|] == '/';
    }
  }

  predicate IsYml(path: string) {
    EndsWith(path, ".yml") || EndsWith(path, ".yaml")
  }

  /** The base name without its extension. */
  function Stem(path: string): string {
    var base := Basename(path);
    if EndsWith(base, ".yml") then base[..|base| - 4]
    else if EndsWith(base, ".yaml") then base[..|base| - 5]
    else base
  }

  /** The files that the reader's pattern selects: YAML files with no segment that starts with a dot. */
  predicate Selected(path: string) {
    IsYml(path) && forall k :: 0 <= k < |path| && path[k] == '.' ==> k > 0 && path[k - 1] != '/'
  }

  // ---- Path checks of the writer ----

  predicate IsSeparator(c: char) {
    c == '/' || c == '\\'
  }

  /** `path.split(/[\\/]+/)` */
  function Split(path: string): (parts: seq<string>)
    ensures |parts| > 0
  {
    if path == "" then [""]
    else if IsSeparator(path[0]) then
      if |path| > 1 && IsSeparator(path[1]) then Split(path[1..]) else [""] + Split(path[1..])
    else
      var rest := Split(path[1..]);
      [[path[0]] + rest[0]] + rest[1..]
  }

  function Join(parts: seq<string>): string
    requires |parts| > 0
  {
    if |parts| == 1 then parts[0] else parts[0] + "/" + Join(parts[1..])
  }

  /** The path below the root that a relative path is resolved to, unless the writer refuses it. */
  function SafePath(path: string): Option<string> {
    if path == "" || path[0] == '/' then None
    else
      var parts := Split(path);
      if "" in parts || "." in parts || ".." in parts || StartsWith(parts[0], "..") then None
      else Some(Join(parts))
  }

  predicate SafeChar(c: char) {
    'A' <= c <= 'Z' || 'a' <= c <= 'z' || '0' <= c <= '9' || c == '.' || c == '_' || c == '-'
  }

  predicate SafeFileStem(name: string) {
    name != "" && (forall k :: 0 <= k < |name| ==> SafeChar(name[k])) && name != "." && name != ".."
  }

  // ---- Paths that the writer keeps as they are ----

  predicate GoodSegment(s: string) {
    s != "" && s[0] != '.' && Free(s, '/') && Free(s, '\\')
  }

  /** Good segments joined by single slashes. */
  predicate GoodPath(path: string) {
    && path != "" && path[|path| - 1] != '/' && Free(path, '\\')
    && forall k :: 0 <= k < |path| && (path[k] == '/' || path[k] == '.') ==> k > 0 && path[k - 1] != '/'
  }

  lemma GoodChild(dir: string, name: string)
    requires (dir == "" || GoodPath(dir)) && GoodSegment(name)
    ensures GoodPath(Prefix(dir) + name)
  {
  }

  /** The writer resolves a good path to itself. */
  lemma GoodPathSafe(path: string)
    requires GoodPath(path)
    ensures SafePath(path) == Some(path)
  {
    SplitJoin(path);
    SplitParts(path);
    var parts := Split(path);
    assert Part(parts[0]);
    forall part | part in parts
      ensures Part(part)
    {
      var i :| 0 <= i < |parts| && parts[i] == part;
    }
  }

  /** A segment as the writer wants it: not empty and with no leading dot. */
  predicate Part(s: string) {
    s != "" && s[0] != '.'
  }

  lemma {:induction false} SplitJoin(s: string)
    requires Free(s, '\\') && forall k :: 1 <= k < |s| && s[k] == '/' ==> s[k - 1] != '/'
    ensures Join(Split(s)) == s
    decreases |s|
  {
    if s != "" {
      var rest := Split(s[1..]);
      SplitJoin(s[1..]);
      assert s == [s[0]] + s[1..];
      if s[0] == '/' {
        assert ([""] + rest)[1..] == rest;
      } else {
        assert ([[s[0]] + rest[0]] + rest[1..])[1..] == rest[1..];
      }
    }
  }

  lemma {:induction false} SplitParts(s: string)
    requires s != "" && s[|s| - 1] != '/' && Free(s, '\\')
    requires forall k :: 1 <= k < |s| && (s[k] == '/' || s[k] == '.') ==> s[k - 1] != '/'
    ensures s[0] != '/' ==> Split(s)[0] != "" && Split(s)[0][0] == s[0]
    ensures forall i :: 1 <= i < |Split(s)| ==> Part(Split(s)[i])
    decreases |s|
  {
    if |s| > 1 {
      SplitParts(s[1..]);
    }
  }
}
