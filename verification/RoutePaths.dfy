/** Router paths and their OpenAPI form: apifn/core/src/introspect.ts. */
module RoutePaths {
  /** A path as literal text, then a named parameter, then the rest. */
  datatype Path =
    | End(lit: string)
    | Param(lit: string, name: string, rest: Path)

  predicate IsWord(c: char) {
    'A' <= c <= 'Z' || 'a' <= c <= 'z' || '0' <= c <= '9' || c == '_'
  }

  predicate AllWord(s: string) {
    forall i :: 0 <= i < |s| ==> IsWord(s[i])
  }

  /** The router's own notation, `:name`. */
  function RouterText(p: Path): string {
    match p
    case End(lit) => lit
    case Param(lit, name, rest) => lit + (":" + name + RouterText(rest))
  }

  /** The OpenAPI notation, `{name}`. */
  function OpenApiText(p: Path): string {
    match p
    case End(lit) => lit
    case Param(lit, name, rest) => lit + ("{" + name + "}" + OpenApiText(rest))
  }

  function Names(p: Path): seq<string> {
    match p
    case End(_) => []
    case Param(_, name, rest) => [name] + Names(rest)
  }

  /** The path with its parameters replaced, in order, by `values`. */
  function Fill(p: Path, values: seq<string>): string
    requires |values| == |Names(p)|
  {
    match p
    case End(lit) => lit
    case Param(lit, _, rest) => lit + (values[0] + Fill(rest, values[1..]))
  }

  /** The end of the run of word characters that starts at `from`. */
  function WordEnd(s: string, from: nat): (e: nat)
    requires from <= |s|
    ensures from <= e <= |s| && AllWord(s[from..e])
    ensures e < |s| ==> !IsWord(s[e])
    decreases |s| - from
  {
    if from < |s| && IsWord(s[from]) then
      var e := WordEnd(s, from + 1);
      assert s[from..e] == [s[from]] + s[from + 1..e];
      e
    else from
  }

  function AddLiteral(c: char, p: Path): Path {
    match p
    case End(lit) => End([c] + lit)
    case Param(lit, name, rest) => Param([c] + lit, name, rest)
  }

  /** A parameter starts at index `i`: a colon with a word character after it. */
  predicate ParamAt(s: string, i: nat) {
    i + 1 < |s| && s[i] == ':' && IsWord(s[i + 1])
  }

  /** The structure of a router path. */
  function Scan(s: string): Path
    decreases |s|
  {
    if s == "" then End("")
    else if ParamAt(s, 0) then
      var e := WordEnd(s, 1);
      Param("", s[1..e], Scan(s[e..]))
    else AddLiteral(s[0], Scan(s[1..]))
  }

  predicate NoParam(lit: string) {
    forall i: nat :: i < |lit| ==> !ParamAt(lit, i)
  }

  /** The literals hold no parameter, names are words, and no literal prolongs the name before it. */
  predicate Canonical(p: Path) {
    match p
    case End(lit) => NoParam(lit)
    case Param(lit, name, rest) =>
      && NoParam(lit)
      && name != "" && AllWord(name)
      && (rest.lit != "" ==> !IsWord(rest.lit[0]))
      && Canonical(rest)
  }

  lemma {:induction false} AddLiteralText(c: char, p: Path)
    ensures RouterText(AddLiteral(c, p)) == [c] + RouterText(p)
    ensures OpenApiText(AddLiteral(c, p)) == [c] + OpenApiText(p)
    ensures Names(AddLiteral(c, p)) == Names(p)
  {
    if p.Param? {
      var t, u := ":" + p.name + RouterText(p.rest), "{" + p.name + "}" + OpenApiText(p.rest);
      assert [c] + p.lit + t == [c] + (p.lit + t);
      assert [c] + p.lit + u == [c] + (p.lit + u);
    }
  }

  /** The first literal of a scan starts with the first character of a text that begins no parameter. */
  lemma {:induction false} ScanHead(s: string)
    ensures Scan(s).lit != "" ==> s != "" && Scan(s).lit[0] == s[0]
  {
  }

  /** Every text has one structure: the scan loses nothing and its parts are canonical. */
  lemma {:induction false} ScanSound(s: string)
    ensures RouterText(Scan(s)) == s && Canonical(Scan(s))
    decreases |s|
  {
    if s == "" {
    } else if ParamAt(s, 0) {
      var e := WordEnd(s, 1);
      ScanSound(s[e..]);
      ScanHead(s[e..]);
      assert s[1..e] != "" by { assert e != 1; }
      hide WordEnd, ParamAt;
      assert s == ":" + s[1..e] + s[e..];
    } else {
      ScanSound(s[1..]);
      AddLiteralText(s[0], Scan(s[1..]));
      assert s == [s[0]] + s[1..];
      CanonicalAdd(s, Scan(s[1..]));
    }
  }

  lemma {:induction false} CanonicalAdd(s: string, p: Path)
    requires s != "" && !ParamAt(s, 0) && Canonical(p) && RouterText(p) == s[1..]
    ensures Canonical(AddLiteral(s[0], p))
  {
    var lit := [s[0]] + p.lit;
    forall i: nat | i < |lit|
      ensures !ParamAt(lit, i)
    {
      if i == 0 {
        if p.lit != "" {
          assert s[1] == RouterText(p)[0] == p.lit[0];
        }
      } else {
        assert !ParamAt(p.lit, i - 1);
      }
    }
  }

  /** Scanning is the inverse of printing on canonical structures. */
  lemma {:induction false} ScanComplete(p: Path)
    requires Canonical(p)
    ensures Scan(RouterText(p)) == p
    decreases |RouterText(p)|
  {
    var s := RouterText(p);
    if p.lit != "" {
      var q := p.(lit := p.lit[1..]);
      assert s[1..] == RouterText(q);
      assert s[0] == p.lit[0];
      assert !ParamAt(p.lit, 0);
      forall i: nat | i < |q.lit|
        ensures !ParamAt(q.lit, i)
      {
        assert !ParamAt(p.lit, i + 1);
      }
      ScanComplete(q);
      assert [p.lit[0]] + q.lit == p.lit;
    } else if p.Param? {
      var tail := RouterText(p.rest);
      ScanComplete(p.rest);
      assert s == ":" + p.name + tail;
      NameEnd(s, p.name, tail);
    }
  }

  lemma {:induction false} WordEndIs(s: string, from: nat, e: nat)
    requires from <= e <= |s| && AllWord(s[from..e]) && (e < |s| ==> !IsWord(s[e]))
    ensures WordEnd(s, from) == e
    decreases e - from
  {
    if from < e {
      assert s[from] == s[from..e][0];
      assert s[from + 1..e] == s[from..e][1..];
      WordEndIs(s, from + 1, e);
    }
  }

  lemma {:induction false} NameEnd(s: string, name: string, tail: string)
    requires s == ":" + name + tail && name != "" && AllWord(name) && (tail != "" ==> !IsWord(tail[0]))
    ensures ParamAt(s, 0) && WordEnd(s, 1) == |name| + 1
    ensures Scan(s) == Param("", name, Scan(tail))
  {
    assert s[1..|name| + 1] == name && s[|name| + 1..] == tail;
    assert s[1] == name[0];
    WordEndIs(s, 1, |name| + 1);
  }

  lemma ScanSkip(s: string, index: nat)
    requires index < |s| && !ParamAt(s[index..], 0)
    ensures Scan(s[index..]) == AddLiteral(s[index], Scan(s[index + 1..]))
  {
    assert s[index..][1..] == s[index + 1..];
  }

  lemma ScanParam(s: string, index: nat, end: nat)
    requires index + 1 < end <= |s| && s[index] == ':' && AllWord(s[index + 1..end])
    requires end < |s| ==> !IsWord(s[end])
    ensures Scan(s[index..]) == Param("", s[index + 1..end], Scan(s[end..]))
  {
    assert s[index..] == ":" + s[index + 1..end] + s[end..];
    NameEnd(s[index..], s[index + 1..end], s[end..]);
  }

  /** The output so far and the scan of what is left make up the scan of the whole path. */
  ghost predicate Progress(path: string, index: nat, openApiPath: string, params: seq<string>) {
    && index <= |path|
    && OpenApiText(Scan(path)) == openApiPath + OpenApiText(Scan(path[index..]))
    && Names(Scan(path)) == params + Names(Scan(path[index..]))
  }

  lemma ProgressSkip(path: string, index: nat, openApiPath: string, params: seq<string>)
    requires Progress(path, index, openApiPath, params) && index < |path| && !ParamAt(path[index..], 0)
    ensures Progress(path, index + 1, openApiPath + [path[index]], params)
  {
    ScanSkip(path, index);
    AddLiteralText(path[index], Scan(path[index + 1..]));
  }

  lemma ProgressParam(path: string, index: nat, end: nat, openApiPath: string, params: seq<string>)
    requires Progress(path, index, openApiPath, params)
    requires index + 1 < end <= |path| && path[index] == ':' && AllWord(path[index + 1..end])
    requires end < |path| ==> !IsWord(path[end])
    ensures Progress(path, end, openApiPath + ("{" + path[index + 1..end] + "}"), params + [path[index + 1..end]])
  {
    ScanParam(path, index, end);
    ParamText(path[index + 1..end], Scan(path[end..]));
    hide *;
  }

  lemma {:induction false} ParamText(name: string, rest: Path)
    ensures OpenApiText(Param("", name, rest)) == "{" + name + "}" + OpenApiText(rest)
    ensures Names(Param("", name, rest)) == [name] + Names(rest)
  {
    assert "" + "{" + name + "}" + OpenApiText(rest) == "{" + name + "}" + OpenApiText(rest);
  }

  lemma {:induction false} ProgressEnds(path: string, openApiPath: string, params: seq<string>)
    ensures Progress(path, 0, "", [])
    ensures Progress(path, |path|, openApiPath, params) ==>
              openApiPath == OpenApiText(Scan(path)) && params == Names(Scan(path))
  {
    assert path[0..] == path && path[|path|..] == "";
  }

  /** The character loop of the introspection computes the OpenAPI text and the parameter names. */
  method ToOpenApiPath(path: string) returns (openApiPath: string, params: seq<string>)
    ensures openApiPath == OpenApiText(Scan(path)) && params == Names(Scan(path))
  {
    hide Progress;
    openApiPath, params := "", [];
    var index := 0;
    ProgressEnds(path, openApiPath, params);
    while index < |path|
      invariant index <= |path| && Progress(path, index, openApiPath, params)
    {
      var c := path[index];
      if c != ':' {
        ProgressSkip(path, index, openApiPath, params);
        openApiPath := openApiPath + [c];
        index := index + 1;
        continue;
      }
      var end := index + 1;
      while end < |path| && IsWord(path[end])
        invariant index + 1 <= end <= |path|
        invariant AllWord(path[index + 1..end])
      {
        assert path[index + 1..end + 1] == path[index + 1..end] + [path[end]];
        end := end + 1;
      }
      if end == index + 1 {
        ProgressSkip(path, index, openApiPath, params);
        openApiPath := openApiPath + [c];
        index := index + 1;
        continue;
      }
      var param := path[index + 1..end];
      ProgressParam(path, index, end, openApiPath, params);
      params := params + [param];
      openApiPath := openApiPath + ("{" + param + "}");
      index := end;
    }
    ProgressEnds(path, openApiPath, params);
  }
}
