/**
 * A router path on its way through the tools: router notation, OpenAPI notation, request template,
 * concrete URL, and back to the parameter values in the mock server.
 */
module PathPipeline {
  import opened Text
  import opened OpenApi
  import opened RoutePaths
  import opened MockRoutes
  import opened MockServer
  import V = Variables

  /** The global replacement of `{name}` by `{{name}}`, for names of one or more characters. */
  function PathToTemplate(pathname: string): string
    decreases |pathname|
  {
    if pathname == "" then ""
    else
      var end := IndexOf(pathname, '}', 1);
      if pathname[0] == '{' && end >= 2 then
        V.OPEN + pathname[1..end] + V.CLOSE + PathToTemplate(pathname[end + 1..])
      else [pathname[0]] + PathToTemplate(pathname[1..])
  }

  /** The template whose tags are the parameters of the path. */
  function AsTemplate(p: Path): V.Template {
    match p
    case End(lit) => V.Tail(lit)
    case Param(lit, name, rest) => V.Tag(lit, name, AsTemplate(rest))
  }

  predicate Named(p: Path) {
    p.Param? ==> p.name != "" && AllWord(p.name) && Named(p.rest)
  }

  lemma UnbracedRest(s: string)
    requires Unbraced(s) && s != ""
    ensures s[0] != '{' && Unbraced(s[1..])
  {
    assert !CharAt(s, '{', 0);
    forall k: nat | k < |s| - 1
      ensures !CharAt(s[1..], '{', k) && !CharAt(s[1..], '}', k)
    {
      assert !CharAt(s, '{', k + 1) && !CharAt(s, '}', k + 1);
    }
  }

  lemma HeadAndRest(s: string, tail: string)
    requires s != ""
    ensures (s + tail)[0] == s[0] && (s + tail)[1..] == s[1..] + tail && [s[0]] + (s[1..] + tail) == s + tail
  {
  }

  lemma {:induction false} TemplateSkip(lit: string, tail: string)
    requires Unbraced(lit)
    ensures PathToTemplate(lit + tail) == lit + PathToTemplate(tail)
  {
    if lit == "" {
      assert lit + tail == tail;
      assert lit + PathToTemplate(tail) == PathToTemplate(tail);
    } else {
      UnbracedRest(lit);
      hide CharAt, Unbraced, IndexOf;
      TemplateSkip(lit[1..], tail);
      HeadAndRest(lit, tail);
      HeadAndRest(lit, PathToTemplate(tail));
    }
  }

  lemma {:induction false} BraceEnd(name: string, tail: string)
    requires Unbraced(name)
    ensures IndexOf("{" + name + "}" + tail, '}', 1) == |name| + 1
  {
    var s := "{" + name + "}" + tail;
    forall k: nat | 1 <= k < |name| + 1
      ensures !CharAt(s, '}', k)
    {
      assert !CharAt(name, '}', k - 1);
    }
    IndexOfIs(s, '}', 1, |name| + 1);
  }

  lemma {:induction false} TemplateBrace(name: string, tail: string)
    requires name != "" && Unbraced(name)
    ensures PathToTemplate("{" + name + "}" + tail) == V.OPEN + (name + (V.CLOSE + PathToTemplate(tail)))
  {
    hide IndexOf, CharAt, Unbraced;
    var s := "{" + name + "}" + tail;
    BraceEnd(name, tail);
    assert s[1..|name| + 1] == name && s[|name| + 2..] == tail;
    Regroup(name, PathToTemplate(tail));
  }

  lemma Regroup(name: string, t: string)
    ensures V.OPEN + name + V.CLOSE + t == V.OPEN + (name + (V.CLOSE + t))
  {
  }

  /** The template of the OpenAPI text prints the path with its parameters as tags. */
  lemma {:induction false} TemplateText(p: Path)
    requires BraceFree(p) && Named(p)
    ensures PathToTemplate(OpenApiText(p)) == V.Print(AsTemplate(p))
  {
    match p
    case End(lit) =>
      TemplateSkip(lit, "");
      assert lit + "" == lit;
    case Param(lit, name, rest) =>
      hide PathToTemplate;
      TemplateText(rest);
      var tail := OpenApiText(rest);
      TemplateSkip(lit, "{" + name + "}" + tail);
      TemplateBrace(name, tail);
  }

  lemma UnbracedParts(lit: string)
    requires Unbraced(lit)
    ensures V.Closed(lit) && V.Enclosed(lit) && V.Untagged(lit)
  {
    forall k: nat | k < |lit|
      ensures lit[k] != '{' && lit[k] != '}'
    {
      assert !CharAt(lit, '{', k) && !CharAt(lit, '}', k);
    }
  }

  lemma {:induction false} TemplateWellFormed(p: Path)
    requires BraceFree(p)
    ensures V.WellFormed(AsTemplate(p))
  {
    UnbracedParts(p.lit);
    if p.Param? {
      UnbracedParts(p.name);
      TemplateWellFormed(p.rest);
    }
  }

  lemma WordKey(name: string)
    requires name != "" && AllWord(name)
    ensures Trim(name) == name && !StartsWith(name, V.ENV_PREFIX)
  {
    assert IsWord(name[0]) && IsWord(name[|name| - 1]);
    if |name| > 7 {
      assert IsWord(name[7]) && V.ENV_PREFIX[7] == '.';
    }
  }

  /** The values that a naming of parameters gives to a list of names. */
  function Bind(names: seq<string>, value: string -> string): (values: seq<string>)
    ensures |values| == |names|
    ensures forall i :: 0 <= i < |names| ==> values[i] == value(names[i])
  {
    if names == [] then [] else [value(names[0])] + Bind(names[1..], value)
  }

  /** Interpolating the template fills in the values and reports nothing. */
  lemma {:induction false} SubstituteFills(p: Path, value: string -> string, context: V.Lookup, env: V.Lookup)
    requires Named(p)
    requires forall name :: name in Names(p) ==> context(name) == Some(value(name))
    ensures V.Substitute(AsTemplate(p), context, env) == V.Done(Fill(p, Bind(Names(p), value)), [])
  {
    match p
    case End(_) =>
    case Param(lit, name, rest) =>
      assert Names(p)[0] == name && Names(p)[1..] == Names(rest);
      WordKey(name);
      SubstituteFills(rest, value, context, env);
      var values := Bind(Names(p), value);
      assert values[1..] == Bind(Names(rest), value);
      assert lit + value(name) + Fill(rest, values[1..]) == lit + (value(name) + Fill(rest, values[1..]));
  }

  lemma {:induction false} ScanBraceFree(p: Path)
    requires Unbraced(RouterText(p)) && Canonical(p)
    ensures BraceFree(p) && Named(p)
  {
    var s := RouterText(p);
    forall k: nat | k < |p.lit|
      ensures !CharAt(p.lit, '{', k) && !CharAt(p.lit, '}', k)
    {
      assert !CharAt(s, '{', k) && !CharAt(s, '}', k);
    }
    if p.Param? {
      var off := |p.lit| + 1 + |p.name|;
      var tail := RouterText(p.rest);
      assert s[off..] == tail;
      forall k: nat | k < |tail|
        ensures !CharAt(tail, '{', k) && !CharAt(tail, '}', k)
      {
        assert !CharAt(s, '{', off + k) && !CharAt(s, '}', off + k);
      }
      forall k: nat | k < |p.name|
        ensures !CharAt(p.name, '{', k) && !CharAt(p.name, '}', k)
      {
        assert IsWord(p.name[k]);
      }
      ScanBraceFree(p.rest);
    }
  }

  const BASE_URL := "baseUrl"

  /** The request URL of an operation: the base URL variable and the path template. */
  function RequestUrl(apiPath: string): string {
    "{{baseUrl}}" + PathToTemplate(apiPath)
  }

  /** The parameters of a brace-free router path are those that the mock server compiles from its OpenAPI text. */
  lemma {:induction false} CompiledNames(path: string)
    requires Unbraced(path)
    ensures Compile(OpenApiText(Scan(path))) == Scan(path)
  {
    ScanSound(path);
    ScanBraceFree(Scan(path));
    CompileComplete(Scan(path));
  }

  /** The interpolated request URL is the base URL followed by the path with the bound values. */
  lemma {:induction false} InterpolatedUrl(path: string, base: string, value: string -> string, context: V.Lookup, env: V.Lookup)
    requires Unbraced(path) && context(BASE_URL) == Some(base)
    requires forall name :: name in Names(Scan(path)) ==> context(name) == Some(value(name))
    ensures V.Substitute(V.Parse(RequestUrl(OpenApiText(Scan(path)))), context, env) ==
            V.Done(base + Fill(Scan(path), Bind(Names(Scan(path)), value)), [])
  {
    hide V.Parse, V.Substitute, V.Print, V.WellFormed, PathToTemplate, Scan, AsTemplate, Trim, Canonical;
    var p := Scan(path);
    ScanSound(path);
    ScanBraceFree(p);
    TemplateText(p);
    TemplateWellFormed(p);
    UrlTemplate(AsTemplate(p));
    SubstituteFills(p, value, context, env);
    BaseUrlFirst(AsTemplate(p), base, Fill(p, Bind(Names(p), value)), context, env);
  }

  lemma {:induction false} BaseFirst(name: string, t: V.Template, base: string, text: string, context: V.Lookup, env: V.Lookup)
    requires Trim(name) == name && !StartsWith(name, V.ENV_PREFIX)
    requires context(name) == Some(base) && V.Substitute(t, context, env) == V.Done(text, [])
    ensures V.Substitute(V.Tag("", name, t), context, env) == V.Done(base + text, [])
  {
    hide Trim, StartsWith;
    assert "" + base + text == base + text;
  }

  lemma {:induction false} BaseUrlFirst(t: V.Template, base: string, text: string, context: V.Lookup, env: V.Lookup)
    requires context(BASE_URL) == Some(base) && V.Substitute(t, context, env) == V.Done(text, [])
    ensures V.Substitute(V.Tag("", BASE_URL, t), context, env) == V.Done(base + text, [])
  {
    WordKey(BASE_URL);
    hide V.Substitute, Trim, StartsWith;
    BaseFirst(BASE_URL, t, base, text, context, env);
  }

  lemma {:induction false} UrlTemplate(t: V.Template)
    requires V.WellFormed(t)
    ensures V.Parse("{{baseUrl}}" + V.Print(t)) == V.Tag("", BASE_URL, t)
  {
    hide V.Parse, V.Print;
    var tag := V.Tag("", BASE_URL, t);
    assert V.Print(tag) == "{{baseUrl}}" + V.Print(t) by {
      UrlText(t);
    }
    assert Unbraced(BASE_URL);
    UnbracedParts(BASE_URL);
    V.ParseComplete(tag);
  }

  lemma {:induction false} UrlText(t: V.Template)
    ensures V.Print(V.Tag("", BASE_URL, t)) == "{{baseUrl}}" + V.Print(t)
  {
    var x := V.Print(t);
    assert V.Join("", BASE_URL, x) == "{{baseUrl}}" + x;
  }

  /**
   * End to end. For a brace-free router path with at most one parameter in each segment, bound to
   * non-empty slash-free values: the interpolated URL is the base URL and a path that the compiled
   * pattern accepts, with exactly the bound values as its captures, and no warning is reported.
   */
  lemma {:induction false} PathRoundTrip(path: string, base: string, value: string -> string, context: V.Lookup, env: V.Lookup)
    requires Unbraced(path) && Separated(Scan(path)) && context(BASE_URL) == Some(base)
    requires forall name :: name in Names(Scan(path)) ==>
               context(name) == Some(value(name)) && Segment(value(name))
    ensures var p := Scan(path);
            var values := Bind(Names(p), value);
            var apiPath, pathname := OpenApiText(p), Fill(p, values);
            && V.Substitute(V.Parse(RequestUrl(apiPath)), context, env) == V.Done(base + pathname, [])
            && Names(Compile(apiPath)) == Names(p)
            && forall captures :: Matches(Pieces(Compile(apiPath)), pathname, captures) <==> captures == values
  {
    hide V.Parse, V.Substitute, PathToTemplate, Scan, Compile;
    var p := Scan(path);
    var values := Bind(Names(p), value);
    InterpolatedUrl(path, base, value, context, env);
    CompiledNames(path);
    forall captures
      ensures Matches(Pieces(p), Fill(p, values), captures) <==> captures == values
    {
      MatchesIffFill(p, Fill(p, values), captures);
      if |captures| == |Names(p)| && Segments(captures) && Fill(p, captures) == Fill(p, values) {
        FillInjective(p, captures, values);
      }
    }
  }

  lemma {:induction false} RecordBinds(names: seq<string>, value: string -> string)
    ensures Record(names, Bind(names, value)) == map name | name in names :: value(name)
  {
    if names != [] {
      var n := |names| - 1;
      var front, last := names[..n], names[n];
      assert Bind(names, value)[..n] == Bind(front, value);
      RecordBinds(front, value);
      assert forall name :: name in names <==> name in front || name == last;
    }
  }

  /** The only segments that make the path this text are the bound ones. */
  lemma {:induction false} BoundFits(path: string, value: string -> string)
    requires Unbraced(path) && Separated(Scan(path))
    requires forall name :: name in Names(Scan(path)) ==> Segment(value(name))
    ensures
      var values := Bind(Names(Scan(path)), value);
      forall captures :: Fits(OpenApiText(Scan(path)), Fill(Scan(path), values), captures) <==> captures == values
  {
    hide Scan, Compile, Separated;
    var p := Scan(path);
    var values := Bind(Names(p), value);
    CompiledNames(path);
    forall captures | |captures| == |Names(p)| && Segments(captures) && Fill(p, captures) == Fill(p, values)
      ensures captures == values
    {
      FillInjective(p, captures, values);
    }
  }

  lemma {:induction false} BoundServed<Op>(
    item: PathItem<map<string, Op>>, verb: string, path: string, value: string -> string, reply: Reply<Op>)
    requires item.path == OpenApiText(Scan(path)) && verb in HTTP_METHODS && verb in item.operations
    requires Unbraced(path) && Separated(Scan(path))
    requires forall name :: name in Names(Scan(path)) ==> Segment(value(name))
    ensures
      var pathname := Fill(Scan(path), Bind(Names(Scan(path)), value));
      && Takes(item, verb, pathname)
      && (ServedFrom(item, verb, pathname, reply) <==>
            reply == Served(item.operations[verb], map name | name in Names(Scan(path)) :: value(name)))
  {
    BoundFits(path, value);
    CompiledNames(path);
    RecordBinds(Names(Scan(path)), value);
    hide Scan, Compile, Fits, Fill, Record, Separated, HTTP_METHODS, Bind;
    var values := Bind(Names(Scan(path)), value);
    assert Fits(item.path, Fill(Scan(path), values), values);
  }

  /**
   * In the table of a document, the request made for an operation is served by that operation with the
   * bound parameters, unless an earlier path has an operation for the method and the text is an instance
   * of that path too; then the first such path serves it.
   */
  lemma {:induction false} RequestServed<Op>(
    paths: seq<PathItem<map<string, Op>>>, i: nat, verb: string, path: string, value: string -> string, reply: Reply<Op>)
    requires i < |paths| && paths[i].path == OpenApiText(Scan(path)) && verb in HTTP_METHODS && verb in paths[i].operations
    requires Unbraced(path) && Separated(Scan(path))
    requires forall name :: name in Names(Scan(path)) ==> Segment(value(name))
    requires Replies(Table(paths), verb, Fill(Scan(path), Bind(Names(Scan(path)), value)), reply)
    ensures
      var pathname := Fill(Scan(path), Bind(Names(Scan(path)), value));
      if verb == "options" then reply == Preflight
      else if forall j :: 0 <= j < i ==> !Takes(paths[j], verb, pathname) then
        reply == Served(paths[i].operations[verb], map name | name in Names(Scan(path)) :: value(name))
      else exists j :: j < i && FirstTakes(paths, j, verb, pathname) && ServedFrom(paths[j], verb, pathname, reply)
  {
    var pathname := Fill(Scan(path), Bind(Names(Scan(path)), value));
    BoundServed(paths[i], verb, path, value, reply);
    TableReplies(paths, verb, pathname, reply);
    hide Scan, Table, Replies, Takes, ServedFrom, Fill, Bind, HTTP_METHODS, Separated;
    if verb != "options" {
      var j :| FirstTakes(paths, j, verb, pathname) && ServedFrom(paths[j], verb, pathname, reply);
      assert j <= i;
    }
  }
}
