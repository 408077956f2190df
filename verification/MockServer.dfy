/** The route table of the mock server and its lookup: apifn/mock/src/server.ts. */
module MockServer {
  import opened OpenApi
  import opened RoutePaths
  import opened MockRoutes

  datatype Route<Op> = Route(verb: string, pattern: seq<Piece>, paramNames: seq<string>, operation: Op)

  /** The routes of one path item, one for each of `verbs` that the item defines. */
  function ItemRoutes<Op>(apiPath: string, item: map<string, Op>, verbs: seq<string>): seq<Route<Op>> {
    if verbs == [] then []
    else
      var later := ItemRoutes(apiPath, item, verbs[1..]);
      if verbs[0] in item then
        var p := Compile(apiPath);
        [Route(verbs[0], Pieces(p), Names(p), item[verbs[0]])] + later
      else later
  }

  function Table<Op>(paths: seq<PathItem<map<string, Op>>>): seq<Route<Op>> {
    if paths == [] then []
    else ItemRoutes(paths[0].path, paths[0].operations, HTTP_METHODS) + Table(paths[1..])
  }

  lemma {:induction false} ItemRoutesSplit<Op>(apiPath: string, item: map<string, Op>, a: seq<string>, verb: string)
    ensures ItemRoutes(apiPath, item, a + [verb]) == ItemRoutes(apiPath, item, a) + ItemRoutes(apiPath, item, [verb])
  {
    if a != [] {
      ItemRoutesSplit(apiPath, item, a[1..], verb);
      assert (a + [verb])[1..] == a[1..] + [verb];
    } else {
      assert a + [verb] == [verb];
    }
  }

  lemma {:induction false} TableSplit<Op>(a: seq<PathItem<map<string, Op>>>, last: PathItem<map<string, Op>>)
    ensures Table(a + [last]) == Table(a) + ItemRoutes(last.path, last.operations, HTTP_METHODS)
  {
    if a != [] {
      TableSplit(a[1..], last);
      assert (a + [last])[1..] == a[1..] + [last];
      assert ItemRoutes(a[0].path, a[0].operations, HTTP_METHODS) + (Table(a[1..]) + ItemRoutes(last.path, last.operations, HTTP_METHODS))
          == Table(a) + ItemRoutes(last.path, last.operations, HTTP_METHODS);
    } else {
      assert a + [last] == [last];
    }
  }

  /** The nested loops push the routes in the order of the table. */
  method BuildRoutes<Op>(paths: seq<PathItem<map<string, Op>>>) returns (routes: seq<Route<Op>>)
    ensures routes == Table(paths)
  {
    hide ItemRoutes, Compile;
    routes := [];
    for i := 0 to |paths|
      invariant routes == Table(paths[..i])
    {
      var apiPath, item := paths[i].path, paths[i].operations;
      var pattern, paramNames := CompilePath(apiPath);
      ghost var before := routes;
      NoVerbs(apiPath, item);
      for j := 0 to |HTTP_METHODS|
        invariant routes == before + ItemRoutes(apiPath, item, HTTP_METHODS[..j])
      {
        var verb := HTTP_METHODS[j];
        assert HTTP_METHODS[..j + 1] == HTTP_METHODS[..j] + [verb];
        ItemRoutesSplit(apiPath, item, HTTP_METHODS[..j], verb);
        OneVerb(apiPath, item, verb);
        if verb in item {
          routes := routes + [Route(verb, pattern, paramNames, item[verb])];
        }
      }
      assert HTTP_METHODS[..|HTTP_METHODS|] == HTTP_METHODS;
      assert paths[..i + 1] == paths[..i] + [paths[i]];
      TableSplit(paths[..i], paths[i]);
    }
    assert paths[..|paths|] == paths;
  }

  lemma {:induction false} NoVerbs<Op>(apiPath: string, item: map<string, Op>)
    ensures ItemRoutes(apiPath, item, []) == []
  {
  }

  lemma {:induction false} OneVerb<Op>(apiPath: string, item: map<string, Op>, verb: string)
    ensures ItemRoutes(apiPath, item, [verb]) ==
            if verb in item then [Route(verb, Pieces(Compile(apiPath)), Names(Compile(apiPath)), item[verb])] else []
  {
    assert [verb][1..] == [];
  }

  /** `pattern.test(pathname)` for the route's method. */
  ghost predicate Answers<Op>(route: Route<Op>, verb: string, pathname: string) {
    route.verb == verb && exists captures :: Matches(route.pattern, pathname, captures)
  }

  datatype Reply<Op> =
    | Preflight
    | NotFound
    | Served(operation: Op, pathParams: map<string, string>)

  /** The captured values by name; a later capture overwrites an earlier one of the same name. */
  function Record(names: seq<string>, values: seq<string>): map<string, string>
    requires |names| == |values|
  {
    if names == [] then map[]
    else Record(names[..|names| - 1], values[..|names| - 1])[names[|names| - 1] := values[|names| - 1]]
  }

  /** The route's operation, with the values of one of the matches of its pattern. */
  ghost predicate Serves<Op>(route: Route<Op>, pathname: string, reply: Reply<Op>) {
    exists captures ::
      && Matches(route.pattern, pathname, captures) && |captures| == |route.paramNames|
      && reply == Served(route.operation, Record(route.paramNames, captures))
  }

  ghost predicate NoneAnswers<Op>(routes: seq<Route<Op>>, verb: string, pathname: string) {
    forall i :: 0 <= i < |routes| ==> !Answers(routes[i], verb, pathname)
  }

  /** The first route that answers serves the request. */
  ghost predicate FirstServes<Op>(routes: seq<Route<Op>>, verb: string, pathname: string, reply: Reply<Op>) {
    exists i ::
      && 0 <= i < |routes| && Answers(routes[i], verb, pathname)
      && NoneAnswers(routes[..i], verb, pathname) && Serves(routes[i], pathname, reply)
  }

  /** A reply that the server can give: preflight requests first, then the first route that answers. */
  ghost predicate Replies<Op>(routes: seq<Route<Op>>, verb: string, pathname: string, reply: Reply<Op>) {
    if verb == "options" then reply == Preflight
    else if NoneAnswers(routes, verb, pathname) then reply == NotFound
    else FirstServes(routes, verb, pathname, reply)
  }

  // ---- What the table says of the document ----

  /** The text is the path with these segments for its parameters. */
  predicate Fits(apiPath: string, pathname: string, values: seq<string>) {
    var p := Compile(apiPath);
    |values| == |Names(p)| && Segments(values) && Fill(p, values) == pathname
  }

  /** The path has an operation for the method, and the text is the path with some segments. */
  ghost predicate Takes<Op>(item: PathItem<map<string, Op>>, verb: string, pathname: string) {
    verb in HTTP_METHODS && verb in item.operations && exists values :: Fits(item.path, pathname, values)
  }

  /** The reply is that operation with such segments by name. */
  ghost predicate ServedFrom<Op>(item: PathItem<map<string, Op>>, verb: string, pathname: string, reply: Reply<Op>) {
    && verb in HTTP_METHODS && verb in item.operations
    && exists values ::
         Fits(item.path, pathname, values)
         && reply == Served(item.operations[verb], Record(Names(Compile(item.path)), values))
  }

  /** The path takes the request, and no earlier one does. */
  ghost predicate FirstTakes<Op>(paths: seq<PathItem<map<string, Op>>>, i: int, verb: string, pathname: string) {
    0 <= i < |paths| && Takes(paths[i], verb, pathname) && forall j :: 0 <= j < i ==> !Takes(paths[j], verb, pathname)
  }

  lemma NoneOfBoth<Op>(a: seq<Route<Op>>, b: seq<Route<Op>>, verb: string, pathname: string)
    ensures NoneAnswers(a + b, verb, pathname) <==> NoneAnswers(a, verb, pathname) && NoneAnswers(b, verb, pathname)
  {
    hide Answers;
    assert forall i :: 0 <= i < |a| ==> (a + b)[i] == a[i];
    assert forall i :: 0 <= i < |b| ==> (a + b)[|a| + i] == b[i];
  }

  lemma FirstOfBoth<Op>(a: seq<Route<Op>>, b: seq<Route<Op>>, verb: string, pathname: string, reply: Reply<Op>)
    ensures FirstServes(a + b, verb, pathname, reply) <==>
            FirstServes(a, verb, pathname, reply) || (NoneAnswers(a, verb, pathname) && FirstServes(b, verb, pathname, reply))
  {
    hide Answers, Serves;
    if i :| 0 <= i < |a + b| && Answers((a + b)[i], verb, pathname)
            && NoneAnswers((a + b)[..i], verb, pathname) && Serves((a + b)[i], pathname, reply) {
      if i < |a| {
        assert (a + b)[..i] == a[..i] && (a + b)[i] == a[i];
      } else {
        assert (a + b)[..i] == a + b[..i - |a|] && (a + b)[i] == b[i - |a|];
        NoneOfBoth(a, b[..i - |a|], verb, pathname);
      }
    }
    if i :| 0 <= i < |a| && Answers(a[i], verb, pathname) && NoneAnswers(a[..i], verb, pathname) && Serves(a[i], pathname, reply) {
      assert (a + b)[..i] == a[..i] && (a + b)[i] == a[i];
    }
    if NoneAnswers(a, verb, pathname) && FirstServes(b, verb, pathname, reply) {
      var i :| 0 <= i < |b| && Answers(b[i], verb, pathname) && NoneAnswers(b[..i], verb, pathname) && Serves(b[i], pathname, reply);
      assert (a + b)[..|a| + i] == a + b[..i] && (a + b)[|a| + i] == b[i];
      NoneOfBoth(a, b[..i], verb, pathname);
    }
  }

  /** One route answers the texts that its path fits, and serves them with the fitting segments. */
  lemma RouteServes<Op>(item: PathItem<map<string, Op>>, own: string, verb: string, pathname: string, reply: Reply<Op>)
    requires own in item.operations
    ensures
      var p := Compile(item.path);
      var routes := [Route(own, Pieces(p), Names(p), item.operations[own])];
      && (NoneAnswers(routes, verb, pathname) <==> !(own == verb && exists values :: Fits(item.path, pathname, values)))
      && (FirstServes(routes, verb, pathname, reply) <==>
            own == verb && exists values ::
              Fits(item.path, pathname, values) && reply == Served(item.operations[own], Record(Names(p), values)))
  {
    var p := Compile(item.path);
    var routes := [Route(own, Pieces(p), Names(p), item.operations[own])];
    forall values
      ensures Matches(Pieces(p), pathname, values) <==> Fits(item.path, pathname, values)
    {
      MatchesIffFill(p, pathname, values);
    }
    OneRoute(routes[0], verb, pathname, reply);
    hide Compile, Matches, Record, NoneAnswers, FirstServes;
    assert forall values :: Fits(item.path, pathname, values) ==> |values| == |Names(p)|;
    hide Fits;
  }

  lemma OneRoute<Op>(route: Route<Op>, verb: string, pathname: string, reply: Reply<Op>)
    ensures NoneAnswers([route], verb, pathname) <==> !Answers(route, verb, pathname)
    ensures FirstServes([route], verb, pathname, reply) <==> Answers(route, verb, pathname) && Serves(route, pathname, reply)
  {
    hide Answers, Serves;
    assert [route][0] == route && [route][..0] == [];
  }

  lemma NoRoutes<Op>(verb: string, pathname: string, reply: Reply<Op>)
    ensures NoneAnswers<Op>([], verb, pathname) && !FirstServes<Op>([], verb, pathname, reply)
  {
  }

  /** The routes of one path item. */
  lemma {:induction false} ItemServes<Op>(
    item: PathItem<map<string, Op>>, verbs: seq<string>, verb: string, pathname: string, reply: Reply<Op>)
    ensures
      var routes := ItemRoutes(item.path, item.operations, verbs);
      && (NoneAnswers(routes, verb, pathname) <==>
            !(verb in verbs && verb in item.operations && exists values :: Fits(item.path, pathname, values)))
      && (FirstServes(routes, verb, pathname, reply) <==>
            verb in verbs && verb in item.operations && exists values ::
              Fits(item.path, pathname, values)
              && reply == Served(item.operations[verb], Record(Names(Compile(item.path)), values)))
  {
    hide Compile, Fits, Record, NoneAnswers, FirstServes;
    if verbs == [] {
      NoRoutes(verb, pathname, reply);
    } else {
      var own, later := verbs[0], ItemRoutes(item.path, item.operations, verbs[1..]);
      ItemServes(item, verbs[1..], verb, pathname, reply);
      assert verb in verbs <==> verb == own || verb in verbs[1..];
      if own in item.operations {
        var p := Compile(item.path);
        RouteServes(item, own, verb, pathname, reply);
        NoneOfBoth([Route(own, Pieces(p), Names(p), item.operations[own])], later, verb, pathname);
        FirstOfBoth([Route(own, Pieces(p), Names(p), item.operations[own])], later, verb, pathname, reply);
      }
    }
  }

  lemma {:induction false} TableServes<Op>(paths: seq<PathItem<map<string, Op>>>, verb: string, pathname: string, reply: Reply<Op>)
    ensures NoneAnswers(Table(paths), verb, pathname) <==> forall i :: 0 <= i < |paths| ==> !Takes(paths[i], verb, pathname)
    ensures FirstServes(Table(paths), verb, pathname, reply) <==>
            exists i :: FirstTakes(paths, i, verb, pathname) && ServedFrom(paths[i], verb, pathname, reply)
  {
    if paths == [] {
      NoRoutes(verb, pathname, reply);
    } else {
      var first, later := ItemRoutes(paths[0].path, paths[0].operations, HTTP_METHODS), Table(paths[1..]);
      TableServes(paths[1..], verb, pathname, reply);
      ItemServes(paths[0], HTTP_METHODS, verb, pathname, reply);
      NoneOfBoth(first, later, verb, pathname);
      FirstOfBoth(first, later, verb, pathname, reply);
      FirstShifts(paths, verb, pathname, reply);
      assert Takes(paths[0], verb, pathname) <==> !NoneAnswers(first, verb, pathname);
      assert ServedFrom(paths[0], verb, pathname, reply) <==> FirstServes(first, verb, pathname, reply);
      hide ItemRoutes, NoneAnswers, FirstServes, Takes, ServedFrom, HTTP_METHODS;
      assert paths == [paths[0]] + paths[1..];
    }
  }

  lemma ServedTakes<Op>(item: PathItem<map<string, Op>>, verb: string, pathname: string, reply: Reply<Op>)
    requires ServedFrom(item, verb, pathname, reply)
    ensures Takes(item, verb, pathname)
  {
  }

  /** The first of several paths that takes the request is the first one, or the first of the rest. */
  lemma FirstShifts<Op>(paths: seq<PathItem<map<string, Op>>>, verb: string, pathname: string, reply: Reply<Op>)
    requires paths != []
    ensures
      (exists i :: FirstTakes(paths, i, verb, pathname) && ServedFrom(paths[i], verb, pathname, reply)) <==>
      || ServedFrom(paths[0], verb, pathname, reply)
      || (!Takes(paths[0], verb, pathname)
          && exists i :: FirstTakes(paths[1..], i, verb, pathname) && ServedFrom(paths[1..][i], verb, pathname, reply))
  {
    if ServedFrom(paths[0], verb, pathname, reply) {
      ServedTakes(paths[0], verb, pathname, reply);
    }
    hide Takes, ServedFrom;
    var rest := paths[1..];
    assert forall i :: 0 <= i < |rest| ==> rest[i] == paths[i + 1];
    if i :| FirstTakes(paths, i, verb, pathname) && ServedFrom(paths[i], verb, pathname, reply) {
      if i > 0 {
        assert FirstTakes(rest, i - 1, verb, pathname);
      }
    }
    if !Takes(paths[0], verb, pathname) {
      if i :| FirstTakes(rest, i, verb, pathname) && ServedFrom(rest[i], verb, pathname, reply) {
        assert FirstTakes(paths, i + 1, verb, pathname);
      }
    }
    if ServedFrom(paths[0], verb, pathname, reply) {
      assert FirstTakes(paths, 0, verb, pathname);
    }
  }

  /**
   * What the server replies, by the document alone: the operation of the first path that has one for the
   * method and of which the text is an instance, with the segments of such an instance.
   */
  lemma {:induction false} TableReplies<Op>(paths: seq<PathItem<map<string, Op>>>, verb: string, pathname: string, reply: Reply<Op>)
    ensures Replies(Table(paths), verb, pathname, reply) <==>
            if verb == "options" then reply == Preflight
            else if forall i :: 0 <= i < |paths| ==> !Takes(paths[i], verb, pathname) then reply == NotFound
            else exists i :: FirstTakes(paths, i, verb, pathname) && ServedFrom(paths[i], verb, pathname, reply)
  {
    TableServes(paths, verb, pathname, reply);
    hide NoneAnswers, FirstServes, Table, Takes, ServedFrom;
  }
}
