/** The names that the generator makes: apifn/collections/src/generator.ts. */
module GeneratorNames {
  import opened Text
  import opened Collections
  import opened CollectionPaths
  import opened Generator
  import opened PathPipeline

  // ---- Slugs are the words of a text ----

  /** The runs of letters and digits. */
  function Words(s: string): seq<string> {
    if s == "" then []
    else if !Alnum(s[0]) then Words(s[1..])
    else if |s| > 1 && Alnum(s[1]) then AddToFirst(s[0], Words(s[1..]))
    else [[s[0]]] + Words(s[1..])
  }

  function AddToFirst(c: char, words: seq<string>): seq<string> {
    if words == [] then [[c]] else [[c] + words[0]] + words[1..]
  }

  function WithDashes(words: seq<string>): string {
    if words == [] then "" else if |words| == 1 then words[0] else words[0] + "-" + WithDashes(words[1..])
  }

  /** A dash if the text ends in something that is no word. */
  function Tail(s: string): string {
    if s != "" && !Alnum(s[|s| - 1]) then "-" else ""
  }

  lemma {:induction false} WordsThere(s: string)
    ensures s != "" && Alnum(s[0]) ==> Words(s) != []
    ensures forall w :: w in Words(s) ==> w != "" && forall k :: 0 <= k < |w| ==> Alnum(w[k])
  {
    if s != "" {
      WordsThere(s[1..]);
    }
  }

  lemma {:induction false} DashesAre(s: string)
    ensures DashRuns(s, true) == if Words(s) == [] then "" else WithDashes(Words(s)) + Tail(s)
    ensures DashRuns(s, false) ==
            if s == "" then ""
            else if Alnum(s[0]) then WithDashes(Words(s)) + Tail(s)
            else "-" + DashRuns(s, true)
  {
    if s != "" {
      DashesAre(s[1..]);
      WordsThere(s);
      WordsThere(s[1..]);
      var rest := s[1..];
      assert rest != "" ==> Tail(rest) == Tail(s);
      if Alnum(s[0]) {
        DashesStep(s);
      }
    }
  }

  lemma {:induction false} DashesStep(s: string)
    requires s != "" && Alnum(s[0]) && (|s| > 1 && Alnum(s[1]) ==> Words(s[1..]) != [])
    requires
      var rest := s[1..];
      && DashRuns(rest, true) == (if Words(rest) == [] then "" else WithDashes(Words(rest)) + Tail(rest))
      && DashRuns(rest, false) == (if rest == "" then ""
                                   else if Alnum(rest[0]) then WithDashes(Words(rest)) + Tail(rest)
                                   else "-" + DashRuns(rest, true))
    ensures [s[0]] + DashRuns(s[1..], false) == WithDashes(Words(s)) + Tail(s)
  {
    var rest, c := s[1..], s[0];
    var words := Words(rest);
    assert rest != "" ==> Tail(rest) == Tail(s);
    if rest != "" && words == [] {
      NoWordsTail(rest);
    }
    hide DashRuns, WithDashes, Alnum;
    if rest != "" && Alnum(rest[0]) {
      WordGrows(c, words, Tail(rest));
    } else if words == [] {
      LastWord(c);
    } else {
      WordAdded(c, words, Tail(rest));
    }
  }

  lemma {:induction false} WordGrows(c: char, words: seq<string>, tail: string)
    requires words != []
    ensures [c] + (WithDashes(words) + tail) == WithDashes(AddToFirst(c, words)) + tail
  {
    FirstLonger(c, words);
    hide *;
    assert [c] + (WithDashes(words) + tail) == [c] + WithDashes(words) + tail;
  }

  lemma {:induction false} WordAdded(c: char, words: seq<string>, tail: string)
    requires words != []
    ensures [c] + ("-" + (WithDashes(words) + tail)) == WithDashes([[c]] + words) + tail
  {
    MoreWords([c], words);
    hide *;
    assert [c] + ("-" + (WithDashes(words) + tail)) == [c] + "-" + WithDashes(words) + tail;
  }

  lemma LastWord(c: char)
    ensures [[c]] + [] == [[c]] && WithDashes([[c]]) == [c] && [c] + "" == [c]
    ensures [c] + ("-" + "") == WithDashes([[c]]) + "-" && WithDashes([[c]]) + "" == [c] && Words("") == [] && Tail("") == ""
  {
  }

  lemma OneWord(w: string)
    ensures WithDashes([w]) == w && Words("") == [] && Tail("") == ""
  {
  }

  lemma {:induction false} MoreWords(w: string, words: seq<string>)
    requires words != []
    ensures WithDashes([w] + words) == w + "-" + WithDashes(words)
  {
    assert ([w] + words)[1..] == words;
  }

  lemma {:induction false} NoWordsTail(s: string)
    requires s != "" && Words(s) == []
    ensures Tail(s) == "-"
  {
    WordsThere(s);
    if |s| > 1 {
      WordsThere(s[1..]);
      NoWordsTail(s[1..]);
    }
  }

  lemma {:induction false} FirstLonger(c: char, words: seq<string>)
    requires words != []
    ensures WithDashes(AddToFirst(c, words)) == [c] + WithDashes(words)
  {
    var longer := AddToFirst(c, words);
    assert longer[1..] == words[1..];
    if |words| > 1 {
      assert [c] + words[0] + "-" + WithDashes(words[1..]) == [c] + (words[0] + "-" + WithDashes(words[1..]));
    }
  }

  /** No dash at either end, and no two beside one another. */
  predicate Neat(s: string) {
    && (s != "" ==> s[0] != '-' && s[|s| - 1] != '-')
    && forall k :: 0 <= k < |s| - 1 ==> !(s[k] == '-' && s[k + 1] == '-')
  }

  lemma {:induction false} DashedWordsNeat(words: seq<string>)
    requires forall w :: w in words ==> w != "" && forall k :: 0 <= k < |w| ==> Alnum(w[k])
    ensures Neat(WithDashes(words)) && (words != [] ==> WithDashes(words) != "")
  {
    if words != [] {
      assert words[0] in words;
      if |words| > 1 {
        DashedWordsNeat(words[1..]);
        NeatTogether(words[0], WithDashes(words[1..]));
      } else {
        WordNeat(words[0]);
      }
    }
  }

  lemma WordNeat(w: string)
    requires w != "" && forall k :: 0 <= k < |w| ==> Alnum(w[k])
    ensures Neat(w)
  {
  }

  lemma NeatTogether(first: string, rest: string)
    requires first != "" && rest != "" && Neat(rest) && forall k :: 0 <= k < |first| ==> Alnum(first[k])
    ensures Neat(first + "-" + rest)
  {
    WordNeat(first);
    hide Alnum;
    var s := first + "-" + rest;
    assert forall k :: 0 <= k < |first| ==> s[k] == first[k];
    assert forall k :: |first| < k < |s| ==> s[k] == rest[k - |first| - 1];
  }

  lemma {:induction false} CollapsesNeat(s: string)
    requires forall k :: 0 <= k < |s| - 1 ==> !(s[k] == '-' && s[k + 1] == '-')
    ensures Collapse(s) == s
  {
    if |s| >= 2 {
      CollapsesNeat(s[1..]);
    }
  }

  /** The slug of a text: its words in lower case, with one dash between any two. */
  lemma SlugExact(tools: Tools, s: string)
    ensures Slugify(tools, s) == WithDashes(Words(tools.lower(s)))
  {
    var t := tools.lower(s);
    var words := Words(t);
    DashesAre(t);
    WordsThere(t);
    DashedWordsNeat(words);
    CollapsesNeat(WithDashes(words));
    var middle := WithDashes(words);
    hide DashRuns, Words, WithDashes, Collapse;
    if words == [] {
      assert DashRuns(t, false) == "" || DashRuns(t, false) == "-";
      assert "-"[1..] == "";
    } else {
      var lead := if Alnum(t[0]) then "" else "-";
      assert DashRuns(t, false) == lead + (middle + Tail(t));
      EndsDropped(lead, middle, Tail(t));
    }
  }

  lemma {:induction false} EndsDropped(lead: string, middle: string, tail: string)
    requires lead in ["", "-"] && tail in ["", "-"] && middle != "" && middle[0] != '-' && middle[|middle| - 1] != '-'
    ensures DropTrailing(DropLeading(lead + (middle + tail), '-'), '-') == middle
  {
    LeadDropped(lead, middle, tail);
    if tail == "-" {
      assert (middle + tail)[..|middle|] == middle;
    } else {
      assert middle + tail == middle;
    }
  }

  lemma {:induction false} LeadDropped(lead: string, middle: string, tail: string)
    requires lead in ["", "-"] && middle != "" && middle[0] != '-'
    ensures DropLeading(lead + (middle + tail), '-') == middle + tail
  {
    var s := lead + (middle + tail);
    if lead == "-" {
      assert s[1..] == middle + tail;
    } else {
      assert s == middle + tail;
    }
  }

  // ---- Groups ----

  predicate Slashes(s: string) {
    forall k :: 0 <= k < |s| ==> s[k] == '/'
  }

  /** The path is slashes, then this segment, then the end or a slash and more. */
  predicate StartsWithSegment(path: string, n: int, part: string) {
    && 0 <= n <= n + |part| <= |path| && Slashes(path[..n]) && path[n..n + |part|] == part && part != "" && Free(part, '/')
    && (n + |part| == |path| || path[n + |part|] == '/')
  }

  lemma {:induction false} FirstPartExact(path: string)
    ensures if FirstPart(path).Some? then exists n :: StartsWithSegment(path, n, FirstPart(path).value) else Slashes(path)
  {
    if path != "" {
      if FirstSegment(path) != "" {
        var part := FirstSegment(path);
        assert path[0..0 + |part|] == part && path[..0] == "";
        assert StartsWithSegment(path, 0, part);
        assert FirstPart(path) == Some(part);
      } else {
        assert path[0] == '/' by { FirstSlash(path); }
        FirstPartExact(path[1..]);
        assert path == ['/'] + path[1..] && FirstPart(path) == FirstPart(path[1..]);
        if FirstPart(path).Some? {
          var n :| StartsWithSegment(path[1..], n, FirstPart(path).value);
          SegmentLater(path, n, FirstPart(path).value);
          assert StartsWithSegment(path, n + 1, FirstPart(path).value);
        } else {
          assert forall k :: 0 < k < |path| ==> path[k] == path[1..][k - 1];
        }
      }
    }
  }

  lemma SegmentLater(path: string, n: int, part: string)
    requires path != "" && path[0] == '/' && StartsWithSegment(path[1..], n, part)
    ensures StartsWithSegment(path, n + 1, part)
  {
    var rest := path[1..];
    assert forall k :: 0 <= k < n ==> rest[..n][k] == rest[k] == path[k + 1];
    assert path[n + 1..n + 1 + |part|] == rest[n..n + |part|];
  }

  lemma FirstSlash(path: string)
    requires path != "" && FirstSegment(path) == ""
    ensures path[0] == '/'
  {
  }

  lemma SegmentIsNoSlash(path: string)
    ensures forall m, part :: StartsWithSegment(path, m, part) ==> !Slashes(path)
  {
    forall m, part | StartsWithSegment(path, m, part)
      ensures !Slashes(path)
    {
      assert path[m] == path[m..m + |part|][0] == part[0];
    }
  }

  /** The group of a path: the slug of its first segment, or "root" without one. */
  lemma GroupOfPath(tools: Tools, path: string)
    ensures Slashes(path) ==> GroupKeyByPath(tools, path) == "root"
    ensures forall n, part :: StartsWithSegment(path, n, part) ==> GroupKeyByPath(tools, path) == WithDashes(Words(tools.lower(part)))
  {
    FirstPartExact(path);
    assert forall m, part :: StartsWithSegment(path, m, part) ==> !Slashes(path) by { SegmentIsNoSlash(path); }
    hide Slugify, Words, WithDashes, FirstPart;
    forall n, part | StartsWithSegment(path, n, part)
      ensures GroupKeyByPath(tools, path) == WithDashes(Words(tools.lower(part)))
    {
      assert path[n] == part[0];
      assert !Slashes(path);
      var found := FirstPart(path).value;
      var m :| StartsWithSegment(path, m, found);
      OneFirstSegment(path, n, part, m, found);
      SlugExact(tools, part);
    }
  }

  lemma OneFirstSegment(path: string, n: int, part: string, m: int, other: string)
    requires StartsWithSegment(path, n, part) && StartsWithSegment(path, m, other)
    ensures part == other
  {
    assert path[n] == part[0] && path[m] == other[0];
    assert forall k :: 0 <= k < n ==> path[..n][k] == path[k];
    assert forall k :: 0 <= k < m ==> path[..m][k] == path[k];
    assert n == m;
    assert forall k :: 0 <= k < |part| ==> path[n + k] == part[k];
    assert forall k :: 0 <= k < |other| ==> path[n + k] == other[k];
  }

  /** Grouping by tag goes by the first tag, and by the path without one; grouping by path never looks at tags. */
  lemma GroupsBy(tools: Tools, options: Options, r: Record)
    ensures !options.byTag ==> GroupKey(tools, options, r) == GroupKeyByPath(tools, r.path)
    ensures options.byTag && r.operation.tag.Some? ==>
              GroupKey(tools, options, r) == WithDashes(Words(tools.lower(r.operation.tag.value)))
    ensures options.byTag && r.operation.tag.None? ==>
              GroupKey(tools, options, r) == WithDashes(Words(tools.lower(GroupKeyByPath(tools, r.path))))
  {
    SlugExact(tools, if r.operation.tag.Some? then r.operation.tag.value else GroupKeyByPath(tools, r.path));
    hide Slugify, Words, WithDashes, GroupKeyByPath;
  }

  // ---- Requests and the collection ----

  /** The first of these that is there and not empty. */
  predicate Given(s: Option<string>) {
    s.Some? && s.value != ""
  }

  /** What the request of an operation is called, where its file is, and what it sends. */
  lemma RequestIs(tools: Tools, key: string, r: Record, n: nat)
    ensures
      var item := CreateRequestItem(tools, key, r, n);
      && item.RequestItem? && item.order == Some(n as real) && item.request.Some?
      && item.request.value.info == RequestInfo(Some(item.name), item.order)
      && (Given(r.operation.operationId) ==> item.name == r.operation.operationId.value)
      && (!Given(r.operation.operationId) && Given(r.operation.summary) ==> item.name == r.operation.summary.value)
      && (!Given(r.operation.operationId) && !Given(r.operation.summary) ==> item.name == tools.title(r.verb + " " + r.path))
      && item.request.value.http == tools.http(r.verb, "{{baseUrl}}" + PathToTemplate(r.path), r.operation.body)
  {
    hide FileName;
  }

  /** The file is called after the words of the name; without any, after the method and the words of the path. */
  lemma FileIs(tools: Tools, key: string, r: Record, n: nat)
    ensures
      var item := CreateRequestItem(tools, key, r, n);
      var words, path := Words(tools.lower(item.name)), Words(tools.lower(WithoutBraces(r.path)));
      item.path == key + "/" + ((if words != [] then WithDashes(words)
                                 else r.verb + "-" + if path != [] then WithDashes(path) else "root") + ".yml")
  {
    SlugExact(tools, RequestName(tools, r));
    SlugExact(tools, WithoutBraces(r.path));
    WordsThere(tools.lower(RequestName(tools, r)));
    WordsThere(tools.lower(WithoutBraces(r.path)));
    DashedWordsNeat(Words(tools.lower(RequestName(tools, r))));
    DashedWordsNeat(Words(tools.lower(WithoutBraces(r.path))));
    hide Slugify, Words, RequestName, WithoutBraces;
  }

  lemma Regroup(a: string, b: string, c: string, d: string)
    ensures a + (b + c + d) == a + b + c + d
  {
  }

  /** Of a path the fallback keeps every character but the braces. */
  lemma {:induction false} BracesDropped(a: string, c: char, b: string)
    ensures WithoutBraces(a + [c] + b) == WithoutBraces(a) + (if c in "{}" then "" else [c]) + WithoutBraces(b)
  {
    var s := a + [c] + b;
    if a == "" {
      assert s[1..] == b && s[0] == c;
      assert WithoutBraces("") == "";
    } else {
      BracesDropped(a[1..], c, b);
      assert s[1..] == a[1..] + [c] + b;
      assert s[0] == a[0];
      Regroup(if a[0] in "{}" then "" else [a[0]], WithoutBraces(a[1..]), if c in "{}" then "" else [c], WithoutBraces(b));
    }
  }

  /** The base address: the option, else the document's server, else the local default. */
  lemma BaseAddress(tools: Tools, options: Options, document: Document)
    ensures
      var c := Generated(tools, options, document);
      && c.environments.Keys == {options.environment}
      && c.environments[options.environment].name == options.environment
      && c.environments[options.environment].variables.Keys == {"baseUrl"}
      && var base := c.environments[options.environment].variables["baseUrl"];
         && (options.baseUrl.Some? ==> base == options.baseUrl.value)
         && (options.baseUrl.None? && document.server.Some? ==> base == document.server.value)
         && (options.baseUrl.None? && document.server.None? ==> base == "http://localhost:3000")
    ensures
      Generated(tools, options, document).info
        == CollectionInfo(document.title, document.description, document.version, Some("collection"))
  {
    hide Folders, Records;
  }
}
