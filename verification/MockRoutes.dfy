/** Path patterns of the mock server and their matching: apifn/mock/src/server.ts. */
module MockRoutes {
  import opened Text
  import opened RoutePaths

  /** The parts of a compiled pattern: escaped literal text and the group `([^/]+)`. */
  datatype Piece =
    | Literal(text: string)
    | Hole

  function Pieces(p: Path): seq<Piece> {
    match p
    case End(lit) => if lit == "" then [] else [Literal(lit)]
    case Param(lit, _, rest) => [Literal(lit), Hole] + Pieces(rest)
  }

  /** The structure that the compiler finds in an API path. */
  function Compile(s: string): Path
    decreases |s|
  {
    var start := IndexOf(s, '{', 0);
    if start < 0 then End(s)
    else
      var end := IndexOf(s, '}', start + 1);
      if end < 0 then End(s)
      else Param(s[..start], s[start + 1..end], Compile(s[end + 1..]))
  }

  predicate Unbraced(s: string) {
    forall k: nat :: k < |s| ==> !CharAt(s, '{', k) && !CharAt(s, '}', k)
  }

  predicate BraceFree(p: Path) {
    Unbraced(p.lit) && (p.Param? ==> Unbraced(p.name) && BraceFree(p.rest))
  }

  lemma BracesSplit(s: string, start: nat, end: nat)
    requires start < end < |s| && s[start] == '{' && s[end] == '}'
    ensures s == s[..start] + ("{" + s[start + 1..end] + "}" + s[end + 1..])
  {
    var tail := s[start..];
    assert tail == [tail[0]] + tail[1..end - start] + [tail[end - start]] + tail[end - start + 1..];
    assert s == s[..start] + tail;
  }

  /** The compiler's own scan loses nothing. */
  lemma {:induction false} CompileSound(s: string)
    ensures OpenApiText(Compile(s)) == s
    decreases |s|
  {
    var start := IndexOf(s, '{', 0);
    var end := if start < 0 then -1 else IndexOf(s, '}', start + 1);
    if end >= 0 {
      assert CharAt(s, '{', start) && CharAt(s, '}', end);
      CompileSound(s[end + 1..]);
      BracesSplit(s, start, end);
    }
  }

  /** On brace-free structures it is the inverse of printing. */
  lemma {:induction false} CompileComplete(p: Path)
    requires BraceFree(p)
    ensures Compile(OpenApiText(p)) == p
  {
    if p.Param? {
      CompileJoin(p.lit, p.name, OpenApiText(p.rest));
      CompileComplete(p.rest);
    } else {
      var start := IndexOf(p.lit, '{', 0);
      assert start >= 0 ==> CharAt(p.lit, '{', start);
    }
  }

  lemma {:induction false} BraceIndexes(lit: string, name: string, tail: string)
    requires Unbraced(lit) && Unbraced(name)
    ensures var s := lit + ("{" + name + "}" + tail);
            IndexOf(s, '{', 0) == |lit| && IndexOf(s, '}', |lit| + 1) == |lit| + 1 + |name|
  {
    var s := lit + ("{" + name + "}" + tail);
    forall k: nat | k < |lit|
      ensures !CharAt(s, '{', k)
    {
      assert !CharAt(lit, '{', k);
    }
    IndexOfIs(s, '{', 0, |lit|);
    forall k: nat | |lit| + 1 <= k < |lit| + 1 + |name|
      ensures !CharAt(s, '}', k)
    {
      assert !CharAt(name, '}', k - |lit| - 1);
    }
    IndexOfIs(s, '}', |lit| + 1, |lit| + 1 + |name|);
  }

  lemma {:induction false} CompileJoin(lit: string, name: string, tail: string)
    requires Unbraced(lit) && Unbraced(name)
    ensures Compile(lit + ("{" + name + "}" + tail)) == Param(lit, name, Compile(tail))
  {
    hide CharAt, IndexOf, Unbraced;
    var s := lit + ("{" + name + "}" + tail);
    BraceIndexes(lit, name, tail);
    assert s[..|lit|] == lit && s[|lit| + 1..|lit| + 1 + |name|] == name && s[|lit| + 1 + |name| + 1..] == tail;
  }

  lemma {:induction false} CompileParam(t: string, start: nat, end: nat)
    requires IndexOf(t, '{', 0) == start && IndexOf(t, '}', start + 1) == end
    ensures start < end < |t| && Compile(t) == Param(t[..start], t[start + 1..end], Compile(t[end + 1..]))
  {
  }

  lemma CompileAt(s: string, cursor: nat, start: nat, end: nat)
    requires cursor <= |s| && IndexOf(s, '{', cursor) == start && IndexOf(s, '}', start + 1) == end
    ensures cursor <= start < end < |s|
    ensures Compile(s[cursor..]) == Param(s[cursor..start], s[start + 1..end], Compile(s[end + 1..]))
  {
    hide CharAt, IndexOf, Compile;
    SearchAt(s, cursor, start, end);
    CompileParam(s[cursor..], start - cursor, end - cursor);
    SliceOfRest(s, cursor, cursor, start);
    SliceOfRest(s, cursor, start + 1, end);
    SliceOfRest(s, cursor, end + 1, |s|);
  }

  lemma SliceOfRest(s: string, cursor: nat, from: nat, to: nat)
    requires cursor <= from <= to <= |s|
    ensures s[cursor..][from - cursor..to - cursor] == s[from..to]
    ensures from == cursor ==> s[cursor..][..to - cursor] == s[from..to]
    ensures to == |s| ==> s[cursor..][from - cursor..] == s[from..]
  {
  }

  lemma SearchAt(s: string, cursor: nat, start: nat, end: int)
    requires cursor <= |s| && IndexOf(s, '{', cursor) == start && IndexOf(s, '}', start + 1) == end
    ensures cursor <= start < |s| && (end >= 0 ==> start < end < |s|)
    ensures IndexOf(s[cursor..], '{', 0) == start - cursor
    ensures IndexOf(s[cursor..], '}', start - cursor + 1) == if end < 0 then -1 else end - cursor
  {
    IndexOfSuffix(s, '{', cursor);
    IndexOfSuffix(s, '}', start + 1);
    IndexOfSuffix(s[cursor..], '}', start - cursor + 1);
    assert s[start + 1..] == s[cursor..][start - cursor + 1..];
  }

  lemma {:induction false} CompileTailAt(s: string, cursor: nat)
    requires cursor <= |s|
    requires IndexOf(s, '{', cursor) < 0 || IndexOf(s, '}', IndexOf(s, '{', cursor) + 1) < 0
    ensures Compile(s[cursor..]) == End(s[cursor..])
  {
    var start := IndexOf(s, '{', cursor);
    if start < 0 {
      IndexOfSuffix(s, '{', cursor);
    } else {
      SearchAt(s, cursor, start, -1);
    }
  }

  lemma CompileEmpty()
    ensures Compile("") == End("")
  {
  }

  /** The compile loop computes the pattern parts and the names of the structure. */
  method CompilePath(apiPath: string) returns (pattern: seq<Piece>, paramNames: seq<string>)
    ensures pattern == Pieces(Compile(apiPath)) && paramNames == Names(Compile(apiPath))
  {
    hide CharAt, IndexOf, Compile;
    pattern, paramNames := [], [];
    var cursor := 0;
    assert apiPath[0..] == apiPath;
    while cursor < |apiPath|
      invariant cursor <= |apiPath|
      invariant Pieces(Compile(apiPath)) == pattern + Pieces(Compile(apiPath[cursor..]))
      invariant Names(Compile(apiPath)) == paramNames + Names(Compile(apiPath[cursor..]))
    {
      var start := IndexOf(apiPath, '{', cursor);
      if start == -1 {
        CompileTailAt(apiPath, cursor);
        return pattern + [Literal(apiPath[cursor..])], paramNames;
      }
      var end := IndexOf(apiPath, '}', start + 1);
      if end == -1 {
        CompileTailAt(apiPath, cursor);
        return pattern + [Literal(apiPath[cursor..])], paramNames;
      }
      CompileAt(apiPath, cursor, start, end);
      pattern := pattern + [Literal(apiPath[cursor..start])];
      paramNames := paramNames + [apiPath[start + 1..end]];
      pattern := pattern + [Hole];
      cursor := end + 1;
    }
    CompileEmpty();
    assert apiPath[cursor..] == "";
  }

  // ---- Matching ----

  /** A text that the group `([^/]+)` can take. */
  predicate Segment(s: string) {
    s != "" && Free(s, '/')
  }

  predicate Segments(values: seq<string>) {
    forall i :: 0 <= i < |values| ==> Segment(values[i])
  }

  /** The anchored pattern matches the whole of `text` with these captures. */
  predicate Matches(pattern: seq<Piece>, text: string, captures: seq<string>) {
    if pattern == [] then text == "" && captures == []
    else
      match pattern[0]
      case Literal(lit) => lit <= text && Matches(pattern[1..], text[|lit|..], captures)
      case Hole =>
        captures != [] && Segment(captures[0]) && captures[0] <= text &&
        Matches(pattern[1..], text[|captures[0]|..], captures[1..])
  }

  /** What it means for the captures to match: they are segments, and filling the path with them gives the text. */
  lemma {:induction false} MatchesIffFill(p: Path, text: string, captures: seq<string>)
    ensures Matches(Pieces(p), text, captures) <==>
            |captures| == |Names(p)| && Segments(captures) && text == Fill(p, captures)
  {
    var rest := Pieces(p)[if p.Param? then 2 else 0..];
    match p
    case End(lit) =>
      if lit != "" {
        assert Pieces(p)[1..] == [];
        assert lit <= text ==> text == lit + text[|lit|..];
      }
    case Param(lit, name, r) =>
      assert Pieces(p)[1..][1..] == Pieces(r);
      if lit <= text && captures != [] && captures[0] <= text[|lit|..] {
        var after := text[|lit|..][|captures[0]|..];
        MatchesIffFill(r, after, captures[1..]);
        assert text == lit + (captures[0] + after);
        assert captures == [captures[0]] + captures[1..];
      } else if |captures| == |Names(p)| {
        assert Fill(p, captures)[..|lit|] == lit;
        assert Fill(p, captures)[|lit|..] == captures[0] + Fill(r, captures[1..]);
      }
  }

  // ---- Captures are determined exactly when no segment holds two parameters ----

  /** Between two parameters stands a slash. */
  predicate Separated(p: Path) {
    p.Param? ==> (p.rest.Param? ==> !Free(p.rest.lit, '/')) && Separated(p.rest)
  }

  /** Two slash-free texts before the same slashed literal, with equal results, are equal. */
  lemma SegmentCut(v: string, w: string, lit: string, x: string, y: string)
    requires Free(v, '/') && Free(w, '/') && !Free(lit, '/')
    requires v + (lit + x) == w + (lit + y)
    ensures v == w && x == y
  {
    var k := IndexOf(lit, '/', 0);
    assert k >= 0 by {
      var j :| 0 <= j < |lit| && lit[j] == '/';
      assert CharAt(lit, '/', j);
    }
    FirstSlash(v, lit, x, k);
    FirstSlash(w, lit, y, k);
    var t := v + (lit + x);
    assert t[..|v|] == v && t[..|w|] == w;
    assert t[|v|..] == lit + x && t[|w|..] == lit + y;
    assert (lit + x)[|lit|..] == x && (lit + y)[|lit|..] == y;
  }

  lemma {:induction false} FirstSlash(v: string, lit: string, x: string, k: nat)
    requires Free(v, '/') && IndexOf(lit, '/', 0) == k
    ensures IndexOf(v + (lit + x), '/', 0) == |v| + k
  {
    var t := v + (lit + x);
    forall j: nat | j < |v| + k
      ensures !CharAt(t, '/', j)
    {
      if j < |v| {
        assert !CharAt(v, '/', j);
      } else {
        assert !CharAt(lit, '/', j - |v|);
      }
    }
    IndexOfIs(t, '/', 0, |v| + k);
  }

  lemma {:induction false} FillInjective(p: Path, v: seq<string>, w: seq<string>)
    requires Separated(p) && |v| == |w| == |Names(p)| && Segments(v) && Segments(w)
    requires Fill(p, v) == Fill(p, w)
    ensures v == w
  {
    if p.Param? {
      var r := p.rest;
      var s, t := v[0] + Fill(r, v[1..]), w[0] + Fill(r, w[1..]);
      assert s == Fill(p, v)[|p.lit|..] == Fill(p, w)[|p.lit|..] == t;
      assert v == [v[0]] + v[1..] && w == [w[0]] + w[1..];
      if r.Param? {
        var x, y := v[1] + Fill(r.rest, v[1..][1..]), w[1] + Fill(r.rest, w[1..][1..]);
        SegmentCut(v[0], w[0], r.lit, x, y);
        FillInjective(r, v[1..], w[1..]);
      } else {
        assert |v[0]| == |w[0]|;
        assert v[0] == s[..|v[0]|] == t[..|w[0]|] == w[0];
      }
    }
  }

  /** All values are "a" from here on. */
  function Plain(p: Path): (values: seq<string>)
    ensures |values| == |Names(p)| && Segments(values)
  {
    if p.End? then [] else ["a"] + Plain(p.rest)
  }

  /** With two parameters in one segment some text can be captured in two ways. */
  lemma {:induction false} Ambiguous(p: Path) returns (v: seq<string>, w: seq<string>)
    requires !Separated(p)
    ensures |v| == |w| == |Names(p)| && Segments(v) && Segments(w)
    ensures v != w && Fill(p, v) == Fill(p, w)
  {
    var r := p.rest;
    if Separated(r) {
      var tail := Plain(r.rest);
      var long := "a" + r.lit + "a";
      assert Segment("a");
      assert Segment(long) by {
        forall k: nat | k < |long|
          ensures !CharAt(long, '/', k)
        {
          assert 1 <= k <= |r.lit| ==> long[k] == r.lit[k - 1];
        }
      }
      v, w := ["a", long] + tail, [long, "a"] + tail;
      assert v[1..][1..] == tail && w[1..][1..] == tail;
      var t := Fill(r.rest, tail);
      assert "a" + (r.lit + (long + t)) == long + (r.lit + ("a" + t));
      assert v[0] != w[0] by { assert |v[0]| != |w[0]|; }
    } else {
      var v', w' := Ambiguous(r);
      v, w := ["a"] + v', ["a"] + w';
      assert v[1..] == v' && w[1..] == w';
    }
  }

  /**
   * Values can be recovered from the filled path, for all values, exactly when no segment of the
   * path holds two parameters.
   */
  lemma {:induction false} CapturesDetermined(p: Path)
    ensures Separated(p) <==>
            forall v, w ::
              (|v| == |w| == |Names(p)| && Segments(v) && Segments(w) && Fill(p, v) == Fill(p, w)) ==> v == w
  {
    if Separated(p) {
      forall v, w | |v| == |w| == |Names(p)| && Segments(v) && Segments(w) && Fill(p, v) == Fill(p, w)
        ensures v == w
      {
        FillInjective(p, v, w);
      }
    } else {
      var v, w := Ambiguous(p);
    }
  }
}
