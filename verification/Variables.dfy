/** Variable interpolation of `{{name}}` tags: apifn/collections/src/variables.ts. */
module Variables {
  import opened Text

  const OPEN := "{{"
  const CLOSE := "}}"
  const ENV_PREFIX := "process.env."
  const WARNING_PREFIX := "Unresolved variable: "

  /** What `context[key]` or `processEnv[name]` yields; `None` is `undefined`. */
  type Lookup = string -> Option<string>

  /** A template as text, then a `{{inner}}` tag, then the rest. */
  datatype Template =
    | Tail(text: string)
    | Tag(text: string, inner: string, rest: Template)

  datatype Outcome =
    | Done(value: string, warnings: seq<string>)
    | EnvNotSet(name: string)

  datatype Resolution =
    | Value(value: string)
    | Unresolved(key: string)
    | Missing(name: string)

  function Join(text: string, inner: string, tail: string): string {
    text + (OPEN + (inner + (CLOSE + tail)))
  }

  function Print(p: Template): string {
    match p
    case Tail(text) => text
    case Tag(text, inner, rest) => Join(text, inner, Print(rest))
  }

  /** No tag is closed in `text`. */
  predicate Untagged(text: string) {
    var start := IndexOfPair(text, '{', 0);
    start < 0 || IndexOfPair(text, '}', start + 2) < 0
  }

  /** No tag begins in `text`, not even with a brace that follows it. */
  predicate Closed(text: string) {
    && (forall k: nat :: k < |text| ==> !PairAt(text, '{', k))
    && (text != "" ==> text[|text| - 1] != '{')
  }

  /** `inner` ends where the first `}}` after it begins. */
  predicate Enclosed(inner: string) {
    && (forall k: nat :: k < |inner| ==> !PairAt(inner, '}', k))
    && (inner != "" ==> inner[|inner| - 1] != '}')
  }

  predicate WellFormed(p: Template) {
    match p
    case Tail(text) => Untagged(text)
    case Tag(text, inner, rest) => Closed(text) && Enclosed(inner) && WellFormed(rest)
  }

  /** The leftmost-tag reading of a template. */
  function Parse(t: string): Template
    decreases |t|
  {
    var start := IndexOfPair(t, '{', 0);
    if start < 0 then Tail(t)
    else
      var end := IndexOfPair(t, '}', start + 2);
      if end < 0 then Tail(t)
      else Tag(t[..start], t[start + 2..end], Parse(t[end + 2..]))
  }

  /** A tag found by the scan cuts the template into the three parts of `Tag`. */
  lemma CutTag(t: string, start: nat, end: nat)
    requires IndexOfPair(t, '{', 0) == start && IndexOfPair(t, '}', start + 2) == end
    ensures start + 2 <= end && end + 2 <= |t|
    ensures Closed(t[..start]) && Enclosed(t[start + 2..end])
    ensures t == Join(t[..start], t[start + 2..end], t[end + 2..])
  {
    var text, inner := t[..start], t[start + 2..end];
    forall k: nat | k < |text|
      ensures !PairAt(text, '{', k) && (k == start - 1 ==> text[k] != '{')
    {
      assert !PairAt(t, '{', k);
    }
    forall k: nat | k < |inner|
      ensures !PairAt(inner, '}', k) && (k == |inner| - 1 ==> inner[k] != '}')
    {
      assert !PairAt(t, '}', start + 2 + k);
    }
    assert t[start..start + 2] == OPEN && t[end..end + 2] == CLOSE;
  }

  lemma JoinParts(text: string, inner: string, tail: string)
    ensures var t := Join(text, inner, tail);
            && t[..|text|] == text
            && t[|text| + 2..] == inner + (CLOSE + tail)
            && t[|text| + 2..|text| + 2 + |inner|] == inner
            && t[|text| + 2 + |inner| + 2..] == tail
  {
  }

  lemma JoinOpen(text: string, u: string)
    requires Closed(text)
    ensures IndexOfPair(text + (OPEN + u), '{', 0) == |text|
  {
    var t := text + (OPEN + u);
    forall k: nat | k < |text|
      ensures !PairAt(t, '{', k)
    {
      assert !PairAt(text, '{', k);
    }
    IndexOfPairIs(t, '{', 0, |text|);
  }

  lemma JoinClose(inner: string, tail: string)
    requires Enclosed(inner)
    ensures IndexOfPair(inner + (CLOSE + tail), '}', 0) == |inner|
  {
    var u := inner + (CLOSE + tail);
    forall k: nat | k < |inner|
      ensures !PairAt(u, '}', k)
    {
      assert !PairAt(inner, '}', k);
    }
    IndexOfPairIs(u, '}', 0, |inner|);
  }

  /** Three parts that meet the conditions of `WellFormed` are cut at the same places again. */
  lemma JoinTag(text: string, inner: string, tail: string)
    requires Closed(text) && Enclosed(inner)
    ensures var t := Join(text, inner, tail);
            && IndexOfPair(t, '{', 0) == |text|
            && IndexOfPair(t, '}', |text| + 2) == |text| + 2 + |inner|
  {
    var t := Join(text, inner, tail);
    JoinOpen(text, inner + (CLOSE + tail));
    JoinParts(text, inner, tail);
    IndexOfPairSuffix(t, '}', |text| + 2);
    JoinClose(inner, tail);
  }

  lemma {:induction false} ParseStep(t: string, start: nat, end: nat)
    requires IndexOfPair(t, '{', 0) == start && IndexOfPair(t, '}', start + 2) == end
    ensures start + 2 <= end && end + 2 <= |t|
    ensures Parse(t) == Tag(t[..start], t[start + 2..end], Parse(t[end + 2..]))
  {
  }

  /** Reading a template loses nothing, and yields well-formed parts. */
  lemma {:induction false} ParseSound(t: string)
    ensures Print(Parse(t)) == t && WellFormed(Parse(t))
    decreases |t|
  {
    var start := IndexOfPair(t, '{', 0);
    var end := if start < 0 then -1 else IndexOfPair(t, '}', start + 2);
    if end >= 0 {
      ParseStep(t, start, end);
      CutTag(t, start, end);
      ParseSound(t[end + 2..]);
    }
  }

  lemma {:induction false} ParseJoin(text: string, inner: string, tail: string)
    requires Closed(text) && Enclosed(inner)
    ensures Parse(Join(text, inner, tail)) == Tag(text, inner, Parse(tail))
  {
    hide PairAt, IndexOfPair;
    var t := Join(text, inner, tail);
    JoinTag(text, inner, tail);
    ParseStep(t, |text|, |text| + 2 + |inner|);
    JoinParts(text, inner, tail);
  }

  /** Well-formed parts are what the reading of their text finds: reading and printing are inverse. */
  lemma {:induction false} ParseComplete(p: Template)
    requires WellFormed(p)
    ensures Parse(Print(p)) == p
  {
    if p.Tag? {
      ParseJoin(p.text, p.inner, Print(p.rest));
      ParseComplete(p.rest);
    }
  }

  /** How one tag is looked up. */
  function Resolve(inner: string, context: Lookup, env: Lookup): Resolution {
    var key := Trim(inner);
    if StartsWith(key, ENV_PREFIX) then
      var name := key[|ENV_PREFIX|..];
      match env(name)
      case Some(v) => Value(v)
      case None => Missing(name)
    else
      match context(key)
      case Some(v) => Value(v)
      case None => Unresolved(key)
  }

  function Prepend(value: string, warnings: seq<string>, o: Outcome): Outcome {
    match o
    case Done(v, w) => Done(value + v, warnings + w)
    case EnvNotSet(_) => o
  }

  /** What one tag and the text before it contribute in front of the outcome of the rest. */
  function Contribute(text: string, inner: string, found: Resolution, rest: Outcome): Outcome {
    match found
    case Value(v) => Prepend(text + v, [], rest)
    case Missing(name) => EnvNotSet(name)
    case Unresolved(key) => Prepend(text + (OPEN + inner + CLOSE), [WARNING_PREFIX + key], rest)
  }

  /** Substitution tag by tag; an inserted value is never looked at again. */
  function Substitute(p: Template, context: Lookup, env: Lookup): Outcome {
    match p
    case Tail(text) => Done(text, [])
    case Tag(text, inner, rest) =>
      Contribute(text, inner, Resolve(inner, context, env), Substitute(rest, context, env))
  }

  lemma PrependTwice(v1: string, w1: seq<string>, v2: string, w2: seq<string>, o: Outcome)
    ensures Prepend(v1, w1, Prepend(v2, w2, o)) == Prepend(v1 + v2, w1 + w2, o)
  {
    if o.Done? {
      assert v1 + (v2 + o.value) == v1 + v2 + o.value;
      assert w1 + (w2 + o.warnings) == w1 + w2 + o.warnings;
    }
  }

  /** The searches that the loop makes in the whole text are those of the parse from `cursor` on. */
  lemma SearchAt(t: string, cursor: nat, start: nat)
    requires cursor <= |t| && IndexOfPair(t, '{', cursor) == start
    ensures cursor <= start && start + 2 <= |t|
    ensures IndexOfPair(t[cursor..], '{', 0) == start - cursor
    ensures IndexOfPair(t, '}', start + 2) < 0 ==> IndexOfPair(t[cursor..], '}', start - cursor + 2) < 0
    ensures IndexOfPair(t, '}', start + 2) >= 0 ==>
              IndexOfPair(t[cursor..], '}', start - cursor + 2) == IndexOfPair(t, '}', start + 2) - cursor
  {
    IndexOfPairSuffix(t, '{', cursor);
    IndexOfPairSuffix(t, '}', start + 2);
    IndexOfPairSuffix(t[cursor..], '}', start - cursor + 2);
    assert t[start + 2..] == t[cursor..][start - cursor + 2..];
  }

  lemma ParseEmpty()
    ensures Parse("") == Tail("")
  {
  }

  lemma ParseTailAt(t: string, cursor: nat)
    requires cursor <= |t|
    requires IndexOfPair(t, '{', cursor) < 0 || IndexOfPair(t, '}', IndexOfPair(t, '{', cursor) + 2) < 0
    ensures Parse(t[cursor..]) == Tail(t[cursor..])
  {
    if IndexOfPair(t, '{', cursor) < 0 {
      IndexOfPairSuffix(t, '{', cursor);
    } else {
      SearchAt(t, cursor, IndexOfPair(t, '{', cursor));
    }
  }

  lemma ParseTagAt(t: string, cursor: nat, start: nat, end: nat)
    requires cursor <= |t| && IndexOfPair(t, '{', cursor) == start && IndexOfPair(t, '}', start + 2) == end
    ensures cursor <= start && start + 2 <= end && end + 2 <= |t|
    ensures t[start..end + 2] == OPEN + t[start + 2..end] + CLOSE
    ensures Parse(t[cursor..]) == Tag(t[cursor..start], t[start + 2..end], Parse(t[end + 2..]))
  {
    var suffix := t[cursor..];
    SearchAt(t, cursor, start);
    ParseStep(suffix, start - cursor, end - cursor);
    assert t[cursor..start] == suffix[..start - cursor];
    assert t[start + 2..end] == suffix[start - cursor + 2..end - cursor];
    assert t[end + 2..] == suffix[end - cursor + 2..];
    assert PairAt(t, '{', start) && PairAt(t, '}', end);
  }

  lemma ContributeAfter(value: string, warnings: seq<string>, text: string, inner: string, found: Resolution,
                        rest: Outcome)
    ensures var whole := Prepend(value, warnings, Contribute(text, inner, found, rest));
            match found
            case Value(v) => whole == Prepend(value + text + v, warnings, rest)
            case Missing(name) => whole == EnvNotSet(name)
            case Unresolved(key) =>
              whole == Prepend(value + text + (OPEN + inner + CLOSE), warnings + [WARNING_PREFIX + key], rest)
  {
    match found
    case Value(v) =>
      PrependTwice(value, warnings, text + v, [], rest);
      assert value + (text + v) == value + text + v;
      assert warnings + [] == warnings;
    case Missing(_) =>
    case Unresolved(key) =>
      var tag := OPEN + inner + CLOSE;
      PrependTwice(value, warnings, text + tag, [WARNING_PREFIX + key], rest);
      assert value + (text + tag) == value + text + tag;
  }

  /** The scanner loop computes the tag-by-tag substitution. */
  method Interpolate(template: string, context: Lookup, env: Lookup) returns (r: Outcome)
    ensures r == Substitute(Parse(template), context, env)
  {
    hide PairAt, IndexOfPair, Parse, Resolve;
    var value, warnings: seq<string> := "", [];
    var cursor := 0;
    ghost var whole := Substitute(Parse(template), context, env);
    assert template[0..] == template;
    assert Prepend("", [], whole) == whole;
    while cursor < |template|
      invariant cursor <= |template|
      invariant whole == Prepend(value, warnings, Substitute(Parse(template[cursor..]), context, env))
    {
      var start := IndexOfPair(template, '{', cursor);
      if start == -1 {
        ParseTailAt(template, cursor);
        value := value + template[cursor..];
        return Done(value, warnings);
      }
      var end := IndexOfPair(template, '}', start + 2);
      if end == -1 {
        ParseTailAt(template, cursor);
        value := value + template[cursor..];
        return Done(value, warnings);
      }
      ParseTagAt(template, cursor, start, end);
      var text, inner := template[cursor..start], template[start + 2..end];
      var found := Resolve(inner, context, env);
      ContributeAfter(value, warnings, text, inner, found,
                      Substitute(Parse(template[end + 2..]), context, env));
      value := value + text;
      var fullMatch := template[start..end + 2];
      match found {
        case Value(v) =>
          value := value + v;
        case Missing(name) =>
          return EnvNotSet(name);
        case Unresolved(key) =>
          warnings := warnings + [WARNING_PREFIX + key];
          value := value + fullMatch;
      }
      cursor := end + 2;
    }
    ParseEmpty();
    assert template[cursor..] == "";
    return Done(value, warnings);
  }

  // ---- Interpolating an interpolated text ----

  /** Interpolating the result again changes neither the text nor the warnings. */
  ghost predicate Idempotent(template: string, context: Lookup, env: Lookup) {
    var first := Substitute(Parse(template), context, env);
    first.Done? ==> Substitute(Parse(first.value), context, env) == first
  }

  /** Every value that can be looked up is one of these. */
  ghost predicate ValuesIn(f: Lookup, values: iset<string>) {
    forall key :: f(key).Some? ==> f(key).value in values
  }

  /** Values whose insertion cannot open a tag. */
  ghost predicate OpensNothing(f: Lookup) {
    forall key :: f(key).Some? ==> Closed(f(key).value)
  }

  function Glue(text: string, p: Template): Template {
    match p
    case Tail(t) => Tail(text + t)
    case Tag(t, inner, rest) => Tag(text + t, inner, rest)
  }

  /** The template left after one substitution: resolved tags become text, the others stay. */
  function Residual(p: Template, context: Lookup, env: Lookup): Template {
    match p
    case Tail(text) => p
    case Tag(text, inner, rest) =>
      match Resolve(inner, context, env)
      case Value(v) => Glue(text + v, Residual(rest, context, env))
      case _ => Tag(text, inner, Residual(rest, context, env))
  }

  /** Text that neither holds `{{` nor ends in `{` shifts the first tag and creates none. */
  lemma ShiftOpen(text: string, t: string)
    requires Closed(text)
    ensures IndexOfPair(text + t, '{', 0) ==
            if IndexOfPair(t, '{', 0) < 0 then -1 else |text| + IndexOfPair(t, '{', 0)
  {
    var s := text + t;
    forall k: nat | k < |text|
      ensures !PairAt(s, '{', k)
    {
      assert !PairAt(text, '{', k);
    }
    IndexOfPairSuffix(s, '{', |text|);
    assert s[|text|..] == t;
    var r := IndexOfPair(s, '{', |text|);
    if r >= 0 {
      IndexOfPairIs(s, '{', 0, r);
    }
  }

  lemma ClosedGlue(a: string, b: string)
    requires Closed(a) && Closed(b)
    ensures Closed(a + b)
  {
    forall k: nat | k < |a + b|
      ensures !PairAt(a + b, '{', k)
    {
      if k < |a| {
        assert !PairAt(a, '{', k);
      } else {
        assert !PairAt(b, '{', k - |a|);
      }
    }
  }

  lemma UntaggedGlue(a: string, b: string)
    requires Closed(a) && Untagged(b)
    ensures Untagged(a + b)
  {
    ShiftOpen(a, b);
    var start := IndexOfPair(b, '{', 0);
    if start >= 0 {
      IndexOfPairSuffix(b, '}', start + 2);
      IndexOfPairSuffix(a + b, '}', |a| + start + 2);
      assert (a + b)[|a| + start + 2..] == b[start + 2..];
    }
  }

  lemma JoinGlue(a: string, b: string, inner: string, tail: string)
    ensures Join(a + b, inner, tail) == a + Join(b, inner, tail)
  {
  }

  lemma {:induction false} GlueSound(text: string, p: Template)
    requires Closed(text) && WellFormed(p)
    ensures WellFormed(Glue(text, p)) && Print(Glue(text, p)) == text + Print(p)
  {
    match p
    case Tail(t) => UntaggedGlue(text, t);
    case Tag(t, inner, rest) =>
      ClosedGlue(text, t);
      JoinGlue(text, t, inner, Print(rest));
  }

  lemma {:induction false} GlueSubstitute(text: string, p: Template, context: Lookup, env: Lookup)
    ensures Substitute(Glue(text, p), context, env) == Prepend(text, [], Substitute(p, context, env))
  {
    if p.Tag? {
      var found, rest := Resolve(p.inner, context, env), Substitute(p.rest, context, env);
      ContributeAfter(text, [], p.text, p.inner, found, rest);
      match found
      case Value(v) => assert text + p.text + v == (text + p.text) + v;
      case Missing(_) =>
      case Unresolved(key) => assert [] + [WARNING_PREFIX + key] == [WARNING_PREFIX + key];
    }
  }

  /** The residual of a template does what `ResidualStable` says. */
  ghost predicate Settles(p: Template, context: Lookup, env: Lookup) {
    var q, first := Residual(p, context, env), Substitute(p, context, env);
    WellFormed(q) && first.Done? && Print(q) == first.value && Substitute(q, context, env) == first
  }

  /** A resolved tag becomes text in front of the rest. */
  lemma ValueSettles(text: string, inner: string, v: string, rest: Template, context: Lookup, env: Lookup)
    requires Closed(text) && Closed(v) && Resolve(inner, context, env) == Value(v) && Settles(rest, context, env)
    ensures Settles(Tag(text, inner, rest), context, env)
  {
    var q := Residual(rest, context, env);
    ClosedGlue(text, v);
    hide Closed, Enclosed, Resolve;
    GlueSound(text + v, q);
    GlueSubstitute(text + v, q, context, env);
    hide WellFormed, Print, Glue;
  }

  /** A tag that is not resolved stays. */
  lemma TagSettles(text: string, inner: string, rest: Template, context: Lookup, env: Lookup)
    requires Closed(text) && Enclosed(inner) && Settles(rest, context, env)
    requires Resolve(inner, context, env).Unresolved?
    ensures Settles(Tag(text, inner, rest), context, env)
  {
    hide Closed, Enclosed, Resolve;
    assert text + (OPEN + inner + CLOSE) + Print(Residual(rest, context, env))
        == Join(text, inner, Print(Residual(rest, context, env)));
  }

  /** One substitution prints its residual, which a second substitution leaves as it is. */
  lemma {:induction false} ResidualStable(p: Template, context: Lookup, env: Lookup)
    requires WellFormed(p) && OpensNothing(context) && OpensNothing(env)
    requires Substitute(p, context, env).Done?
    ensures WellFormed(Residual(p, context, env))
    ensures Print(Residual(p, context, env)) == Substitute(p, context, env).value
    ensures Substitute(Residual(p, context, env), context, env) == Substitute(p, context, env)
  {
    if p.Tag? {
      hide Closed, Enclosed, Residual, Print, Prepend;
      assert Substitute(p.rest, context, env).Done? by { RestDone(p, context, env); }
      ResidualStable(p.rest, context, env);
      match Resolve(p.inner, context, env)
      case Value(v) =>
        ResolvedClosed(p.inner, context, env);
        ValueSettles(p.text, p.inner, v, p.rest, context, env);
      case Unresolved(_) => TagSettles(p.text, p.inner, p.rest, context, env);
      case Missing(_) =>
    }
  }

  lemma {:induction false} RestDone(p: Template, context: Lookup, env: Lookup)
    requires p.Tag? && Substitute(p, context, env).Done?
    ensures Substitute(p.rest, context, env).Done? && !Resolve(p.inner, context, env).Missing?
  {
  }

  lemma ResolvedClosed(inner: string, context: Lookup, env: Lookup)
    requires OpensNothing(context) && OpensNothing(env)
    ensures var found := Resolve(inner, context, env); found.Value? ==> Closed(found.value)
  {
    hide Closed;
  }

  /** Interpolation is idempotent when no value can open a tag. */
  lemma InterpolateTwice(template: string, context: Lookup, env: Lookup)
    requires OpensNothing(context) && OpensNothing(env)
    ensures Idempotent(template, context, env)
  {
    ParseSound(template);
    var first := Substitute(Parse(template), context, env);
    if first.Done? {
      ResidualStable(Parse(template), context, env);
      ParseComplete(Residual(Parse(template), context, env));
    }
  }

  /** A key that is longer than a value, and that no trimming shortens. */
  function LongKey(v: string): (key: string)
    ensures |key| == |v| + 1 && forall i :: 0 <= i < |key| ==> key[i] == 'k'
  {
    seq(|v| + 1, _ => 'k')
  }

  lemma {:induction false} TrimShortens(s: string)
    ensures |Trim(s)| <= |s|
  {
    StartShortens(s);
    EndShortens(TrimStart(s));
  }

  lemma {:induction false} StartShortens(s: string)
    ensures |TrimStart(s)| <= |s|
  {
    if s != "" && IsSpace(s[0]) {
      StartShortens(s[1..]);
    }
  }

  lemma {:induction false} EndShortens(s: string)
    ensures |TrimEnd(s)| <= |s|
  {
    if s != "" && IsSpace(s[|s| - 1]) {
      EndShortens(s[..|s| - 1]);
    }
  }

  /** What follows the value: it closes a tag that the value opens. */
  function Closing(v: string): string {
    if exists k: nat :: k < |v| && PairAt(v, '{', k) then CLOSE else "{a}}"
  }

  lemma ClosingOpensNothing(v: string)
    ensures Untagged(Closing(v))
  {
    assert forall k: nat :: !PairAt(CLOSE, '{', k) && !PairAt("{a}}", '{', k);
  }

  lemma LongKeyIsKey(v: string, context: Lookup, env: Lookup)
    ensures Enclosed(LongKey(v))
    ensures context(LongKey(v)) == Some(v) ==> Resolve(LongKey(v), context, env) == Value(v)
  {
    var key := LongKey(v);
    hide LongKey;
    assert key[0] == 'k' && key[|key| - 1] == 'k' && !IsSpace('k');
    assert Trim(key) == key;
    assert !(ENV_PREFIX <= key) by {
      assert ENV_PREFIX[0] == 'p';
    }
  }

  /** The first pass inserts the value and looks at nothing else. */
  lemma FirstPass(v: string, context: Lookup, env: Lookup)
    requires context(LongKey(v)) == Some(v)
    ensures Substitute(Parse(Join("", LongKey(v), Closing(v))), context, env) == Done(v + Closing(v), [])
  {
    var p := Tag("", LongKey(v), Tail(Closing(v)));
    LongKeyIsKey(v, context, env);
    ClosingOpensNothing(v);
    hide Parse, LongKey, Closing, Enclosed, Untagged, Resolve, Join;
    ParseComplete(p);
    assert Print(p) == Join("", LongKey(v), Closing(v));
    assert "" + v == v;
  }

  /** The tag that the inserted value opens. */
  lemma {:induction false} SecondTag(v: string)
    requires !Closed(v)
    ensures
      var p := Parse(v + Closing(v));
      p.Tag? && |p.inner| <= |v|
  {
    var t := v + Closing(v);
    if k: nat :| k < |v| && PairAt(v, '{', k) {
      assert PairAt(t, '{', k);
      assert PairAt(t, '}', |v|);
    } else {
      assert PairAt(t, '{', |v| - 1);
      assert PairAt(t, '}', |v| + 2);
    }
  }

  /** A second pass over a text with a tag that cannot be resolved fails or warns. */
  lemma {:induction false} UnresolvedWarns(p: Template, context: Lookup, env: Lookup)
    requires p.Tag? && context(Trim(p.inner)).None? && forall name :: env(name).None?
    ensures Substitute(p, context, env).Done? ==> Substitute(p, context, env).warnings != []
  {
  }

  /** A value that can open a tag, bound to a single key, makes the second pass differ. */
  lemma UnclosedBreaks(v: string) returns (template: string, context: Lookup, env: Lookup)
    requires !Closed(v)
    ensures ValuesIn(context, iset{v}) && ValuesIn(env, iset{v}) && !Idempotent(template, context, env)
  {
    var key := LongKey(v);
    template := Join("", key, Closing(v));
    context := name => if name == key then Some(v) else None;
    env := _ => None;
    FirstPass(v, context, env);
    SecondTag(v);
    var p := Parse(v + Closing(v));
    TrimShortens(p.inner);
    hide Parse, Trim, LongKey, Closing, Substitute;
    UnresolvedWarns(p, context, env);
  }

  /**
   * With values from this set, interpolation is idempotent for all templates, contexts and
   * environments exactly if no value holds `{{` or ends in `{`.
   */
  lemma IdempotentExactly(values: iset<string>)
    ensures (forall v :: v in values ==> Closed(v)) <==>
            forall template, context: Lookup, env: Lookup ::
              ValuesIn(context, values) && ValuesIn(env, values) ==> Idempotent(template, context, env)
  {
    hide Closed, Idempotent;
    if forall v :: v in values ==> Closed(v) {
      forall template, context: Lookup, env: Lookup | ValuesIn(context, values) && ValuesIn(env, values)
        ensures Idempotent(template, context, env)
      {
        InterpolateTwice(template, context, env);
      }
    } else {
      var v :| v in values && !Closed(v);
      var template, context, env := UnclosedBreaks(v);
      assert ValuesIn(context, values) && ValuesIn(env, values);
    }
  }
}
