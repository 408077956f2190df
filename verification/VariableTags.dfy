/** What a single tag of a template stands for: apifn/collections/src/variables.ts. */
module VariableTags {
  import opened Text
  import opened Variables

  // ---- Trimming ----

  predicate Blank(s: string) {
    forall k :: 0 <= k < |s| ==> IsSpace(s[k])
  }

  predicate Bare(s: string) {
    s != "" ==> !IsSpace(s[0]) && !IsSpace(s[|s| - 1])
  }

  lemma {:induction false} StartTrimmed(before: string, s: string)
    requires Blank(before) && (s != "" ==> !IsSpace(s[0]))
    ensures TrimStart(before + s) == s
  {
    if before == "" {
      assert before + s == s;
    } else {
      StartTrimmed(before[1..], s);
      assert (before + s)[1..] == before[1..] + s;
    }
  }

  lemma {:induction false} EndTrimmed(s: string, after: string)
    requires Blank(after) && (s != "" ==> !IsSpace(s[|s| - 1]))
    ensures TrimEnd(s + after) == s
  {
    if after == "" {
      assert s + after == s;
    } else {
      EndTrimmed(s, after[..|after| - 1]);
      assert (s + after)[..|s + after| - 1] == s + after[..|after| - 1];
    }
  }

  /** Trimming takes away the white space around a text, and nothing else. */
  lemma Trimmed(before: string, s: string, after: string)
    requires Blank(before) && Blank(after) && Bare(s)
    ensures Trim(before + s + after) == s
  {
    if s == "" {
      assert before + s + after == (before + after) + "";
      StartTrimmed(before + after, "");
      EndTrimmed("", "");
    } else {
      assert before + s + after == before + (s + after);
      StartTrimmed(before, s + after);
      EndTrimmed(s, after);
    }
  }

  // ---- Tags ----

  /** The text of one tag, with white space around its name. */
  function TagText(before: string, name: string, after: string): string {
    "{{" + (before + name + after) + "}}"
  }

  lemma {:induction false} TagParses(inner: string)
    requires Enclosed(inner)
    ensures Parse("{{" + inner + "}}") == Tag("", inner, Tail(""))
  {
    var p := Tag("", inner, Tail(""));
    assert Print(p) == "{{" + inner + "}}";
    ParseComplete(p);
  }

  /** A name after `process.env.` is looked up in the process environment, and must be set there. */
  lemma EnvironmentTag(before: string, name: string, after: string, context: Lookup, env: Lookup)
    requires Blank(before) && Blank(after) && Bare("process.env." + name) && Enclosed(before + ("process.env." + name) + after)
    ensures
      Substitute(Parse(TagText(before, "process.env." + name, after)), context, env) ==
        match env(name)
        case Some(v) => Done(v, [])
        case None => EnvNotSet(name)
  {
    var key := "process.env." + name;
    TagParses(before + key + after);
    Trimmed(before, key, after);
    assert key[|ENV_PREFIX|..] == name;
    hide Parse, Trim, Enclosed;
    if env(name).Some? {
      assert "" + env(name).value + "" == env(name).value;
    }
  }

  /** Any other name is looked up in the context; without a value the tag stays, and there is a warning. */
  lemma ContextTag(before: string, name: string, after: string, context: Lookup, env: Lookup)
    requires Blank(before) && Blank(after) && Bare(name) && Enclosed(before + name + after) && !StartsWith(name, "process.env.")
    ensures
      Substitute(Parse(TagText(before, name, after)), context, env) ==
        match context(name)
        case Some(v) => Done(v, [])
        case None => Done(TagText(before, name, after), ["Unresolved variable: " + name])
  {
    TagParses(before + name + after);
    Trimmed(before, name, after);
    hide Parse, Trim, Enclosed;
    match context(name)
    case Some(v) =>
      assert "" + v + "" == v;
    case None =>
      assert "" + (OPEN + (before + name + after) + CLOSE) + "" == TagText(before, name, after);
  }

  /** A text, then one outcome, then another; the first name that is not set counts. */
  function Then(text: string, first: Outcome, more: Outcome): Outcome {
    if first.EnvNotSet? then first
    else if more.EnvNotSet? then more
    else Done(text + first.value + more.value, first.warnings + more.warnings)
  }

  /** The first tag and what follows it are substituted on their own. */
  lemma {:induction false} TagByTag(text: string, inner: string, rest: string, context: Lookup, env: Lookup)
    requires Closed(text) && Enclosed(inner)
    ensures
      var first, more := Substitute(Parse("{{" + inner + "}}"), context, env), Substitute(Parse(rest), context, env);
      Substitute(Parse(text + "{{" + inner + "}}" + rest), context, env) == Then(text, first, more)
  {
    assert text + "{{" + inner + "}}" + rest == Join(text, inner, rest);
    ParseJoin(text, inner, rest);
    TagParses(inner);
    hide Parse, Closed, Enclosed;
    FirstTag(text, inner, Resolve(inner, context, env), Substitute(Parse(rest), context, env));
  }

  lemma FirstTag(text: string, inner: string, found: Resolution, rest: Outcome)
    ensures
      Contribute(text, inner, found, rest) == Then(text, Contribute("", inner, found, Done("", [])), rest)
  {
    if found.Value? {
      assert "" + found.value + "" == found.value;
    } else if found.Unresolved? {
      var tag := OPEN + inner + CLOSE;
      assert "" + tag + "" == tag && [WARNING_PREFIX + found.key] + [] == [WARNING_PREFIX + found.key];
    }
  }
}
