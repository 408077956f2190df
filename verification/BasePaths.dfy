/** Mounting a route below a base path: `withBasePath` in apifn/core/src/introspect.ts. */
module BasePaths {
  import opened Text

  function Rooted(path: string): string {
    if StartsWith(path, "/") then path else "/" + path
  }

  /** The route below the base; an empty base is none. */
  function WithBasePath(path: string, base: string): string {
    var route := Rooted(path);
    if base == "" then route
    else
      var b, r := DropTrailing(Rooted(base), '/'), DropLeading(route, '/');
      if r == "" then if b == "" then "/" else b
      else if b == "/" then "/" + r
      else b + "/" + r
  }

  // ---- A normal form ----

  /** The path without the slashes in front. */
  function Inside(path: string): string {
    DropLeading(Rooted(path), '/')
  }

  lemma {:induction false} DropLeadingStops(s: string)
    ensures DropLeading(s, '/') == "" || DropLeading(s, '/')[0] != '/'
  {
    if s != "" && s[0] == '/' {
      DropLeadingStops(s[1..]);
    }
  }

  lemma {:induction false} DropTrailingStops(s: string)
    ensures DropTrailing(s, '/') == "" || DropTrailing(s, '/')[|DropTrailing(s, '/')| - 1] != '/'
    ensures DropTrailing(s, '/') <= s
  {
    if s != "" && s[|s| - 1] == '/' {
      DropTrailingStops(s[..|s| - 1]);
    }
  }

  /** Slashes at the end go without touching what stands in front of something else. */
  lemma {:induction false} DropTrailingAfter(a: string, s: string)
    requires DropTrailing(s, '/') != ""
    ensures DropTrailing(a + s, '/') == a + DropTrailing(s, '/')
  {
    if s[|s| - 1] == '/' {
      var t := s[..|s| - 1];
      DropTrailingAfter(a, t);
      assert (a + s)[..|a + s| - 1] == a + t;
    }
  }

  lemma {:induction false} DropLeadingBefore(s: string, a: string)
    requires DropLeading(s, '/') != ""
    ensures DropLeading(s + a, '/') == DropLeading(s, '/') + a
  {
    if s[0] == '/' {
      DropLeadingBefore(s[1..], a);
      assert (s + a)[1..] == s[1..] + a;
    }
  }

  /** Text that begins with something else than a slash does not vanish. */
  lemma {:induction false} DropTrailingKeeps(s: string)
    requires s != "" && s[0] != '/'
    ensures DropTrailing(s, '/') != ""
  {
    if |s| > 1 && s[|s| - 1] == '/' {
      DropTrailingKeeps(s[..|s| - 1]);
    }
  }

  /** Both ends can be trimmed in either order. */
  lemma {:induction false} DropsCommute(s: string)
    ensures DropLeading(DropTrailing(s, '/'), '/') == DropTrailing(DropLeading(s, '/'), '/')
  {
    if s != "" && s[0] == '/' {
      DropsCommute(s[1..]);
      assert s == "/" + s[1..];
      if DropTrailing(s[1..], '/') != "" {
        DropTrailingAfter("/", s[1..]);
        assert ("/" + DropTrailing(s[1..], '/'))[1..] == DropTrailing(s[1..], '/');
      } else {
        AllSlashes(s[1..]);
      }
    } else if s != "" {
      DropTrailingKeeps(s);
      DropTrailingStops(s);
      assert DropTrailing(s, '/')[0] == s[0];
    }
  }

  lemma {:induction false} AllSlashes(s: string)
    requires DropTrailing(s, '/') == ""
    ensures DropTrailing("/" + s, '/') == "" && DropLeading(s, '/') == ""
  {
    if s != "" {
      var t := s[..|s| - 1];
      AllSlashes(t);
      assert ("/" + s)[..|"/" + s| - 1] == "/" + t;
      assert s == t + "/";
      SlashesAfter(t);
    } else {
      assert ("/" + s)[..0] == "";
    }
  }

  lemma {:induction false} SlashesAfter(t: string)
    requires DropLeading(t, '/') == ""
    ensures DropLeading(t + "/", '/') == ""
  {
    if t == "" {
      assert (t + "/")[1..] == "";
    } else {
      SlashesAfter(t[1..]);
      assert (t + "/")[1..] == t[1..] + "/";
    }
  }

  /** What is left of a base: nothing, or a text that ends without a slash. */
  function Base(base: string): string {
    DropTrailing(Rooted(base), '/')
  }

  /** The two parts, joined by one slash, if there are two. */
  function Joined(base: string, inside: string): string {
    if inside == "" then if base == "" then "/" else base else base + "/" + inside
  }

  lemma WithBaseIsJoined(path: string, base: string)
    requires base != ""
    ensures WithBasePath(path, base) == Joined(Base(base), Inside(path))
  {
    DropTrailingStops(Rooted(base));
  }

  lemma RootedBase(base: string)
    ensures Base(base) == "" || Base(base)[0] == '/'
  {
    DropTrailingStops(Rooted(base));
    assert Rooted(base)[0] == '/';
  }

  /** The parts of a joined path. */
  lemma {:induction false} JoinedParts(base: string, inside: string)
    requires base == "" || (base[0] == '/' && base[|base| - 1] != '/')
    requires inside == "" || inside[0] != '/'
    ensures Base(Joined(base, inside)) == if inside == "" then base else base + "/" + DropTrailing(inside, '/')
    ensures DropTrailing(inside, '/') != "" <==> inside != ""
  {
    var joined := Joined(base, inside);
    assert joined != "" && joined[0] == '/';
    assert Rooted(joined) == joined;
    if inside != "" {
      DropTrailingKeeps(inside);
      DropTrailingAfter(base + "/", inside);
    } else if base == "" {
      assert "/"[..0] == "";
    }
  }

  lemma {:induction false} JoinedInside(base: string, inside: string)
    requires base == "" || base[0] == '/'
    requires inside == "" || inside[0] != '/'
    requires base != "" ==> DropLeading(base, '/') != ""
    ensures Inside(Joined(base, inside)) ==
            if base == "" then inside else if inside == "" then DropLeading(base, '/') else DropLeading(base, '/') + "/" + inside
  {
    if inside == "" {
      if base == "" {
        OneSlashDropped("");
        assert "/" + "" == "/";
      }
      StartsRooted(Joined(base, inside));
    } else {
      InsideJoined(base, inside);
    }
  }

  lemma {:induction false} InsideJoined(base: string, inside: string)
    requires (base == "" || base[0] == '/') && inside != "" && inside[0] != '/'
    requires base != "" ==> DropLeading(base, '/') != ""
    ensures Inside(base + "/" + inside) == if base == "" then inside else DropLeading(base, '/') + "/" + inside
  {
    hide DropLeading, Rooted;
    var tail := "/" + inside;
    OneSlashDropped(inside);
    Regroup(base, inside);
    StartsRooted(base + tail);
    if base != "" {
      DropLeadingBefore(base, tail);
      Regroup(DropLeading(base, '/'), inside);
    }
  }

  lemma Regroup(base: string, inside: string)
    ensures base + "/" + inside == base + ("/" + inside) && (base == "" ==> base + ("/" + inside) == "/" + inside)
  {
  }

  lemma StartsRooted(path: string)
    requires path != "" && path[0] == '/'
    ensures Rooted(path) == path
  {
  }

  lemma {:induction false} OneSlashDropped(inside: string)
    requires inside == "" || inside[0] != '/'
    ensures DropLeading("/" + inside, '/') == inside
  {
    assert ("/" + inside)[1..] == inside;
  }

  /** A base with a slash-free end has something inside. */
  lemma {:induction false} EndsInside(base: string)
    requires base != "" && base[|base| - 1] != '/'
    ensures DropLeading(base, '/') != ""
  {
    if base[0] == '/' {
      EndsInside(base[1..]);
    }
  }

  /** A mounted path starts with a slash, and trailing slashes of the base make no difference. */
  lemma MountedIsRooted(path: string, base: string)
    ensures StartsWith(WithBasePath(path, base), "/")
    ensures base != "" ==> WithBasePath(path, base + "/") == WithBasePath(path, base)
  {
    if base != "" {
      WithBaseIsJoined(path, base);
      WithBaseIsJoined(path, base + "/");
      RootedBase(base);
      assert Rooted(base + "/") == Rooted(base) + "/";
      assert (Rooted(base) + "/")[..|Rooted(base)|] == Rooted(base);
    }
  }

  /** Mounting twice, on two bases. */
  lemma MountsTwice(path: string, inner: string, outer: string)
    requires inner != "" && outer != ""
    ensures WithBasePath(WithBasePath(path, inner), outer) == WithBasePath(path, WithBasePath(inner, outer))
  {
    var a, b, p, l := Base(outer), Base(inner), Inside(path), Inside(inner);
    BaseShape(outer);
    BaseShape(inner);
    DropLeadingStops(Rooted(path));
    DropLeadingStops(Rooted(inner));
    WithBaseIsJoined(path, inner);
    WithBaseIsJoined(Joined(b, p), outer);
    JoinedInside(b, p);
    WithBaseIsJoined(inner, outer);
    WithBaseIsJoined(path, Joined(a, l));
    JoinedParts(a, l);
    DropsCommute(Rooted(inner));
    hide DropLeading, DropTrailing, Rooted, WithBasePath;
    TailsAgree(a, b, p, l);
  }

  lemma BaseShape(base: string)
    ensures Base(base) == "" || (Base(base)[0] == '/' && Base(base)[|Base(base)| - 1] != '/' && DropLeading(Base(base), '/') != "")
  {
    RootedBase(base);
    DropTrailingStops(Rooted(base));
    if Base(base) != "" {
      EndsInside(Base(base));
    }
  }

  lemma {:induction false} TailsAgree(a: string, b: string, p: string, l: string)
    requires DropLeading(b, '/') == DropTrailing(l, '/') && (b == "" <==> DropLeading(b, '/') == "") && (DropTrailing(l, '/') == "" <==> l == "")
    ensures
      var inside := if b == "" then p else if p == "" then DropLeading(b, '/') else DropLeading(b, '/') + "/" + p;
      var base := if l == "" then a else a + "/" + DropTrailing(l, '/');
      Joined(a, inside) == Joined(base, p)
  {
    hide DropLeading, DropTrailing;
    var d := DropLeading(b, '/');
    assert a + "/" + (d + "/" + p) == a + "/" + d + "/" + p;
  }

  lemma RootedTwice(path: string)
    ensures Rooted(path) != "" && Rooted(path)[0] == '/' && Rooted(Rooted(path)) == Rooted(path)
  {
  }

  /** Without an inner base: the outer base with nothing mounted is a base like the outer one. */
  lemma MountsOuter(path: string, outer: string)
    requires outer != ""
    ensures WithBasePath(WithBasePath(path, ""), outer) == WithBasePath(path, WithBasePath("", outer))
  {
    RootedTwice(path);
    BaseShape(outer);
    DropLeadingStops(Rooted(path));
    OneSlashDropped("");
    assert "/" + "" == "/";
    WithBaseIsJoined(Rooted(path), outer);
    WithBaseIsJoined("", outer);
    JoinedParts(Base(outer), "");
    WithBaseIsJoined(path, Joined(Base(outer), ""));
  }

  /** Without an outer base: the inner base is rooted either way. */
  lemma MountsInner(path: string, inner: string)
    requires inner != ""
    ensures WithBasePath(WithBasePath(path, inner), "") == WithBasePath(path, WithBasePath(inner, ""))
  {
    MountedIsRooted(path, inner);
    RootedTwice(inner);
    WithBaseIsJoined(path, inner);
    WithBaseIsJoined(path, Rooted(inner));
  }

  /** Without any base a path stays as it is, and below "/" it loses all slashes in front but one. */
  lemma MountsNowhere(path: string)
    ensures WithBasePath(WithBasePath(path, ""), "") == WithBasePath(path, WithBasePath("", "")) <==> !StartsWith(path, "//")
  {
    var route := Rooted(path);
    RootedTwice(path);
    assert WithBasePath("", "") == "/" by { assert "/" + "" == "/"; }
    WithBaseIsJoined(path, "/");
    assert "/"[..0] == "";
    assert Base("/") == "";
    assert route == "/" + route[1..];
    DropLeadingStops(route);
    assert DropLeading(route, '/') == DropLeading(route[1..], '/');
    if StartsWith(path, "//") {
      assert route[1] == '/';
    }
  }

  /** Mounting twice is mounting below the mounted base, but for a path of two slashes in front and no base at all. */
  lemma MountsCompose(path: string, inner: string, outer: string)
    ensures WithBasePath(WithBasePath(path, inner), outer) == WithBasePath(path, WithBasePath(inner, outer))
            <==> inner != "" || outer != "" || !StartsWith(path, "//")
  {
    hide WithBasePath, StartsWith;
    if inner == "" && outer == "" {
      MountsNowhere(path);
    } else if inner == "" {
      MountsOuter(path, outer);
    } else if outer == "" {
      MountsInner(path, inner);
    } else {
      MountsTwice(path, inner, outer);
    }
  }
}
