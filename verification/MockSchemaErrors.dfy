/** What each error of the mock's validator says, and where: apifn/mock/src/request-validator.ts. */
module MockSchemaErrors {
  import opened Text
  import opened MockSchema

  // ---- Types ----

  predicate Whole(k: int, n: real) {
    k as real == n
  }

  /** The names that a value's type may be given. */
  ghost predicate HasType(value: Value, name: string) {
    match value
    case Undefined => name == "undefined"
    case Lit(Null) => name == "null"
    case Lit(Bool(_)) => name == "boolean"
    case Lit(Number(n)) => name == "number" || (name == "integer" && exists k :: Whole(k, n))
    case Lit(Str(_)) => name == "string"
    case Arr(_) => name == "array"
    case Obj(_) => name == "object"
  }

  /** The schema names no type, or one that the value has. */
  ghost predicate OfType(value: Value, schema: Schema) {
    match schema.types
    case Untyped => true
    case One(name) => name == "" || HasType(value, name)
    case Many(names) => names == [] || exists name :: name in names && HasType(value, name)
  }

  lemma MatchesType(value: Value, name: string)
    ensures Matches(value, name) <==> HasType(value, name)
  {
    if value.Lit? && value.scalar.Number? && name == "integer" {
      var n := value.scalar.n;
      if n == n.Floor as real {
        assert Whole(n.Floor, n);
      }
      if k :| Whole(k, n) {
        assert n.Floor == k;
      }
    }
  }

  lemma TypesAllow(value: Value, schema: Schema)
    ensures TypeAllows(value, TypeNames(schema.types)) <==> OfType(value, schema)
  {
    forall name
      ensures Matches(value, name) <==> HasType(value, name)
    {
      MatchesType(value, name);
    }
    hide Matches, HasType;
    var types := TypeNames(schema.types);
    if name :| name in types && HasType(value, name) {
      var i :| 0 <= i < |types| && types[i] == name;
    }
    if i :| 0 <= i < |types| && Matches(value, types[i]) {
      assert types[i] in types;
    }
    if schema.types.One? && schema.types.name != "" {
      assert types[0] == schema.types.name;
    }
  }

  // ---- Places ----

  /** A step into a value. */
  datatype Place = Member(name: string) | Item(index: nat)

  function PathText(path: string, places: seq<Place>): string
    decreases places
  {
    if places == [] then path
    else
      match places[0]
      case Member(name) => PathText(path + "." + name, places[1..])
      case Item(index) => PathText(path + "[" + Decimal(index) + "]", places[1..])
  }

  /** The steps lead to `v`, which `s` describes; no value on the way has a wrong type. */
  ghost predicate At(value: Value, schema: Schema, places: seq<Place>, v: Value, s: Schema)
    decreases places
  {
    if places == [] then v == value && s == schema
    else
      && OfType(value, schema)
      && match places[0]
         case Member(name) =>
           value.Obj? && name in value.members
           && exists i :: 0 <= i < |schema.properties| && schema.properties[i].name == name
                          && At(value.members[name], schema.properties[i].schema, places[1..], v, s)
         case Item(index) =>
           value.Arr? && schema.items.Some? && index < |value.items|
           && At(value.items[index], schema.items.value, places[1..], v, s)
  }

  /** The value breaks the keyword that this problem is about. */
  ghost predicate Breaks(v: Value, s: Schema, problem: Problem) {
    if problem == WrongType then !OfType(v, s)
    else
      && OfType(v, s)
      && match problem
         case NotInEnum => s.choices.Some? && !(exists k :: 0 <= k < |s.choices.value| && v == Lit(s.choices.value[k]))
         case TooShort => v.Lit? && v.scalar.Str? && s.minLength.Some? && |v.scalar.s| as real < s.minLength.value
         case TooLong => v.Lit? && v.scalar.Str? && s.maxLength.Some? && s.maxLength.value < |v.scalar.s| as real
         case BelowMinimum => v.Lit? && v.scalar.Number? && s.minimum.Some? && v.scalar.n < s.minimum.value
         case AboveMaximum => v.Lit? && v.scalar.Number? && s.maximum.Some? && s.maximum.value < v.scalar.n
         case _ => false
  }

  /** The value lacks this required member. */
  ghost predicate Lacks(v: Value, s: Schema, name: string) {
    OfType(v, s) && v.Obj? && name in s.required && name !in v.members
  }

  /** The error is about this value of this schema, at this path. */
  ghost predicate About(v: Value, s: Schema, path: string, e: Error) {
    if e.problem == Missing then exists name :: Lacks(v, s, name) && e.path == path + "." + name
    else e.path == path && Breaks(v, s, e.problem)
  }

  ghost predicate Justified(value: Value, schema: Schema, path: string, e: Error) {
    exists places, v, s :: At(value, schema, places, v, s) && About(v, s, PathText(path, places), e)
  }

  lemma {:induction false} MissingAre(members: map<string, Value>, required: seq<string>, path: string, e: Error)
    ensures e in MissingErrors(members, required, path) <==>
            e.problem == Missing && exists name :: name in required && name !in members && e.path == path + "." + name
  {
    if required != [] {
      var front, last := required[..|required| - 1], required[|required| - 1];
      MissingAre(members, front, path, e);
      assert required == front + [last];
      assert forall name :: name in required <==> name in front || name == last;
    }
  }

  lemma {:induction false} PropertiesAre(members: map<string, Value>, schema: Schema, n: nat, path: string, e: Error)
    requires n <= |schema.properties|
    ensures e in PropertyErrors(members, schema, n, path) <==>
            exists i :: 0 <= i < n && schema.properties[i].name in members
                        && e in Errors(members[schema.properties[i].name], schema.properties[i].schema,
                                       path + "." + schema.properties[i].name)
  {
    hide Errors;
    if n > 0 {
      PropertiesAre(members, schema, n - 1, path, e);
    }
  }

  lemma {:induction false} ItemsAre(items: seq<Value>, schema: Schema, n: nat, path: string, e: Error)
    requires n <= |items| && schema.items.Some?
    ensures e in ItemErrors(items, schema, n, path) <==>
            exists i :: 0 <= i < n && e in Errors(items[i], schema.items.value, path + "[" + Decimal(i) + "]")
  {
    hide Errors;
    if n > 0 {
      ItemsAre(items, schema, n - 1, path, e);
    }
  }

  lemma ChoicesAre(v: Value, s: Schema)
    ensures !Chosen(v, s.choices) <==> s.choices.Some? && !(exists k :: 0 <= k < |s.choices.value| && v == Lit(s.choices.value[k]))
  {
    if s.choices.Some? && v.Lit? && v.scalar in s.choices.value {
      var k :| 0 <= k < |s.choices.value| && s.choices.value[k] == v.scalar;
    }
  }

  lemma BoundsAre(v: Value, s: Schema, path: string, e: Error)
    requires OfType(v, s)
    ensures e in BoundErrors(v, s, path) <==>
            e.path == path && e.problem !in {WrongType, Missing, NotInEnum} && Breaks(v, s, e.problem)
  {
    hide OfType;
  }

  /** The errors of a value itself, apart from those of what it holds. */
  lemma {:induction false} OwnErrors(value: Value, schema: Schema, path: string, e: Error)
    ensures About(value, schema, path, e) <==>
            if !OfType(value, schema) then e == Error(path, WrongType)
            else e in Report(!Chosen(value, schema.choices), path, NotInEnum) + BoundErrors(value, schema, path)
                 || (value.Obj? && e in MissingErrors(value.members, schema.required, path))
  {
    if OfType(value, schema) {
      BoundsAre(value, schema, path, e);
      ChoicesAre(value, schema);
      if value.Obj? {
        MissingAre(value.members, schema.required, path, e);
      }
    }
    hide OfType, BoundErrors, MissingErrors, Chosen;
  }

  /** An error is the value's own, or one of its members or items. */
  lemma JustifiedHere(value: Value, schema: Schema, path: string, e: Error)
    ensures Justified(value, schema, path, e) <==>
            || About(value, schema, path, e)
            || (OfType(value, schema) && value.Obj? && exists i ::
                  0 <= i < |schema.properties| && schema.properties[i].name in value.members
                  && Justified(value.members[schema.properties[i].name], schema.properties[i].schema,
                               path + "." + schema.properties[i].name, e))
            || (OfType(value, schema) && value.Arr? && schema.items.Some? && exists i ::
                  0 <= i < |value.items| && Justified(value.items[i], schema.items.value, path + "[" + Decimal(i) + "]", e))
  {
    hide OfType, About, Decimal;
    if places, v, s :| At(value, schema, places, v, s) && About(v, s, PathText(path, places), e) {
      if places != [] {
        StepIn(value, schema, path, e, places, v, s);
      }
    }
    if About(value, schema, path, e) {
      assert At(value, schema, [], value, schema) && PathText(path, []) == path;
    }
    if OfType(value, schema) && value.Obj? {
      forall i | 0 <= i < |schema.properties| && schema.properties[i].name in value.members
                 && Justified(value.members[schema.properties[i].name], schema.properties[i].schema,
                              path + "." + schema.properties[i].name, e)
        ensures Justified(value, schema, path, e)
      {
        MemberOut(value, schema, path, e, i);
      }
    }
    if OfType(value, schema) && value.Arr? && schema.items.Some? {
      forall i | 0 <= i < |value.items| && Justified(value.items[i], schema.items.value, path + "[" + Decimal(i) + "]", e)
        ensures Justified(value, schema, path, e)
      {
        ItemOut(value, schema, path, e, i);
      }
    }
  }

  lemma {:induction false} StepIn(value: Value, schema: Schema, path: string, e: Error, places: seq<Place>, v: Value, s: Schema)
    requires places != [] && At(value, schema, places, v, s) && About(v, s, PathText(path, places), e)
    ensures OfType(value, schema)
    ensures
      || (value.Obj? && exists i ::
            0 <= i < |schema.properties| && schema.properties[i].name in value.members
            && Justified(value.members[schema.properties[i].name], schema.properties[i].schema,
                         path + "." + schema.properties[i].name, e))
      || (value.Arr? && schema.items.Some? && exists i ::
            0 <= i < |value.items| && Justified(value.items[i], schema.items.value, path + "[" + Decimal(i) + "]", e))
  {
    hide OfType, About, Decimal;
    match places[0]
    case Member(name) =>
      var i :| 0 <= i < |schema.properties| && schema.properties[i].name == name
               && At(value.members[name], schema.properties[i].schema, places[1..], v, s);
      assert Justified(value.members[name], schema.properties[i].schema, path + "." + name, e);
    case Item(index) =>
      assert Justified(value.items[index], schema.items.value, path + "[" + Decimal(index) + "]", e);
  }

  lemma MemberOut(value: Value, schema: Schema, path: string, e: Error, i: nat)
    requires OfType(value, schema) && value.Obj? && i < |schema.properties| && schema.properties[i].name in value.members
    requires Justified(value.members[schema.properties[i].name], schema.properties[i].schema, path + "." + schema.properties[i].name, e)
    ensures Justified(value, schema, path, e)
  {
    hide OfType, About;
    var name := schema.properties[i].name;
    var places, v, s :| At(value.members[name], schema.properties[i].schema, places, v, s)
                        && About(v, s, PathText(path + "." + name, places), e);
    var longer := [Member(name)] + places;
    assert longer[1..] == places;
    assert At(value, schema, longer, v, s);
    assert PathText(path, longer) == PathText(path + "." + name, places);
  }

  lemma {:induction false} ItemOut(value: Value, schema: Schema, path: string, e: Error, i: nat)
    requires OfType(value, schema) && value.Arr? && schema.items.Some? && i < |value.items|
    requires Justified(value.items[i], schema.items.value, path + "[" + Decimal(i) + "]", e)
    ensures Justified(value, schema, path, e)
  {
    hide OfType, About, Decimal;
    var places, v, s :| At(value.items[i], schema.items.value, places, v, s)
                        && About(v, s, PathText(path + "[" + Decimal(i) + "]", places), e);
    var longer := [Item(i)] + places;
    assert longer[1..] == places;
    assert At(value, schema, longer, v, s);
    assert PathText(path, longer) == PathText(path + "[" + Decimal(i) + "]", places);
  }

  /**
   * The validator reports an error exactly if some value, at the end of some path into members and items that
   * all have their type, breaks the keyword that the error is about, and at the path that the error names.
   */
  lemma {:induction false} ErrorsExact(value: Value, schema: Schema, path: string, e: Error)
    ensures e in Errors(value, schema, path) <==> Justified(value, schema, path, e)
    decreases schema
  {
    TypesAllow(value, schema);
    OwnErrors(value, schema, path, e);
    JustifiedHere(value, schema, path, e);
    if value.Obj? {
      PropertiesAre(value.members, schema, |schema.properties|, path, e);
      forall i | 0 <= i < |schema.properties| && schema.properties[i].name in value.members
        ensures e in Errors(value.members[schema.properties[i].name], schema.properties[i].schema, path + "." + schema.properties[i].name)
                <==> Justified(value.members[schema.properties[i].name], schema.properties[i].schema,
                               path + "." + schema.properties[i].name, e)
      {
        ErrorsExact(value.members[schema.properties[i].name], schema.properties[i].schema, path + "." + schema.properties[i].name, e);
      }
    }
    if value.Arr? && schema.items.Some? {
      ItemsAre(value.items, schema, |value.items|, path, e);
      forall i | 0 <= i < |value.items|
        ensures e in Errors(value.items[i], schema.items.value, path + "[" + Decimal(i) + "]")
                <==> Justified(value.items[i], schema.items.value, path + "[" + Decimal(i) + "]", e)
      {
        ErrorsExact(value.items[i], schema.items.value, path + "[" + Decimal(i) + "]", e);
      }
    }
    ErrorsSplit(value, schema, path, e);
    hide Errors, Justified, OfType, About, BoundErrors, MissingErrors, PropertyErrors, ItemErrors, Chosen, TypeAllows, Decimal;
  }

  lemma {:induction false} ErrorsSplit(value: Value, schema: Schema, path: string, e: Error)
    ensures e in Errors(value, schema, path) <==>
            if !TypeAllows(value, TypeNames(schema.types)) then e == Error(path, WrongType)
            else
              || e in Report(!Chosen(value, schema.choices), path, NotInEnum) + BoundErrors(value, schema, path)
              || (value.Obj? && e in MissingErrors(value.members, schema.required, path))
              || (value.Obj? && e in PropertyErrors(value.members, schema, |schema.properties|, path))
              || (value.Arr? && schema.items.Some? && e in ItemErrors(value.items, schema, |value.items|, path))
  {
    hide TypeAllows, TypeNames, BoundErrors, MissingErrors, PropertyErrors, ItemErrors, Chosen, Report;
  }

  // ---- Numbers and samples ----

  predicate AllDigits(s: string) {
    forall k :: 0 <= k < |s| ==> '0' <= s[k] <= '9'
  }

  function ValueOf(s: string): int
    requires AllDigits(s)
  {
    if s == "" then 0 else 10 * ValueOf(s[..|s| - 1]) + (s[|s| - 1] as int - '0' as int)
  }

  /** Indices in paths are written in decimal digits. */
  lemma {:induction false} DecimalReads(n: nat)
    ensures Decimal(n) != "" && AllDigits(Decimal(n)) && ValueOf(Decimal(n)) == n && (n > 0 ==> Decimal(n)[0] != '0')
    decreases n
  {
    if n < 10 {
      assert Decimal(n)[..0] == "";
    } else {
      DecimalReads(n / 10);
      var d := Decimal(n);
      assert d[..|d| - 1] == Decimal(n / 10);
    }
  }

  predicate IsDate(s: string) {
    |s| == 10 && AllDigits(s[..4]) && s[4] == '-' && AllDigits(s[5..7]) && s[7] == '-' && AllDigits(s[8..])
  }

  predicate IsTime(s: string) {
    |s| == 9 && AllDigits(s[..2]) && s[2] == ':' && AllDigits(s[3..5]) && s[5] == ':' && AllDigits(s[6..8]) && s[8] == 'Z'
  }

  lemma DateSample()
    ensures IsDate(Sample(Some("date")))
  {
    var s := Sample(Some("date"));
    assert s[..4] == "2026" && s[5..7] == "01" && s[8..] == "01";
  }

  lemma TimeSample()
    ensures var s := Sample(Some("date-time")); |s| == 20 && IsDate(s[..10]) && s[10] == 'T' && IsTime(s[11..])
  {
    var s := Sample(Some("date-time"));
    var date, time := s[..10], s[11..];
    assert date == "2026-01-01" && time == "00:00:00Z";
    assert date[..4] == "2026" && date[5..7] == "01" && date[8..] == "01";
    assert time[..2] == "00" && time[3..5] == "00" && time[6..8] == "00";
  }

  lemma EmailSample()
    ensures var s := Sample(Some("email")); exists k :: 0 < k < |s| - 1 && s[k] == '@' && Free(s[..k], '@') && Free(s[k + 1..], '@')
  {
    var s := Sample(Some("email"));
    assert s[4] == '@' && s[..4] == "user" && s[5..] == "example.com";
  }

  function Zeros(n: nat): string {
    seq(n, _ => '0')
  }

  lemma UuidSample()
    ensures Sample(Some("uuid")) == Zeros(8) + "-" + Zeros(4) + "-" + Zeros(4) + "-" + Zeros(4) + "-" + Zeros(12)
  {
    assert Zeros(8) == "00000000" && Zeros(4) == "0000" && Zeros(12) == "000000000000";
    assert "00000000" + "-" + "0000" + "-" + "0000" + "-" + "0000" + "-" + "000000000000" == "00000000-0000-0000-0000-000000000000";
  }

  /** The sample of a format is a text of that format; other formats have no sample of their own. */
  lemma SamplesFit()
    ensures IsDate(Sample(Some("date")))
    ensures var s := Sample(Some("date-time")); |s| == 20 && IsDate(s[..10]) && s[10] == 'T' && IsTime(s[11..])
    ensures var s := Sample(Some("email")); exists k :: 0 < k < |s| - 1 && s[k] == '@' && Free(s[..k], '@') && Free(s[k + 1..], '@')
    ensures Sample(Some("uuid")) == Zeros(8) + "-" + Zeros(4) + "-" + Zeros(4) + "-" + Zeros(4) + "-" + Zeros(12)
    ensures StartsWith(Sample(Some("uri")), "https://") && Sample(Some("url")) == Sample(Some("uri"))
    ensures forall format :: format !in [Some("date"), Some("date-time"), Some("email"), Some("uri"), Some("url"), Some("uuid")] ==>
              Sample(format) == "string"
  {
    DateSample();
    TimeSample();
    EmailSample();
    UuidSample();
    hide IsDate, IsTime;
    UriSample();
  }

  /** A sample array has one item; a sample with an empty choice is no value at all; an object has the declared members. */
  lemma {:induction false} SampleShapes(schema: Schema)
    ensures Primary(schema.types) == Some("array") ==>
              Generate(schema) == Arr([match schema.items case Some(s) => Generate(s) case None => Lit(Null)])
    ensures Primary(schema.types) == Some("string") && schema.choices == Some([]) ==> Generate(schema) == Undefined
    ensures Primary(schema.types) !in SCALARS && Primary(schema.types) != Some("array") ==>
              Generate(schema).Obj? && forall name :: name in Generate(schema).members <==> Declared(schema, |schema.properties|, name)
  {
    NamesGenerated(schema, |schema.properties|);
    hide GenerateMembers;
  }

  const SCALARS: seq<Option<string>> := [Some("string"), Some("integer"), Some("number"), Some("boolean"), Some("null")]

  lemma {:induction false} NamesGenerated(schema: Schema, n: nat)
    requires n <= |schema.properties|
    ensures forall name :: name in GenerateMembers(schema, n) <==> Declared(schema, n, name)
  {
    hide Generate;
    if n > 0 {
      NamesGenerated(schema, n - 1);
      DeclaredMore(schema, n);
    }
  }

  lemma UriSample()
    ensures StartsWith(Sample(Some("uri")), "https://") && Sample(Some("url")) == Sample(Some("uri"))
  {
    assert "https://example.com"[..8] == "https://";
  }
}
