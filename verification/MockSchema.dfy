/**
 * The mock server's schema-driven replies (apifn/mock/src/response-generator.ts) and its own check of
 * values against schemas (apifn/mock/src/request-validator.ts): which schemas generate a value that
 * the validator accepts.
 */
module MockSchema {
  import opened Text

  datatype Scalar = Null | Bool(b: bool) | Number(n: real) | Str(s: string)

  /** An object is a map: the order of its members does not matter here. */
  datatype Value = Undefined | Lit(scalar: Scalar) | Arr(items: seq<Value>) | Obj(members: map<string, Value>)

  /** The keyword `type`: absent, one name or a list of them. */
  datatype Types = Untyped | One(name: string) | Many(names: seq<string>)

  datatype Property = Property(name: string, schema: Schema)

  datatype Schema = Schema(
    types: Types, choices: Option<seq<Scalar>>, format: Option<string>,
    minLength: Option<real>, maxLength: Option<real>, minimum: Option<real>, maximum: Option<real>,
    required: seq<string>, properties: seq<Property>, items: Option<Schema>)

  // ---- Generation ----

  function Primary(types: Types): Option<string> {
    match types
    case Untyped => None
    case One(name) => Some(name)
    case Many(names) => if names == [] then None else Some(names[0])
  }

  function Sample(format: Option<string>): string {
    if format == Some("date-time") then "2026-01-01T00:00:00Z"
    else if format == Some("date") then "2026-01-01"
    else if format == Some("email") then "user@example.com"
    else if format == Some("uri") || format == Some("url") then "https://example.com"
    else if format == Some("uuid") then "00000000-0000-0000-0000-000000000000"
    else "string"
  }

  function Generate(schema: Schema): Value
    decreases schema, 1
  {
    match Primary(schema.types)
    case Some("string") =>
      if schema.choices.None? then Lit(Str(Sample(schema.format)))
      else if schema.choices.value == [] then Undefined
      else Lit(schema.choices.value[0])
    case Some("integer") => Lit(Number(0.0))
    case Some("number") => Lit(Number(0.0))
    case Some("boolean") => Lit(Bool(true))
    case Some("null") => Lit(Null)
    case Some("array") => Arr([if schema.items.None? then Lit(Null) else Generate(schema.items.value)])
    case _ => Obj(GenerateMembers(schema, |schema.properties|))
  }

  /** The members for the first `n` properties; a repeated name overwrites. */
  function GenerateMembers(schema: Schema, n: nat): map<string, Value>
    requires n <= |schema.properties|
    decreases schema, 0, n
  {
    if n == 0 then map[]
    else
      var p := schema.properties[n - 1];
      GenerateMembers(schema, n - 1)[p.name := Generate(p.schema)]
  }

  method GenerateFromSchema(schema: Option<Schema>) returns (value: Value)
    ensures value == if schema.None? then Lit(Null) else Generate(schema.value)
  {
    if schema.None? {
      return Lit(Null);
    }
    value := GenerateSample(schema.value);
  }

  method GenerateSample(schema: Schema) returns (value: Value)
    ensures value == Generate(schema)
    decreases schema
  {
    match Primary(schema.types)
    case Some("string") =>
      if schema.choices.None? {
        value := Lit(Str(Sample(schema.format)));
      } else {
        value := if schema.choices.value == [] then Undefined else Lit(schema.choices.value[0]);
      }
    case Some("integer") => value := Lit(Number(0.0));
    case Some("number") => value := Lit(Number(0.0));
    case Some("boolean") => value := Lit(Bool(true));
    case Some("null") => value := Lit(Null);
    case Some("array") =>
      var item := Lit(Null);
      if schema.items.Some? {
        item := GenerateSample(schema.items.value);
      }
      value := Arr([item]);
    case _ =>
      var members := map[];
      for i := 0 to |schema.properties|
        invariant members == GenerateMembers(schema, i)
      {
        var member := GenerateSample(schema.properties[i].schema);
        members := members[schema.properties[i].name := member];
      }
      value := Obj(members);
  }

  // ---- Validation ----

  datatype Problem = WrongType | NotInEnum | TooShort | TooLong | BelowMinimum | AboveMaximum | Missing

  datatype Error = Error(path: string, problem: Problem)

  function TypeNames(types: Types): seq<string> {
    match types
    case Untyped => []
    case One(name) => if name == "" then [] else [name]
    case Many(names) => names
  }

  function TypeOf(value: Value): string {
    match value
    case Undefined => "undefined"
    case Lit(Null) => "null"
    case Lit(Bool(_)) => "boolean"
    case Lit(Number(_)) => "number"
    case Lit(Str(_)) => "string"
    case Arr(_) => "array"
    case Obj(_) => "object"
  }

  predicate Matches(value: Value, name: string) {
    if name == "integer" then
      value.Lit? && value.scalar.Number? && value.scalar.n == value.scalar.n.Floor as real
    else TypeOf(value) == name
  }

  predicate TypeAllows(value: Value, types: seq<string>) {
    types == [] || exists i :: 0 <= i < |types| && Matches(value, types[i])
  }

  /** Fresh arrays and objects, like an absent value, are never among the choices. */
  predicate Chosen(value: Value, choices: Option<seq<Scalar>>) {
    choices.Some? ==> value.Lit? && value.scalar in choices.value
  }

  function Decimal(n: nat): string {
    if n < 10 then [(48 + n) as char] else Decimal(n / 10) + [(48 + n % 10) as char]
  }

  function MemberPath(path: string, name: string): string {
    path + "." + name
  }

  function ItemPath(path: string, i: nat): string {
    path + "[" + Decimal(i) + "]"
  }

  function Report(problem: bool, path: string, kind: Problem): seq<Error> {
    if problem then [Error(path, kind)] else []
  }

  function BoundErrors(value: Value, schema: Schema, path: string): seq<Error> {
    match value
    case Lit(Str(s)) =>
      Report(schema.minLength.Some? && |s| as real < schema.minLength.value, path, TooShort)
      + Report(schema.maxLength.Some? && |s| as real > schema.maxLength.value, path, TooLong)
    case Lit(Number(n)) =>
      Report(schema.minimum.Some? && n < schema.minimum.value, path, BelowMinimum)
      + Report(schema.maximum.Some? && n > schema.maximum.value, path, AboveMaximum)
    case _ => []
  }

  function MissingErrors(members: map<string, Value>, required: seq<string>, path: string): seq<Error> {
    if required == [] then []
    else
      var last := required[|required| - 1];
      MissingErrors(members, required[..|required| - 1], path) + Report(last !in members, MemberPath(path, last), Missing)
  }

  /** The errors of a value at a path, in the order in which they are found. */
  function Errors(value: Value, schema: Schema, path: string): seq<Error>
    decreases schema, 1
  {
    if !TypeAllows(value, TypeNames(schema.types)) then [Error(path, WrongType)]
    else
      Report(!Chosen(value, schema.choices), path, NotInEnum)
      + (BoundErrors(value, schema, path)
         + if value.Obj? then
             MissingErrors(value.members, schema.required, path)
             + PropertyErrors(value.members, schema, |schema.properties|, path)
           else if value.Arr? && schema.items.Some? then ItemErrors(value.items, schema, |value.items|, path)
           else [])
  }

  function PropertyErrors(members: map<string, Value>, schema: Schema, n: nat, path: string): seq<Error>
    requires n <= |schema.properties|
    decreases schema, 0, n
  {
    if n == 0 then []
    else
      var p := schema.properties[n - 1];
      PropertyErrors(members, schema, n - 1, path)
      + if p.name in members then Errors(members[p.name], p.schema, MemberPath(path, p.name)) else []
  }

  function ItemErrors(items: seq<Value>, schema: Schema, n: nat, path: string): seq<Error>
    requires n <= |items| && schema.items.Some?
    decreases schema, 0, n
  {
    if n == 0 then []
    else ItemErrors(items, schema, n - 1, path) + Errors(items[n - 1], schema.items.value, ItemPath(path, n - 1))
  }

  /** The shared list of errors; each call only appends to it. */
  class Validator {
    var errors: seq<Error>

    constructor ()
      ensures errors == []
    {
      errors := [];
    }

    method Push(path: string, problem: Problem)
      modifies this
      ensures errors == old(errors) + [Error(path, problem)]
    {
      errors := errors + [Error(path, problem)];
    }

    method ValidateBounds(value: Value, schema: Schema, path: string)
      modifies this
      ensures errors == old(errors) + BoundErrors(value, schema, path)
    {
      if value.Lit? && value.scalar.Str? {
        var length := |value.scalar.s| as real;
        if schema.minLength.Some? && length < schema.minLength.value {
          Push(path, TooShort);
        }
        if schema.maxLength.Some? && length > schema.maxLength.value {
          Push(path, TooLong);
        }
      }
      if value.Lit? && value.scalar.Number? {
        if schema.minimum.Some? && value.scalar.n < schema.minimum.value {
          Push(path, BelowMinimum);
        }
        if schema.maximum.Some? && value.scalar.n > schema.maximum.value {
          Push(path, AboveMaximum);
        }
      }
    }

    method ValidateRequired(members: map<string, Value>, required: seq<string>, path: string)
      modifies this
      ensures errors == old(errors) + MissingErrors(members, required, path)
    {
      for i := 0 to |required|
        invariant errors == old(errors) + MissingErrors(members, required[..i], path)
      {
        assert required[..i + 1][..i] == required[..i];
        if required[i] !in members {
          Push(MemberPath(path, required[i]), Missing);
        }
      }
      assert required[..|required|] == required;
    }

    method ValidateProperties(members: map<string, Value>, schema: Schema, path: string)
      modifies this
      ensures errors == old(errors) + PropertyErrors(members, schema, |schema.properties|, path)
      decreases schema, 0
    {
      hide Errors, ItemPath, MemberPath;
      for i := 0 to |schema.properties|
        invariant errors == old(errors) + PropertyErrors(members, schema, i, path)
      {
        var p := schema.properties[i];
        if p.name in members {
          ValidateValue(members[p.name], p.schema, MemberPath(path, p.name));
        }
      }
    }

    method ValidateItems(items: seq<Value>, schema: Schema, path: string)
      requires schema.items.Some?
      modifies this
      ensures errors == old(errors) + ItemErrors(items, schema, |items|, path)
      decreases schema, 0
    {
      hide Errors, ItemPath, MemberPath;
      for i := 0 to |items|
        invariant errors == old(errors) + ItemErrors(items, schema, i, path)
      {
        ValidateValue(items[i], schema.items.value, ItemPath(path, i));
      }
    }

    method ValidateValue(value: Value, schema: Schema, path: string)
      modifies this
      ensures errors == old(errors) + Errors(value, schema, path)
      decreases schema, 1
    {
      hide BoundErrors, MissingErrors, PropertyErrors, ItemErrors, TypeAllows, Chosen, TypeNames;
      if !TypeAllows(value, TypeNames(schema.types)) {
        Push(path, WrongType);
        return;
      }
      if !Chosen(value, schema.choices) {
        Push(path, NotInEnum);
      }
      ValidateBounds(value, schema, path);
      if value.Obj? {
        ValidateRequired(value.members, schema.required, path);
        ValidateProperties(value.members, schema, path);
      }
      if value.Arr? && schema.items.Some? {
        ValidateItems(value.items, schema, path);
      }
    }
  }

  // ---- What no errors means ----

  predicate LengthFits(s: string, schema: Schema) {
    && (schema.minLength.Some? ==> schema.minLength.value <= |s| as real)
    && (schema.maxLength.Some? ==> |s| as real <= schema.maxLength.value)
  }

  predicate SizeFits(n: real, schema: Schema) {
    && (schema.minimum.Some? ==> schema.minimum.value <= n)
    && (schema.maximum.Some? ==> n <= schema.maximum.value)
  }

  predicate BoundsFit(value: Value, schema: Schema) {
    match value
    case Lit(Str(s)) => LengthFits(s, schema)
    case Lit(Number(n)) => SizeFits(n, schema)
    case _ => true
  }

  /** The value satisfies every keyword of the schema, and so do its members and items. */
  predicate Conforms(value: Value, schema: Schema) {
    && TypeAllows(value, TypeNames(schema.types))
    && Chosen(value, schema.choices)
    && BoundsFit(value, schema)
    && (value.Obj? ==>
          && (forall name :: name in schema.required ==> name in value.members)
          && (forall i :: 0 <= i < |schema.properties| ==>
                var p := schema.properties[i];
                p.name in value.members ==> Conforms(value.members[p.name], p.schema)))
    && (value.Arr? && schema.items.Some? ==>
          forall i :: 0 <= i < |value.items| ==> Conforms(value.items[i], schema.items.value))
  }

  lemma {:induction false} NoMissing(members: map<string, Value>, required: seq<string>, path: string)
    ensures MissingErrors(members, required, path) == [] <==> forall name :: name in required ==> name in members
  {
    if required != [] {
      var front := required[..|required| - 1];
      NoMissing(members, front, path);
      assert required == front + [required[|required| - 1]];
    }
  }

  lemma {:induction false} NoPropertyErrors(members: map<string, Value>, schema: Schema, n: nat, path: string)
    requires n <= |schema.properties|
    ensures PropertyErrors(members, schema, n, path) == [] <==>
            forall i :: 0 <= i < n ==>
              var p := schema.properties[i];
              p.name in members ==> Conforms(members[p.name], p.schema)
    decreases schema, 0, n
  {
    hide Errors, Conforms, MemberPath;
    if n > 0 {
      NoPropertyErrors(members, schema, n - 1, path);
      var p := schema.properties[n - 1];
      if p.name in members {
        NoErrors(members[p.name], p.schema, MemberPath(path, p.name));
      }
    }
  }

  lemma {:induction false} NoItemErrors(items: seq<Value>, schema: Schema, n: nat, path: string)
    requires n <= |items| && schema.items.Some?
    ensures ItemErrors(items, schema, n, path) == [] <==> forall i :: 0 <= i < n ==> Conforms(items[i], schema.items.value)
    decreases schema, 0, n
  {
    hide Errors, Conforms, ItemPath;
    if n > 0 {
      NoItemErrors(items, schema, n - 1, path);
      NoErrors(items[n - 1], schema.items.value, ItemPath(path, n - 1));
    }
  }

  /** The validator reports nothing exactly for the values that conform. */
  lemma {:induction false} NoErrors(value: Value, schema: Schema, path: string)
    ensures Errors(value, schema, path) == [] <==> Conforms(value, schema)
    decreases schema, 1
  {
    if value.Obj? {
      NoMissing(value.members, schema.required, path);
      NoPropertyErrors(value.members, schema, |schema.properties|, path);
    } else if value.Arr? && schema.items.Some? {
      NoItemErrors(value.items, schema, |value.items|, path);
    }
    assert BoundErrors(value, schema, path) == [] <==> BoundsFit(value, schema);
  }

  // ---- Which schemas generate what they accept ----

  /** The names of the properties are distinct, as in every object. */
  predicate Distinct(schema: Schema) {
    && (forall i, j :: 0 <= i < j < |schema.properties| ==> schema.properties[i].name != schema.properties[j].name)
    && (forall i :: 0 <= i < |schema.properties| ==> Distinct(schema.properties[i].schema))
    && (schema.items.Some? ==> Distinct(schema.items.value))
  }

  predicate ScalarFits(v: Scalar, schema: Schema) {
    && (exists i :: 0 <= i < |TypeNames(schema.types)| && Matches(Lit(v), TypeNames(schema.types)[i]))
    && (v.Str? ==> LengthFits(v.s, schema))
    && (v.Number? ==> SizeFits(v.n, schema))
  }

  predicate Offered(v: Scalar, schema: Schema) {
    schema.choices.Some? ==> v in schema.choices.value
  }

  /** One of the first `n` properties has this name. */
  predicate Declared(schema: Schema, n: nat, name: string)
    requires n <= |schema.properties|
  {
    exists i :: 0 <= i < n && schema.properties[i].name == name
  }

  /**
   * What a schema must say for its own sample to pass: by its first type, the sample is among the
   * choices and within the bounds; nothing fresh has choices; required names are properties; an
   * unknown first type leaves room for an object; and so on for properties and items.
   */
  predicate Fits(schema: Schema) {
    match Primary(schema.types)
    case Some("string") =>
      if schema.choices.None? then LengthFits(Sample(schema.format), schema)
      else schema.choices.value != [] && ScalarFits(schema.choices.value[0], schema)
    case Some("integer") => Offered(Number(0.0), schema) && SizeFits(0.0, schema)
    case Some("number") => Offered(Number(0.0), schema) && SizeFits(0.0, schema)
    case Some("boolean") => Offered(Bool(true), schema)
    case Some("null") => Offered(Null, schema)
    case Some("array") => schema.choices.None? && (schema.items.Some? ==> Fits(schema.items.value))
    case _ =>
      && (TypeNames(schema.types) == [] || "object" in TypeNames(schema.types))
      && schema.choices.None?
      && (forall name :: name in schema.required ==> Declared(schema, |schema.properties|, name))
      && (forall i :: 0 <= i < |schema.properties| ==> Fits(schema.properties[i].schema))
  }

  lemma {:induction false} MembersGenerated(schema: Schema, n: nat)
    requires n <= |schema.properties|
    requires forall i, j :: 0 <= i < j < |schema.properties| ==> schema.properties[i].name != schema.properties[j].name
    ensures
      var members := GenerateMembers(schema, n);
      && (forall i :: 0 <= i < n ==>
            schema.properties[i].name in members
            && members[schema.properties[i].name] == Generate(schema.properties[i].schema))
      && (forall name :: name in members <==> Declared(schema, n, name))
  {
    hide Generate;
    if n > 0 {
      MembersGenerated(schema, n - 1);
      var before, members := GenerateMembers(schema, n - 1), GenerateMembers(schema, n);
      assert members == before[schema.properties[n - 1].name := Generate(schema.properties[n - 1].schema)];
      hide GenerateMembers;
      DeclaredMore(schema, n);
      hide Declared;
    }
  }

  lemma DeclaredMore(schema: Schema, n: nat)
    requires 0 < n <= |schema.properties|
    ensures forall name :: Declared(schema, n, name) <==> Declared(schema, n - 1, name) || schema.properties[n - 1].name == name
  {
  }

  lemma FirstType(types: Types, name: string)
    requires Primary(types) == Some(name) && name != ""
    ensures TypeNames(types) != [] && TypeNames(types)[0] == name
  {
  }

  lemma FirstTypeAllows(value: Value, types: seq<string>)
    requires types != [] && Matches(value, types[0])
    ensures TypeAllows(value, types)
  {
  }

  lemma {:induction false} StringConforms(schema: Schema)
    requires Primary(schema.types) == Some("string")
    ensures Conforms(Generate(schema), schema) <==> Fits(schema)
  {
    FirstType(schema.types, "string");
    hide Sample;
    if schema.choices.None? {
      FirstTypeAllows(Generate(schema), TypeNames(schema.types));
    }
  }

  lemma {:induction false} ArrayConforms(schema: Schema)
    requires Primary(schema.types) == Some("array")
    requires schema.items.Some? ==> (Conforms(Generate(schema.items.value), schema.items.value) <==> Fits(schema.items.value))
    ensures Conforms(Generate(schema), schema) <==> Fits(schema)
  {
    FirstType(schema.types, "array");
    var v := Generate(schema);
    FirstTypeAllows(v, TypeNames(schema.types));
    hide TypeNames, Primary, TypeAllows;
    assert |v.items| == 1;
    assert schema.items.Some? ==> v.items[0] == Generate(schema.items.value);
  }

  lemma {:induction false} LiteralConforms(schema: Schema, name: string)
    requires Primary(schema.types) == Some(name) && name in ["integer", "number", "boolean", "null"]
    ensures Conforms(Generate(schema), schema) <==> Fits(schema)
  {
    FirstType(schema.types, name);
    FirstTypeAllows(Generate(schema), TypeNames(schema.types));
    hide TypeNames, TypeAllows;
  }

  lemma {:induction false} MembersConform(schema: Schema)
    requires Distinct(schema)
    requires forall i :: 0 <= i < |schema.properties| ==>
               (Conforms(Generate(schema.properties[i].schema), schema.properties[i].schema) <==> Fits(schema.properties[i].schema))
    ensures
      var members := GenerateMembers(schema, |schema.properties|);
      && (forall i :: 0 <= i < |schema.properties| ==> schema.properties[i].name in members)
      && ((forall i :: 0 <= i < |schema.properties| ==>
             Conforms(members[schema.properties[i].name], schema.properties[i].schema))
          <==> forall i :: 0 <= i < |schema.properties| ==> Fits(schema.properties[i].schema))
  {
    MembersGenerated(schema, |schema.properties|);
    hide Generate, GenerateMembers, Conforms, Fits, Declared;
  }

  lemma {:induction false} ObjectConforms(schema: Schema)
    requires Distinct(schema) && Generate(schema).Obj?
    requires forall i :: 0 <= i < |schema.properties| ==>
               (Conforms(Generate(schema.properties[i].schema), schema.properties[i].schema) <==> Fits(schema.properties[i].schema))
    ensures Conforms(Generate(schema), schema) <==> Fits(schema)
  {
    var n := |schema.properties|;
    var members := GenerateMembers(schema, n);
    assert Generate(schema) == Obj(members);
    MembersGenerated(schema, n);
    MembersConform(schema);
    FitsObject(schema);
    ConformsObject(members, schema);
    hide *;
    assert (forall name :: name in schema.required ==> name in members) <==>
           (forall name :: name in schema.required ==> Declared(schema, n, name));
  }

  lemma {:induction false} ConformsObject(members: map<string, Value>, schema: Schema)
    requires forall i :: 0 <= i < |schema.properties| ==> schema.properties[i].name in members
    ensures Conforms(Obj(members), schema) <==>
            && (TypeNames(schema.types) == [] || "object" in TypeNames(schema.types))
            && schema.choices.None?
            && (forall name :: name in schema.required ==> name in members)
            && (forall i :: 0 <= i < |schema.properties| ==>
                  Conforms(members[schema.properties[i].name], schema.properties[i].schema))
  {
    assert TypeAllows(Obj(members), TypeNames(schema.types)) <==>
           TypeNames(schema.types) == [] || "object" in TypeNames(schema.types);
    hide TypeAllows, TypeNames;
  }

  lemma {:induction false} FitsObject(schema: Schema)
    requires Generate(schema).Obj?
    ensures Fits(schema) <==>
            && (TypeNames(schema.types) == [] || "object" in TypeNames(schema.types))
            && schema.choices.None?
            && (forall name :: name in schema.required ==> Declared(schema, |schema.properties|, name))
            && (forall i :: 0 <= i < |schema.properties| ==> Fits(schema.properties[i].schema))
  {
    hide TypeNames, Declared;
  }

  /** The sample of a schema conforms to it exactly when the schema fits. */
  lemma {:induction false} SampleConforms(schema: Schema)
    requires Distinct(schema)
    ensures Conforms(Generate(schema), schema) <==> Fits(schema)
  {
    hide Conforms, Fits;
    match Primary(schema.types)
    case Some("string") => StringConforms(schema);
    case Some("integer") => LiteralConforms(schema, "integer");
    case Some("number") => LiteralConforms(schema, "number");
    case Some("boolean") => LiteralConforms(schema, "boolean");
    case Some("null") => LiteralConforms(schema, "null");
    case Some("array") =>
      if schema.items.Some? {
        SampleConforms(schema.items.value);
      }
      ArrayConforms(schema);
    case _ =>
      forall i | 0 <= i < |schema.properties|
        ensures Conforms(Generate(schema.properties[i].schema), schema.properties[i].schema) <==> Fits(schema.properties[i].schema)
      {
        SampleConforms(schema.properties[i].schema);
      }
      ObjectConforms(schema);
  }

  /** The validator accepts what the generator makes of a schema exactly when the schema fits. */
  lemma {:induction false} ValidatorAcceptsSample(schema: Schema, path: string)
    requires Distinct(schema)
    ensures Errors(Generate(schema), schema, path) == [] <==> Fits(schema)
  {
    NoErrors(Generate(schema), schema, path);
    SampleConforms(schema);
  }
}
