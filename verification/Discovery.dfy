/** The transitive closure of schema references: scripts/sfns4/update-google-discovery.py. */
module Discovery {
  import opened Text

  /** JSON values, with numbers, booleans and null as one case. */
  datatype Json =
    | Obj(fields: seq<(string, Json)>)
    | Arr(elems: seq<Json>)
    | Str(text: string)
    | Scalar

  type Schemas = map<string, Json>

  const REF := "$ref"

  function Get(fields: seq<(string, Json)>, key: string): Option<Json> {
    if fields == [] then None
    else if fields[0].0 == key then Some(fields[0].1)
    else Get(fields[1..], key)
  }

  /** The field at this index is the first of this name; in a dictionary there is no other. */
  predicate FirstAt(fields: seq<(string, Json)>, i: int, key: string) {
    0 <= i < |fields| && fields[i].0 == key && forall j :: 0 <= j < i ==> fields[j].0 != key
  }

  lemma {:induction false} GetExact(fields: seq<(string, Json)>, key: string)
    ensures Get(fields, key).None? <==> forall i :: 0 <= i < |fields| ==> fields[i].0 != key
    ensures forall i :: FirstAt(fields, i, key) ==> Get(fields, key) == Some(fields[i].1)
    ensures Get(fields, key).Some? ==> exists i :: FirstAt(fields, i, key)
  {
    if fields != [] {
      var rest := fields[1..];
      GetExact(rest, key);
      assert forall i :: 0 < i < |fields| ==> fields[i] == rest[i - 1];
      forall i | FirstAt(fields, i, key)
        ensures Get(fields, key) == Some(fields[i].1)
      {
        if i > 0 {
          assert FirstAt(rest, i - 1, key);
        }
      }
      if fields[0].0 == key {
        assert FirstAt(fields, 0, key);
      } else if i :| FirstAt(rest, i, key) {
        assert FirstAt(fields, i + 1, key);
      }
    }
  }

  /** Somewhere in the value there is an object whose "$ref" is this text. */
  ghost predicate Refers(value: Json, key: string) {
    match value
    case Obj(fields) =>
      || (exists i :: FirstAt(fields, i, "$ref") && fields[i].1 == Str(key))
      || exists i :: 0 <= i < |fields| && Refers(fields[i].1, key)
    case Arr(elems) => exists i :: 0 <= i < |elems| && Refers(elems[i], key)
    case _ => false
  }

  /** What a value mentions is what its objects refer to, at any depth. */
  lemma {:induction false} MentionsExact(value: Json, key: string)
    ensures Mentions(value, key) <==> Refers(value, key)
  {
    match value
    case Obj(fields) =>
      GetExact(fields, "$ref");
      hide Get, FirstAt;
      forall i | 0 <= i < |fields|
        ensures Mentions(fields[i].1, key) <==> Refers(fields[i].1, key)
      {
        MentionsExact(fields[i].1, key);
      }
    case Arr(elems) =>
      forall i | 0 <= i < |elems|
        ensures Mentions(elems[i], key) <==> Refers(elems[i], key)
      {
        MentionsExact(elems[i], key);
      }
    case _ =>
  }

  /** Every reference in the value is a string. */
  predicate WellTyped(value: Json) {
    match value
    case Obj(fields) =>
      && (Get(fields, REF).Some? ==> Get(fields, REF).value.Str?)
      && forall i :: 0 <= i < |fields| ==> WellTyped(fields[i].1)
    case Arr(elems) => forall i :: 0 <= i < |elems| ==> WellTyped(elems[i])
    case _ => true
  }

  /** `key` is referred to somewhere in the value. */
  ghost predicate Mentions(value: Json, key: string) {
    match value
    case Obj(fields) =>
      || Get(fields, REF) == Some(Str(key))
      || exists i :: 0 <= i < |fields| && Mentions(fields[i].1, key)
    case Arr(elems) => exists i :: 0 <= i < |elems| && Mentions(elems[i], key)
    case _ => false
  }

  /** The keys lead from a reference in `value` through the document to the last of them. */
  ghost predicate Path(doc: Schemas, value: Json, keys: seq<string>)
    decreases |keys|
  {
    && keys != [] && Mentions(value, keys[0])
    && (|keys| > 1 ==> keys[0] in doc && Path(doc, doc[keys[0]], keys[1..]))
  }

  ghost predicate Reachable(doc: Schemas, value: Json, key: string) {
    exists keys :: Path(doc, value, keys) && keys[|keys| - 1] == key
  }

  /** Every reachable reference is a string that names a schema of the document. */
  ghost predicate Resolves(doc: Schemas, value: Json) {
    WellTyped(value) && forall key :: Reachable(doc, value, key) ==> key in doc && WellTyped(doc[key])
  }

  lemma {:induction false} MentionedReachable(doc: Schemas, value: Json, key: string)
    requires Mentions(value, key)
    ensures Reachable(doc, value, key)
  {
    assert Path(doc, value, [key]);
  }

  /** What is reachable from a referenced schema is reachable. */
  lemma {:induction false} ReachableThrough(doc: Schemas, value: Json, via: string, key: string)
    requires Mentions(value, via) && via in doc && Reachable(doc, doc[via], key)
    ensures Reachable(doc, value, key)
  {
    var keys :| Path(doc, doc[via], keys) && keys[|keys| - 1] == key;
    var more := [via] + keys;
    assert more[1..] == keys;
    assert Path(doc, value, more) && more[|more| - 1] == key;
  }

  lemma {:induction false} ReachableFromPart(doc: Schemas, part: Json, value: Json, key: string)
    requires forall k :: Mentions(part, k) ==> Mentions(value, k)
    requires Reachable(doc, part, key)
    ensures Reachable(doc, value, key)
  {
    var keys :| Path(doc, part, keys) && keys[|keys| - 1] == key;
    assert Path(doc, value, keys);
  }

  /** All that the value refers to is in `found`. */
  ghost predicate Covered(value: Json, found: set<string>) {
    WellTyped(value) && forall key :: Mentions(value, key) ==> key in found
  }

  /** Found schemas that are closed under reference hold all that is reachable. */
  lemma {:induction false} ClosedCoversPath(doc: Schemas, value: Json, found: set<string>, keys: seq<string>)
    requires found <= doc.Keys && Covered(value, found) && forall k :: k in found ==> Covered(doc[k], found)
    requires Path(doc, value, keys)
    ensures keys[|keys| - 1] in found
    decreases |keys|
  {
    if |keys| > 1 {
      ClosedCoversPath(doc, doc[keys[0]], found, keys[1..]);
    }
  }

  /** A value that refers to something unusable. */
  ghost predicate Broken(doc: Schemas, value: Json) {
    !WellTyped(value) || exists key :: Reachable(doc, value, key) && !(key in doc && WellTyped(doc[key]))
  }

  lemma {:induction false} BrokenPart(doc: Schemas, part: Json, value: Json)
    requires forall k :: Mentions(part, k) ==> Mentions(value, k)
    requires WellTyped(value) ==> WellTyped(part)
    requires Broken(doc, part)
    ensures Broken(doc, value)
  {
    if WellTyped(value) {
      var key :| Reachable(doc, part, key) && !(key in doc && WellTyped(doc[key]));
      ReachableFromPart(doc, part, value, key);
    }
  }

  lemma {:induction false} BrokenThrough(doc: Schemas, value: Json, via: string)
    requires Mentions(value, via) && via in doc && Broken(doc, doc[via])
    ensures Broken(doc, value)
  {
    MentionedReachable(doc, value, via);
    if WellTyped(doc[via]) {
      var key :| Reachable(doc, doc[via], key) && !(key in doc && WellTyped(doc[key]));
      ReachableThrough(doc, value, via, key);
    }
  }

  /** `found` grew from `before` by reachable schemas only. */
  ghost predicate Grown(doc: Schemas, value: Json, before: set<string>, found: set<string>) {
    && before <= found <= doc.Keys
    && forall k :: k in found && k !in before ==> Reachable(doc, value, k)
  }

  /** The schemas found since `before` refer to nothing that is not found. */
  ghost predicate ClosedSince(doc: Schemas, before: set<string>, found: set<string>)
    requires found <= doc.Keys
  {
    forall k :: k in found && k !in before ==> Covered(doc[k], found)
  }

  lemma {:induction false} GrownPart(doc: Schemas, part: Json, value: Json, before: set<string>, mid: set<string>, found: set<string>)
    requires forall k :: Mentions(part, k) ==> Mentions(value, k)
    requires Grown(doc, value, before, mid) && Grown(doc, part, mid, found)
    ensures Grown(doc, value, before, found)
  {
    forall k | k in found && k !in before
      ensures Reachable(doc, value, k)
    {
      if k !in mid {
        ReachableFromPart(doc, part, value, k);
      }
    }
  }

  lemma {:induction false} GrownThrough(doc: Schemas, value: Json, via: string, before: set<string>, found: set<string>)
    requires Mentions(value, via) && via in doc && before <= doc.Keys
    requires Grown(doc, doc[via], before + {via}, found)
    ensures Grown(doc, value, before, found)
  {
    forall k | k in found && k !in before
      ensures Reachable(doc, value, k)
    {
      if k == via {
        MentionedReachable(doc, value, via);
      } else {
        ReachableThrough(doc, value, via, k);
      }
    }
  }

  lemma CoveredGrows(value: Json, mid: set<string>, found: set<string>)
    requires Covered(value, mid) && mid <= found
    ensures Covered(value, found)
  {
  }

  lemma ClosedThen(doc: Schemas, before: set<string>, mid: set<string>, found: set<string>)
    requires before <= mid <= found <= doc.Keys && ClosedSince(doc, before, mid) && ClosedSince(doc, mid, found)
    ensures ClosedSince(doc, before, found)
  {
    forall k | k in found && k !in before
      ensures Covered(doc[k], found)
    {
      if k in mid {
        CoveredGrows(doc[k], mid, found);
      }
    }
  }

  predicate IsPart(value: Json, part: Json) {
    match value
    case Obj(fields) => exists i :: 0 <= i < |fields| && fields[i].1 == part
    case Arr(elems) => part in elems
    case _ => false
  }

  /** The parts of a value are covered with it, except for a reference of its own. */
  lemma {:induction false} PartOfValue(value: Json, part: Json)
    requires IsPart(value, part)
    ensures forall k :: Mentions(part, k) ==> Mentions(value, k)
    ensures WellTyped(value) ==> WellTyped(part)
  {
  }

  /** The collector and the shared dictionary that it fills. */
  class Collector {
    const doc: Schemas
    var schemas: Schemas

    ghost predicate Valid()
      reads this
    {
      schemas.Keys <= doc.Keys && forall k :: k in schemas ==> schemas[k] == doc[k]
    }

    constructor (doc: Schemas)
      ensures this.doc == doc && schemas == map[] && Valid()
    {
      this.doc := doc;
      schemas := map[];
    }

    /**
     * The depth-first search. On success everything the value refers to is found and the new schemas
     * are closed under reference; it fails only on a value that refers to something unusable. It ends
     * because each call either has fewer schemas left to visit or a smaller value.
     */
    method Refs(value: Json) returns (ok: bool)
      requires Valid()
      modifies this
      ensures Valid() && Grown(doc, value, old(schemas.Keys), schemas.Keys)
      ensures ok ==> Covered(value, schemas.Keys) && ClosedSince(doc, old(schemas.Keys), schemas.Keys)
      ensures !ok ==> Broken(doc, value)
      decreases doc.Keys - schemas.Keys, value, 0
    {
      hide Covered, Broken, Mentions, Reachable;
      ghost var before := schemas.Keys;
      match value {
        case Obj(fields) =>
          var target := Get(fields, REF);
          if target.Some? && !target.value.Str? {
            BrokenReference(doc, value);
            return false;
          }
          if target.Some? && target.value.text !in schemas {
            var key := target.value.text;
            OwnReference(doc, value, key);
            if key !in doc {
              return false;
            }
            schemas := schemas[key := doc[key]];
            ok := Refs(schemas[key]);
            GrownThrough(doc, value, key, before, schemas.Keys);
            if !ok {
              BrokenThrough(doc, value, key);
              return false;
            }
          }
          for i := 0 to |fields|
            invariant Valid() && Grown(doc, value, before, schemas.Keys)
            invariant ClosedSince(doc, before, schemas.Keys)
            invariant target.Some? ==> target.value.text in schemas
            invariant forall j :: 0 <= j < i ==> Covered(fields[j].1, schemas.Keys)
          {
            ok := RefsOfPart(value, fields[i].1, before);
            if !ok {
              return false;
            }
          }
          CoveredObject(fields, schemas.Keys);
          return true;
        case Arr(elems) =>
          for i := 0 to |elems|
            invariant Valid() && Grown(doc, value, before, schemas.Keys)
            invariant ClosedSince(doc, before, schemas.Keys)
            invariant forall j :: 0 <= j < i ==> Covered(elems[j], schemas.Keys)
          {
            ok := RefsOfPart(value, elems[i], before);
            if !ok {
              return false;
            }
          }
          CoveredArray(elems, schemas.Keys);
          return true;
        case _ =>
          CoveredLeaf(value, schemas.Keys);
          return true;
      }
    }

    /** One step of the loops over the parts of a value. */
    method RefsOfPart(ghost value: Json, part: Json, ghost before: set<string>) returns (ok: bool)
      requires Valid() && Grown(doc, value, before, schemas.Keys) && ClosedSince(doc, before, schemas.Keys)
      requires IsPart(value, part)
      modifies this
      ensures Valid() && old(schemas.Keys) <= schemas.Keys && Grown(doc, value, before, schemas.Keys)
      ensures ok ==> ClosedSince(doc, before, schemas.Keys) && Covered(part, schemas.Keys)
      ensures ok ==> forall v :: Covered(v, old(schemas.Keys)) ==> Covered(v, schemas.Keys)
      ensures !ok ==> Broken(doc, value)
      decreases doc.Keys - schemas.Keys, part, 1
    {
      hide Mentions, Reachable, WellTyped;
      ghost var mid := schemas.Keys;
      PartOfValue(value, part);
      ok := Refs(part);
      GrownPart(doc, part, value, before, mid, schemas.Keys);
      if ok {
        ClosedThen(doc, before, mid, schemas.Keys);
      } else {
        BrokenPart(doc, part, value);
      }
    }
  }

  lemma BrokenReference(doc: Schemas, value: Json)
    requires value.Obj? && Get(value.fields, REF).Some? && !Get(value.fields, REF).value.Str?
    ensures Broken(doc, value)
  {
  }

  lemma {:induction false} OwnReference(doc: Schemas, value: Json, key: string)
    requires value.Obj? && Get(value.fields, REF) == Some(Str(key))
    ensures Mentions(value, key) && (key !in doc ==> Broken(doc, value))
  {
    MentionedReachable(doc, value, key);
  }

  lemma {:induction false} CoveredObject(fields: seq<(string, Json)>, found: set<string>)
    requires forall i :: 0 <= i < |fields| ==> Covered(fields[i].1, found)
    requires var r := Get(fields, REF); r.Some? ==> r.value.Str? && r.value.text in found
    ensures Covered(Obj(fields), found)
  {
  }

  lemma CoveredArray(elems: seq<Json>, found: set<string>)
    requires forall i :: 0 <= i < |elems| ==> Covered(elems[i], found)
    ensures Covered(Arr(elems), found)
  {
  }

  lemma CoveredLeaf(value: Json, found: set<string>)
    requires value.Str? || value.Scalar?
    ensures Covered(value, found)
  {
  }

  /**
   * The collection from the chosen methods. It succeeds exactly when every reachable reference
   * resolves, and then finds exactly the reachable schemas, each as the document defines it.
   */
  method CollectSchemas(doc: Schemas, chosen: Json) returns (ok: bool, schemas: Schemas)
    ensures ok <==> Resolves(doc, chosen)
    ensures ok ==> forall key :: key in schemas <==> Reachable(doc, chosen, key)
    ensures ok ==> forall key :: key in schemas ==> key in doc && schemas[key] == doc[key]
  {
    var collector := new Collector(doc);
    ok := collector.Refs(chosen);
    schemas := collector.schemas;
    if ok {
      forall key | Reachable(doc, chosen, key)
        ensures key in schemas
      {
        var keys :| Path(doc, chosen, keys) && keys[|keys| - 1] == key;
        ClosedCoversPath(doc, chosen, schemas.Keys, keys);
      }
    }
  }
}
