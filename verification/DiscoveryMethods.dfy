/** Collecting the methods of nested resources: `collect` in scripts/sfns4/update-google-discovery.py. */
module DiscoveryMethods {
  import opened Text
  import opened Discovery

  datatype Node = Node(methods: seq<(string, Json)>, resources: seq<Resource>)

  datatype Resource = Resource(name: string, node: Node)

  type Methods = map<string, Json>

  function AddMethods(m: Methods, node: Node, n: nat, prefix: string): Methods
    requires n <= |node.methods|
  {
    if n == 0 then m else AddMethods(m, node, n - 1, prefix)[prefix + node.methods[n - 1].0 := node.methods[n - 1].1]
  }

  function AddResources(m: Methods, node: Node, n: nat, prefix: string): Methods
    requires n <= |node.resources|
    decreases node, 0, n
  {
    if n == 0 then m
    else
      var r := node.resources[n - 1];
      Collected(AddResources(m, node, n - 1, prefix), r.node, prefix + (r.name + "."))
  }

  /** The methods after those of a node were added under their prefix. */
  function Collected(m: Methods, node: Node, prefix: string): Methods
    decreases node, 1
  {
    AddResources(AddMethods(m, node, |node.methods|, prefix), node, |node.resources|, prefix)
  }

  /** The dictionary that `collect` writes to. */
  class Catalogue {
    var methods: Methods

    constructor ()
      ensures methods == map[]
    {
      methods := map[];
    }

    method Collect(node: Node, prefix: string)
      modifies this
      ensures methods == Collected(old(methods), node, prefix)
      decreases node
    {
      for i := 0 to |node.methods|
        invariant methods == AddMethods(old(methods), node, i, prefix)
      {
        methods := methods[prefix + node.methods[i].0 := node.methods[i].1];
      }
      ghost var direct := methods;
      for i := 0 to |node.resources|
        invariant methods == AddResources(direct, node, i, prefix)
      {
        Collect(node.resources[i].node, prefix + (node.resources[i].name + "."));
      }
    }
  }

  // ---- What a dotted name stands for ----

  function MethodNamed(methods: seq<(string, Json)>, name: string): Option<Json> {
    if methods == [] then None
    else if methods[|methods| - 1].0 == name then Some(methods[|methods| - 1].1)
    else MethodNamed(methods[..|methods| - 1], name)
  }

  function InResource(resources: seq<Resource>, name: string, rest: string): Option<Json>
    decreases resources
  {
    if resources == [] then None
    else
      var last := resources[|resources| - 1];
      if last.name == name then LookUp(last.node, rest) else InResource(resources[..|resources| - 1], name, rest)
  }

  /** Without a dot, a method of the node; with one, what the rest stands for in the resource before it. */
  function LookUp(node: Node, name: string): Option<Json>
    decreases node
  {
    var dot := IndexOf(name, '.', 0);
    if dot < 0 then MethodNamed(node.methods, name)
    else InResource(node.resources, name[..dot], name[dot + 1..])
  }

  /** Names have no dots, and names at one level differ, as keys of one object do. */
  predicate WellNamed(node: Node) {
    && (forall i :: 0 <= i < |node.methods| ==> Free(node.methods[i].0, '.'))
    && (forall i, j :: 0 <= i < j < |node.methods| ==> node.methods[i].0 != node.methods[j].0)
    && (forall i :: 0 <= i < |node.resources| ==> Free(node.resources[i].name, '.') && WellNamed(node.resources[i].node))
    && (forall i, j :: 0 <= i < j < |node.resources| ==> node.resources[i].name != node.resources[j].name)
  }

  function At(m: Methods, key: string): Option<Json> {
    if key in m then Some(m[key]) else None
  }

  function Else(first: Option<Json>, second: Option<Json>): Option<Json> {
    if first.Some? then first else second
  }

  lemma SamePrefix(prefix: string, a: string, b: string)
    ensures prefix + a == prefix + b <==> a == b
  {
    assert (prefix + a)[|prefix|..] == a && (prefix + b)[|prefix|..] == b;
  }

  lemma {:induction false} MethodsAt(m: Methods, node: Node, n: nat, prefix: string, name: string)
    requires n <= |node.methods|
    ensures At(AddMethods(m, node, n, prefix), prefix + name) == Else(MethodNamed(node.methods[..n], name), At(m, prefix + name))
  {
    if n > 0 {
      MethodsAt(m, node, n - 1, prefix, name);
      assert node.methods[..n][..n - 1] == node.methods[..n - 1];
      SamePrefix(prefix, node.methods[n - 1].0, name);
    }
  }

  /** A dotted name is in the node's resources, a plain one is a method. */
  lemma {:induction false} DottedIsNoMethod(methods: seq<(string, Json)>, name: string)
    requires !Free(name, '.') && forall i :: 0 <= i < |methods| ==> Free(methods[i].0, '.')
    ensures MethodNamed(methods, name) == None
  {
    if methods != [] {
      DottedIsNoMethod(methods[..|methods| - 1], name);
    }
  }

  /** Collecting touches keys with the prefix only. */
  lemma {:induction false} OtherKeysStay(m: Methods, node: Node, prefix: string, key: string)
    requires !(prefix <= key)
    ensures At(Collected(m, node, prefix), key) == At(m, key)
    decreases node, 1
  {
    OtherMethodsStay(m, node, |node.methods|, prefix, key);
    OtherResourcesStay(AddMethods(m, node, |node.methods|, prefix), node, |node.resources|, prefix, key);
  }

  lemma {:induction false} OtherMethodsStay(m: Methods, node: Node, n: nat, prefix: string, key: string)
    requires !(prefix <= key) && n <= |node.methods|
    ensures At(AddMethods(m, node, n, prefix), key) == At(m, key)
  {
    if n > 0 {
      OtherMethodsStay(m, node, n - 1, prefix, key);
      assert prefix <= prefix + node.methods[n - 1].0;
    }
  }

  lemma {:induction false} OtherResourcesStay(m: Methods, node: Node, n: nat, prefix: string, key: string)
    requires !(prefix <= key) && n <= |node.resources|
    ensures At(AddResources(m, node, n, prefix), key) == At(m, key)
    decreases node, 0, n
  {
    if n > 0 {
      OtherResourcesStay(m, node, n - 1, prefix, key);
      var longer := prefix + (node.resources[n - 1].name + ".");
      LongerPrefix(prefix, node.resources[n - 1].name + ".", key);
      OtherKeysStay(AddResources(m, node, n - 1, prefix), node.resources[n - 1].node, longer, key);
    }
  }

  lemma LongerPrefix(prefix: string, more: string, key: string)
    ensures prefix + more <= key ==> prefix <= key
  {
    assert forall k :: 0 <= k < |prefix| ==> (prefix + more)[k] == prefix[k];
  }

  /** A name begins with this dot-free text and a dot exactly if that is what stands before its first dot. */
  lemma {:induction false} FirstPart(name: string, part: string)
    requires Free(part, '.')
    ensures part + "." <= name <==> IndexOf(name, '.', 0) == |part| && name[..|part|] == part
    ensures part + "." <= name ==> part + "." + name[|part| + 1..] == name
  {
    if part + "." <= name {
      assert forall k :: 0 <= k < |part| ==> name[k] == (part + ".")[k] == part[k];
      assert name[|part|] == (part + ".")[|part|];
      IndexOfIs(name, '.', 0, |part|);
    }
    if IndexOf(name, '.', 0) == |part| && name[..|part|] == part {
      assert CharAt(name, '.', |part|);
      assert name == name[..|part|] + [name[|part|]] + name[|part| + 1..];
    }
  }

  /** What the first resources of a node say about a name. */
  function Among(node: Node, n: nat, name: string): Option<Json>
    requires n <= |node.resources|
  {
    var dot := IndexOf(name, '.', 0);
    if dot < 0 then None else InResource(node.resources[..n], name[..dot], name[dot + 1..])
  }

  lemma {:induction false} ResourcesAt(m: Methods, node: Node, n: nat, prefix: string, name: string)
    requires n <= |node.resources| && WellNamed(node)
    ensures At(AddResources(m, node, n, prefix), prefix + name) == Else(Among(node, n, name), At(m, prefix + name))
    decreases node, 0, n
  {
    if n > 0 {
      var r := node.resources[n - 1];
      var before, longer := AddResources(m, node, n - 1, prefix), prefix + (r.name + ".");
      ResourcesAt(m, node, n - 1, prefix, name);
      if r.name + "." <= name {
        CollectedAt(before, r.node, longer, name[|r.name| + 1..]);
        AddedBelow(m, node, n, prefix, name);
      } else {
        AddedBeside(m, node, n, prefix, name);
      }
    }
  }

  /** The key lies below the last resource. */
  lemma AddedBelow(m: Methods, node: Node, n: nat, prefix: string, name: string)
    requires 0 < n <= |node.resources| && WellNamed(node) && node.resources[n - 1].name + "." <= name
    requires
      var r := node.resources[n - 1];
      var before, longer, rest := AddResources(m, node, n - 1, prefix), prefix + (r.name + "."), name[|r.name| + 1..];
      && At(Collected(before, r.node, longer), longer + rest) == Else(LookUp(r.node, rest), At(before, longer + rest))
      && At(before, prefix + name) == Else(Among(node, n - 1, name), At(m, prefix + name))
    ensures At(AddResources(m, node, n, prefix), prefix + name) == Else(Among(node, n, name), At(m, prefix + name))
  {
    var r := node.resources[n - 1];
    FirstPart(name, r.name);
    LastResource(node, n, name);
    NotBefore(node, n, name);
    hide Among, LookUp, Collected, WellNamed, IndexOf, At, Free;
    assert prefix + (r.name + ".") + name[|r.name| + 1..] == prefix + name;
  }

  /** The key lies elsewhere. */
  lemma AddedBeside(m: Methods, node: Node, n: nat, prefix: string, name: string)
    requires 0 < n <= |node.resources| && WellNamed(node) && !(node.resources[n - 1].name + "." <= name)
    requires At(AddResources(m, node, n - 1, prefix), prefix + name) == Else(Among(node, n - 1, name), At(m, prefix + name))
    ensures At(AddResources(m, node, n, prefix), prefix + name) == Else(Among(node, n, name), At(m, prefix + name))
  {
    var r := node.resources[n - 1];
    FirstPart(name, r.name);
    LastResource(node, n, name);
    NotLonger(prefix, r.name + ".", name);
    OtherKeysStay(AddResources(m, node, n - 1, prefix), r.node, prefix + (r.name + "."), prefix + name);
    NotPart(name, r.name);
    hide Among, LookUp, Collected, WellNamed, IndexOf, Free;
  }

  lemma {:induction false} NotPart(name: string, part: string)
    requires Free(part, '.') && !(part + "." <= name)
    ensures IndexOf(name, '.', 0) >= 0 ==> name[..IndexOf(name, '.', 0)] != part
  {
    FirstPart(name, part);
  }

  lemma NotLonger(prefix: string, more: string, name: string)
    requires !(more <= name)
    ensures !(prefix + more <= prefix + name)
  {
    if prefix + more <= prefix + name {
      assert forall k :: 0 <= k < |more| ==> name[k] == (prefix + name)[|prefix| + k] == (prefix + more)[|prefix| + k] == more[k];
    }
  }

  lemma {:induction false} LastResource(node: Node, n: nat, name: string)
    requires 0 < n <= |node.resources|
    ensures
      var r, dot := node.resources[n - 1], IndexOf(name, '.', 0);
      Among(node, n, name) ==
        if dot >= 0 && name[..dot] == r.name then LookUp(r.node, name[dot + 1..]) else Among(node, n - 1, name)
  {
    assert node.resources[..n][..n - 1] == node.resources[..n - 1];
    hide LookUp;
  }

  /** Another resource has another name. */
  lemma {:induction false} NotBefore(node: Node, n: nat, name: string)
    requires WellNamed(node) && 0 < n <= |node.resources|
    requires IndexOf(name, '.', 0) >= 0 && name[..IndexOf(name, '.', 0)] == node.resources[n - 1].name
    ensures Among(node, n - 1, name) == None
  {
    Absent(node.resources[..n - 1], node.resources[n - 1].name, name[IndexOf(name, '.', 0) + 1..]);
  }

  lemma {:induction false} Absent(resources: seq<Resource>, name: string, rest: string)
    requires forall i :: 0 <= i < |resources| ==> resources[i].name != name
    ensures InResource(resources, name, rest) == None
  {
    if resources != [] {
      Absent(resources[..|resources| - 1], name, rest);
    }
  }

  /**
   * A collected name is what its dots say: the last part is a method of the resource that the parts
   * before it lead to. Names that lead nowhere keep what was there.
   */
  lemma {:induction false} CollectedAt(m: Methods, node: Node, prefix: string, name: string)
    requires WellNamed(node)
    ensures At(Collected(m, node, prefix), prefix + name) == Else(LookUp(node, name), At(m, prefix + name))
    decreases node, 1
  {
    var direct := AddMethods(m, node, |node.methods|, prefix);
    MethodsAt(m, node, |node.methods|, prefix, name);
    ResourcesAt(direct, node, |node.resources|, prefix, name);
    assert node.methods[..|node.methods|] == node.methods && node.resources[..|node.resources|] == node.resources;
    var dot := IndexOf(name, '.', 0);
    if dot >= 0 {
      assert CharAt(name, '.', dot);
      DottedIsNoMethod(node.methods, name);
    }
  }

  /** The whole catalogue, from the root of the document. */
  lemma {:induction false} CatalogueExact(node: Node, name: string)
    requires WellNamed(node)
    ensures At(Collected(map[], node, ""), name) == LookUp(node, name)
  {
    CollectedAt(map[], node, "", name);
    assert "" + name == name;
    hide LookUp, Collected;
  }
}
