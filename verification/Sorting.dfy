/** The stable sort of the language, `Array.prototype.sort` with a comparison function. */
module Sorting {
  /** The comparison is not positive; any total preorder. */
  type Order<!T> = (T, T) -> bool

  ghost predicate TotalPreorder<T(!new)>(leq: Order<T>) {
    && (forall a, b :: leq(a, b) || leq(b, a))
    && (forall a, b, c :: leq(a, b) && leq(b, c) ==> leq(a, c))
  }

  function Insert<T>(x: T, items: seq<T>, leq: Order<T>): seq<T> {
    if items == [] || leq(x, items[0]) then [x] + items
    else [items[0]] + Insert(x, items[1..], leq)
  }

  function Sort<T>(items: seq<T>, leq: Order<T>): seq<T> {
    if items == [] then [] else Insert(items[0], Sort(items[1..], leq), leq)
  }

  ghost predicate Sorted<T>(items: seq<T>, leq: Order<T>) {
    forall i, j :: 0 <= i < j < |items| ==> leq(items[i], items[j])
  }

  lemma {:induction false} InsertPermutes<T>(x: T, items: seq<T>, leq: Order<T>)
    ensures multiset(Insert(x, items, leq)) == multiset{x} + multiset(items)
  {
    if items != [] && !leq(x, items[0]) {
      InsertPermutes(x, items[1..], leq);
      assert items == [items[0]] + items[1..];
    }
  }

  lemma {:induction false} InsertSorts<T(!new)>(x: T, items: seq<T>, leq: Order<T>)
    requires TotalPreorder(leq) && Sorted(items, leq)
    ensures Sorted(Insert(x, items, leq), leq)
  {
    if items != [] && !leq(x, items[0]) {
      var rest := Insert(x, items[1..], leq);
      InsertSorts(x, items[1..], leq);
      InsertPermutes(x, items[1..], leq);
      forall j | 0 <= j < |rest|
        ensures leq(items[0], rest[j])
      {
        assert rest[j] in multiset(rest);
      }
    }
  }

  lemma {:induction false} SortPermutes<T>(items: seq<T>, leq: Order<T>)
    ensures multiset(Sort(items, leq)) == multiset(items)
    ensures |Sort(items, leq)| == |items|
  {
    if items != [] {
      SortPermutes(items[1..], leq);
      InsertPermutes(items[0], Sort(items[1..], leq), leq);
      assert items == [items[0]] + items[1..];
    }
    assert |Sort(items, leq)| == |multiset(Sort(items, leq))|;
  }

  lemma {:induction false} SortSorts<T(!new)>(items: seq<T>, leq: Order<T>)
    requires TotalPreorder(leq)
    ensures Sorted(Sort(items, leq), leq)
  {
    if items != [] {
      SortSorts(items[1..], leq);
      InsertSorts(items[0], Sort(items[1..], leq), leq);
    }
  }

  // ---- Stability ----

  /** The members that compare equal to x, in their order. */
  function Alike<T>(items: seq<T>, x: T, leq: Order<T>): seq<T> {
    if items == [] then []
    else (if leq(items[0], x) && leq(x, items[0]) then [items[0]] else []) + Alike(items[1..], x, leq)
  }

  lemma {:induction false} AlikePlus<T>(x: T, rest: seq<T>, y: T, leq: Order<T>)
    ensures Alike([x] + rest, y, leq) == (if leq(x, y) && leq(y, x) then [x] else []) + Alike(rest, y, leq)
  {
    assert ([x] + rest)[1..] == rest;
  }

  lemma {:induction false} InsertStable<T(!new)>(x: T, items: seq<T>, y: T, leq: Order<T>)
    requires TotalPreorder(leq)
    ensures Alike(Insert(x, items, leq), y, leq) == Alike([x] + items, y, leq)
  {
    AlikePlus(x, items, y, leq);
    if items != [] && !leq(x, items[0]) {
      InsertStable(x, items[1..], y, leq);
      AlikePlus(x, items[1..], y, leq);
      AlikePlus(items[0], Insert(x, items[1..], leq), y, leq);
    }
  }

  /** Members that compare equal keep their order. */
  lemma {:induction false} SortStable<T(!new)>(items: seq<T>, y: T, leq: Order<T>)
    requires TotalPreorder(leq)
    ensures Alike(Sort(items, leq), y, leq) == Alike(items, y, leq)
  {
    if items != [] {
      SortStable(items[1..], y, leq);
      InsertStable(items[0], Sort(items[1..], leq), y, leq);
      AlikePlus(items[0], Sort(items[1..], leq), y, leq);
    }
  }

  // ---- Lists without repetition ----

  ghost predicate Distinct<T(!new)>(s: seq<T>) {
    forall i, j :: 0 <= i < j < |s| ==> s[i] != s[j]
  }

  lemma {:induction false} DistinctMultiset<T(!new)>(s: seq<T>, x: T)
    requires Distinct(s)
    ensures multiset(s)[x] == if x in s then 1 else 0
  {
    if s != [] {
      assert s == [s[0]] + s[1..];
      DistinctMultiset(s[1..], x);
    }
  }

  /** Rearranging keeps members apart. */
  lemma DistinctPermuted<T(!new)>(s: seq<T>, t: seq<T>)
    requires Distinct(s) && multiset(s) == multiset(t)
    ensures Distinct(t) && forall x :: x in s <==> x in t
  {
    forall x
      ensures x in s <==> x in t
    {
      assert x in s <==> x in multiset(s);
      assert x in t <==> x in multiset(t);
    }
    forall i, j | 0 <= i < j < |t|
      ensures t[i] != t[j]
    {
      DistinctMultiset(s, t[i]);
      assert t == t[..j] + t[j..];
      assert multiset(t) == multiset(t[..j]) + multiset(t[j..]);
      assert t[i] in t[..j] && t[j] in t[j..];
    }
  }
}
