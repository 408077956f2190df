/** Cursor paging of the operator service: `page` in apifn/admin/src/operator-service.ts. */
module Paging {
  import opened Text
  import opened Sorting
  import opened OperatorStore

  /** What a cursor says; it is bound to the scope that it was made for. */
  datatype Cursor = Cursor(scope: Scope, offset: int, resource: string)

  datatype Failure = WrongScope | BadOffset | WrongResource

  datatype Page<T> = Page(items: seq<T>, next: Option<Cursor>)

  /** The scope as cursors know it: an empty environment is none. */
  function CursorScope(scope: Scope): Scope {
    if scope.environment == Some("") then scope.(environment := None) else scope
  }

  function Limit(limit: Option<int>): (n: int)
    ensures 1 <= n <= 100
    ensures limit.Some? && 1 <= limit.value <= 100 ==> n == limit.value
    ensures limit.None? ==> n == 50
    ensures limit.Some? && limit.value < 1 ==> n == 1
    ensures limit.Some? && limit.value > 100 ==> n == 100
  {
    var wanted := if limit.Some? then limit.value else 50;
    var atLeast := if wanted < 1 then 1 else wanted;
    if atLeast > 100 then 100 else atLeast
  }

  function Ordered<T>(items: seq<T>, leq: Order<T>): seq<T> {
    Sort(items, leq)
  }

  /** `s.slice(from, to)` */
  function Slice<T>(s: seq<T>, from: nat, to: nat): seq<T>
    requires from <= to
  {
    if from >= |s| then [] else if to > |s| then s[from..] else s[from..to]
  }

  /** One page of the items, in the order of their identifiers. */
  function GetPage<T>(
    items: seq<T>, leq: Order<T>, limit: Option<int>, cursor: Option<Cursor>, scope: Scope, resource: string)
    : Result<Page<T>, Failure>
  {
    var at := if cursor.Some? then cursor.value else Cursor(CursorScope(scope), 0, resource);
    if at.scope != CursorScope(scope) then Err(WrongScope)
    else if at.offset < 0 || at.offset > MAX_SAFE_INTEGER then Err(BadOffset)
    else if at.resource != resource then Err(WrongResource)
    else
      var ordered := Ordered(items, leq);
      var values := Slice(ordered, at.offset, at.offset + Limit(limit));
      var next := at.offset + |values|;
      Ok(Page(values, if next < |ordered| then Some(Cursor(CursorScope(scope), next, resource)) else None))
  }

  // ---- Following the cursors ----

  /** A cursor that these items have given out, or none yet. */
  predicate Fits(cursor: Option<Cursor>, n: nat, scope: Scope, resource: string) {
    cursor.Some? ==> cursor.value.scope == CursorScope(scope) && cursor.value.resource == resource && 0 <= cursor.value.offset < n
  }

  function Offset(cursor: Option<Cursor>): int {
    if cursor.Some? then cursor.value.offset else 0
  }

  /** A page with such a cursor holds the next items, as many as the limit lets, and points past them. */
  lemma PageExact<T>(items: seq<T>, leq: Order<T>, limit: Option<int>, cursor: Option<Cursor>, scope: Scope, resource: string)
    requires |items| <= MAX_SAFE_INTEGER && Fits(cursor, |items|, scope, resource)
    ensures
      var page := GetPage(items, leq, limit, cursor, scope, resource);
      var from, ordered := Offset(cursor), Ordered(items, leq);
      var to := if from + Limit(limit) < |items| then from + Limit(limit) else |items|;
      && |ordered| == |items| && page.Ok? && page.value.items == ordered[from..to]
      && page.value.next == (if to < |items| then Some(Cursor(CursorScope(scope), to, resource)) else None)
  {
    SortPermutes(items, leq);
    hide Sort, Limit;
  }

  /** A cursor holds the scope that it was made in, but for an empty environment, which it holds as none. */
  predicate MadeIn(held: Scope, scope: Scope) {
    && held.(environment := None) == scope.(environment := None)
    && (if scope.environment == None || scope.environment == Some("") then held.environment == None
        else held.environment == scope.environment)
  }

  /** A cursor is refused exactly for a foreign scope, else for an offset that is no safe index, else for a foreign resource. */
  lemma CursorsRefused<T>(items: seq<T>, leq: Order<T>, limit: Option<int>, cursor: Cursor, scope: Scope, resource: string)
    ensures GetPage(items, leq, limit, None, scope, resource).Ok?
    ensures
      var page := GetPage(items, leq, limit, Some(cursor), scope, resource);
      && (page == Err(WrongScope) <==> !MadeIn(cursor.scope, scope))
      && (page == Err(BadOffset) <==> MadeIn(cursor.scope, scope) && !(0 <= cursor.offset <= 9007199254740991))
      && (page == Err(WrongResource) <==>
          MadeIn(cursor.scope, scope) && 0 <= cursor.offset <= 9007199254740991 && cursor.resource != resource)
  {
    hide Ordered, Limit, Slice;
  }

  /** A cursor that points past the items gives an empty last page. */
  lemma PastTheEnd<T>(items: seq<T>, leq: Order<T>, limit: Option<int>, cursor: Cursor, scope: Scope, resource: string)
    requires MadeIn(cursor.scope, scope) && |items| <= cursor.offset <= 9007199254740991 && cursor.resource == resource
    ensures GetPage(items, leq, limit, Some(cursor), scope, resource) == Ok(Page([], None))
  {
    SortPermutes(items, leq);
    hide Sort, Limit;
  }

  /** The pages from a cursor on; `limits` says which limit is asked for at the k-th call. */
  function Pages<T>(
    items: seq<T>, leq: Order<T>, limits: nat -> Option<int>, k: nat, cursor: Option<Cursor>, scope: Scope, resource: string)
    : seq<seq<T>>
    requires |items| <= MAX_SAFE_INTEGER && Fits(cursor, |items|, scope, resource)
    decreases |items| - Offset(cursor)
  {
    PageExact(items, leq, limits(k), cursor, scope, resource);
    var page := GetPage(items, leq, limits(k), cursor, scope, resource).value;
    if page.next.None? then [page.items] else [page.items] + Pages(items, leq, limits, k + 1, page.next, scope, resource)
  }

  function Concat<T>(pages: seq<seq<T>>): seq<T> {
    if pages == [] then [] else pages[0] + Concat(pages[1..])
  }

  lemma {:induction false} ConcatPage<T>(page: seq<T>, rest: seq<seq<T>>)
    ensures Concat([page] + rest) == page + Concat(rest)
    ensures Concat([page]) == page
  {
    assert ([page] + rest)[1..] == rest;
    assert [page][1..] == [];
  }

  lemma TailSplit<T>(s: seq<T>, from: nat, to: nat)
    requires from <= to <= |s|
    ensures s[from..] == s[from..to] + s[to..] && s[from..|s|] == s[from..]
  {
  }

  lemma {:induction false} PagesUnfold<T>(
    items: seq<T>, leq: Order<T>, limits: nat -> Option<int>, k: nat, cursor: Option<Cursor>, scope: Scope, resource: string)
    requires |items| <= MAX_SAFE_INTEGER && Fits(cursor, |items|, scope, resource)
    ensures GetPage(items, leq, limits(k), cursor, scope, resource).Ok?
    ensures
      var page := GetPage(items, leq, limits(k), cursor, scope, resource).value;
      && Fits(page.next, |items|, scope, resource)
      && Pages(items, leq, limits, k, cursor, scope, resource) ==
         [page.items] + if page.next.None? then [] else Pages(items, leq, limits, k + 1, page.next, scope, resource)
  {
    PageExact(items, leq, limits(k), cursor, scope, resource);
    hide GetPage, Ordered;
  }

  lemma {:induction false} PagesConcat<T>(
    items: seq<T>, leq: Order<T>, limits: nat -> Option<int>, k: nat, cursor: Option<Cursor>, scope: Scope, resource: string)
    requires |items| <= MAX_SAFE_INTEGER && Fits(cursor, |items|, scope, resource)
    ensures |Ordered(items, leq)| == |items|
    ensures Concat(Pages(items, leq, limits, k, cursor, scope, resource)) == Ordered(items, leq)[Offset(cursor)..]
    decreases |items| - Offset(cursor)
  {
    PageExact(items, leq, limits(k), cursor, scope, resource);
    var page := GetPage(items, leq, limits(k), cursor, scope, resource).value;
    PagesUnfold(items, leq, limits, k, cursor, scope, resource);
    hide GetPage, Ordered, Limit, Concat, Pages;
    if page.next.Some? {
      PagesConcat(items, leq, limits, k + 1, page.next, scope, resource);
      ConcatPage(page.items, Pages(items, leq, limits, k + 1, page.next, scope, resource));
      TailSplit(Ordered(items, leq), Offset(cursor), Offset(page.next));
    } else {
      ConcatPage(page.items, []);
      TailSplit(Ordered(items, leq), Offset(cursor), |Ordered(items, leq)|);
    }
  }

  /** From the start, whatever limits are asked for, the pages are the ordered items, each once. */
  lemma {:induction false} PagesAreTheItems<T(!new)>(items: seq<T>, leq: Order<T>, limits: nat -> Option<int>, scope: Scope, resource: string)
    requires |items| <= MAX_SAFE_INTEGER && TotalPreorder(leq)
    ensures
      var all := Concat(Pages(items, leq, limits, 0, None, scope, resource));
      multiset(all) == multiset(items) && Sorted(all, leq)
  {
    PagesConcat(items, leq, limits, 0, None, scope, resource);
    assert Ordered(items, leq)[0..] == Ordered(items, leq);
    SortPermutes(items, leq);
    SortSorts(items, leq);
  }

  /** `pages` is the length over the limit, rounded up, but at least one. */
  predicate RoundedUp(left: int, limit: int, pages: int) {
    if left == 0 then pages == 1 else (pages - 1) * limit < left <= pages * limit
  }

  lemma OneMore(left: int, limit: int, pages: int)
    requires 0 < left && RoundedUp(left, limit, pages)
    ensures 0 < limit ==> RoundedUp(left + limit, limit, pages + 1)
  {
    assert (pages - 1) * limit == pages * limit - limit && (pages + 1) * limit == pages * limit + limit;
  }

  lemma LastOne(left: int, limit: int)
    requires 0 <= left <= limit
    ensures RoundedUp(left, limit, 1)
  {
  }

  /** With one limit throughout, the number of pages is the length over the limit, rounded up, but at least one. */
  lemma {:induction false} PageCount<T>(
    items: seq<T>, leq: Order<T>, limits: nat -> Option<int>, k: nat, cursor: Option<Cursor>, scope: Scope, resource: string)
    requires |items| <= MAX_SAFE_INTEGER && Fits(cursor, |items|, scope, resource)
    requires forall j :: Limit(limits(j)) == Limit(limits(0))
    ensures RoundedUp(|items| - Offset(cursor), Limit(limits(0)), |Pages(items, leq, limits, k, cursor, scope, resource)|)
    decreases |items| - Offset(cursor)
  {
    PageExact(items, leq, limits(k), cursor, scope, resource);
    var page := GetPage(items, leq, limits(k), cursor, scope, resource).value;
    PagesUnfold(items, leq, limits, k, cursor, scope, resource);
    hide GetPage, Ordered, Limit, RoundedUp, Pages;
    if page.next.Some? {
      PageCount(items, leq, limits, k + 1, page.next, scope, resource);
      OneMore(|items| - Offset(page.next), Limit(limits(0)), |Pages(items, leq, limits, k + 1, page.next, scope, resource)|);
    } else {
      LastOne(|items| - Offset(cursor), Limit(limits(0)));
    }
  }

  /** No page is longer than the limit, and only a last page is shorter. */
  lemma PageLength<T>(items: seq<T>, leq: Order<T>, limit: Option<int>, cursor: Option<Cursor>, scope: Scope, resource: string)
    requires |items| <= MAX_SAFE_INTEGER && Fits(cursor, |items|, scope, resource)
    ensures
      var page := GetPage(items, leq, limit, cursor, scope, resource).value;
      |page.items| <= Limit(limit) && (page.next.Some? ==> |page.items| == Limit(limit))
  {
    PageExact(items, leq, limit, cursor, scope, resource);
    hide GetPage, Ordered;
  }

  /** What one call gives out as the next cursor, another call takes exactly in the same scope, for the same resource. */
  lemma ForeignCursorsRefused<T, U>(
    items: seq<T>, leq: Order<T>, limit: Option<int>, cursor: Option<Cursor>, scope: Scope, resource: string,
    others: seq<U>, order: Order<U>, size: Option<int>, place: Scope, kind: string)
    requires |items| <= MAX_SAFE_INTEGER && Fits(cursor, |items|, scope, resource)
    requires GetPage(items, leq, limit, cursor, scope, resource).value.next.Some?
    ensures
      var next := GetPage(items, leq, limit, cursor, scope, resource).value.next;
      GetPage(others, order, size, next, place, kind).Ok? <==> CursorScope(place) == CursorScope(scope) && kind == resource
  {
    PageExact(items, leq, limit, cursor, scope, resource);
    hide Ordered, Limit;
  }
}
