/** Strings as the TypeScript sources use them, and the result shapes and constants shared by the other modules. */
module Text {

  datatype Option<+T> = None | Some(value: T)

  datatype Result<+T, +E> = Ok(value: T) | Err(error: E)

  /** The largest integer of the language that is exact as a number. */
  const MAX_SAFE_INTEGER: int := 9007199254740991

  /** The character `c` stands at index `k` of `s`. */
  predicate CharAt(s: string, c: char, k: nat) {
    k < |s| && s[k] == c
  }

  /** The character `c` stands twice in a row at index `k` of `s`. */
  predicate PairAt(s: string, c: char, k: nat) {
    k + 1 < |s| && s[k] == c && s[k + 1] == c
  }

  /** `s.indexOf(c, from)`. */
  function IndexOf(s: string, c: char, from: nat): (r: int)
    ensures r == -1 || (from <= r && CharAt(s, c, r))
    ensures forall k: nat :: from <= k && (r >= 0 ==> k < r) ==> !CharAt(s, c, k)
    decreases |s| - from
  {
    if from >= |s| then -1
    else if s[from] == c then from
    else IndexOf(s, c, from + 1)
  }

  function SearchPair(s: string, c: char, from: nat): int
    decreases |s| - from
  {
    if from >= |s| then -1
    else if PairAt(s, c, from) then from
    else SearchPair(s, c, from + 1)
  }

  lemma {:induction false} SearchPairFirst(s: string, c: char, from: nat)
    ensures var r := SearchPair(s, c, from);
            && (r == -1 || (from <= r && PairAt(s, c, r)))
            && forall k: nat :: from <= k && (r >= 0 ==> k < r) ==> !PairAt(s, c, k)
    decreases |s| - from
  {
    if from < |s| && !PairAt(s, c, from) {
      SearchPairFirst(s, c, from + 1);
    }
  }

  /** `s.indexOf(cc, from)` for the two-character pattern `cc`. */
  function IndexOfPair(s: string, c: char, from: nat): (r: int)
    ensures r == -1 || (from <= r && PairAt(s, c, r))
    ensures forall k: nat :: from <= k && (r >= 0 ==> k < r) ==> !PairAt(s, c, k)
  {
    SearchPairFirst(s, c, from);
    SearchPair(s, c, from)
  }

  /** The first occurrence, from its defining property. */
  lemma {:induction false} IndexOfIs(s: string, c: char, from: nat, r: nat)
    requires from <= r && CharAt(s, c, r)
    requires forall k: nat :: from <= k < r ==> !CharAt(s, c, k)
    ensures IndexOf(s, c, from) == r
  {
  }

  lemma IndexOfPairIs(s: string, c: char, from: nat, r: nat)
    requires from <= r && PairAt(s, c, r)
    requires forall k: nat :: from <= k < r ==> !PairAt(s, c, k)
    ensures IndexOfPair(s, c, from) == r
  {
  }

  /** Searching from `from` is searching the suffix that starts there. */
  lemma {:induction false} IndexOfSuffix(s: string, c: char, from: nat)
    requires from <= |s|
    ensures IndexOf(s, c, from) ==
            if IndexOf(s[from..], c, 0) < 0 then -1 else from + IndexOf(s[from..], c, 0)
  {
    var tail := s[from..];
    assert forall k: nat :: from <= k ==> CharAt(s, c, k) == CharAt(tail, c, k - from);
    if IndexOf(s, c, from) >= 0 {
      assert CharAt(s, c, IndexOf(s, c, from));
    }
    if IndexOf(tail, c, 0) >= 0 {
      assert CharAt(s, c, from + IndexOf(tail, c, 0));
    }
  }

  lemma IndexOfPairSuffix(s: string, c: char, from: nat)
    requires from <= |s|
    ensures IndexOfPair(s, c, from) ==
            if IndexOfPair(s[from..], c, 0) < 0 then -1 else from + IndexOfPair(s[from..], c, 0)
  {
    var tail := s[from..];
    assert forall k: nat :: from <= k ==> PairAt(s, c, k) == PairAt(tail, c, k - from);
    if IndexOfPair(tail, c, 0) >= 0 {
      assert PairAt(s, c, from + IndexOfPair(tail, c, 0));
    }
  }

  predicate Free(s: string, c: char) {
    forall k :: 0 <= k < |s| ==> s[k] != c
  }

  predicate StartsWith(s: string, prefix: string) {
    prefix <= s
  }

  predicate EndsWith(s: string, suffix: string) {
    |suffix| <= |s| && s[|s| - |suffix|..] == suffix
  }

  /** Without the characters `c` in front. */
  function DropLeading(s: string, c: char): string {
    if s != "" && s[0] == c then DropLeading(s[1..], c) else s
  }

  /** Without the characters `c` at the end. */
  function DropTrailing(s: string, c: char): string {
    if s != "" && s[|s| - 1] == c then DropTrailing(s[..|s| - 1], c) else s
  }

  /** White space and line terminators of the ECMAScript grammar, which `trim` removes. */
  predicate IsSpace(c: char) {
    c in " \t\n\r" || c == '\U{B}' || c == '\U{C}' || c == '\U{A0}' || c == '\U{1680}' ||
    '\U{2000}' <= c <= '\U{200A}' || c == '\U{2028}' || c == '\U{2029}' || c == '\U{202F}' ||
    c == '\U{205F}' || c == '\U{3000}' || c == '\U{FEFF}'
  }

  function TrimStart(s: string): string {
    if s != "" && IsSpace(s[0]) then TrimStart(s[1..]) else s
  }

  function TrimEnd(s: string): string {
    if s != "" && IsSpace(s[|s| - 1]) then TrimEnd(s[..|s| - 1]) else s
  }

  function Trim(s: string): string {
    TrimEnd(TrimStart(s))
  }
}
