/**
 * Unpadded base64url text for signatures and tokens (authfn/social-oauth/src/oauth-support.ts), on
 * top of `btoa` and `atob`, which follow sections 4 and 5 of RFC 4648; `atob` also skips white space
 * and takes text whose padding was left out.
 */
module Base64Url {
  import opened Text

  type byte = i: int | 0 <= i < 256

  type sextet = i: int | 0 <= i < 64

  // ---- The alphabet ----

  function Digit(v: sextet): char {
    if v < 26 then (65 + v) as char
    else if v < 52 then (71 + v) as char
    else if v < 62 then (v - 4) as char
    else if v == 62 then '+'
    else '/'
  }

  function Value(c: char): Option<sextet> {
    if 'A' <= c <= 'Z' then Some(c as int - 65)
    else if 'a' <= c <= 'z' then Some(c as int - 71)
    else if '0' <= c <= '9' then Some(c as int + 4)
    else if c == '+' then Some(62)
    else if c == '/' then Some(63)
    else None
  }

  /** Digits and values are inverse, so no other character has a value. */
  lemma DigitValue(v: sextet, c: char)
    ensures Value(Digit(v)) == Some(v)
    ensures Value(c).Some? ==> Digit(Value(c).value) == c
  {
  }

  predicate Coded(s: string) {
    forall i :: 0 <= i < |s| ==> Value(s[i]).Some?
  }

  // ---- Three bytes to four digits ----

  function Digit0(x: byte): char {
    Digit(x / 4)
  }

  function Digit1(x: byte, y: byte): char {
    Digit(x % 4 * 16 + y / 16)
  }

  function Digit2(y: byte, z: byte): char {
    Digit(y % 16 * 4 + z / 64)
  }

  function Digit3(z: byte): char {
    Digit(z % 64)
  }

  /** Without padding; the bits that a last group lacks are zero. */
  function Core(b: seq<byte>): string {
    if |b| == 0 then ""
    else if |b| == 1 then [Digit0(b[0]), Digit1(b[0], 0)]
    else if |b| == 2 then [Digit0(b[0]), Digit1(b[0], b[1]), Digit2(b[1], 0)]
    else [Digit0(b[0]), Digit1(b[0], b[1]), Digit2(b[1], b[2]), Digit3(b[2])] + Core(b[3..])
  }

  function Padding(n: nat): string {
    if n % 3 == 0 then "" else if n % 3 == 1 then "==" else "="
  }

  function Byte0(c: char, d: char): byte
    requires Value(c).Some? && Value(d).Some?
  {
    Value(c).value * 4 + Value(d).value / 16
  }

  function Byte1(d: char, e: char): byte
    requires Value(d).Some? && Value(e).Some?
  {
    Value(d).value % 16 * 16 + Value(e).value / 4
  }

  function Byte2(e: char, f: char): byte
    requires Value(e).Some? && Value(f).Some?
  {
    Value(e).value % 4 * 64 + Value(f).value
  }

  /** Bits that do not fill a byte are dropped. */
  function Uncore(s: string): seq<byte>
    requires Coded(s) && |s| % 4 != 1
  {
    if |s| == 0 then []
    else if |s| == 2 then [Byte0(s[0], s[1])]
    else if |s| == 3 then [Byte0(s[0], s[1]), Byte1(s[1], s[2])]
    else [Byte0(s[0], s[1]), Byte1(s[1], s[2]), Byte2(s[2], s[3])] + Uncore(s[4..])
  }

  // ---- btoa and atob ----

  predicate Binary(s: string) {
    forall i :: 0 <= i < |s| ==> s[i] as int < 256
  }

  function Bytes(s: string): seq<byte>
    requires Binary(s)
  {
    seq(|s|, i requires 0 <= i < |s| => s[i] as int)
  }

  function Chars(b: seq<byte>): (s: string)
    ensures Binary(s) && |s| == |b|
  {
    seq(|b|, i requires 0 <= i < |b| => b[i] as char)
  }

  /** `None` when it throws. */
  function Btoa(s: string): Option<string> {
    if Binary(s) then Some(Core(Bytes(s)) + Padding(|s|)) else None
  }

  predicate Blank(c: char) {
    c == ' ' || c == '\t' || c == '\n' || c == '\r' || c as int == 12
  }

  function WithoutBlanks(s: string): string {
    if s == "" then "" else if Blank(s[0]) then WithoutBlanks(s[1..]) else [s[0]] + WithoutBlanks(s[1..])
  }

  function WithoutPadding(s: string): string {
    if |s| % 4 != 0 || !EndsWith(s, "=") then s
    else if EndsWith(s, "==") then s[..|s| - 2]
    else s[..|s| - 1]
  }

  /** `None` when it throws. */
  function Atob(s: string): (binary: Option<string>)
    ensures binary.Some? ==> Binary(binary.value)
  {
    var t := WithoutPadding(WithoutBlanks(s));
    if |t| % 4 == 1 || !Coded(t) then None else Some(Chars(Uncore(t)))
  }

  // ---- The two functions ----

  function Replace(s: string, from: char, to: char): (r: string)
    ensures |r| == |s|
  {
    seq(|s|, i requires 0 <= i < |s| => if s[i] == from then to else s[i])
  }

  function PadEnd(s: string, n: nat, c: char): string {
    if |s| >= n then s else s + seq(n - |s|, _ => c)
  }

  /** The text of these bytes. */
  function Encode(b: seq<byte>): string {
    DropTrailing(Replace(Replace(Core(b) + Padding(|b|), '+', '-'), '/', '_'), '=')
  }

  /** The bytes of this text; `None` when `atob` throws. */
  function Decode(s: string): Option<seq<byte>> {
    var base64 := Replace(Replace(s, '-', '+'), '_', '/');
    DecodeStandard(PadEnd(base64, (|base64| + 3) / 4 * 4, '='))
  }

  function DecodeStandard(s: string): Option<seq<byte>> {
    var binary := Atob(s);
    if binary.Some? then Some(Bytes(binary.value)) else None
  }

  method Base64UrlBytes(bytes: array<byte>) returns (text: string)
    ensures text == Encode(bytes[..])
  {
    var binary := "";
    for i := 0 to bytes.Length
      invariant |binary| == i && Binary(binary)
      invariant Bytes(binary) == bytes[..i]
    {
      binary := binary + [bytes[i] as char];
    }
    assert bytes[..bytes.Length] == bytes[..];
    text := DropTrailing(Replace(Replace(Btoa(binary).value, '+', '-'), '/', '_'), '=');
  }

  method DecodeBase64(value: string) returns (thrown: bool, bytes: array<byte>)
    ensures thrown <==> DecodeStandard(value).None?
    ensures !thrown ==> bytes[..] == DecodeStandard(value).value
  {
    hide Atob;
    var result := Atob(value);
    thrown := result.None?;
    bytes := new byte[0];
    if !thrown {
      var binary := result.value;
      bytes := new byte[|binary|];
      for i := 0 to |binary|
        invariant forall k :: 0 <= k < i ==> bytes[k] == binary[k] as int
      {
        bytes[i] := binary[i] as int;
      }
      assert bytes[..] == Bytes(binary);
    }
  }

  method DecodeBase64Url(value: string) returns (thrown: bool, bytes: array<byte>)
    ensures thrown <==> Decode(value).None?
    ensures !thrown ==> bytes[..] == Decode(value).value
  {
    var base64 := Replace(Replace(value, '-', '+'), '_', '/');
    thrown, bytes := DecodeBase64(PadEnd(base64, (|base64| + 3) / 4 * 4, '='));
  }

  // ---- The digits undo each other ----

  lemma AllDigits(x: byte, y: byte)
    ensures Value(Digit0(x)).Some? && Value(Digit1(x, y)).Some? && Value(Digit2(x, y)).Some? && Value(Digit3(y)).Some?
  {
    DigitValue(x / 4, 'A');
    DigitValue(x % 4 * 16 + y / 16, 'A');
    DigitValue(x % 16 * 4 + y / 64, 'A');
    DigitValue(y % 64, 'A');
  }

  lemma {:induction false} CoreCoded(b: seq<byte>)
    ensures Coded(Core(b)) && |Core(b)| == (|b| * 4 + 2) / 3
  {
    hide Value, Digit0, Digit1, Digit2, Digit3;
    forall x, y
      ensures Value(Digit0(x)).Some? && Value(Digit1(x, y)).Some? && Value(Digit2(x, y)).Some? && Value(Digit3(y)).Some?
    {
      AllDigits(x, y);
    }
    if |b| >= 3 {
      CoreCoded(b[3..]);
    }
  }

  lemma GroupUndone(x: byte, y: byte, z: byte)
    ensures
      && Value(Digit0(x)).Some? && Value(Digit1(x, y)).Some? && Value(Digit2(y, z)).Some? && Value(Digit3(z)).Some?
      && Byte0(Digit0(x), Digit1(x, y)) == x
      && Byte1(Digit1(x, y), Digit2(y, z)) == y
      && Byte2(Digit2(y, z), Digit3(z)) == z
  {
    DigitValue(x / 4, 'A');
    DigitValue(x % 4 * 16 + y / 16, 'A');
    DigitValue(y % 16 * 4 + z / 64, 'A');
    DigitValue(z % 64, 'A');
    hide Digit, Value;
    BitsUndone(x, y, z);
  }

  lemma BitsUndone(x: byte, y: byte, z: byte)
    ensures x / 4 * 4 + (x % 4 * 16 + y / 16) / 16 == x
    ensures (x % 4 * 16 + y / 16) % 16 * 16 + (y % 16 * 4 + z / 64) / 4 == y
    ensures (y % 16 * 4 + z / 64) % 4 * 64 + z % 64 == z
  {
  }

  lemma {:induction false} CoreUndone(b: seq<byte>)
    ensures Coded(Core(b)) && |Core(b)| % 4 != 1 && Uncore(Core(b)) == b
  {
    CoreCoded(b);
    hide Value, Digit0, Digit1, Digit2, Digit3, Byte0, Byte1, Byte2;
    if |b| == 1 {
      GroupUndone(b[0], 0, 0);
    } else if |b| == 2 {
      GroupUndone(b[0], b[1], 0);
    } else if |b| >= 3 {
      CoreUndone(b[3..]);
      assert b == [b[0], b[1], b[2]] + b[3..];
      var s := [Digit0(b[0]), Digit1(b[0], b[1]), Digit2(b[1], b[2]), Digit3(b[2])];
      GroupUndone(b[0], b[1], b[2]);
      UncoreGroup(s, Core(b[3..]));
    }
  }

  lemma {:induction false} UncoreGroup(s: string, rest: string)
    requires |s| == 4 && Coded(s) && Coded(rest) && |rest| % 4 != 1
    ensures Coded(s + rest) && |s + rest| % 4 != 1
    ensures Uncore(s + rest) == [Byte0(s[0], s[1]), Byte1(s[1], s[2]), Byte2(s[2], s[3])] + Uncore(rest)
  {
    hide Value, Byte0, Byte1, Byte2;
    assert (s + rest)[4..] == rest;
  }

  // ---- So do the alphabets and the padding ----

  lemma UrlUndone(s: string)
    requires Coded(s)
    ensures Replace(Replace(Replace(Replace(s, '+', '-'), '/', '_'), '-', '+'), '_', '/') == s
  {
    forall i | 0 <= i < |s|
      ensures Replace(Replace(Replace(Replace(s, '+', '-'), '/', '_'), '-', '+'), '_', '/')[i] == s[i]
    {
      assert Value(s[i]).Some?;
    }
  }

  lemma ReplaceSplits(s: string, t: string, from: char, to: char)
    ensures Replace(s + t, from, to) == Replace(s, from, to) + Replace(t, from, to)
  {
  }

  lemma {:induction false} StripOne(s: string)
    ensures DropTrailing(s + "=", '=') == DropTrailing(s, '=')
  {
    assert (s + "=")[..|s|] == s;
  }

  lemma {:induction false} StripPads(s: string, n: nat)
    requires s != "" ==> s[|s| - 1] != '='
    ensures DropTrailing(s + Padding(n), '=') == s
  {
    assert DropTrailing(s, '=') == s;
    hide DropTrailing;
    StripOne(s);
    StripOne(s + "=");
    assert s + "" == s;
    assert s + "==" == s + "=" + "=";
  }

  /** Encoding is the digits with the other alphabet; the padding goes, and nothing else. */
  lemma {:induction false} EncodeIsCore(b: seq<byte>)
    ensures Encode(b) == Replace(Replace(Core(b), '+', '-'), '/', '_')
  {
    CoreCoded(b);
    var core, pad := Core(b), Padding(|b|);
    var url := Replace(Replace(core, '+', '-'), '/', '_');
    ReplaceSplits(core, pad, '+', '-');
    ReplaceSplits(Replace(core, '+', '-'), Replace(pad, '+', '-'), '/', '_');
    assert Replace(Replace(pad, '+', '-'), '/', '_') == pad;
    assert url != "" ==> Value(core[|core| - 1]).Some?;
    StripPads(url, |b|);
  }

  /** Rounding the length up to a multiple of four restores exactly the padding that was stripped. */
  lemma {:induction false} PaddingRestored(b: seq<byte>)
    ensures PadEnd(Core(b), (|Core(b)| + 3) / 4 * 4, '=') == Core(b) + Padding(|b|)
  {
    CoreCoded(b);
    hide Core;
    PadsMatch(Core(b), |b|);
  }

  lemma PadsMatch(s: string, n: nat)
    requires |s| == (n * 4 + 2) / 3
    ensures PadEnd(s, (|s| + 3) / 4 * 4, '=') == s + Padding(n)
  {
    PadLength(n);
    assert s + "" == s;
    assert Padding(n) == seq(|Padding(n)|, _ => '=');
  }

  lemma {:induction false} PadLength(n: nat)
    ensures var m := (n * 4 + 2) / 3; m + |Padding(n)| == (m + 3) / 4 * 4
  {
    if n >= 3 {
      PadLength(n - 3);
      var m := ((n - 3) * 4 + 2) / 3;
      assert (n * 4 + 2) / 3 == m + 4;
      assert (m + 4 + 3) / 4 == (m + 3) / 4 + 1;
    }
  }

  lemma {:induction false} NoBlanks(s: string)
    requires forall i :: 0 <= i < |s| ==> !Blank(s[i])
    ensures WithoutBlanks(s) == s
  {
    if s != "" {
      NoBlanks(s[1..]);
    }
  }

  lemma PaddingDropped(s: string, n: nat)
    requires Coded(s) && |s| == (n * 4 + 2) / 3
    ensures WithoutPadding(s + Padding(n)) == s
  {
    PadLength(n);
    assert s != "" ==> Value(s[|s| - 1]).Some?;
    hide Value;
    if n % 3 == 0 {
      assert s + "" == s;
      DropNone(s);
    } else if n % 3 == 1 {
      DropTwo(s);
    } else {
      DropOne(s);
    }
  }

  lemma DropNone(s: string)
    requires s != "" ==> s[|s| - 1] != '='
    ensures WithoutPadding(s) == s
  {
    assert s != "" ==> s[|s| - 1..] == [s[|s| - 1]];
  }

  lemma DropOne(s: string)
    requires |s + "="| % 4 == 0 && (s != "" ==> s[|s| - 1] != '=')
    ensures WithoutPadding(s + "=") == s
  {
    var t := s + "=";
    assert t[|t| - 1..] == "=";
    assert |t| >= 2 ==> t[|t| - 2..][0] == s[|s| - 1];
    assert t[..|t| - 1] == s;
  }

  lemma DropTwo(s: string)
    requires |s + "=="| % 4 == 0
    ensures WithoutPadding(s + "==") == s
  {
    var t := s + "==";
    assert t[|t| - 1..] == "=";
    assert t[|t| - 2..] == "==";
    assert t[..|t| - 2] == s;
  }

  /** `atob` undoes `btoa`. */
  lemma {:induction false} AtobUndoesBtoa(b: seq<byte>)
    ensures Atob(Core(b) + Padding(|b|)) == Some(Chars(b))
  {
    CoreCoded(b);
    CoreUndone(b);
    hide Core, Uncore;
    PaddedCoded(Core(b), |b|);
    NoBlanks(Core(b) + Padding(|b|));
    hide WithoutBlanks, WithoutPadding;
    PaddingDropped(Core(b), |b|);
  }

  lemma PaddedCoded(s: string, n: nat)
    requires Coded(s)
    ensures forall i :: 0 <= i < |s + Padding(n)| ==> !Blank((s + Padding(n))[i])
  {
    assert forall i :: 0 <= i < |s| ==> Value(s[i]).Some?;
  }

  /** Every byte sequence comes back from its text. */
  lemma DecodeUndoesEncode(b: seq<byte>)
    ensures Decode(Encode(b)) == Some(b)
  {
    EncodeIsCore(b);
    CoreCoded(b);
    hide Core, Encode, Atob, PadEnd, Coded;
    UrlUndone(Core(b));
    PaddingRestored(b);
    AtobUndoesBtoa(b);
    hide Replace;
    assert Bytes(Chars(b)) == b;
  }

  // ---- Which texts are encodings ----

  /** The standard digit of a character of the url alphabet. */
  function Standard(c: char): char {
    if c == '-' then '+' else if c == '_' then '/' else c
  }

  predicate UrlDigits(s: string) {
    forall i :: 0 <= i < |s| ==> s[i] != '+' && s[i] != '/' && Value(Standard(s[i])).Some?
  }

  /** The bits that do not fill a byte are zero. */
  predicate ZeroTail(s: string)
    requires Coded(s)
  {
    && (|s| % 4 == 2 ==> Value(s[|s| - 1]).value % 16 == 0)
    && (|s| % 4 == 3 ==> Value(s[|s| - 1]).value % 4 == 0)
  }

  /** Digits of the url alphabet only, a length some byte sequence has, and no stray bits at the end. */
  predicate Canonical(s: string) {
    && UrlDigits(s) && |s| % 4 != 1
    && (|s| % 4 == 2 ==> Value(Standard(s[|s| - 1])).value % 16 == 0)
    && (|s| % 4 == 3 ==> Value(Standard(s[|s| - 1])).value % 4 == 0)
  }

  lemma ZeroBits(x: byte)
    ensures Value(Digit1(x, 0)).Some? && Value(Digit1(x, 0)).value % 16 == 0
    ensures Value(Digit2(x, 0)).Some? && Value(Digit2(x, 0)).value % 4 == 0
  {
    DigitValue(x % 4 * 16, 'A');
    DigitValue(x % 16 * 4, 'A');
  }

  lemma {:induction false} CoreZeroTail(b: seq<byte>)
    ensures Coded(Core(b)) && ZeroTail(Core(b))
  {
    CoreCoded(b);
    hide Value, Digit0, Digit1, Digit2, Digit3;
    if |b| == 1 {
      ZeroBits(b[0]);
    } else if |b| == 2 {
      ZeroBits(b[1]);
    } else if |b| >= 3 {
      CoreZeroTail(b[3..]);
      var s := [Digit0(b[0]), Digit1(b[0], b[1]), Digit2(b[1], b[2]), Digit3(b[2])];
      var rest := Core(b[3..]);
      assert Core(b) == s + rest;
      hide Core;
      GroupKeepsTail(s, rest);
    }
  }

  lemma GroupKeepsTail(s: string, rest: string)
    requires |s| == 4 && Coded(rest) && Coded(s + rest)
    ensures ZeroTail(s + rest) <==> ZeroTail(rest)
  {
    hide Value;
    assert |s + rest| % 4 == |rest| % 4;
    assert rest != "" ==> (s + rest)[|s + rest| - 1] == rest[|rest| - 1];
  }

  lemma GroupRedone(c: char, d: char, e: char, f: char)
    requires Value(c).Some? && Value(d).Some? && Value(e).Some? && Value(f).Some?
    ensures Digit0(Byte0(c, d)) == c && Digit1(Byte0(c, d), Byte1(d, e)) == d
    ensures Digit2(Byte1(d, e), Byte2(e, f)) == e && Digit3(Byte2(e, f)) == f
  {
    DigitValue(0, c);
    DigitValue(0, d);
    DigitValue(0, e);
    DigitValue(0, f);
    hide Value, Digit;
    BitsRedone(Value(c).value, Value(d).value, Value(e).value, Value(f).value, Byte0(c, d), Byte1(d, e), Byte2(e, f));
  }

  lemma BitsRedone(p: sextet, q: sextet, r: sextet, t: sextet, x: byte, y: byte, z: byte)
    requires x == p * 4 + q / 16 && y == q % 16 * 16 + r / 4 && z == r % 4 * 64 + t
    ensures x / 4 == p && x % 4 * 16 + y / 16 == q && y % 16 * 4 + z / 64 == r && z % 64 == t
  {
  }

  lemma PairRedone(c: char, d: char)
    requires Value(c).Some? && Value(d).Some? && Value(d).value % 16 == 0
    ensures Digit0(Byte0(c, d)) == c && Digit1(Byte0(c, d), 0) == d
  {
    DigitValue(0, c);
    DigitValue(0, d);
    hide Value, Digit;
    PairBits(Value(c).value, Value(d).value, Byte0(c, d));
  }

  lemma PairBits(p: sextet, q: sextet, x: byte)
    requires x == p * 4 + q / 16 && q % 16 == 0
    ensures x / 4 == p && x % 4 * 16 + 0 / 16 == q
  {
  }

  lemma TripleBits(q: sextet, r: sextet, y: byte)
    requires y == q % 16 * 16 + r / 4 && r % 4 == 0
    ensures y % 16 * 4 + 0 / 64 == r
  {
  }

  lemma TripleRedone(c: char, d: char, e: char)
    requires Value(c).Some? && Value(d).Some? && Value(e).Some? && Value(e).value % 4 == 0
    ensures Digit0(Byte0(c, d)) == c && Digit1(Byte0(c, d), Byte1(d, e)) == d && Digit2(Byte1(d, e), 0) == e
  {
    GroupRedone(c, d, e, 'A');
    DigitValue(0, e);
    hide Value, Digit;
    TripleBits(Value(d).value, Value(e).value, Byte1(d, e));
  }

  lemma {:induction false} UncoreUndone(s: string)
    requires Coded(s) && |s| % 4 != 1 && ZeroTail(s)
    ensures Core(Uncore(s)) == s
  {
    hide Value, Digit0, Digit1, Digit2, Digit3, Byte0, Byte1, Byte2;
    if |s| == 2 {
      PairRedone(s[0], s[1]);
    } else if |s| == 3 {
      TripleRedone(s[0], s[1], s[2]);
    } else if |s| >= 4 {
      var head, rest := s[..4], s[4..];
      assert s == head + rest && |rest| % 4 == |s| % 4;
      hide Core, Uncore;
      GroupKeepsTail(head, rest);
      hide ZeroTail;
      UncoreUndone(rest);
      WholeGroupRedone(head, rest);
    }
  }

  lemma {:induction false} WholeGroupRedone(s: string, rest: string)
    requires |s| == 4 && Coded(s) && Coded(rest) && |rest| % 4 != 1 && Core(Uncore(rest)) == rest
    ensures Coded(s + rest) && |s + rest| % 4 != 1 && Core(Uncore(s + rest)) == s + rest
  {
    UncoreGroup(s, rest);
    assert s == [s[0], s[1], s[2], s[3]];
    GroupRedone(s[0], s[1], s[2], s[3]);
    CoreGroup(Byte0(s[0], s[1]), Byte1(s[1], s[2]), Byte2(s[2], s[3]), Uncore(rest));
    hide *;
  }

  lemma {:induction false} CoreGroup(x: byte, y: byte, z: byte, rest: seq<byte>)
    ensures Core([x, y, z] + rest) == [Digit0(x), Digit1(x, y), Digit2(y, z), Digit3(z)] + Core(rest)
  {
    hide Digit0, Digit1, Digit2, Digit3;
    assert ([x, y, z] + rest)[3..] == rest;
  }

  lemma UrlRedone(s: string)
    requires UrlDigits(s)
    ensures
      var t := Replace(Replace(s, '-', '+'), '_', '/');
      Coded(t) && (forall i :: 0 <= i < |s| ==> t[i] == Standard(s[i])) && Replace(Replace(t, '+', '-'), '/', '_') == s
  {
  }

  lemma UrlImage(s: string)
    requires Coded(s) && |s| % 4 != 1 && ZeroTail(s)
    ensures Canonical(Replace(Replace(s, '+', '-'), '/', '_'))
  {
    var t := Replace(Replace(s, '+', '-'), '/', '_');
    forall i | 0 <= i < |s|
      ensures Standard(t[i]) == s[i] && t[i] != '+' && t[i] != '/' && Value(s[i]).Some?
    {
    }
  }

  /** The texts that the encoder produces are exactly the canonical ones. */
  lemma EncodingsAreCanonical(s: string)
    ensures (exists b :: Encode(b) == s) <==> Canonical(s)
  {
    if b :| Encode(b) == s {
      EncodeIsCore(b);
      CoreCoded(b);
      CoreUndone(b);
      CoreZeroTail(b);
      hide Core, Encode;
      UrlImage(Core(b));
    }
    if Canonical(s) {
      var t := Replace(Replace(s, '-', '+'), '_', '/');
      UrlRedone(s);
      hide Core, Encode, Replace, Uncore;
      UncoreUndone(t);
      EncodeIsCore(Uncore(t));
      assert Encode(Uncore(t)) == s;
    }
  }

  /** Test vectors of section 10 of RFC 4648 without their padding, and the two digits that differ from base64. */
  lemma Vectors()
    ensures Encode([]) == "" && Encode([102]) == "Zg" && Encode([102, 111]) == "Zm8" && Encode([102, 111, 111]) == "Zm9v"
    ensures Encode([251, 255]) == "-_8"
  {
    ShortVectors();
    LongVectors();
    hide Encode;
  }

  lemma ShortVectors()
    ensures Encode([]) == "" && Encode([102]) == "Zg"
  {
    EncodeIsCore([]);
    EncodeIsCore([102]);
    hide Encode;
  }

  lemma LongVectors()
    ensures Encode([102, 111]) == "Zm8" && Encode([251, 255]) == "-_8" && Encode([102, 111, 111]) == "Zm9v"
  {
    EncodeIsCore([102, 111]);
    EncodeIsCore([251, 255]);
    EncodeIsCore([102, 111, 111]);
    hide Encode;
    assert Core([102, 111]) == "Zm8" && Core([251, 255]) == "+/8";
    assert Core([102, 111, 111]) == "Zm9v" by { assert [102, 111, 111][3..] == []; }
    hide Core;
  }

  lemma {:induction false} BlanksDropped(a: string, c: char, b: string)
    requires c in " \t\n\r" || c as int == 12
    ensures WithoutBlanks(a + [c] + b) == WithoutBlanks(a + b)
  {
    var s := a + [c] + b;
    if a == "" {
      assert s[1..] == b && a + b == b;
    } else {
      BlanksDropped(a[1..], c, b);
      assert s[1..] == a[1..] + [c] + b && (a + b)[1..] == a[1..] + b;
    }
  }

  /** `atob` does not see spaces, tabs, line ends and form feeds, wherever they are. */
  lemma BlanksIgnored(a: string, c: char, b: string)
    requires c in " \t\n\r" || c as int == 12
    ensures Atob(a + [c] + b) == Atob(a + b)
  {
    BlanksDropped(a, c, b);
    hide WithoutBlanks;
  }
}
