// UTF-8 as section 4 of RFC 3629 defines it, and the body truncation of
// src/mime_parse.rs that must not split a character.
module Utf8 {
  import opened Wrappers

  // A byte that only continues a character.
  predicate IsTail(b: Byte) {
    0x80 <= b <= 0xBF
  }

  // The second byte of a three or four byte character; the narrowed ranges shut
  // out overlong forms, surrogates and code points above U+10FFFF.
  predicate SecondOk(lead: Byte, b: Byte) {
    IsTail(b)
    && (lead == 0xE0 ==> 0xA0 <= b)
    && (lead == 0xED ==> b <= 0x9F)
    && (lead == 0xF0 ==> 0x90 <= b)
    && (lead == 0xF4 ==> b <= 0x8F)
  }

  // Length of the character s starts with, or 0 when it starts with none.
  function CharLen(s: seq<Byte>): (n: nat)
    ensures n <= |s| && n <= 4
  {
    if |s| == 0 then 0
    else if s[0] <= 0x7F then 1
    else if 0xC2 <= s[0] <= 0xDF then
      if |s| >= 2 && IsTail(s[1]) then 2 else 0
    else if 0xE0 <= s[0] <= 0xEF then
      if |s| >= 3 && SecondOk(s[0], s[1]) && IsTail(s[2]) then 3 else 0
    else if 0xF0 <= s[0] <= 0xF4 then
      if |s| >= 4 && SecondOk(s[0], s[1]) && IsTail(s[2]) && IsTail(s[3]) then 4 else 0
    else 0
  }

  // What std::str::from_utf8 accepts; every Rust str satisfies it.
  predicate ValidUtf8(s: seq<Byte>)
    decreases |s|
  {
    s == [] || (CharLen(s) > 0 && ValidUtf8(s[CharLen(s)..]))
  }

  // --- Characters and their bytes ---

  // The table of section 3 of RFC 3629.
  function Utf8Of(c: char): (s: seq<Byte>)
    ensures 1 <= |s| <= 4
  {
    var n := c as int;
    var m := n / 64;
    if n < 0x80 then [n]
    else if n < 0x800 then [0xC0 + m, 0x80 + n % 64]
    else if n < 0x10000 then [0xE0 + m / 64, 0x80 + m % 64, 0x80 + n % 64]
    else [0xF0 + m / 64 / 64, 0x80 + m / 64 % 64, 0x80 + m % 64, 0x80 + n % 64]
  }

  function TextBytes(s: string): seq<Byte> {
    if s == "" then [] else Utf8Of(s[0]) + TextBytes(s[1..])
  }

  // What makes s begin with a character, byte by byte.
  lemma CharLenIs(s: seq<Byte>, n: nat)
    requires 1 <= n <= |s|
    requires n == 1 ==> s[0] <= 0x7F
    requires n == 2 ==> 0xC2 <= s[0] <= 0xDF && IsTail(s[1])
    requires n == 3 ==> 0xE0 <= s[0] <= 0xEF && SecondOk(s[0], s[1]) && IsTail(s[2])
    requires n == 4 ==> 0xF0 <= s[0] <= 0xF4 && SecondOk(s[0], s[1]) && IsTail(s[2]) && IsTail(s[3])
    requires n <= 4
    ensures CharLen(s) == n
  {
  }

  lemma CharLenEncoded(c: char, rest: seq<Byte>)
    ensures CharLen(Utf8Of(c) + rest) == |Utf8Of(c)|
  {
    var s := Utf8Of(c) + rest;
    assert forall i :: 0 <= i < |Utf8Of(c)| ==> s[i] == Utf8Of(c)[i];
    CharLenIs(s, |Utf8Of(c)|);
  }

  // The six low bits and the rest of a number.
  lemma LowBits(high: nat, low: nat)
    requires low < 0x40
    ensures (high * 0x40 + low) / 0x40 == high && (high * 0x40 + low) % 0x40 == low
  {
  }

  lemma DecodedTwo(a: Byte, b: Byte) returns (c: char)
    requires 0xC2 <= a <= 0xDF && IsTail(b)
    ensures Utf8Of(c) == [a, b]
  {
    LowBits(a as int - 0xC0, b as int - 0x80);
    c := ((a as int - 0xC0) * 0x40 + (b as int - 0x80)) as char;
  }

  lemma DecodedThree(a: Byte, b: Byte, d: Byte) returns (c: char)
    requires 0xE0 <= a <= 0xEF && SecondOk(a, b) && IsTail(d)
    ensures Utf8Of(c) == [a, b, d]
  {
    var high := (a as int - 0xE0) * 0x40 + (b as int - 0x80);
    LowBits(a as int - 0xE0, b as int - 0x80);
    LowBits(high, d as int - 0x80);
    c := (high * 0x40 + (d as int - 0x80)) as char;
  }

  lemma DecodedFour(a: Byte, b: Byte, d: Byte, e: Byte) returns (c: char)
    requires 0xF0 <= a <= 0xF4 && SecondOk(a, b) && IsTail(d) && IsTail(e)
    ensures Utf8Of(c) == [a, b, d, e]
  {
    var high := (a as int - 0xF0) * 0x40 + (b as int - 0x80);
    var higher := high * 0x40 + (d as int - 0x80);
    LowBits(a as int - 0xF0, b as int - 0x80);
    LowBits(high, d as int - 0x80);
    LowBits(higher, e as int - 0x80);
    c := (higher * 0x40 + (e as int - 0x80)) as char;
  }

  lemma CharDecoded(s: seq<Byte>) returns (c: char)
    requires CharLen(s) > 0
    ensures s[..CharLen(s)] == Utf8Of(c)
  {
    if CharLen(s) == 1 {
      c := s[0] as char;
    } else if CharLen(s) == 2 {
      c := DecodedTwo(s[0], s[1]);
    } else if CharLen(s) == 3 {
      c := DecodedThree(s[0], s[1], s[2]);
    } else {
      c := DecodedFour(s[0], s[1], s[2], s[3]);
    }
  }

  // The bytes of any text are valid ...
  lemma {:induction false} EncodedIsValid(s: string)
    ensures ValidUtf8(TextBytes(s))
  {
    if s != "" {
      var rest := TextBytes(s[1..]);
      EncodedIsValid(s[1..]);
      CharLenEncoded(s[0], rest);
      assert (Utf8Of(s[0]) + rest)[|Utf8Of(s[0])|..] == rest;
    }
  }

  lemma TextBytesCons(c: char, rest: string)
    ensures TextBytes([c] + rest) == Utf8Of(c) + TextBytes(rest)
  {
    assert ([c] + rest)[1..] == rest;
  }

  // ... and nothing else is.
  lemma {:induction false} ValidIsEncoded(b: seq<Byte>) returns (s: string)
    requires ValidUtf8(b)
    ensures TextBytes(s) == b
    decreases |b|
  {
    if b == [] {
      s := "";
    } else {
      var n := CharLen(b);
      var c := CharDecoded(b);
      var rest := ValidIsEncoded(b[n..]);
      s := [c] + rest;
      TextBytesCons(c, rest);
      assert b == b[..n] + b[n..];
    }
  }

  // --- Where a text may be cut ---

  // str::is_char_boundary: it looks at one byte only.
  predicate IsCharBoundary(s: seq<Byte>, i: nat)
    requires i <= |s|
  {
    i == 0 || i == |s| || !IsTail(s[i])
  }

  lemma CharShape(s: seq<Byte>)
    requires CharLen(s) > 0
    ensures !IsTail(s[0])
    ensures forall i :: 0 < i < CharLen(s) ==> IsTail(s[i])
  {
  }

  lemma CharLenPrefix(s: seq<Byte>, i: nat)
    requires i <= |s| && CharLen(s) > 0
    ensures CharLen(s[..i]) == if i < CharLen(s) then 0 else CharLen(s)
  {
  }

  // The one-byte test is right: cutting a valid string at i leaves two valid
  // strings exactly at the boundaries the test finds.
  lemma {:induction false} BoundaryIsCut(s: seq<Byte>, i: nat)
    requires ValidUtf8(s) && i <= |s|
    ensures IsCharBoundary(s, i) <==> ValidUtf8(s[..i])
    ensures IsCharBoundary(s, i) ==> ValidUtf8(s[i..])
    decreases |s|
  {
    if s == [] || i == 0 {
      assert s[i..] == s;
    } else {
      var n := CharLen(s);
      CharShape(s);
      CharLenPrefix(s, i);
      if n <= i {
        BoundaryIsCut(s[n..], i - n);
        assert s[..i][n..] == s[n..][..i - n];
        assert s[n..][i - n..] == s[i..];
      }
    }
  }

  lemma CharLenConcat(a: seq<Byte>, b: seq<Byte>)
    requires CharLen(a) > 0
    ensures CharLen(a + b) == CharLen(a)
  {
  }

  lemma {:induction false} ValidConcat(a: seq<Byte>, b: seq<Byte>)
    requires ValidUtf8(a) && ValidUtf8(b)
    ensures ValidUtf8(a + b)
    decreases |a|
  {
    if a == [] {
      assert a + b == b;
    } else {
      var n := CharLen(a);
      CharLenConcat(a, b);
      assert (a + b)[n..] == a[n..] + b;
      ValidConcat(a[n..], b);
    }
  }

  // Text glued before valid text is valid exactly when it was valid alone: a
  // broken tail is never repaired by what follows it.
  lemma GlueValid(a: seq<Byte>, b: seq<Byte>)
    requires ValidUtf8(b)
    ensures ValidUtf8(a + b) <==> ValidUtf8(a)
  {
    if ValidUtf8(a) {
      ValidConcat(a, b);
    }
    if ValidUtf8(a + b) {
      if b != [] {
        CharShape(b);
      }
      BoundaryIsCut(a + b, |a|);
      assert (a + b)[..|a|] == a;
    }
  }

  // No position is further than three bytes after a boundary.
  lemma {:induction false} BoundaryNear(s: seq<Byte>, i: nat) returns (k: nat)
    requires ValidUtf8(s) && i <= |s|
    ensures k <= i <= k + 3 && IsCharBoundary(s, k)
    decreases |s|
  {
    if i == 0 || s == [] {
      k := i;
    } else {
      var n := CharLen(s);
      CharShape(s);
      if i < n {
        k := 0;
      } else {
        var k' := BoundaryNear(s[n..], i - n);
        k := n + k';
        if 0 < k' < |s| - n {
          assert s[n..][k'] == s[k];
        } else if k' == 0 && n < |s| {
          CharShape(s[n..]);
        }
      }
    }
  }

  // truncate_utf8: the longest valid prefix of at most max bytes.
  method TruncateUtf8(s: seq<Byte>, max: nat) returns (body: seq<Byte>, truncated: bool)
    requires ValidUtf8(s)
    ensures body <= s && |body| <= max && ValidUtf8(body)
    ensures forall p: seq<Byte> :: p <= s && |p| <= max && ValidUtf8(p) ==> |p| <= |body|
    ensures truncated <==> body != s
    ensures truncated ==> max <= |body| + 3
  {
    if |s| <= max {
      return s, false;
    }
    var end := max;
    ghost var near := BoundaryNear(s, max);
    while end > 0 && !IsCharBoundary(s, end)
      invariant near <= end <= max
      invariant forall k: nat :: end < k <= max ==> !IsCharBoundary(s, k)
    {
      end := end - 1;
    }
    BoundaryIsCut(s, end);
    body, truncated := s[..end], true;
    forall p: seq<Byte> | p <= s && |p| <= max && ValidUtf8(p)
      ensures |p| <= |body|
    {
      assert p == s[..|p|];
      BoundaryIsCut(s, |p|);
    }
  }
}
