/** UTF-8 as section 4 of RFC 3629 defines it. */
module Utf8 {
  import opened Json

  predicate IsTail(b: Byte) { 0x80 <= b <= 0xBF }

  /** The number of bytes of the character that starts `s`, or 0 if none does. */
  function Head(s: Bytes): (n: nat)
    ensures n <= |s| && n <= 4
  {
    if s == [] then 0
    else if s[0] <= 0x7F then 1
    else if |s| >= 2 && 0xC2 <= s[0] <= 0xDF && IsTail(s[1]) then 2
    else if |s| >= 3 && IsTail(s[1]) && IsTail(s[2]) && 0xE0 <= s[0] <= 0xEF
      && (s[0] == 0xE0 ==> s[1] >= 0xA0) && (s[0] == 0xED ==> s[1] <= 0x9F) then 3
    else if |s| >= 4 && IsTail(s[1]) && IsTail(s[2]) && IsTail(s[3]) && 0xF0 <= s[0] <= 0xF4
      && (s[0] == 0xF0 ==> s[1] >= 0x90) && (s[0] == 0xF4 ==> s[1] <= 0x8F) then 4
    else 0
  }

  predicate Valid(s: Bytes) {
    s == [] || (Head(s) > 0 && Valid(s[Head(s)..]))
  }

  /** `str::is_char_boundary`. */
  predicate IsBoundary(s: Bytes, i: nat)
    requires i <= |s|
  {
    i == 0 || i == |s| || !IsTail(s[i])
  }

  /** The test that looks at one byte finds exactly the places where valid text can be cut
      into two valid texts. */
  lemma {:induction false} BoundaryCuts(s: Bytes, i: nat)
    requires Valid(s) && i <= |s|
    ensures IsBoundary(s, i) <==> Valid(s[..i]) && Valid(s[i..])
    ensures IsBoundary(s, i) <==> Valid(s[..i])
    decreases |s|
  {
    var n := Head(s);
    if i == 0 || s == [] {
      assert s[..i] == [] && s[i..] == s;
    } else if i < n {
      assert IsTail(s[i]) && Head(s[..i]) == 0;
    } else {
      BoundaryCuts(s[n..], i - n);
      assert s[..i][n..] == s[n..][..i - n] && s[i..] == s[n..][i - n..];
      assert Head(s[..i]) == n;
      assert i > n && i < |s| ==> s[i] == s[n..][i - n];
    }
  }

  /** The last boundary at or before `i`. */
  function BoundaryBefore(s: Bytes, i: nat): (end: nat)
    requires i <= |s|
    ensures end <= i && IsBoundary(s, end)
    ensures forall j :: end < j <= i ==> !IsBoundary(s, j)
  {
    if IsBoundary(s, i) then i else BoundaryBefore(s, i - 1)
  }

  lemma {:induction false} BoundaryNear(s: Bytes, i: nat)
    requires Valid(s) && i <= |s|
    ensures i <= BoundaryBefore(s, i) + 3
    decreases |s|
  {
    var n := Head(s);
    if s != [] && i >= n {
      BoundaryNear(s[n..], i - n);
      var j := BoundaryBefore(s[n..], i - n);
      BoundaryCuts(s, n);
      assert IsBoundary(s, n + j);
    }
  }

  lemma CutBefore(s: Bytes, i: nat)
    requires Valid(s) && i <= |s| && IsBoundary(s, i)
    ensures Valid(s[..i])
  {
    BoundaryCuts(s, i);
  }

  lemma CutAfter(s: Bytes, i: nat)
    requires Valid(s) && i <= |s| && IsBoundary(s, i)
    ensures Valid(s[i..])
  {
    BoundaryCuts(s, i);
  }

  lemma CutBetween(s: Bytes, i: nat, j: nat)
    requires Valid(s) && i <= j <= |s| && IsBoundary(s, i) && IsBoundary(s, j)
    ensures Valid(s[i..j])
  {
    CutBefore(s, j);
    assert IsBoundary(s[..j], i);
    CutAfter(s[..j], i);
  }

  // ---------------------------------------------------------------------------------
  // Characters

  /** A character number that UTF-8 may encode. */
  predicate IsScalar(c: int) { 0 <= c <= 0x10FFFF && !(0xD800 <= c <= 0xDFFF) }

  function Encode(c: int): Bytes
    requires IsScalar(c)
  {
    if c < 0x80 then [c]
    else if c < 0x800 then [0xC0 + c / 64, 0x80 + c % 64]
    else if c < 0x1_0000 then [0xE0 + c / 4096, 0x80 + c / 64 % 64, 0x80 + c % 64]
    else [0xF0 + c / 262144, 0x80 + c / 4096 % 64, 0x80 + c / 64 % 64, 0x80 + c % 64]
  }

  function EncodeAll(chars: seq<int>): Bytes
    requires forall i :: 0 <= i < |chars| ==> IsScalar(chars[i])
  {
    if chars == [] then [] else Encode(chars[0]) + EncodeAll(chars[1..])
  }

  /** Six bits. */
  function Tail(b: Byte): int { b as int - 0x80 }

  /** The character that starts valid text. */
  function First(s: Bytes): int
    requires Head(s) > 0
  {
    match Head(s)
    case 1 => s[0] as int
    case 2 => (s[0] as int - 0xC0) * 64 + Tail(s[1])
    case 3 => (s[0] as int - 0xE0) * 4096 + Tail(s[1]) * 64 + Tail(s[2])
    case _ => (s[0] as int - 0xF0) * 262144 + Tail(s[1]) * 4096 + Tail(s[2]) * 64 + Tail(s[3])
  }

  lemma Digits(a: int, b: int, c: int, d: int)
    requires 0 <= b < 64 && 0 <= c < 64 && 0 <= d < 64
    ensures var n := a * 262144 + b * 4096 + c * 64 + d;
      n / 262144 == a && n / 4096 == a * 64 + b && n / 64 == a * 4096 + b * 64 + c
      && n / 4096 % 64 == b && n / 64 % 64 == c && n % 64 == d
  {
  }

  lemma FirstOfTwo(s: Bytes)
    requires Head(s) == 2
    ensures IsScalar(First(s)) && Encode(First(s)) == s[..2]
  {
    Digits(0, 0, s[0] as int - 0xC0, Tail(s[1]));
  }

  lemma FirstOfThree(s: Bytes)
    requires Head(s) == 3
    ensures IsScalar(First(s)) && Encode(First(s)) == s[..3]
  {
    Digits(0, s[0] as int - 0xE0, Tail(s[1]), Tail(s[2]));
  }

  lemma FirstOfFour(s: Bytes)
    requires Head(s) == 4
    ensures IsScalar(First(s)) && Encode(First(s)) == s[..4]
  {
    Digits(s[0] as int - 0xF0, Tail(s[1]), Tail(s[2]), Tail(s[3]));
  }

  lemma FirstIsEncoded(s: Bytes)
    requires Head(s) > 0
    ensures IsScalar(First(s)) && Encode(First(s)) == s[..Head(s)]
  {
    match Head(s)
    case 1 =>
    case 2 => FirstOfTwo(s);
    case 3 => FirstOfThree(s);
    case _ => FirstOfFour(s);
  }

  lemma EncodedIsFirst(c: int, rest: Bytes)
    requires IsScalar(c)
    ensures Head(Encode(c) + rest) == |Encode(c)| > 0
  {
  }

  /** Valid bytes are the encodings of characters, one after another, and nothing else. */
  lemma {:induction false} ValidMeans(s: Bytes) returns (chars: seq<int>)
    requires Valid(s)
    ensures (forall i :: 0 <= i < |chars| ==> IsScalar(chars[i])) && EncodeAll(chars) == s
    decreases |s|
  {
    if s == [] {
      chars := [];
    } else {
      FirstIsEncoded(s);
      var rest := ValidMeans(s[Head(s)..]);
      chars := [First(s)] + rest;
      assert chars[1..] == rest && s == s[..Head(s)] + s[Head(s)..];
    }
  }

  lemma {:induction false} EncodedIsValid(chars: seq<int>)
    requires forall i :: 0 <= i < |chars| ==> IsScalar(chars[i])
    ensures Valid(EncodeAll(chars))
  {
    if chars != [] {
      EncodedIsValid(chars[1..]);
      EncodedIsFirst(chars[0], EncodeAll(chars[1..]));
      assert EncodeAll(chars)[|Encode(chars[0])|..] == EncodeAll(chars[1..]);
    }
  }
}
