/** Well-formed UTF-8 (section 4 of RFC 3629) and its character boundaries. */
module Utf8 {
  type byte = b: int | 0 <= b < 256

  predicate IsContinuation(b: byte) {
    0x80 <= b < 0xC0
  }

  /** The length of the well-formed character at the front of `s`, or 0. */
  function CharLength(s: seq<byte>): (n: nat)
    ensures n <= |s| && n <= 4
    ensures n > 0 ==> !IsContinuation(s[0]) && forall i | 0 < i < n :: IsContinuation(s[i])
    ensures n > 0 ==> (s[0] < 0x80 <==> n == 1)
  {
    if s == [] then 0
    else if s[0] < 0x80 then 1
    else if 0xC2 <= s[0] <= 0xDF then
      if |s| >= 2 && IsContinuation(s[1]) then 2 else 0
    else if 0xE0 <= s[0] <= 0xEF then
      if && |s| >= 3 && IsContinuation(s[1]) && IsContinuation(s[2])
         && (s[0] == 0xE0 ==> s[1] >= 0xA0) && (s[0] == 0xED ==> s[1] <= 0x9F) then 3 else 0
    else if 0xF0 <= s[0] <= 0xF4 then
      if && |s| >= 4 && IsContinuation(s[1]) && IsContinuation(s[2]) && IsContinuation(s[3])
         && (s[0] == 0xF0 ==> s[1] >= 0x90) && (s[0] == 0xF4 ==> s[1] <= 0x8F) then 4 else 0
    else 0
  }

  predicate ValidUtf8(s: seq<byte>) {
    s == [] || (CharLength(s) > 0 && ValidUtf8(s[CharLength(s)..]))
  }

  /** Rust's `is_char_boundary`. */
  predicate IsBoundary(s: seq<byte>, i: nat) {
    i == 0 || i == |s| || (i < |s| && !IsContinuation(s[i]))
  }

  lemma CharLengthOfPrefix(s: seq<byte>, i: nat)
    requires CharLength(s) > 0 && CharLength(s) <= i <= |s|
    ensures CharLength(s[..i]) == CharLength(s)
  {
  }

  /** Cutting valid text at a character boundary leaves valid text on both sides. */
  lemma {:induction false} BoundarySplits(s: seq<byte>, i: nat)
    requires ValidUtf8(s) && i <= |s| && IsBoundary(s, i)
    ensures ValidUtf8(s[..i]) && ValidUtf8(s[i..])
    decreases |s|
  {
    if i == 0 {
      assert s[0..] == s;
    } else if i == |s| {
      assert s[..i] == s && s[i..] == [];
    } else {
      var n := CharLength(s);
      assert n <= i;
      BoundarySplits(s[n..], i - n);
      CharLengthOfPrefix(s, i);
      assert s[n..][..i - n] == s[..i][n..];
      assert s[n..][i - n..] == s[i..];
    }
  }

  /** In valid text the position after an ASCII byte is a character boundary. */
  lemma {:induction false} BoundaryAfterAscii(s: seq<byte>, i: nat)
    requires ValidUtf8(s) && i < |s| && s[i] < 0x80
    ensures IsBoundary(s, i + 1)
    decreases |s|
  {
    var n := CharLength(s);
    if i < n {
      assert i == 0 && n == 1;
      assert |s| > 1 ==> s[1..][0] == s[1];
    } else {
      BoundaryAfterAscii(s[n..], i - n);
    }
  }

  /** The code points that a character can have: surrogates are none (section 3 of RFC 3629). */
  predicate IsScalar(c: nat) {
    c < 0xD800 || 0xE000 <= c < 0x11_0000
  }

  /** The bytes of a character: one to four, by its size. */
  function Encode(c: nat): (s: seq<byte>)
    requires IsScalar(c)
  {
    if c < 0x80 then [c]
    else if c < 0x800 then [0xC0 + c / 0x40, 0x80 + c % 0x40]
    else if c < 0x1_0000 then [0xE0 + c / 0x40 / 0x40, 0x80 + c / 0x40 % 0x40, 0x80 + c % 0x40]
    else [0xF0 + c / 0x40 / 0x40 / 0x40, 0x80 + c / 0x40 / 0x40 % 0x40, 0x80 + c / 0x40 % 0x40, 0x80 + c % 0x40]
  }

  lemma SixBits(high: nat, low: nat)
    requires low < 0x40
    ensures (high * 0x40 + low) / 0x40 == high && (high * 0x40 + low) % 0x40 == low
  {
  }

  lemma TwoBytes(a: int, b: int)
    requires 0xC2 <= a <= 0xDF && 0x80 <= b < 0xC0
    ensures var c: int := (a - 0xC0) * 0x40 + (b - 0x80); c >= 0 && IsScalar(c) && Encode(c) == [a, b]
  {
    SixBits(a - 0xC0, b - 0x80);
  }

  lemma ThreeBytes(a: int, b: int, d: int)
    requires 0xE0 <= a <= 0xEF && 0x80 <= b < 0xC0 && 0x80 <= d < 0xC0
    requires (a == 0xE0 ==> b >= 0xA0) && (a == 0xED ==> b <= 0x9F)
    ensures var c: int := ((a - 0xE0) * 0x40 + (b - 0x80)) * 0x40 + (d - 0x80);
            c >= 0 && IsScalar(c) && Encode(c) == [a, b, d]
  {
    var top := (a - 0xE0) * 0x40 + (b - 0x80);
    SixBits(a - 0xE0, b - 0x80);
    SixBits(top, d - 0x80);
  }

  lemma FourBytes(a: int, b: int, d: int, e: int)
    requires 0xF0 <= a <= 0xF4 && 0x80 <= b < 0xC0 && 0x80 <= d < 0xC0 && 0x80 <= e < 0xC0
    requires (a == 0xF0 ==> b >= 0x90) && (a == 0xF4 ==> b <= 0x8F)
    ensures var c: int := (((a - 0xF0) * 0x40 + (b - 0x80)) * 0x40 + (d - 0x80)) * 0x40 + (e - 0x80);
            c >= 0 && IsScalar(c) && Encode(c) == [a, b, d, e]
  {
    var top := (a - 0xF0) * 0x40 + (b - 0x80);
    var middle := top * 0x40 + (d - 0x80);
    SixBits(a - 0xF0, b - 0x80);
    SixBits(top, d - 0x80);
    SixBits(middle, e - 0x80);
  }

  /** The front of `s` spells the character `c`. */
  predicate BeginsWith(s: seq<byte>, c: nat) {
    IsScalar(c) && Encode(c) <= s
  }

  lemma LengthIsOfEncoding(s: seq<byte>, c: nat)
    requires BeginsWith(s, c)
    ensures CharLength(s) == |Encode(c)|
  {
  }

  lemma FrontIsEncoded(s: seq<byte>)
    requires CharLength(s) > 0
    ensures exists c: nat :: BeginsWith(s, c)
  {
    var n := CharLength(s);
    if n == 1 {
      assert BeginsWith(s, s[0]);
    } else if n == 2 {
      TwoBytes(s[0], s[1]);
      assert BeginsWith(s, (s[0] as int - 0xC0) * 0x40 + (s[1] as int - 0x80));
    } else if n == 3 {
      ThreeBytes(s[0], s[1], s[2]);
      assert BeginsWith(s, ((s[0] as int - 0xE0) * 0x40 + (s[1] as int - 0x80)) * 0x40 + (s[2] as int - 0x80));
    } else {
      FourBytes(s[0], s[1], s[2], s[3]);
      assert BeginsWith(s, (((s[0] as int - 0xF0) * 0x40 + (s[1] as int - 0x80)) * 0x40 + (s[2] as int - 0x80)) * 0x40
                           + (s[3] as int - 0x80));
    }
  }

  /** A well-formed front is exactly one that spells a character, and is as long as its spelling. */
  lemma WellFormedExactly(s: seq<byte>)
    ensures CharLength(s) > 0 <==> exists c: nat :: BeginsWith(s, c)
    ensures forall c: nat | BeginsWith(s, c) :: CharLength(s) == |Encode(c)|
  {
    forall c: nat | BeginsWith(s, c) ensures CharLength(s) == |Encode(c)| {
      LengthIsOfEncoding(s, c);
    }
    if CharLength(s) > 0 {
      FrontIsEncoded(s);
    }
  }
}
