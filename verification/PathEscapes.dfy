/** Percent escapes and Windows spellings in path mentions (crates/acp_thread/src/mention.rs). */
module PathEscapes {
  import opened Wrappers
  import opened Utf8

  const PERCENT: byte := 0x25
  const SLASH: byte := 0x2F
  const BACKSLASH: byte := 0x5C

  predicate IsSeparator(b: byte) {
    b == SLASH || b == BACKSLASH
  }

  function HexDigit(b: byte): Option<nat> {
    if 0x30 <= b <= 0x39 then Some(b - 0x30)
    else if 0x61 <= b <= 0x66 then Some(b - 0x61 + 10)
    else if 0x41 <= b <= 0x46 then Some(b - 0x41 + 10)
    else None
  }

  /** The byte that the escape at `i` stands for, unless it is no escape or a separator's. */
  function EscapeAt(s: seq<byte>, i: nat): (r: Option<byte>)
    ensures r.Some? ==> i + 2 < |s| && s[i] == PERCENT && !IsSeparator(r.value)
  {
    if i + 2 < |s| && s[i] == PERCENT && HexDigit(s[i + 1]).Some? && HexDigit(s[i + 2]).Some? then
      var high, low := HexDigit(s[i + 1]).value, HexDigit(s[i + 2]).value;
      assert high < 16 && low < 16;
      var b: byte := high * 16 + low;
      if IsSeparator(b) then None else Some(b)
    else None
  }

  function Decode(s: seq<byte>): seq<byte> {
    if s == [] then []
    else if EscapeAt(s, 0).Some? then [EscapeAt(s, 0).value] + Decode(s[3..])
    else [s[0]] + Decode(s[1..])
  }

  datatype Cow = Borrowed | Owned(text: seq<byte>)

  /** `decode_path_escapes`: an index loop pushing into a buffer. */
  method DecodePathEscapes(input: seq<byte>) returns (result: Cow)
    ensures result == if Decode(input) != input && ValidUtf8(Decode(input)) then Owned(Decode(input)) else Borrowed
  {
    if PERCENT !in input {
      NothingToDecode(input);
      return Borrowed;
    }
    var decoded := [];
    var index := 0;
    while index < |input|
      invariant index <= |input|
      invariant decoded + Decode(input[index..]) == Decode(input)
    {
      DecodeNext(decoded, input, index);
      var escape := EscapeAt(input, index);
      if escape.Some? {
        decoded := decoded + [escape.value];
        index := index + 3;
      } else {
        decoded := decoded + [input[index]];
        index := index + 1;
      }
    }
    assert decoded + [] == decoded;
    if decoded == input {
      return Borrowed;
    }
    var valid := IsValid(decoded);
    if valid {
      return Owned(decoded);
    }
    return Borrowed;
  }

  lemma DecodeNext(decoded: seq<byte>, input: seq<byte>, index: nat)
    requires index < |input|
    ensures var escape := EscapeAt(input, index);
            decoded + Decode(input[index..]) ==
            if escape.Some? then decoded + [escape.value] + Decode(input[index + 3..])
            else decoded + [input[index]] + Decode(input[index + 1..])
  {
    var rest := input[index..];
    assert EscapeAt(rest, 0) == EscapeAt(input, index);
    if EscapeAt(input, index).Some? {
      assert rest[3..] == input[index + 3..];
      Regroup(decoded, EscapeAt(input, index).value, Decode(rest[3..]));
    } else {
      assert rest[1..] == input[index + 1..];
      Regroup(decoded, rest[0], Decode(rest[1..]));
    }
  }

  lemma Regroup(before: seq<byte>, b: byte, after: seq<byte>)
    ensures before + ([b] + after) == before + [b] + after
  {
  }

  method IsValid(s: seq<byte>) returns (valid: bool)
    ensures valid == ValidUtf8(s)
  {
    var i := 0;
    while i < |s|
      invariant i <= |s|
      invariant ValidUtf8(s) == ValidUtf8(s[i..])
    {
      var n := CharLength(s[i..]);
      if n == 0 {
        return false;
      }
      assert s[i..][n..] == s[i + n..];
      i := i + n;
    }
    return true;
  }

  lemma {:induction false} NothingToDecode(s: seq<byte>)
    requires forall i | 0 <= i < |s| :: EscapeAt(s, i).None?
    ensures Decode(s) == s
  {
    if s != [] {
      forall i | 0 <= i < |s[1..]| ensures EscapeAt(s[1..], i).None? {
        assert EscapeAt(s[1..], i) == EscapeAt(s, i + 1);
      }
      NothingToDecode(s[1..]);
    }
  }

  lemma DecodeShrinks(s: seq<byte>)
    ensures |Decode(s)| <= |s|
  {
  }

  lemma {:induction false} EscapeShortens(s: seq<byte>, i: nat)
    requires EscapeAt(s, i).Some?
    ensures |Decode(s)| < |s|
    decreases |s|
  {
    if EscapeAt(s, 0).Some? {
      DecodeShrinks(s[3..]);
    } else {
      assert EscapeAt(s[1..], i - 1) == EscapeAt(s, i);
      EscapeShortens(s[1..], i - 1);
    }
  }

  /** The result is owned exactly when some escape was decoded and the bytes are text. */
  lemma OwnedExactlyWhenDecoded(s: seq<byte>)
    ensures Decode(s) != s <==> exists i: nat :: EscapeAt(s, i).Some?
  {
    if i: nat :| EscapeAt(s, i).Some? {
      EscapeShortens(s, i);
    } else {
      NothingToDecode(s);
    }
  }

  // ---------------------------------------------------------------------------
  // Decoding and path structure
  // ---------------------------------------------------------------------------

  /** The separators of a path, in order. */
  function Separators(s: seq<byte>): seq<byte> {
    if s == [] then []
    else (if IsSeparator(s[0]) then [s[0]] else []) + Separators(s[1..])
  }

  function FirstSeparator(s: seq<byte>): (i: nat)
    ensures i <= |s|
    ensures i < |s| ==> IsSeparator(s[i])
    ensures forall j | 0 <= j < i :: !IsSeparator(s[j])
  {
    if s == [] || IsSeparator(s[0]) then 0 else 1 + FirstSeparator(s[1..])
  }

  /** The names between separators. */
  function Split(s: seq<byte>): seq<seq<byte>>
    decreases |s|
  {
    var i := FirstSeparator(s);
    if i == |s| then [s] else [s[..i]] + Split(s[i + 1..])
  }

  function DecodeAll(names: seq<seq<byte>>): seq<seq<byte>> {
    if names == [] then [] else [Decode(names[0])] + DecodeAll(names[1..])
  }

  /** No escape reaches across a separator. */
  lemma {:induction false} DecodeAcrossSeparator(a: seq<byte>, sep: byte, b: seq<byte>)
    requires IsSeparator(sep)
    ensures Decode(a + [sep] + b) == Decode(a) + [sep] + Decode(b)
    decreases |a|
  {
    var s := a + [sep] + b;
    if a == [] {
      assert s == [sep] + b && s[1..] == b;
    } else if EscapeAt(a, 0).Some? {
      assert EscapeAt(s, 0) == EscapeAt(a, 0);
      assert s[3..] == a[3..] + [sep] + b;
      DecodeAcrossSeparator(a[3..], sep, b);
    } else {
      assert EscapeAt(s, 0).None? by {
        assert s[|a|] == sep && HexDigit(sep).None?;
      }
      assert s[1..] == a[1..] + [sep] + b;
      DecodeAcrossSeparator(a[1..], sep, b);
    }
  }

  lemma DecodeAddsNoSeparator(s: seq<byte>)
    requires forall i | 0 <= i < |s| :: !IsSeparator(s[i])
    ensures forall i | 0 <= i < |Decode(s)| :: !IsSeparator(Decode(s)[i])
  {
  }

  lemma {:induction false} FirstSeparatorAfter(a: seq<byte>, sep: byte, b: seq<byte>)
    requires IsSeparator(sep) && forall i | 0 <= i < |a| :: !IsSeparator(a[i])
    ensures FirstSeparator(a + [sep] + b) == |a|
    ensures FirstSeparator(a) == |a|
  {
    if a != [] {
      FirstSeparatorAfter(a[1..], sep, b);
      assert (a + [sep] + b)[1..] == a[1..] + [sep] + b;
    }
  }

  /** Decoding a path decodes each name and nothing else: it never adds, removes or moves a separator. */
  lemma {:induction false} DecodeKeepsStructure(s: seq<byte>)
    ensures Split(Decode(s)) == DecodeAll(Split(s))
    decreases |s|
  {
    var i := FirstSeparator(s);
    var name := s[..i];
    DecodeAddsNoSeparator(name);
    if i == |s| {
      assert name == s;
      FirstSeparatorAfter(Decode(s), SLASH, []);
      assert DecodeAll([s]) == [Decode(s)] + DecodeAll([s][1..]);
    } else {
      var rest := s[i + 1..];
      assert s == name + [s[i]] + rest;
      DecodeAcrossSeparator(name, s[i], rest);
      FirstSeparatorAfter(Decode(name), s[i], Decode(rest));
      var d := Decode(s);
      assert d[..|Decode(name)|] == Decode(name) && d[|Decode(name)| + 1..] == Decode(rest);
      DecodeKeepsStructure(rest);
      assert Split(s)[1..] == Split(rest);
    }
  }

  lemma {:induction false} DecodeKeepsSeparators(s: seq<byte>)
    ensures Separators(Decode(s)) == Separators(s)
  {
    if s != [] {
      if EscapeAt(s, 0).Some? {
        var b := EscapeAt(s, 0).value;
        assert s[1..][1..] == s[2..] && s[2..][1..] == s[3..];
        assert !IsSeparator(s[1]) && !IsSeparator(s[2]);
        assert !IsSeparator(s[0]) && Separators(s[1..]) == Separators(s[2..]) == Separators(s[3..]);
        DecodeKeepsSeparators(s[3..]);
        assert ([b] + Decode(s[3..]))[1..] == Decode(s[3..]);
      } else {
        DecodeKeepsSeparators(s[1..]);
        assert ([s[0]] + Decode(s[1..]))[1..] == Decode(s[1..]);
      }
    }
  }

  // ---------------------------------------------------------------------------
  // Decoding inverts encoding
  // ---------------------------------------------------------------------------

  const LOWER_DIGITS: string := "0123456789abcdef"
  const UPPER_DIGITS: string := "0123456789ABCDEF"

  /** `c` is the hexadecimal digit `d`, in lower or upper case. */
  predicate IsHexDigit(c: byte, d: nat) {
    d < 16 && (c == LOWER_DIGITS[d] as int || c == UPPER_DIGITS[d] as int)
  }

  /** `s` begins with the escape of the byte `b` (section 2.1 of RFC 3986), which is not "/" or "\\". */
  predicate BeginsWithEscape(s: seq<byte>, b: byte) {
    && |s| >= 3 && s[0] == '%' as int && IsHexDigit(s[1], b / 16) && IsHexDigit(s[2], b % 16)
    && b != '/' as int && b != '\\' as int
  }

  lemma HexDigitExactly(c: byte, d: nat)
    ensures HexDigit(c) == Some(d) <==> IsHexDigit(c, d)
  {
  }

  lemma TwoDigits(b: nat, high: nat, low: nat)
    requires high < 16 && low < 16
    ensures b == high * 16 + low <==> b / 16 == high && b % 16 == low
  {
  }

  /** An escape is read as the byte that its two digits spell. */
  lemma EscapeExactly(s: seq<byte>, b: byte)
    ensures EscapeAt(s, 0) == Some(b) <==> BeginsWithEscape(s, b)
  {
    if |s| >= 3 {
      HexDigitExactly(s[1], b / 16);
      HexDigitExactly(s[2], b % 16);
      if HexDigit(s[1]).Some? && HexDigit(s[2]).Some? {
        TwoDigits(b, HexDigit(s[1]).value, HexDigit(s[2]).value);
      }
    }
  }

  /** `encoded` spells `raw`, escaping every percent sign, any other byte at will, and no separator. */
  predicate Encodes(raw: seq<byte>, encoded: seq<byte>)
    decreases |encoded|
  {
    if raw == [] || encoded == [] then raw == encoded
    else if encoded[0] == '%' as int then
      BeginsWithEscape(encoded, raw[0]) && Encodes(raw[1..], encoded[3..])
    else encoded[0] == raw[0] && Encodes(raw[1..], encoded[1..])
  }

  predicate EveryPercentEscapes(s: seq<byte>) {
    forall i | 0 <= i < |s| && s[i] == PERCENT :: EscapeAt(s, i).Some?
  }

  /** Decoding inverts exactly the spellings in which every percent sign begins an escape. */
  lemma {:induction false} DecodeInvertsEncoding(raw: seq<byte>, encoded: seq<byte>)
    ensures Encodes(raw, encoded) <==> Decode(encoded) == raw && EveryPercentEscapes(encoded)
    decreases |encoded|
  {
    if encoded != [] && raw != [] {
      var n := if EscapeAt(encoded, 0).Some? then 3 else 1;
      EscapeExactly(encoded, raw[0]);
      DecodeInvertsEncoding(raw[1..], encoded[n..]);
      assert raw == [raw[0]] + raw[1..];
      if EveryPercentEscapes(encoded[n..]) && (encoded[0] == PERCENT ==> n == 3) {
        PercentBeyond(encoded, n);
      }
    }
  }

  lemma PercentBeyond(s: seq<byte>, n: nat)
    requires n == (if EscapeAt(s, 0).Some? then 3 else 1) && n <= |s|
    requires EveryPercentEscapes(s[n..])
    requires s[0] == PERCENT ==> n == 3
    ensures EveryPercentEscapes(s)
  {
  }
}
