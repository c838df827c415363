/** Skill names (crates/agent_skills/agent_skills.rs): the slugifier against the validator. */
module SkillNames {
  import opened Wrappers
  import Utf8

  const MAX_SKILL_NAME_LEN: nat := 64

  predicate IsLower(c: char) { 'a' <= c <= 'z' }

  predicate IsDigit(c: char) { '0' <= c <= '9' }

  predicate IsAlphanumeric(c: char) { IsLower(c) || 'A' <= c <= 'Z' || IsDigit(c) }

  function ToLower(c: char): char {
    if 'A' <= c <= 'Z' then c - 'A' + 'a' else c
  }

  /** `replace('&', "-and-")`. */
  function Expand(s: string): string {
    if s == "" then "" else (if s[0] == '&' then "-and-" else [s[0]]) + Expand(s[1..])
  }

  /** What the loop keeps of a character; everything else is dropped. */
  function Mapped(c: char): Option<char> {
    if IsAlphanumeric(c) then Some(ToLower(c))
    else if c == ' ' || c == '-' then Some('-')
    else None
  }

  /** What the loop appends for the characters `s`, given whether a dash was last. */
  function Squeeze(s: string, dash: bool): string {
    if s == "" then ""
    else
      var m := Mapped(s[0]);
      if m.None? then Squeeze(s[1..], dash)
      else if m.value != '-' then [m.value] + Squeeze(s[1..], false)
      else if dash then Squeeze(s[1..], true)
      else "-" + Squeeze(s[1..], true)
  }

  function TrimDashes(s: string): (r: string)
    ensures r <= s
    ensures r != "" ==> r[|r| - 1] != '-'
    ensures s != "" && s[0] != '-' ==> r != ""
  {
    if s != "" && s[|s| - 1] == '-' then TrimDashes(s[..|s| - 1]) else s
  }

  function Finish(slug: string): Option<string> {
    var popped := if slug != "" && slug[|slug| - 1] == '-' then slug[..|slug| - 1] else slug;
    var cut := if |popped| > MAX_SKILL_NAME_LEN then TrimDashes(popped[..MAX_SKILL_NAME_LEN]) else popped;
    if cut == "" then None else Some(cut)
  }

  function Slug(input: string): Option<string> {
    Finish(Squeeze(Expand(input), true))
  }

  /** `slugify_skill_name`: one pass over the characters with a flag, then trimming. */
  method SlugifySkillName(input: string) returns (r: Option<string>)
    ensures r == Slug(input)
  {
    var text := Expand(input);
    var slug, lastWasDash := "", true;
    for i := 0 to |text|
      invariant slug + Squeeze(text[i..], lastWasDash) == Squeeze(text, true)
    {
      var mapped := Mapped(text[i]);
      if mapped.None? { continue; }
      var c := mapped.value;
      if c == '-' {
        if lastWasDash { continue; }
        lastWasDash := true;
      } else {
        lastWasDash := false;
      }
      Regroup(slug, c, Squeeze(text[i + 1..], lastWasDash));
      slug := slug + [c];
    }
    assert slug + "" == slug;
    r := CutSlug(slug);
  }

  lemma Regroup(before: string, c: char, after: string)
    ensures before + ([c] + after) == before + [c] + after
  {
  }

  /** The end of `slugify_skill_name`: one trailing dash, the length limit, and what that leaves at the end. */
  method CutSlug(full: string) returns (r: Option<string>)
    ensures r == Finish(full)
  {
    var slug := full;
    if slug != "" && slug[|slug| - 1] == '-' {
      slug := slug[..|slug| - 1];
    }
    if |slug| > MAX_SKILL_NAME_LEN {
      slug := slug[..MAX_SKILL_NAME_LEN];
      ghost var cut := slug;
      while slug != "" && slug[|slug| - 1] == '-'
        invariant TrimDashes(slug) == TrimDashes(cut)
        decreases |slug|
      {
        slug := slug[..|slug| - 1];
      }
    }
    return if slug == "" then None else Some(slug);
  }

  // ---------------------------------------------------------------------------
  // The validator
  // ---------------------------------------------------------------------------

  /** The UTF-8 length of a string. */
  function ByteLength(s: string): (n: nat)
    ensures n >= |s|
  {
    if s == "" then 0
    else
      var c := s[0] as int;
      (if c < 0x80 then 1 else if c < 0x800 then 2 else if c < 0x1_0000 then 3 else 4) + ByteLength(s[1..])
  }

  datatype NameError = Empty | TooLong | EdgeHyphen | BadCharacter

  predicate IsNameChar(c: char) {
    IsLower(c) || IsDigit(c) || c == '-'
  }

  predicate NameChars(s: string) {
    forall i | 0 <= i < |s| :: IsNameChar(s[i])
  }

  function ValidateName(name: string): Result<(), NameError> {
    if name == "" then Err(Empty)
    else if ByteLength(name) > MAX_SKILL_NAME_LEN then Err(TooLong)
    else if name[0] == '-' || name[|name| - 1] == '-' then Err(EdgeHyphen)
    else if !NameChars(name) then Err(BadCharacter)
    else Ok(())
  }

  predicate NoDoubleDash(s: string) {
    forall i | 0 <= i < |s| - 1 :: !(s[i] == '-' && s[i + 1] == '-')
  }

  lemma NameCharsAreBytes(s: string)
    requires NameChars(s)
    ensures ByteLength(s) == |s|
  {
  }

  lemma SqueezeShape(s: string, dash: bool)
    ensures var r := Squeeze(s, dash);
            NameChars(r) && NoDoubleDash(r) && (dash && r != "" ==> r[0] != '-')
  {
  }

  predicate HasAlphanumeric(s: string) {
    exists i | 0 <= i < |s| :: IsAlphanumeric(s[i])
  }

  lemma SqueezeEmpty(s: string)
    ensures Squeeze(s, true) == "" <==> !HasAlphanumeric(s)
  {
  }

  /** The characters that a name can come from. */
  predicate Yields(c: char) {
    IsAlphanumeric(c) || c == '&'
  }

  lemma {:induction false} ExpandKeepsMaterial(s: string)
    ensures HasAlphanumeric(Expand(s)) <==> exists i | 0 <= i < |s| :: Yields(s[i])
  {
    if s != "" {
      ExpandKeepsMaterial(s[1..]);
      var head, tail := if s[0] == '&' then "-and-" else [s[0]], Expand(s[1..]);
      assert Expand(s) == head + tail;
      if s[0] == '&' {
        assert Expand(s)[1] == 'a' && IsAlphanumeric(Expand(s)[1]);
      } else {
        assert head[0] == Expand(s)[0];
        if i :| 0 <= i < |tail| && IsAlphanumeric(tail[i]) {
          assert Expand(s)[i + 1] == tail[i];
        }
        if i :| 0 <= i < |Expand(s)| && IsAlphanumeric(Expand(s)[i]) {
          assert i > 0 ==> tail[i - 1] == Expand(s)[i];
        }
      }
      assert (exists i | 0 <= i < |s| :: Yields(s[i])) <==>
             Yields(s[0]) || exists i | 0 <= i < |s[1..]| :: Yields(s[1..][i]) by {
        if i :| 0 <= i < |s| && Yields(s[i]) {
          assert i > 0 ==> s[1..][i - 1] == s[i];
        }
        if j :| 0 <= j < |s[1..]| && Yields(s[1..][j]) {
          assert s[j + 1] == s[1..][j];
        }
      }
    }
  }

  lemma FinishShape(s: string)
    requires NameChars(s) && NoDoubleDash(s) && (s != "" ==> s[0] != '-')
    ensures Finish(s).Some? <==> s != ""
    ensures Finish(s).Some? ==>
              ValidateName(Finish(s).value).Ok? && NoDoubleDash(Finish(s).value) && Finish(s).value <= s
  {
    if Finish(s).Some? {
      NameCharsAreBytes(Finish(s).value);
    }
  }

  /** A name comes out exactly for inputs with an ASCII letter, a digit or an ampersand, and it is always valid. */
  lemma SlugIsValid(input: string)
    ensures Slug(input).Some? <==> exists i | 0 <= i < |input| :: Yields(input[i])
    ensures Slug(input).Some? ==> ValidateName(Slug(input).value).Ok? && NoDoubleDash(Slug(input).value)
  {
    var text := Expand(input);
    ExpandKeepsMaterial(input);
    SqueezeEmpty(text);
    SqueezeShape(text, true);
    FinishShape(Squeeze(text, true));
  }

  lemma ExpandFixed(s: string)
    requires NameChars(s)
    ensures Expand(s) == s
  {
  }

  lemma SqueezeFixed(s: string, dash: bool)
    requires NameChars(s) && NoDoubleDash(s) && (dash && s != "" ==> s[0] != '-')
    ensures Squeeze(s, dash) == s
  {
  }

  /** The fixed points of the slugifier are exactly the valid names without a double hyphen. */
  lemma SlugFixedPoints(s: string)
    ensures Slug(s) == Some(s) <==> ValidateName(s).Ok? && NoDoubleDash(s)
  {
    if ValidateName(s).Ok? && NoDoubleDash(s) {
      ExpandFixed(s);
      SqueezeFixed(s, true);
    }
    SlugIsValid(s);
  }

  lemma SlugIsIdempotent(input: string)
    requires Slug(input).Some?
    ensures Slug(Slug(input).value) == Slug(input)
  {
    SlugIsValid(input);
    SlugFixedPoints(Slug(input).value);
  }

  // ---------------------------------------------------------------------------
  // What each character becomes
  // ---------------------------------------------------------------------------

  /** The slug before its end is trimmed. */
  function Whole(input: string): string {
    Squeeze(Expand(input), true)
  }

  predicate AtDash(s: string) {
    s == "" || s[|s| - 1] == '-'
  }

  /** What the next character makes of a slug: letters and digits follow in lower case, dashes never double. */
  function Extended(slug: string, c: char): string {
    if 'a' <= c <= 'z' || '0' <= c <= '9' then slug + [c]
    else if 'A' <= c <= 'Z' then slug + [c - 'A' + 'a']
    else if c == ' ' || c == '-' then (if AtDash(slug) then slug else slug + "-")
    else if c == '&' then (if AtDash(slug) then slug + "and-" else slug + "-and-")
    else slug
  }

  lemma {:induction false} ExpandConcat(a: string, b: string)
    ensures Expand(a + b) == Expand(a) + Expand(b)
  {
    if a == "" {
      assert a + b == b;
    } else {
      assert (a + b)[1..] == a[1..] + b;
      ExpandConcat(a[1..], b);
    }
  }

  /** Whether a dash was last after the characters `s`. */
  function DashAfter(s: string, dash: bool): bool {
    if s == "" then dash
    else
      var m := Mapped(s[0]);
      DashAfter(s[1..], if m.None? then dash else m.value == '-')
  }

  lemma {:induction false} SqueezeConcat(a: string, b: string, dash: bool)
    ensures Squeeze(a + b, dash) == Squeeze(a, dash) + Squeeze(b, DashAfter(a, dash))
  {
    if a == "" {
      assert a + b == b;
    } else {
      assert (a + b)[1..] == a[1..] + b;
      var m := Mapped(a[0]);
      SqueezeConcat(a[1..], b, if m.None? then dash else m.value == '-');
    }
  }

  lemma {:induction false} DashIsLast(s: string, dash: bool)
    ensures DashAfter(s, dash) <==>
            var r := Squeeze(s, dash); if r == "" then dash else r[|r| - 1] == '-'
  {
    if s != "" {
      var m := Mapped(s[0]);
      DashIsLast(s[1..], if m.None? then dash else m.value == '-');
    }
  }

  lemma SqueezeOne(c: char, dash: bool)
    requires c != '&'
    ensures var slug := if dash then "" else "a"; slug + Squeeze([c], dash) == Extended(slug, c)
  {
    assert [c][1..] == "";
  }

  lemma SqueezeAnd(dash: bool)
    ensures Squeeze("-and-", dash) == if dash then "and-" else "-and-"
  {
    var s := "-and-";
    assert s[1..] == "and-" && s[1..][1..] == "nd-" && s[1..][1..][1..] == "d-" && s[1..][1..][1..][1..] == "-";
    assert "-"[1..] == "";
  }

  /** The slug grows character by character: `Extended` tells what each of them adds. */
  lemma SlugGrows(input: string, c: char)
    ensures Whole("") == "" && Whole(input + [c]) == Extended(Whole(input), c)
  {
    var text := Expand(input);
    ExpandConcat(input, [c]);
    assert Expand([c]) == if c == '&' then "-and-" else [c];
    SqueezeConcat(text, Expand([c]), true);
    DashIsLast(text, true);
    var dash := DashAfter(text, true);
    if c == '&' {
      SqueezeAnd(dash);
    } else {
      SqueezeOne(c, dash);
    }
  }

  /** The end is cut to the longest part of at most 64 characters that does not end in a dash. */
  lemma SlugIsLongest(input: string)
    ensures Slug(input) == None <==> Whole(input) == ""
    ensures Slug(input) != None ==>
              var (r, whole) := (Slug(input).value, Whole(input));
              && r <= whole && 0 < |r| <= 64 && r[|r| - 1] != '-'
              && forall i | |r| <= i < |whole| && i < 64 :: whole[i] == '-'
  {
    var whole := Whole(input);
    SqueezeShape(Expand(input), true);
    FinishShape(whole);
    if Slug(input) != None {
      var popped := if whole[|whole| - 1] == '-' then whole[..|whole| - 1] else whole;
      if |popped| > 64 {
        TrimmedIsLongest(popped[..64]);
        assert forall i | 0 <= i < 64 :: popped[..64][i] == whole[i];
      }
    }
  }

  lemma {:induction false} TrimmedIsLongest(s: string)
    ensures forall i | |TrimDashes(s)| <= i < |s| :: s[i] == '-'
  {
    if s != "" && s[|s| - 1] == '-' {
      var shorter := s[..|s| - 1];
      TrimmedIsLongest(shorter);
      assert forall i | 0 <= i < |shorter| :: shorter[i] == s[i];
    }
  }

  /** A name is valid exactly when it is 1 to 64 lower-case letters, digits and inner hyphens. */
  lemma ValidExactlyWhen(name: string)
    ensures ValidateName(name).Ok? <==>
            && 1 <= |name| <= 64 && name[0] != '-' && name[|name| - 1] != '-'
            && forall i | 0 <= i < |name| :: 'a' <= name[i] <= 'z' || '0' <= name[i] <= '9' || name[i] == '-'
    ensures name == "" ==> ValidateName(name) == Err(Empty)
    ensures ByteLength(name) > 64 ==> ValidateName(name) == Err(TooLong)
  {
    if NameChars(name) {
      NameCharsAreBytes(name);
    }
  }

  /** A string is as long as the UTF-8 spellings of its characters together (section 3 of RFC 3629). */
  lemma ByteLengthIsEncoded(c: char, rest: string)
    ensures Utf8.IsScalar(c as int) && ByteLength([c] + rest) == |Utf8.Encode(c as int)| + ByteLength(rest)
  {
    assert ([c] + rest)[1..] == rest;
  }
}
