/** What the parser makes of any text, told from its entries alone. */
module MagnetEntries {
  import opened Wrappers
  import opened Text
  import opened Magnets
  import opened MagnetParser

  // ---------------------------------------------------------------------------
  // Numbers
  // ---------------------------------------------------------------------------

  /** Digits with single underscores between them. */
  predicate IsNumeral(s: string) {
    && s != "" && s[0] != '_' && s[|s| - 1] != '_'
    && (forall i | 0 <= i < |s| :: '0' <= s[i] <= '9' || s[i] == '_')
    && (forall i | 0 <= i < |s| - 1 :: s[i] == '_' ==> s[i + 1] != '_')
  }

  /** The digits alone. */
  function WithoutUnderscores(s: string): string {
    if s == "" then ""
    else WithoutUnderscores(s[..|s| - 1]) + if s[|s| - 1] == '_' then "" else [s[|s| - 1]]
  }

  lemma {:induction false} DigitsRemain(s: string)
    requires forall i | 0 <= i < |s| :: '0' <= s[i] <= '9' || s[i] == '_'
    ensures AllDigits(WithoutUnderscores(s))
  {
    if s != "" {
      DigitsRemain(s[..|s| - 1]);
    }
  }

  /** What `Natural` reads before the last digit. */
  function Front(s: string): string
    requires |s| > 1
  {
    if s[|s| - 2] == '_' then s[..|s| - 2] else s[..|s| - 1]
  }

  lemma FrontIsNumeral(s: string)
    requires |s| > 1 && IsDigit(s[|s| - 1])
    ensures IsNumeral(s) <==> IsNumeral(Front(s))
  {
    NumeralExtends(Front(s), s, |Front(s)|);
  }

  lemma {:induction false} NumeralsExist(s: string)
    ensures Natural(s).Some? <==> IsNumeral(s)
    decreases |s|
  {
    if |s| > 1 && IsDigit(s[|s| - 1]) {
      FrontIsNumeral(s);
      NumeralsExist(Front(s));
    }
  }

  lemma DigitAppended(digits: string, c: char)
    requires AllDigits(digits) && IsDigit(c)
    ensures AllDigits(digits + [c]) && DigitsValue(digits + [c]) == 10 * DigitsValue(digits) + (c - '0') as int
  {
    assert (digits + [c])[..|digits|] == digits;
  }

  lemma UnderscoreSkipped(s: string)
    requires s != "" && s[|s| - 1] == '_'
    ensures WithoutUnderscores(s) == WithoutUnderscores(s[..|s| - 1])
  {
    assert WithoutUnderscores(s[..|s| - 1]) + "" == WithoutUnderscores(s[..|s| - 1]);
  }

  lemma DigitsOfFront(s: string)
    requires |s| > 1 && s[|s| - 1] != '_'
    ensures WithoutUnderscores(s) == WithoutUnderscores(Front(s)) + [s[|s| - 1]]
  {
    var before := s[..|s| - 1];
    if before[|before| - 1] == '_' {
      UnderscoreSkipped(before);
      assert before[..|before| - 1] == Front(s);
    }
  }

  lemma NaturalOn(s: string)
    requires |s| > 1 && IsDigit(s[|s| - 1]) && Natural(Front(s)).Some?
    ensures Natural(s) == Some(10 * Natural(Front(s)).value + (s[|s| - 1] - '0') as int)
  {
  }

  lemma NumeralEnds(s: string)
    requires IsNumeral(s)
    ensures IsDigit(s[|s| - 1]) && AllDigits(WithoutUnderscores(s))
  {
    DigitsRemain(s);
  }

  lemma {:induction false} NumeralsSpell(s: string)
    requires IsNumeral(s)
    ensures AllDigits(WithoutUnderscores(s)) && Natural(s) == Some(DigitsValue(WithoutUnderscores(s)))
    decreases |s|
  {
    NumeralEnds(s);
    if |s| > 1 {
      var front := Front(s);
      FrontIsNumeral(s);
      NumeralsSpell(front);
      NaturalOn(s);
      DigitsOfFront(s);
      DigitAppended(WithoutUnderscores(front), s[|s| - 1]);
    } else {
      OneDigit(s);
    }
  }

  /** A numeral is read as the number its digits spell. */
  lemma NumeralsRead(s: string)
    ensures Natural(s).Some? <==> IsNumeral(s)
    ensures IsNumeral(s) ==> AllDigits(WithoutUnderscores(s)) && Natural(s) == Some(DigitsValue(WithoutUnderscores(s)))
  {
    NumeralsExist(s);
    if IsNumeral(s) {
      NumeralsSpell(s);
    }
  }

  lemma OneDigit(s: string)
    requires |s| == 1 && IsDigit(s[0])
    ensures WithoutUnderscores(s) == s && DigitsValue(s) == (s[0] - '0') as int
  {
    var none: string := "";
    assert s[..0] == none;
    assert WithoutUnderscores(none) == "" && DigitsValue(none) == 0;
    assert s == [s[0]];
  }

  /** Before a last digit, and perhaps an underscore, stands a numeral. */
  lemma NumeralExtends(front: string, s: string, n: nat)
    requires n < |s| && front == s[..n] && IsDigit(s[|s| - 1])
    requires (n == |s| - 1 && n > 0 && s[n - 1] != '_') || (n == |s| - 2 && s[n] == '_')
    ensures IsNumeral(s) <==> IsNumeral(front)
  {
  }

  /** An integer is a numeral, perhaps with a sign. */
  predicate IsInteger(s: string, v: int) {
    || (IsNumeral(s) && v == NumeralValue(s))
    || (s != "" && s[0] == '+' && IsNumeral(s[1..]) && v == NumeralValue(s[1..]))
    || (s != "" && s[0] == '-' && IsNumeral(s[1..]) && v == -NumeralValue(s[1..]))
  }

  function NumeralValue(s: string): int
    requires IsNumeral(s)
  {
    DigitsRemain(s);
    DigitsValue(WithoutUnderscores(s))
  }

  lemma IntegersRead(s: string, v: int)
    ensures PyInt(s) == Some(v) <==> IsInteger(s, v)
  {
    var signed := s != "" && (s[0] == '-' || s[0] == '+');
    NumeralsRead(if signed then s[1..] else s);
  }

  // ---------------------------------------------------------------------------
  // Parts of a line
  // ---------------------------------------------------------------------------

  /** `sep` stands first between `a` and `b`. */
  predicate BreaksAt(s: string, sep: string, a: string, b: string) {
    s == a + sep + b && forall i | 0 <= i < |a| :: !OccursAt(s, sep, i)
  }

  lemma {:induction false} FindExactly(s: string, sep: string)
    requires |sep| > 0
    ensures var r := Find(s, sep);
            && (r.Some? ==> OccursAt(s, sep, r.value) && forall i | 0 <= i < r.value :: !OccursAt(s, sep, i))
            && (r.None? ==> forall i | 0 <= i < |s| :: !OccursAt(s, sep, i))
  {
    if |s| >= |sep| && s[..|sep|] != sep {
      var r := Find(s[1..], sep);
      FindExactly(s[1..], sep);
      forall i | 0 <= i < (if r.Some? then r.value + 1 else |s|) ensures !OccursAt(s, sep, i) {
        if i > 0 {
          OccursLater(s, sep, i - 1, i);
        }
      }
    }
  }

  lemma BreaksThere(s: string, sep: string, i: nat)
    requires OccursAt(s, sep, i)
    ensures s == s[..i] + sep + s[i + |sep|..]
  {
    assert s[i..] == s[i..i + |sep|] + s[i + |sep|..];
    assert s == s[..i] + s[i..];
  }

  lemma BreaksOnce(s: string, sep: string, a: string, b: string)
    requires |sep| > 0
    ensures BreaksAt(s, sep, a, b) <==>
            Find(s, sep).Some? && a == s[..Find(s, sep).value] && b == s[Find(s, sep).value + |sep|..]
  {
    FindExactly(s, sep);
    var r := Find(s, sep);
    if s == a + sep + b {
      assert s[|a|..|a| + |sep|] == sep;
      assert OccursAt(s, sep, |a|);
    }
    if r.Some? {
      BreaksThere(s, sep, r.value);
    }
  }

  /** What stands before the first `sep`, or all if there is none. */
  ghost predicate IsFirstPart(s: string, sep: string, part: string) {
    || (exists rest :: BreaksAt(s, sep, part, rest))
    || (part == s && forall i | 0 <= i < |s| :: !OccursAt(s, sep, i))
  }

  /** What stands between the first `sep` and the next one, or the end. */
  ghost predicate IsSecondPart(s: string, sep: string, part: string) {
    exists a, b :: BreaksAt(s, sep, a, b) && IsFirstPart(b, sep, part)
  }

  lemma FirstPartExactly(b: string, sep: string, part: string)
    requires |sep| > 0
    ensures IsFirstPart(b, sep, part) <==> part == if Find(b, sep).None? then b else b[..Find(b, sep).value]
  {
    FindExactly(b, sep);
    var second := Find(b, sep);
    if second.Some? {
      BreaksOnce(b, sep, b[..second.value], b[second.value + |sep|..]);
      assert OccursAt(b, sep, second.value);
    }
    if rest :| BreaksAt(b, sep, part, rest) {
      BreaksOnce(b, sep, part, rest);
    }
  }

  lemma SecondPartOf(s: string, sep: string, a: string, b: string, part: string)
    requires |sep| > 0 && BreaksAt(s, sep, a, b)
    ensures SecondPart(s, sep) == Some(part) <==> IsFirstPart(b, sep, part)
  {
    BreaksOnce(s, sep, a, b);
    FirstPartExactly(b, sep, part);
  }

  lemma HasBreak(s: string, sep: string)
    requires |sep| > 0 && Find(s, sep).Some?
    ensures exists a, b :: BreaksAt(s, sep, a, b)
  {
    var i := Find(s, sep).value;
    BreaksOnce(s, sep, s[..i], s[i + |sep|..]);
  }

  lemma SecondPartExactly(s: string, sep: string, part: string)
    requires |sep| > 0
    ensures SecondPart(s, sep) == Some(part) <==> IsSecondPart(s, sep, part)
  {
    if SecondPart(s, sep) == Some(part) {
      HasBreak(s, sep);
      var a, b :| BreaksAt(s, sep, a, b);
      SecondPartOf(s, sep, a, b, part);
    }
    if a, b :| BreaksAt(s, sep, a, b) && IsFirstPart(b, sep, part) {
      SecondPartOf(s, sep, a, b, part);
    }
  }

  /** The first word: after any white space, up to the next or the end. */
  predicate IsFirstWord(s: string, word: string, front: string, rest: string) {
    && s == front + word + rest && (forall i | 0 <= i < |front| :: IsSpace(front[i]))
    && word != "" && (forall i | 0 <= i < |word| :: !IsSpace(word[i])) && (rest == "" || IsSpace(rest[0]))
  }

  lemma {:induction false} WordEnds(t: string)
    ensures var word := UntilSpace(t);
            && word <= t && (forall i | 0 <= i < |word| :: !IsSpace(word[i]))
            && (|word| < |t| ==> IsSpace(t[|word|]))
  {
    if t != "" && !IsSpace(t[0]) {
      WordEnds(t[1..]);
      assert t == [t[0]] + t[1..];
    }
  }

  lemma {:induction false} SpacesSkipped(front: string, t: string)
    requires (forall i | 0 <= i < |front| :: IsSpace(front[i])) && t != "" && !IsSpace(t[0])
    ensures TrimStart(front + t) == t
  {
    if front == "" {
      assert front + t == t;
    } else {
      assert (front + t)[1..] == front[1..] + t;
      SpacesSkipped(front[1..], t);
    }
  }

  lemma {:induction false} SpacesInFront(s: string)
    ensures forall i | 0 <= i < |s| - |TrimStart(s)| :: IsSpace(s[i])
  {
    if s != "" && IsSpace(s[0]) {
      SpacesInFront(s[1..]);
      assert forall i | 0 < i < |s| :: s[i] == s[1..][i - 1];
    }
  }

  lemma UntilSpaceBegins(t: string)
    requires t != "" && !IsSpace(t[0])
    ensures UntilSpace(t) != ""
  {
  }

  lemma PartsOfWord(s: string, t: string, word: string)
    requires |t| <= |s| && t == s[|s| - |t|..] && word <= t
    ensures s == s[..|s| - |t|] + word + t[|word|..]
  {
    assert t == word + t[|word|..];
    assert s == s[..|s| - |t|] + t;
  }

  lemma FirstWordIsWord(s: string, word: string)
    requires FirstWord(s) == Some(word)
    ensures exists front, rest :: IsFirstWord(s, word, front, rest)
  {
    var t := TrimStart(s);
    WordEnds(t);
    SpacesInFront(s);
    UntilSpaceBegins(t);
    PartsOfWord(s, t, word);
    var front, rest := s[..|s| - |t|], t[|word|..];
    assert IsFirstWord(s, word, front, rest);
  }

  lemma WordIsFirst(t: string, word: string, rest: string)
    requires t == word + rest && word != "" && (forall i | 0 <= i < |word| :: !IsSpace(word[i]))
    requires rest == "" || IsSpace(rest[0])
    ensures t != "" && !IsSpace(t[0]) && UntilSpace(t) == word
  {
    assert t[0] == word[0];
    UntilSpaceStops(word, rest);
  }

  lemma FirstWordOf(s: string, t: string, word: string)
    requires TrimStart(s) == t && t != "" && UntilSpace(t) == word
    ensures FirstWord(s) == Some(word)
  {
  }

  lemma WordIsFirstWord(s: string, word: string, front: string, rest: string)
    requires IsFirstWord(s, word, front, rest)
    ensures FirstWord(s) == Some(word)
  {
    var t := word + rest;
    WordIsFirst(t, word, rest);
    WordAfterSpaces(s, t, word, front);
  }

  lemma WordAfterSpaces(s: string, t: string, word: string, front: string)
    requires s == front + t && (forall i | 0 <= i < |front| :: IsSpace(front[i]))
    requires t != "" && !IsSpace(t[0]) && UntilSpace(t) == word
    ensures FirstWord(s) == Some(word)
  {
    SpacesSkipped(front, t);
    FirstWordOf(s, t, word);
  }

  lemma FirstWordExactly(s: string, word: string)
    ensures FirstWord(s) == Some(word) <==> exists front, rest :: IsFirstWord(s, word, front, rest)
  {
    if FirstWord(s) == Some(word) {
      FirstWordIsWord(s, word);
    }
    if front, rest :| IsFirstWord(s, word, front, rest) {
      WordIsFirstWord(s, word, front, rest);
    }
  }

  /** Without the parentheses at its end. */
  predicate IsStripped(s: string, t: string) {
    t <= s && (forall i | |t| <= i < |s| :: s[i] == ')') && (t == "" || t[|t| - 1] != ')')
  }

  lemma {:induction false} StripsExactly(s: string, t: string)
    ensures TrimEndOf(s, ')') == t <==> IsStripped(s, t)
  {
    if s != "" && s[|s| - 1] == ')' {
      StripsExactly(s[..|s| - 1], t);
      assert IsStripped(s, t) <==> IsStripped(s[..|s| - 1], t);
    }
  }

  /** The first word of the part is an integer. */
  ghost predicate BeginsWithInteger(part: string, v: int) {
    exists word, front, rest :: IsFirstWord(part, word, front, rest) && IsInteger(word, v)
  }

  /** The first word, without parentheses at its end, is one. */
  ghost predicate BeginsWithNumber(part: string, v: int) {
    exists word, digits, front, rest ::
      IsFirstWord(part, word, front, rest) && IsStripped(word, digits) && IsInteger(digits, v)
  }

  /** The count begins the part after the first bracket, the number the part after the mark. */
  ghost predicate IsEntryOf(line: string, count: int, number: int) {
    && (exists part :: IsSecondPart(line, "[", part) && BeginsWithInteger(part, count))
    && (exists part :: IsSecondPart(line, "/issues/", part) && BeginsWithNumber(part, number))
  }

  lemma IntegerBegins(part: string, v: int)
    ensures BeginsWithInteger(part, v) <==> FirstWord(part).Some? && PyInt(FirstWord(part).value) == Some(v)
  {
    if word, front, rest :| IsFirstWord(part, word, front, rest) && IsInteger(word, v) {
      WordIsFirstWord(part, word, front, rest);
      IntegersRead(word, v);
    }
    if FirstWord(part).Some? {
      FirstWordIsWord(part, FirstWord(part).value);
      IntegersRead(FirstWord(part).value, v);
    }
  }

  lemma NumberBegins(part: string, v: int)
    ensures BeginsWithNumber(part, v) <==>
            FirstWord(part).Some? && PyInt(TrimEndOf(FirstWord(part).value, ')')) == Some(v)
  {
    if word, digits, front, rest :|
      IsFirstWord(part, word, front, rest) && IsStripped(word, digits) && IsInteger(digits, v) {
      WordIsFirstWord(part, word, front, rest);
      StripsExactly(word, digits);
      IntegersRead(digits, v);
    }
    if FirstWord(part).Some? {
      var word := FirstWord(part).value;
      var digits := TrimEndOf(word, ')');
      FirstWordIsWord(part, word);
      StripsExactly(word, digits);
      IntegersRead(digits, v);
    }
  }

  /** A line is parsed exactly when it has both, as those two integers. */
  lemma EntriesExactly(line: string, count: int, number: int)
    ensures ParseEntry(line) == Some((count, number)) <==> IsEntryOf(line, count, number)
  {
    CountExactly(line, count);
    NumberExactly(line, number);
  }

  lemma CountExactly(line: string, count: int)
    ensures (exists part :: IsSecondPart(line, "[", part) && BeginsWithInteger(part, count)) <==>
            var part := SecondPart(line, "[");
            part.Some? && FirstWord(part.value).Some? && PyInt(FirstWord(part.value).value) == Some(count)
  {
    var part := SecondPart(line, "[");
    if part.Some? {
      SecondPartExactly(line, "[", part.value);
      IntegerBegins(part.value, count);
    }
    if x :| IsSecondPart(line, "[", x) && BeginsWithInteger(x, count) {
      SecondPartExactly(line, "[", x);
    }
  }

  lemma NumberExactly(line: string, number: int)
    ensures (exists part :: IsSecondPart(line, "/issues/", part) && BeginsWithNumber(part, number)) <==>
            var part := SecondPart(line, "/issues/");
            part.Some? && FirstWord(part.value).Some? &&
            PyInt(TrimEndOf(FirstWord(part.value).value, ')')) == Some(number)
  {
    var part := SecondPart(line, "/issues/");
    if part.Some? {
      SecondPartExactly(line, "/issues/", part.value);
      NumberBegins(part.value, number);
    }
    if x :| IsSecondPart(line, "/issues/", x) && BeginsWithNumber(x, number) {
      SecondPartExactly(line, "/issues/", x);
    }
  }

  // ---------------------------------------------------------------------------
  // Entries
  // ---------------------------------------------------------------------------

  datatype Entry = Entry(area: string, count: int, number: int)

  /** The section that the lines end in: the name in the last header, or none. */
  function AreaAfter(lines: seq<string>): string {
    if lines == [] then ""
    else
      var last := lines[|lines| - 1];
      if IsHeader(last) then Strip(last[3..]) else AreaAfter(lines[..|lines| - 1])
  }

  predicate LooksLikeEntry(line: string) {
    line != "" && line[0] == '-' && Find(line, "/issues/").Some?
  }

  predicate IsHeader(line: string) {
    |line| >= 3 && line[..3] == "## "
  }

  /** The entries under named sections, in order. */
  function EntriesOf(lines: seq<string>): seq<Entry> {
    if lines == [] then []
    else
      var before, last := lines[..|lines| - 1], lines[|lines| - 1];
      var area, parsed := AreaAfter(before), ParseEntry(last);
      EntriesOf(before) +
      if IsHeader(last) || area == "" || !LooksLikeEntry(last) || parsed.None? then []
      else [Entry(area, parsed.value.0, parsed.value.1)]
  }

  /** The named areas of the entries of one issue, in order. */
  function AreasOf(entries: seq<Entry>, number: int): seq<string> {
    if entries == [] then []
    else
      var last := entries[|entries| - 1];
      AreasOf(entries[..|entries| - 1], number) +
      if last.number == number && last.area != "(unlabeled)" then [last.area] else []
  }

  /** The issue numbers, each where it first appears. */
  function NumbersOf(entries: seq<Entry>): seq<int> {
    if entries == [] then []
    else
      var before, last := NumbersOf(entries[..|entries| - 1]), entries[|entries| - 1].number;
      if last in before then before else before + [last]
  }

  /** The count of the first entry of an issue. */
  ghost predicate CountsFirst(entries: seq<Entry>, number: int, count: int) {
    exists i :: 0 <= i < |entries| && entries[i].number == number && entries[i].count == count &&
                forall j | 0 <= j < i :: entries[j].number != number
  }

  ghost predicate Gathers(p: Parser, entries: seq<Entry>) {
    && p.order == NumbersOf(entries)
    && (forall n :: n in p.magnets <==> n in p.order)
    && (forall n | n in p.magnets ::
          && p.magnets[n].number == n && p.magnets[n].areas == AreasOf(entries, n)
          && CountsFirst(entries, n, p.magnets[n].count))
  }

  lemma CountsOn(entries: seq<Entry>, e: Entry, n: int, count: int)
    requires CountsFirst(entries, n, count)
    ensures CountsFirst(entries + [e], n, count)
  {
    var i :| 0 <= i < |entries| && entries[i].number == n && entries[i].count == count &&
             forall j | 0 <= j < i :: entries[j].number != n;
    var all := entries + [e];
    assert all[i] == entries[i] && forall j | 0 <= j < i :: all[j] == entries[j];
  }

  lemma {:induction false} NumbersExactly(entries: seq<Entry>, n: int)
    ensures n in NumbersOf(entries) <==> exists i :: 0 <= i < |entries| && entries[i].number == n
  {
    if entries != [] {
      var before := entries[..|entries| - 1];
      NumbersExactly(before, n);
      if i :| 0 <= i < |before| && before[i].number == n {
        assert entries[i].number == n;
      }
    }
  }

  lemma NoAreasYet(entries: seq<Entry>, n: int)
    requires forall i | 0 <= i < |entries| :: entries[i].number != n
    ensures AreasOf(entries, n) == []
  {
  }

  lemma RecordGathers(p: Parser, entries: seq<Entry>, e: Entry)
    requires Gathers(p, entries) && e.area == p.area
    ensures Gathers(Record(p, e.count, e.number), entries + [e])
  {
    var all, p' := entries + [e], Record(p, e.count, e.number);
    assert all[..|entries|] == entries;
    NumbersExactly(entries, e.number);
    forall n | n in p'.magnets
      ensures p'.magnets[n].number == n && p'.magnets[n].areas == AreasOf(all, n)
      ensures CountsFirst(all, n, p'.magnets[n].count)
    {
      if n in p.magnets {
        CountsOn(entries, e, n, p.magnets[n].count);
      } else {
        NoAreasYet(entries, n);
        assert all[|entries|] == e;
      }
    }
  }

  lemma LineOn(lines: seq<string>, line: string)
    ensures AreaAfter(lines + [line]) == if IsHeader(line) then Strip(line[3..]) else AreaAfter(lines)
    ensures var area, parsed := AreaAfter(lines), ParseEntry(line);
            EntriesOf(lines + [line]) ==
            if IsHeader(line) || area == "" || !LooksLikeEntry(line) || parsed.None? then EntriesOf(lines)
            else EntriesOf(lines) + [Entry(area, parsed.value.0, parsed.value.1)]
  {
    var all := lines + [line];
    assert all[..|all| - 1] == lines && all[|all| - 1] == line;
    assert EntriesOf(lines) + [] == EntriesOf(lines);
  }

  lemma LineParsed(p: Parser, line: string)
    ensures ParseLine(p, line) ==
            if IsHeader(line) then p.(area := Strip(line[3..]))
            else if p.area == "" || !LooksLikeEntry(line) || ParseEntry(line).None? then p
            else Record(p, ParseEntry(line).value.0, ParseEntry(line).value.1)
  {
    assert "## " <= line <==> IsHeader(line);
  }

  lemma LineGathers(p: Parser, lines: seq<string>, line: string)
    requires p.area == AreaAfter(lines) && Gathers(p, EntriesOf(lines))
    ensures ParseLine(p, line).area == AreaAfter(lines + [line])
    ensures Gathers(ParseLine(p, line), EntriesOf(lines + [line]))
  {
    LineOn(lines, line);
    LineParsed(p, line);
    if !IsHeader(line) && p.area != "" && LooksLikeEntry(line) && ParseEntry(line).Some? {
      var (count, number) := ParseEntry(line).value;
      RecordGathers(p, EntriesOf(lines), Entry(p.area, count, number));
    }
  }

  /** Whatever the text, each issue is gathered once, with its first count and the areas of its entries in order. */
  lemma {:induction false} ParserGathers(lines: seq<string>)
    ensures var p := ParseLines(NOTHING, lines); p.area == AreaAfter(lines) && Gathers(p, EntriesOf(lines))
  {
    if lines != [] {
      var before, last := lines[..|lines| - 1], lines[|lines| - 1];
      assert lines == before + [last];
      ParserGathers(before);
      LineGathers(ParseLines(NOTHING, before), before, last);
    }
  }
}
