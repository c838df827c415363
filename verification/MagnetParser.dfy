/** Parsing of the duplicate-magnet list. */
module MagnetParser {
  import opened Wrappers
  import opened Text
  import opened Magnets

  /** Python's `int` on ASCII text: digits with single underscores between them. */
  function Natural(s: string): Option<nat> {
    if s == "" || !IsDigit(s[|s| - 1]) then None
    else
      var d := (s[|s| - 1] - '0') as int;
      if |s| == 1 then Some(d)
      else
        var prefix := Natural(if s[|s| - 2] == '_' then s[..|s| - 2] else s[..|s| - 1]);
        if prefix.None? then None else Some(10 * prefix.value + d)
  }

  function PyInt(s: string): Option<int> {
    var negative := s != "" && s[0] == '-';
    var digits := Natural(if s != "" && (s[0] == '-' || s[0] == '+') then s[1..] else s);
    if digits.None? then None
    else
      var value: int := digits.value;
      Some(if negative then -value else value)
  }

  /** The count and the number of an entry line, unless an exception skips it. */
  function ParseEntry(line: string): Option<(int, int)> {
    var bracketed := SecondPart(line, "[");
    if bracketed.None? then None
    else
      var countWord := FirstWord(bracketed.value);
      if countWord.None? then None
      else
        var count := PyInt(countWord.value);
        var tail := SecondPart(line, MARK);
        if count.None? || tail.None? then None
        else
          var numberWord := FirstWord(tail.value);
          if numberWord.None? then None
          else
            var number := PyInt(TrimEndOf(numberWord.value, ')'));
            if number.None? then None else Some((count.value, number.value))
  }

  /** The parser between two lines; no area yet is the empty name. `order` is the dictionary's insertion order. */
  datatype Parser = Parser(area: string, magnets: map<int, Magnet>, order: seq<int>)

  function Record(p: Parser, count: int, number: int): Parser {
    if number in p.magnets then
      if p.area == UNLABELED then p
      else
        var m := p.magnets[number];
        p.(magnets := p.magnets[number := m.(areas := m.areas + [p.area])])
    else
      var m := Magnet(number, if p.area == UNLABELED then [] else [p.area], count);
      p.(magnets := p.magnets[number := m], order := p.order + [number])
  }

  predicate IsEntry(p: Parser, line: string) {
    p.area != "" && line != "" && line[0] == '-' && Find(line, MARK).Some?
  }

  function ParseLine(p: Parser, line: string): Parser {
    if "## " <= line then p.(area := Strip(line[3..]))
    else if !IsEntry(p, line) then p
    else
      var entry := ParseEntry(line);
      if entry.None? then p else Record(p, entry.value.0, entry.value.1)
  }

  function ParseLines(p: Parser, lines: seq<string>): Parser {
    if lines == [] then p else ParseLine(ParseLines(p, lines[..|lines| - 1]), lines[|lines| - 1])
  }

  const NOTHING: Parser := Parser("", map[], [])

  function Listed(p: Parser, n: nat): seq<Magnet>
    requires n <= |p.order| && forall i | i in p.order :: i in p.magnets
  {
    if n == 0 then [] else Listed(p, n - 1) + [p.magnets[p.order[n - 1]]]
  }

  ghost predicate WellOrdered(p: Parser) {
    && (forall i | i in p.order :: i in p.magnets)
    && (forall n | n in p.magnets :: n in p.order)
    && (forall n | n in p.magnets :: p.magnets[n].number == n)
    && (forall i, j | 0 <= i < j < |p.order| :: p.order[i] != p.order[j])
  }

  lemma RecordKeepsOrder(p: Parser, count: int, number: int)
    requires WellOrdered(p)
    ensures WellOrdered(Record(p, count, number))
  {
    var p' := Record(p, count, number);
    if number !in p.magnets {
      assert p'.order == p.order + [number];
    } else {
      assert p'.order == p.order && p'.magnets.Keys == p.magnets.Keys;
    }
  }

  lemma LineKeepsOrder(p: Parser, line: string)
    requires WellOrdered(p)
    ensures WellOrdered(ParseLine(p, line))
  {
    var entry := ParseEntry(line);
    if entry.Some? {
      RecordKeepsOrder(p, entry.value.0, entry.value.1);
    }
  }

  /** The loop over the lines of the body. */
  method Gather(lines: seq<string>) returns (p: Parser)
    ensures p == ParseLines(NOTHING, lines) && WellOrdered(p)
  {
    p := NOTHING;
    for i := 0 to |lines|
      invariant p == ParseLines(NOTHING, lines[..i]) && WellOrdered(p)
    {
      assert lines[..i + 1][..i] == lines[..i];
      LineKeepsOrder(p, lines[i]);
      p := ParseLine(p, lines[i]);
    }
    assert lines[..|lines|] == lines;
  }

  /** `parse_duplicate_magnets` on the body of the tracking issue. */
  method ParseMagnets(body: string) returns (magnets: seq<Magnet>)
    ensures var end := ParseLines(NOTHING, SplitLines(body));
            WellOrdered(end) && magnets == SortDescending(Listed(end, |end.order|), (m: Magnet) => m.count)
  {
    var end := Gather(SplitLines(body));
    magnets := SortDescending(Listed(end, |end.order|), (m: Magnet) => m.count);
  }

  // ---------------------------------------------------------------------------
  // One line
  // ---------------------------------------------------------------------------

  lemma PyIntReadsDecimal(n: nat)
    ensures PyInt(Decimal(n)) == Some(n)
  {
    DecimalValue(n);
    assert IsDigit(Decimal(n)[0]);
  }

  lemma WordOfDigits(digits: string, rest: string)
    requires digits != "" && AllDigits(digits)
    requires rest == "" || IsSpace(rest[0])
    ensures FirstWord(digits + rest) == Some(digits)
    ensures FirstWord(" " + (digits + rest)) == Some(digits)
  {
    assert IsDigit(digits[0]);
    assert (digits + rest)[0] == digits[0];
    assert (" " + (digits + rest))[1..] == digits + rest;
    UntilSpaceStops(digits, rest);
  }

  lemma BracketOpens(tail: string)
    requires forall i | 0 <= i < |tail| :: tail[i] != '['
    ensures SecondPart("-   [" + tail, "[") == Some(tail)
  {
    var line := "-   [" + tail;
    assert line == "-   " + ("[" + tail);
    forall i | 0 <= i < 4 ensures !OccursAt("-   " + ("[" + tail), "[", i) {
      assert line[i..i + 1][0] == "-   "[i];
    }
    FindHere(tail, "[");
    FindSkips("-   ", "[" + tail, "[");
    assert line[5..] == tail;
    FindAbsent(tail, "[");
  }

  lemma WordOf(digits: string, rest: string, text: string)
    requires digits != "" && AllDigits(digits) && (rest == "" || IsSpace(rest[0]))
    requires text == digits + rest || text == " " + (digits + rest)
    ensures FirstWord(text) == Some(digits)
  {
    WordOfDigits(digits, rest);
  }

  lemma PaddedWord(n: nat, rest: string)
    requires rest == "" || IsSpace(rest[0])
    ensures FirstWord(Padded(n) + rest) == Some(Decimal(n))
  {
    WordOf(Decimal(n), rest, Padded(n) + rest);
  }

  /** No slash is followed by an "i". */
  predicate NoSlashI(s: string) {
    forall i | 0 <= i < |s| - 1 :: s[i] == '/' ==> s[i + 1] != 'i'
  }

  lemma HostHasNoMark()
    ensures NoSlashI(HOST) && HOST[|HOST| - 1] == 'd'
  {
  }

  lemma MarkBegins(s: string, i: nat)
    requires OccursAt(s, MARK, i)
    ensures i + 1 < |s| && s[i] == '/' && s[i + 1] == 'i'
  {
    assert s[i] == s[i..i + |MARK|][0] && s[i + 1] == s[i..i + |MARK|][1];
  }

  /** The mark does not begin before the host part ends. */
  lemma NoEarlierMark(front: string, host: string, digits: string, i: nat)
    requires '/' !in front && NoSlashI(host) && host != "" && host[|host| - 1] != '/' && i < |front + host|
    ensures !OccursAt(front + host + (MARK + digits), MARK, i)
  {
    var s := front + host + (MARK + digits);
    if i < |front| {
      assert s[i] == front[i];
    } else {
      var k := i - |front|;
      assert s[i] == host[k];
      if k + 1 < |host| {
        assert s[i + 1] == host[k + 1];
      }
    }
    if OccursAt(s, MARK, i) {
      MarkBegins(s, i);
    }
  }

  lemma NumberReadsBack(front: string, n: nat)
    requires '/' !in front
    ensures Find(front + HOST + (MARK + Decimal(n)), MARK).Some?
    ensures SecondPart(front + HOST + (MARK + Decimal(n)), MARK) == Some(Decimal(n))
  {
    var digits := Decimal(n);
    var a, b := front + HOST, MARK + digits;
    HostHasNoMark();
    forall i | 0 <= i < |a| ensures !OccursAt(a + b, MARK, i) {
      NoEarlierMark(front, HOST, digits, i);
    }
    FindHere(digits, MARK);
    FindSkips(a, b, MARK);
    assert (a + b)[|a| + |MARK|..] == digits;
    forall i | 0 <= i < |digits| ensures digits[i] != MARK[0] {
      assert IsDigit(digits[i]);
    }
    FindAbsent(digits, MARK);
  }

  lemma DigitsStandAlone(n: nat)
    ensures FirstWord(Decimal(n)) == Some(Decimal(n)) && TrimEndOf(Decimal(n), ')') == Decimal(n)
  {
    assert Decimal(n) + "" == Decimal(n);
    WordOfDigits(Decimal(n), "");
    assert IsDigit(Decimal(n)[|Decimal(n)| - 1]);
  }

  /** The printer writes the address GitHub gives an issue. */
  predicate HasIssueUrl(info: Info) {
    info.url == HOST + MARK + Decimal(info.number)
  }
}
