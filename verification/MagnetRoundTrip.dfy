/** What is printed is read back: the duplicate-magnet list survives its text form. */
module MagnetRoundTrip {
  import opened Wrappers
  import opened Text
  import opened Magnets
  import opened MagnetParser

  /** Area names that a header line can carry. */
  predicate IsAreaName(a: string) {
    a != "" && IsTrimmed(a) && OneLine(a)
  }

  predicate IsNamed(info: Info) {
    forall i | 0 <= i < |info.areas| :: IsAreaName(info.areas[i])
  }

  /** Every area can stand in a header line. */
  predicate Named(infos: seq<Info>) {
    forall i | 0 <= i < |infos| :: IsNamed(infos[i])
  }

  predicate IsPrintable(info: Info) {
    HasIssueUrl(info) && info.areas != []
  }

  /** What the printer is given: distinct issues, each with at least one area. */
  ghost predicate Printable(infos: seq<Info>) {
    && (forall i | 0 <= i < |infos| :: IsPrintable(infos[i]))
    && (forall i, j | 0 <= i < j < |infos| :: infos[i].number != infos[j].number)
  }

  // ---------------------------------------------------------------------------
  // Lines
  // ---------------------------------------------------------------------------

  lemma UrlIsPlain(n: nat)
    ensures var url := HOST + MARK + Decimal(n); '[' !in url && OneLine(url)
  {
    var url := HOST + MARK + Decimal(n);
    forall i | 0 <= i < |url| ensures url[i] != '[' && url[i] != '\n' {
      if i >= |HOST + MARK| {
        assert IsDigit(Decimal(n)[i - |HOST + MARK|]);
      }
    }
  }

  function Front(info: Info): string {
    "-   [" + (Padded(info.count) + " dupes] ")
  }

  lemma LineShape(info: Info)
    requires HasIssueUrl(info)
    ensures EntryLine(info) == Front(info) + HOST + (MARK + Decimal(info.number))
    ensures EntryLine(info) == Front(info) + info.url
  {
    var digits := Decimal(info.number);
    assert Front(info) + HOST + (MARK + digits) == Front(info) + (HOST + MARK + digits);
    assert EntryLine(info) == Front(info) + info.url;
  }

  lemma LineIsPlain(info: Info)
    requires HasIssueUrl(info)
    ensures EntryLine(info) != "" && EntryLine(info)[0] == '-' && OneLine(EntryLine(info))
  {
    LineShape(info);
    UrlIsPlain(info.number);
  }

  lemma NumberPart(info: Info)
    requires HasIssueUrl(info)
    ensures Find(EntryLine(info), MARK).Some? && SecondPart(EntryLine(info), MARK) == Some(Decimal(info.number))
  {
    LineShape(info);
    NumberReadsBack(Front(info), info.number);
  }

  /** An entry line reads back as the count and number it was printed from. */
  lemma EntryReadsBack(info: Info)
    requires HasIssueUrl(info)
    ensures ParseEntry(EntryLine(info)) == Some((info.count as int, info.number as int))
  {
    UrlIsPlain(info.number);
    BracketOpens(Padded(info.count) + (" dupes] " + info.url));
    PaddedWord(info.count, " dupes] " + info.url);
    NumberPart(info);
    PyIntReadsDecimal(info.count);
    DigitsStandAlone(info.number);
    PyIntReadsDecimal(info.number);
  }

  lemma EntryIsRecorded(p: Parser, info: Info)
    requires p.area != "" && HasIssueUrl(info)
    ensures ParseLine(p, EntryLine(info)) == Record(p, info.count, info.number)
  {
    EntryReadsBack(info);
    LineIsPlain(info);
    NumberPart(info);
  }

  function Fold<S, L>(step: (S, L) -> S, s: S, ls: seq<L>): S {
    if ls == [] then s else step(Fold(step, s, ls[..|ls| - 1]), ls[|ls| - 1])
  }

  lemma {:induction false} FoldConcat<S, L>(step: (S, L) -> S, s: S, a: seq<L>, b: seq<L>)
    ensures Fold(step, s, a + b) == Fold(step, Fold(step, s, a), b)
  {
    if b == [] {
      assert a + b == a;
    } else {
      FoldConcat(step, s, a, b[..|b| - 1]);
      assert (a + b)[..|a + b| - 1] == a + b[..|b| - 1];
    }
  }

  lemma ParseIsFold(p: Parser, lines: seq<string>)
    ensures ParseLines(p, lines) == Fold(ParseLine, p, lines)
  {
  }

  lemma ParseConcat(p: Parser, a: seq<string>, b: seq<string>)
    ensures ParseLines(p, a + b) == ParseLines(ParseLines(p, a), b)
  {
    FoldConcat(ParseLine, p, a, b);
    ParseIsFold(p, a);
    ParseIsFold(p, a + b);
    ParseIsFold(ParseLines(p, a), b);
  }

  // ---------------------------------------------------------------------------
  // What the parser has gathered
  // ---------------------------------------------------------------------------

  /** No two different issues share a number. */
  ghost predicate Consistent(pairs: set<Pair>) {
    forall x, y | x in pairs && y in pairs && x.1.number == y.1.number :: x.1 == y.1
  }

  ghost predicate Mentions(pairs: set<Pair>, n: int) {
    exists x | x in pairs :: x.1.number == n
  }

  ghost predicate Places(pairs: set<Pair>, a: string, n: int) {
    exists x | x in pairs :: x.0 == a && x.1.number == n
  }

  /** The magnets are those of `pairs`, with their counts and exactly their areas. */
  ghost predicate Reflects(p: Parser, pairs: set<Pair>) {
    && (forall n | n in p.magnets :: Mentions(pairs, n))
    && (forall x | x in pairs :: x.1.number in p.magnets && p.magnets[x.1.number].count == x.1.count)
    && (forall n, a | n in p.magnets :: a in p.magnets[n].areas <==> a != UNLABELED && Places(pairs, a, n))
  }

  lemma RecordReflects(p: Parser, pairs: set<Pair>, info: Info)
    requires Reflects(p, pairs) && Consistent(pairs + {(p.area, info)})
    ensures Reflects(Record(p, info.count, info.number), pairs + {(p.area, info)})
  {
    var x := (p.area, info);
    var all := pairs + {x};
    var p' := Record(p, info.count, info.number);
    assert x in all;
    forall n | n in p'.magnets ensures Mentions(all, n) {
      if n != info.number {
        assert Mentions(pairs, n);
      }
    }
    forall n, a | n in p'.magnets
      ensures a in p'.magnets[n].areas <==> a != UNLABELED && Places(all, a, n)
    {
      if n == info.number && n !in p.magnets {
        assert !Places(pairs, a, n);
      }
      assert Places(all, a, n) <==> Places(pairs, a, n) || (a == p.area && n == info.number);
    }
    forall y | y in all ensures y.1.number in p'.magnets && p'.magnets[y.1.number].count == y.1.count {
    }
  }

  ghost function With(area: string, infos: seq<Info>): set<Pair> {
    set i | 0 <= i < |infos| :: (area, infos[i])
  }

  lemma EntryReflects(p: Parser, pairs: set<Pair>, info: Info)
    requires p.area != "" && HasIssueUrl(info)
    requires Reflects(p, pairs) && Consistent(pairs + {(p.area, info)})
    ensures var p' := ParseLine(p, EntryLine(info)); p'.area == p.area && Reflects(p', pairs + {(p.area, info)})
  {
    EntryIsRecorded(p, info);
    RecordReflects(p, pairs, info);
  }

  lemma {:induction false} EntriesReflect(p: Parser, pairs: set<Pair>, infos: seq<Info>)
    requires p.area != "" && Reflects(p, pairs) && Consistent(pairs + With(p.area, infos))
    requires forall i | 0 <= i < |infos| :: HasIssueUrl(infos[i])
    ensures var p' := ParseLines(p, EntryLines(infos));
            p'.area == p.area && Reflects(p', pairs + With(p.area, infos))
  {
    if infos == [] {
      assert pairs + With(p.area, infos) == pairs;
    } else {
      var before, last := infos[..|infos| - 1], infos[|infos| - 1];
      var some, all := pairs + With(p.area, before), pairs + With(p.area, infos);
      assert With(p.area, infos) == With(p.area, before) + {(p.area, last)};
      assert all == some + {(p.area, last)};
      EntriesReflect(p, pairs, before);
      EntryReflects(ParseLines(p, EntryLines(before)), some, last);
    }
  }

  lemma BlankIsIgnored(p: Parser)
    ensures ParseLine(p, "") == p
  {
  }

  lemma HeadSetsArea(p: Parser, area: string)
    requires IsAreaName(area)
    ensures ParseLines(p, ["", "## " + area, ""]) == p.(area := area)
  {
    var head := ["", "## " + area, ""];
    assert head[..2] == ["", "## " + area] && head[..2][..1] == [""] && [""][..0] == [];
    BlankIsIgnored(p);
    BlankIsIgnored(p.(area := area));
    assert ParseLines(p, [""]) == p;
    assert ParseLines(p, head[..2]) == p.(area := area);
  }

  lemma SectionReflects(p: Parser, pairs: set<Pair>, area: string, infos: seq<Info>)
    requires IsAreaName(area) && Reflects(p, pairs) && Consistent(pairs + With(area, infos))
    requires forall i | 0 <= i < |infos| :: HasIssueUrl(infos[i])
    ensures Reflects(ParseLines(p, ["", "## " + area, ""] + EntryLines(infos)), pairs + With(area, infos))
  {
    HeadSetsArea(p, area);
    ParseConcat(p, ["", "## " + area, ""], EntryLines(infos));
    EntriesReflect(p.(area := area), pairs, infos);
  }

  // ---------------------------------------------------------------------------
  // The whole body
  // ---------------------------------------------------------------------------

  lemma GroupMembers(pairs: seq<Pair>, area: string, info: Info)
    ensures info in Group(pairs, area) <==> (area, info) in pairs
  {
  }

  lemma AreaMembers(pairs: seq<Pair>, x: Pair)
    requires x in pairs
    ensures x.0 in Areas(pairs)
  {
  }

  ghost function Elements(pairs: seq<Pair>): set<Pair> {
    set x | x in pairs
  }

  ghost function InAreas(pairs: seq<Pair>, areas: seq<string>): set<Pair> {
    set x | x in pairs && x.0 in areas
  }

  lemma SortedWith(pairs: seq<Pair>, area: string)
    ensures With(area, SortDescending(Group(pairs, area), (i: Info) => i.count)) == set x | x in pairs && x.0 == area
    ensures forall i | i in SortDescending(Group(pairs, area), (i: Info) => i.count) :: (area, i) in pairs
  {
    var group := Group(pairs, area);
    var sorted := SortDescending(group, (i: Info) => i.count);
    forall info ensures info in sorted <==> (area, info) in pairs {
      GroupMembers(pairs, area, info);
      assert info in sorted <==> info in multiset(sorted);
      assert info in group <==> info in multiset(group);
    }
    var want := set x | x in pairs && x.0 == area;
    forall x | x in want ensures x in With(area, sorted) {
      assert x.1 in sorted;
      var i :| 0 <= i < |sorted| && sorted[i] == x.1;
      assert x == (area, sorted[i]);
    }
    forall x | x in With(area, sorted) ensures x in want {
      assert x.1 in sorted;
    }
  }

  lemma NextSection(pairs: seq<Pair>, before: seq<string>, last: string, p: Parser)
    requires Consistent(Elements(pairs)) && IsAreaName(last)
    requires forall x | x in pairs :: HasIssueUrl(x.1)
    requires Reflects(p, InAreas(pairs, before))
    ensures Reflects(ParseLines(p, SectionLines(last, Group(pairs, last))), InAreas(pairs, before + [last]))
  {
    var sorted := SortDescending(Group(pairs, last), (i: Info) => i.count);
    SortedWith(pairs, last);
    SectionPairs(pairs, before, last, sorted);
    SectionReflects(p, InAreas(pairs, before), last, sorted);
  }

  lemma SectionPairs(pairs: seq<Pair>, before: seq<string>, last: string, infos: seq<Info>)
    requires Consistent(Elements(pairs))
    requires forall x | x in pairs :: HasIssueUrl(x.1)
    requires forall i | i in infos :: (last, i) in pairs
    requires With(last, infos) == set x | x in pairs && x.0 == last
    ensures forall i | 0 <= i < |infos| :: HasIssueUrl(infos[i])
    ensures InAreas(pairs, before + [last]) == InAreas(pairs, before) + With(last, infos)
    ensures Consistent(InAreas(pairs, before + [last]))
  {
    forall i | 0 <= i < |infos| ensures HasIssueUrl(infos[i]) {
      assert (last, infos[i]) in pairs;
    }
  }

  lemma {:induction false} SectionsReflect(pairs: seq<Pair>, areas: seq<string>, p: Parser)
    requires p.magnets == map[] && Consistent(Elements(pairs))
    requires forall i | 0 <= i < |areas| :: IsAreaName(areas[i])
    requires forall x | x in pairs :: HasIssueUrl(x.1)
    ensures Reflects(ParseLines(p, SectionsLines(pairs, areas)), InAreas(pairs, areas))
  {
    if areas != [] {
      var before, last := areas[..|areas| - 1], areas[|areas| - 1];
      assert areas == before + [last];
      SectionsReflect(pairs, before, p);
      NextSection(pairs, before, last, ParseLines(p, SectionsLines(pairs, before)));
      ParseConcat(p, SectionsLines(pairs, before), SectionLines(last, Group(pairs, last)));
    }
  }

  // ---------------------------------------------------------------------------
  // The round trip
  // ---------------------------------------------------------------------------

  lemma PairMembers(infos: seq<Info>, x: Pair)
    ensures x in Pairs(infos) <==> x.1 in infos && x.0 in x.1.areas
  {
  }

  lemma PairFacts(infos: seq<Info>)
    requires Printable(infos) && Named(infos)
    ensures Consistent(Elements(Pairs(infos)))
    ensures forall x | x in Pairs(infos) :: HasIssueUrl(x.1) && IsAreaName(x.0)
  {
    forall x | x in Pairs(infos) ensures x.1 in infos && x.0 in x.1.areas {
      PairMembers(infos, x);
    }
    forall x | x in Pairs(infos) ensures HasIssueUrl(x.1) && IsAreaName(x.0) {
      var i :| 0 <= i < |infos| && infos[i] == x.1;
      assert IsPrintable(infos[i]) && IsNamed(infos[i]);
    }
  }

  /** The ranked areas are exactly the areas that occur. */
  lemma RankedAreas(pairs: seq<Pair>, ranked: seq<string>)
    requires multiset(ranked) == multiset(Areas(pairs))
    ensures InAreas(pairs, ranked) == Elements(pairs)
    ensures forall a | a in ranked :: exists x :: x in pairs && x.0 == a
  {
    forall x | x in pairs ensures x.0 in ranked {
      AreaMembers(pairs, x);
      assert x.0 in multiset(Areas(pairs));
    }
    forall a | a in ranked ensures exists x :: x in pairs && x.0 == a {
      assert a in multiset(ranked);
      AreaHasPair(pairs, a);
    }
  }

  lemma AreaHasPair(pairs: seq<Pair>, a: string)
    requires a in Areas(pairs)
    ensures exists x :: x in pairs && x.0 == a
  {
  }

  lemma IntroIsIgnored(p: Parser)
    ensures ParseLine(p, INTRO) == p && OneLine(INTRO)
  {
    var a, b, c := "These are the issues ", "that are frequently ", "re-reported. The list ";
    var d, e := "is generated regularly ", "by running a script.";
    OneLineConcat(d, e);
    OneLineConcat(c, d + e);
    OneLineConcat(b, c + (d + e));
    OneLineConcat(a, b + (c + (d + e)));
    assert INTRO == a + (b + (c + (d + e)));
    StartsOtherwise(p, INTRO);
  }

  lemma OneLineConcat(a: string, b: string)
    requires OneLine(a) && OneLine(b)
    ensures OneLine(a + b)
  {
  }

  lemma StartsOtherwise(p: Parser, line: string)
    requires line != "" && line[0] == 'T'
    ensures ParseLine(p, line) == p
  {
  }

  /** Parsing the printed lines gathers exactly the printed pairs, if their areas are named. */
  lemma NamedBodyReflects(infos: seq<Info>)
    requires Printable(infos) && Named(infos)
    ensures Reflects(ParseLines(NOTHING, BodyLines(infos)), Elements(Pairs(infos)))
  {
    var pairs := Pairs(infos);
    var ranked := SortDescending(Areas(pairs), (a: string) => Total(pairs, a));
    PairFacts(infos);
    RankedAreas(pairs, ranked);
    forall i | 0 <= i < |ranked| ensures IsAreaName(ranked[i]) {
      assert ranked[i] in ranked;
    }
    IntroIsIgnored(NOTHING);
    assert [INTRO][..0] == [];
    assert ParseLines(NOTHING, [INTRO]) == NOTHING;
    ParseConcat(NOTHING, [INTRO], SectionsLines(pairs, ranked));
    SectionsReflect(pairs, ranked, NOTHING);
  }

  predicate Plain(lines: seq<string>) {
    forall i | 0 <= i < |lines| :: OneLine(lines[i])
  }

  lemma {:induction false} EntryLinesPlain(infos: seq<Info>)
    requires forall i | 0 <= i < |infos| :: HasIssueUrl(infos[i])
    ensures Plain(EntryLines(infos))
  {
    if infos != [] {
      EntryLinesPlain(infos[..|infos| - 1]);
      LineIsPlain(infos[|infos| - 1]);
    }
  }

  lemma SectionLinesPlain(area: string, infos: seq<Info>)
    requires IsAreaName(area) && forall i | i in infos :: HasIssueUrl(i)
    ensures Plain(SectionLines(area, infos))
  {
    var sorted := SortDescending(infos, (i: Info) => i.count);
    forall i | 0 <= i < |sorted| ensures HasIssueUrl(sorted[i]) {
      assert sorted[i] in multiset(sorted);
    }
    EntryLinesPlain(sorted);
    assert OneLine("## " + area);
  }

  lemma {:induction false} SectionsLinesPlain(pairs: seq<Pair>, areas: seq<string>)
    requires forall i | 0 <= i < |areas| :: IsAreaName(areas[i])
    requires forall x | x in pairs :: HasIssueUrl(x.1)
    ensures Plain(SectionsLines(pairs, areas))
  {
    if areas != [] {
      var last := areas[|areas| - 1];
      SectionsLinesPlain(pairs, areas[..|areas| - 1]);
      forall i | i in Group(pairs, last) ensures HasIssueUrl(i) {
        GroupMembers(pairs, last, i);
      }
      SectionLinesPlain(last, Group(pairs, last));
    }
  }

  lemma BodyLinesPlain(infos: seq<Info>)
    requires Printable(infos) && Named(infos)
    ensures Plain(BodyLines(infos))
  {
    var pairs := Pairs(infos);
    var ranked := SortDescending(Areas(pairs), (a: string) => Total(pairs, a));
    PairFacts(infos);
    RankedAreas(pairs, ranked);
    forall i | 0 <= i < |ranked| ensures IsAreaName(ranked[i]) {
      assert ranked[i] in ranked;
    }
    SectionsLinesPlain(pairs, ranked);
    IntroIsIgnored(NOTHING);
  }

  /** A parsed magnet stands for a printed issue: number, count, and areas without the unlabeled marker. */
  ghost predicate StandsFor(m: Magnet, info: Info) {
    && m.number == info.number && m.count == info.count
    && forall a :: a in m.areas <==> a in info.areas && a != UNLABELED
  }

  lemma ReflectedMagnet(p: Parser, infos: seq<Info>, info: Info)
    requires Printable(infos) && info in infos && WellOrdered(p)
    requires Reflects(p, Elements(Pairs(infos)))
    ensures info.number in p.magnets && StandsFor(p.magnets[info.number], info)
  {
    var pairs := Elements(Pairs(infos));
    var k :| 0 <= k < |infos| && infos[k] == info;
    assert IsPrintable(infos[k]);
    var x := (info.areas[0], info);
    PairMembers(infos, x);
    assert x in pairs;
    var m := p.magnets[info.number];
    forall a ensures a in m.areas <==> a in info.areas && a != UNLABELED {
      assert a in m.areas <==> a != UNLABELED && Places(pairs, a, info.number);
      PairMembers(infos, (a, info));
      if Places(pairs, a, info.number) {
        var y :| y in pairs && y.0 == a && y.1.number == info.number;
        PairMembers(infos, y);
        var j :| 0 <= j < |infos| && infos[j] == y.1;
        assert y.1 == info;
      }
      assert a in info.areas ==> (a, info) in pairs;
    }
  }

  lemma ListedMembers(p: Parser, n: nat)
    requires WellOrdered(p) && n <= |p.order|
    ensures |Listed(p, n)| == n
    ensures forall i | 0 <= i < n :: Listed(p, n)[i] == p.magnets[p.order[i]]
  {
  }

  ghost predicate HasMagnet(magnets: seq<Magnet>, info: Info) {
    exists m :: m in magnets && StandsFor(m, info)
  }

  ghost predicate HasIssue(infos: seq<Info>, m: Magnet) {
    exists info :: info in infos && StandsFor(m, info)
  }

  /** The parsed list: every printed issue, nothing else, the most duplicated first. */
  ghost predicate Recovers(magnets: seq<Magnet>, infos: seq<Info>) {
    && Descending(magnets, (m: Magnet) => m.count)
    && |magnets| == |infos|
    && (forall info {:trigger HasMagnet(magnets, info)} | info in infos :: HasMagnet(magnets, info))
    && (forall m {:trigger HasIssue(infos, m)} | m in magnets :: HasIssue(infos, m))
  }

  lemma {:induction false} DistinctLength(s: seq<int>)
    requires forall i, j | 0 <= i < j < |s| :: s[i] != s[j]
    ensures |set x | x in s| == |s|
  {
    if s != [] {
      var before, last := s[..|s| - 1], s[|s| - 1];
      DistinctLength(before);
      assert s == before + [last];
      assert (set x | x in s) == (set x | x in before) + {last};
    }
  }

  function Numbers(infos: seq<Info>): (r: seq<int>)
    ensures |r| == |infos| && forall i | 0 <= i < |infos| :: r[i] == infos[i].number
  {
    if infos == [] then [] else Numbers(infos[..|infos| - 1]) + [infos[|infos| - 1].number]
  }

  lemma NumberIsListed(p: Parser, infos: seq<Info>, i: nat)
    requires Printable(infos) && WellOrdered(p) && i < |infos|
    requires Reflects(p, Elements(Pairs(infos)))
    ensures infos[i].number in p.order
  {
    ReflectedMagnet(p, infos, infos[i]);
  }

  lemma ListedIsNumber(p: Parser, infos: seq<Info>, n: int)
    requires WellOrdered(p) && n in p.order
    requires Reflects(p, Elements(Pairs(infos)))
    ensures n in Numbers(infos)
  {
    assert n in p.magnets && Mentions(Elements(Pairs(infos)), n);
    var x :| x in Elements(Pairs(infos)) && x.1.number == n;
    PairMembers(infos, x);
    var i :| 0 <= i < |infos| && infos[i] == x.1;
    assert Numbers(infos)[i] == n;
  }

  lemma SameElementsSameLength(a: seq<int>, b: seq<int>)
    requires forall i, j | 0 <= i < j < |a| :: a[i] != a[j]
    requires forall i, j | 0 <= i < j < |b| :: b[i] != b[j]
    requires forall n :: n in a <==> n in b
    ensures |a| == |b|
  {
    DistinctLength(a);
    DistinctLength(b);
    assert (set n | n in a) == (set n | n in b);
  }

  lemma SameNumbersSameLength(order: seq<int>, infos: seq<Info>)
    requires forall i, j | 0 <= i < j < |order| :: order[i] != order[j]
    requires forall i, j | 0 <= i < j < |infos| :: infos[i].number != infos[j].number
    requires forall i | 0 <= i < |infos| :: infos[i].number in order
    requires forall n | n in order :: n in Numbers(infos)
    ensures |order| == |infos|
  {
    SameElementsSameLength(Numbers(infos), order);
  }

  lemma AllNumbersListed(p: Parser, infos: seq<Info>)
    requires Printable(infos) && WellOrdered(p)
    requires Reflects(p, Elements(Pairs(infos)))
    ensures forall i | 0 <= i < |infos| :: infos[i].number in p.order
  {
    forall i | 0 <= i < |infos| ensures infos[i].number in p.order {
      NumberIsListed(p, infos, i);
    }
  }

  lemma AllListedAreNumbers(p: Parser, infos: seq<Info>)
    requires WellOrdered(p) && Reflects(p, Elements(Pairs(infos)))
    ensures forall n | n in p.order :: n in Numbers(infos)
  {
    forall n | n in p.order ensures n in Numbers(infos) {
      ListedIsNumber(p, infos, n);
    }
  }

  lemma SameNumbers(p: Parser, infos: seq<Info>)
    requires Printable(infos) && WellOrdered(p)
    requires Reflects(p, Elements(Pairs(infos)))
    ensures |p.order| == |infos|
    ensures forall n | n in p.order :: n in Numbers(infos)
  {
    AllNumbersListed(p, infos);
    AllListedAreNumbers(p, infos);
    SameNumbersSameLength(p.order, infos);
  }

  lemma IssueIsListed(p: Parser, infos: seq<Info>, info: Info, magnets: seq<Magnet>)
    requires Printable(infos) && WellOrdered(p) && info in infos
    requires Reflects(p, Elements(Pairs(infos)))
    requires multiset(magnets) == multiset(Listed(p, |p.order|))
    ensures HasMagnet(magnets, info)
  {
    var listed := Listed(p, |p.order|);
    ReflectedMagnet(p, infos, info);
    ListedMembers(p, |p.order|);
    var i :| 0 <= i < |p.order| && p.order[i] == info.number;
    assert listed[i] in multiset(listed);
    assert listed[i] in magnets && StandsFor(listed[i], info);
  }

  lemma ListedIsIssue(p: Parser, infos: seq<Info>, m: Magnet, magnets: seq<Magnet>)
    requires Printable(infos) && WellOrdered(p) && m in magnets
    requires Reflects(p, Elements(Pairs(infos)))
    requires multiset(magnets) == multiset(Listed(p, |p.order|))
    ensures HasIssue(infos, m)
  {
    var listed := Listed(p, |p.order|);
    ListedMembers(p, |p.order|);
    assert m in multiset(magnets);
    var i :| 0 <= i < |listed| && listed[i] == m;
    assert p.order[i] in p.order;
    ListedIsNumber(p, infos, p.order[i]);
    var k :| 0 <= k < |infos| && Numbers(infos)[k] == p.order[i];
    ReflectedMagnet(p, infos, infos[k]);
    assert StandsFor(m, infos[k]);
  }

  lemma SameSize<T>(a: seq<T>, b: seq<T>)
    requires multiset(a) == multiset(b)
    ensures |a| == |b|
  {
    assert |a| == |multiset(a)| == |multiset(b)| == |b|;
  }

  lemma ReflectingRecovers(p: Parser, infos: seq<Info>, magnets: seq<Magnet>)
    requires Printable(infos) && WellOrdered(p)
    requires Reflects(p, Elements(Pairs(infos)))
    requires magnets == SortDescending(Listed(p, |p.order|), (m: Magnet) => m.count)
    ensures Recovers(magnets, infos)
  {
    SortOrders(Listed(p, |p.order|), (m: Magnet) => m.count);
    SameSize(magnets, Listed(p, |p.order|));
    ListedMembers(p, |p.order|);
    SameNumbers(p, infos);
    forall info | info in infos ensures HasMagnet(magnets, info) {
      IssueIsListed(p, infos, info, magnets);
    }
    forall m | m in magnets ensures HasIssue(infos, m) {
      ListedIsIssue(p, infos, m, magnets);
    }
  }

  // ---------------------------------------------------------------------------
  // Names that are lost
  // ---------------------------------------------------------------------------

  /** Whatever text it reads, the parser stores only names that a header line can carry. */
  ghost predicate Tidy(p: Parser) {
    && IsTrimmed(p.area) && OneLine(p.area)
    && forall n, a | n in p.magnets && a in p.magnets[n].areas :: IsAreaName(a)
  }

  lemma StripIsTidy(s: string)
    requires OneLine(s)
    ensures IsTrimmed(Strip(s)) && OneLine(Strip(s))
  {
  }

  lemma RecordIsTidy(p: Parser, count: int, number: int)
    requires Tidy(p) && p.area != ""
    ensures Tidy(Record(p, count, number))
  {
  }

  lemma LineIsTidy(p: Parser, line: string)
    requires Tidy(p) && OneLine(line)
    ensures Tidy(ParseLine(p, line))
  {
    if "## " <= line {
      StripIsTidy(line[3..]);
    } else if IsEntry(p, line) && ParseEntry(line).Some? {
      RecordIsTidy(p, ParseEntry(line).value.0, ParseEntry(line).value.1);
    }
  }

  lemma {:induction false} LinesAreTidy(p: Parser, lines: seq<string>)
    requires Tidy(p) && forall i | 0 <= i < |lines| :: OneLine(lines[i])
    ensures Tidy(ParseLines(p, lines))
  {
    if lines != [] {
      LinesAreTidy(p, lines[..|lines| - 1]);
      LineIsTidy(ParseLines(p, lines[..|lines| - 1]), lines[|lines| - 1]);
    }
  }

  lemma ParsedIsTidy(body: string)
    ensures Tidy(ParseLines(NOTHING, SplitLines(body)))
  {
    SplitLinesPlain(body);
    LinesAreTidy(NOTHING, SplitLines(body));
  }

  lemma ReflectedIsNamed(p: Parser, infos: seq<Info>, k: nat, j: nat)
    requires Tidy(p) && k < |infos| && j < |infos[k].areas|
    requires Reflects(p, Elements(Pairs(infos)))
    ensures IsAreaName(infos[k].areas[j])
  {
    var a, info := infos[k].areas[j], infos[k];
    if a != UNLABELED {
      var x := (a, info);
      PairMembers(infos, x);
      assert x in Elements(Pairs(infos));
      assert Places(Elements(Pairs(infos)), a, info.number);
      assert a in p.magnets[info.number].areas;
    }
  }

  lemma ReflectedAreNamed(p: Parser, infos: seq<Info>)
    requires Tidy(p) && Reflects(p, Elements(Pairs(infos)))
    ensures Named(infos)
  {
    forall k | 0 <= k < |infos| ensures IsNamed(infos[k]) {
      forall j | 0 <= j < |infos[k].areas| ensures IsAreaName(infos[k].areas[j]) {
        ReflectedIsNamed(p, infos, k, j);
      }
    }
  }

  /** Parsing the printed body gathers exactly the printed pairs if and only if every area is named. */
  lemma BodyReflects(infos: seq<Info>)
    requires Printable(infos)
    ensures Reflects(ParseLines(NOTHING, SplitLines(Join(BodyLines(infos)))), Elements(Pairs(infos))) <==>
            Named(infos)
  {
    var body := Join(BodyLines(infos));
    var end := ParseLines(NOTHING, SplitLines(body));
    if Named(infos) {
      BodyLinesPlain(infos);
      SplitJoin(BodyLines(infos));
      NamedBodyReflects(infos);
    } else if Reflects(end, Elements(Pairs(infos))) {
      ParsedIsTidy(body);
      ReflectedAreNamed(end, infos);
    }
  }

  lemma ListedIsTidy(p: Parser, magnets: seq<Magnet>, m: Magnet, a: string)
    requires Tidy(p) && WellOrdered(p) && m in magnets && a in m.areas
    requires multiset(magnets) == multiset(Listed(p, |p.order|))
    ensures IsAreaName(a)
  {
    var listed := Listed(p, |p.order|);
    ListedMembers(p, |p.order|);
    assert m in multiset(magnets);
    var i :| 0 <= i < |listed| && listed[i] == m;
    assert p.order[i] in p.order;
  }

  lemma StandingIsNamed(p: Parser, magnets: seq<Magnet>, m: Magnet, info: Info)
    requires Tidy(p) && WellOrdered(p) && multiset(magnets) == multiset(Listed(p, |p.order|))
    requires m in magnets && StandsFor(m, info)
    ensures IsNamed(info)
  {
    forall j | 0 <= j < |info.areas| ensures IsAreaName(info.areas[j]) {
      if info.areas[j] != UNLABELED {
        assert info.areas[j] in m.areas;
        ListedIsTidy(p, magnets, m, info.areas[j]);
      }
    }
  }

  lemma RecoveredIsNamed(p: Parser, infos: seq<Info>, magnets: seq<Magnet>)
    requires Tidy(p) && WellOrdered(p) && multiset(magnets) == multiset(Listed(p, |p.order|))
    requires Recovers(magnets, infos)
    ensures Named(infos)
  {
    forall k | 0 <= k < |infos| ensures IsNamed(infos[k]) {
      assert HasMagnet(magnets, infos[k]);
      var m :| m in magnets && StandsFor(m, infos[k]);
      StandingIsNamed(p, magnets, m, infos[k]);
    }
  }

  /**
    What one script prints, the other reads back, if and only if every area name is not empty,
    trimmed, and one line.
   */
  method PrintAndParse(infos: seq<Info>) returns (magnets: seq<Magnet>)
    requires Printable(infos)
    ensures Recovers(magnets, infos) <==> Named(infos)
  {
    var body := BuildBody(infos);
    magnets := ParseMagnets(body);
    ghost var end := ParseLines(NOTHING, SplitLines(body));
    BodyReflects(infos);
    ParsedIsTidy(body);
    if Named(infos) {
      ReflectingRecovers(end, infos, magnets);
    } else if Recovers(magnets, infos) {
      RecoveredIsNamed(end, infos, magnets);
    }
  }

  lemma {:induction false} EntriesAreSkipped(p: Parser, infos: seq<Info>)
    requires p.area == "" && forall i | 0 <= i < |infos| :: HasIssueUrl(infos[i])
    ensures ParseLines(p, EntryLines(infos)) == p
  {
    if infos != [] {
      EntriesAreSkipped(p, infos[..|infos| - 1]);
      LineIsPlain(infos[|infos| - 1]);
    }
  }

  /** A section without a name is read as no section, wherever it stands, and all its entries are skipped. */
  lemma UnnamedAreaIsLost(p: Parser, infos: seq<Info>)
    requires forall i | i in infos :: HasIssueUrl(i)
    ensures ParseLines(p, SectionLines("", infos)) == p.(area := "")
  {
    var sorted := SortDescending(infos, (i: Info) => i.count);
    forall i | 0 <= i < |sorted| ensures HasIssueUrl(sorted[i]) {
      assert sorted[i] in multiset(sorted);
    }
    EmptyHead(p);
    EntriesAreSkipped(p.(area := ""), sorted);
    ParseConcat(p, ["", "## " + "", ""], EntryLines(sorted));
  }

  lemma EmptyHead(p: Parser)
    ensures ParseLines(p, ["", "## " + "", ""]) == p.(area := "")
  {
    var head := ["", "## " + "", ""];
    assert head[..2] == ["", "## " + ""] && head[..2][..1] == [""] && [""][..0] == [];
    assert ("## " + "")[3..] == "";
    BlankIsIgnored(p);
    BlankIsIgnored(p.(area := ""));
    assert ParseLines(p, [""]) == p;
    assert ParseLines(p, head[..2]) == p.(area := "");
  }
}
