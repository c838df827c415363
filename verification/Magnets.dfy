/**
  The duplicate-magnet list: script/github-find-top-duplicated-bugs.py prints it
  as text and script/github-check-new-issue-for-duplicates.py parses it back.
 */
module Magnets {
  import opened Text

  const UNLABELED: string := "(unlabeled)"
  const INTRO: string :=
    "These are the issues " + ("that are frequently " + ("re-reported. The list " +
    ("is generated regularly " + "by running a script.")))
  const HOST: string := "https://" + ("github.com" + ("/zed-industries" + "/zed"))
  const MARK: string := "/issues/"

  datatype Info = Info(number: nat, url: string, areas: seq<string>, count: nat)

  datatype Magnet = Magnet(number: int, areas: seq<string>, count: int)

  // ---------------------------------------------------------------------------
  // Printing
  // ---------------------------------------------------------------------------

  /** `{count:2d}`. */
  function Padded(n: nat): string {
    if n < 10 then " " + Decimal(n) else Decimal(n)
  }

  function EntryLine(info: Info): string {
    "-   [" + (Padded(info.count) + (" dupes] " + info.url))
  }

  type Pair = (string, Info)

  /** The pairs (area, issue) in the order the printer meets them. */
  function Pairs(infos: seq<Info>): seq<Pair> {
    if infos == [] then [] else Pairs(infos[..|infos| - 1]) + PairsOf(infos[|infos| - 1], |infos[|infos| - 1].areas|)
  }

  function PairsOf(info: Info, n: nat): (ps: seq<Pair>)
    requires n <= |info.areas|
    ensures |ps| == n && forall i | 0 <= i < n :: ps[i] == (info.areas[i], info)
  {
    if n == 0 then [] else PairsOf(info, n - 1) + [(info.areas[n - 1], info)]
  }

  /** The distinct areas in the order of their first appearance. */
  function Areas(pairs: seq<Pair>): seq<string> {
    if pairs == [] then []
    else
      var before := Areas(pairs[..|pairs| - 1]);
      var last := pairs[|pairs| - 1];
      if last.0 in before then before else before + [last.0]
  }

  function Group(pairs: seq<Pair>, area: string): seq<Info> {
    if pairs == [] then []
    else
      var last := pairs[|pairs| - 1];
      Group(pairs[..|pairs| - 1], area) + if last.0 == area then [last.1] else []
  }

  function Total(pairs: seq<Pair>, area: string): nat {
    if pairs == [] then 0
    else
      var last := pairs[|pairs| - 1];
      Total(pairs[..|pairs| - 1], area) + if last.0 == area then last.1.count else 0
  }

  function EntryLines(infos: seq<Info>): seq<string> {
    if infos == [] then [] else EntryLines(infos[..|infos| - 1]) + [EntryLine(infos[|infos| - 1])]
  }

  function SectionLines(area: string, infos: seq<Info>): seq<string> {
    ["", "## " + area, ""] + EntryLines(SortDescending(infos, (i: Info) => i.count))
  }

  function SectionsLines(pairs: seq<Pair>, areas: seq<string>): seq<string> {
    if areas == [] then []
    else
      var last := areas[|areas| - 1];
      SectionsLines(pairs, areas[..|areas| - 1]) + SectionLines(last, Group(pairs, last))
  }

  function BodyLines(infos: seq<Info>): seq<string> {
    var pairs := Pairs(infos);
    [INTRO] + SectionsLines(pairs, SortDescending(Areas(pairs), (a: string) => Total(pairs, a)))
  }

  /** `build_markdown_body`: fill the dictionaries, then the lines. */
  method BuildBody(infos: seq<Info>) returns (body: string)
    ensures body == Join(BodyLines(infos))
  {
    var byArea, totals, areas := CollectAreas(infos);
    ghost var pairs := Pairs(infos);
    var ranked := RankAreas(totals, areas, pairs);
    var sections := PrintSections(byArea, ranked, pairs);
    body := Join([INTRO] + sections);
  }

  /** `area_totals.most_common()`. */
  method RankAreas(totals: map<string, nat>, areas: seq<string>, ghost pairs: seq<Pair>) returns (ranked: seq<string>)
    requires forall a | a in areas :: a in totals && totals[a] == Total(pairs, a)
    ensures ranked == SortDescending(areas, (a: string) => Total(pairs, a))
    ensures forall a | a in ranked :: a in areas
  {
    ranked := SortDescending(areas, (a: string) => if a in totals then totals[a] else 0);
    SameKeys(areas, (a: string) => if a in totals then totals[a] else 0, (a: string) => Total(pairs, a));
    forall a | a in ranked ensures a in areas {
      assert a in multiset(ranked);
    }
  }

  method PrintSections(byArea: map<string, seq<Info>>, ranked: seq<string>, ghost pairs: seq<Pair>)
    returns (lines: seq<string>)
    requires forall a | a in ranked :: a in byArea && byArea[a] == Group(pairs, a)
    ensures lines == SectionsLines(pairs, ranked)
  {
    lines := [];
    for i := 0 to |ranked|
      invariant lines == SectionsLines(pairs, ranked[..i])
    {
      assert ranked[i] in ranked;
      var section := PrintSection(ranked[i], byArea[ranked[i]]);
      assert ranked[..i + 1][..i] == ranked[..i];
      lines := lines + section;
    }
    assert ranked[..|ranked|] == ranked;
  }

  method PrintSection(area: string, infos: seq<Info>) returns (lines: seq<string>)
    ensures lines == SectionLines(area, infos)
  {
    var issues := SortDescending(infos, (x: Info) => x.count);
    lines := ["", "## " + area, ""];
    for k := 0 to |issues|
      invariant lines == ["", "## " + area, ""] + EntryLines(issues[..k])
    {
      assert issues[..k + 1][..k] == issues[..k];
      lines := lines + [EntryLine(issues[k])];
    }
    assert issues[..|issues|] == issues;
  }

  method CollectAreas(infos: seq<Info>)
    returns (byArea: map<string, seq<Info>>, totals: map<string, nat>, areas: seq<string>)
    ensures Collected(Pairs(infos), byArea, totals, areas)
  {
    byArea, totals, areas := map[], map[], [];
    for i := 0 to |infos|
      invariant Collected(Pairs(infos[..i]), byArea, totals, areas)
    {
      byArea, totals, areas := CollectInfo(infos[i], byArea, totals, areas, Pairs(infos[..i]));
      assert infos[..i + 1][..i] == infos[..i];
    }
    assert infos[..|infos|] == infos;
  }

  method CollectInfo(info: Info, byArea: map<string, seq<Info>>, totals: map<string, nat>, areas: seq<string>,
                     ghost before: seq<Pair>)
    returns (byArea': map<string, seq<Info>>, totals': map<string, nat>, areas': seq<string>)
    requires Collected(before, byArea, totals, areas)
    ensures Collected(before + PairsOf(info, |info.areas|), byArea', totals', areas')
  {
    byArea', totals', areas' := byArea, totals, areas;
    assert before + [] == before;
    for j := 0 to |info.areas|
      invariant Collected(before + PairsOf(info, j), byArea', totals', areas')
    {
      var area := info.areas[j];
      NextPairOf(before, info, j);
      byArea', totals', areas' := AddPair(byArea', totals', areas', area, info, before + PairsOf(info, j));
    }
  }

  lemma NextPairOf(before: seq<Pair>, info: Info, j: nat)
    requires j < |info.areas|
    ensures before + PairsOf(info, j + 1) == before + PairsOf(info, j) + [(info.areas[j], info)]
  {
  }

  method AddPair(byArea: map<string, seq<Info>>, totals: map<string, nat>, areas: seq<string>, area: string, info: Info,
                 ghost done: seq<Pair>)
    returns (byArea': map<string, seq<Info>>, totals': map<string, nat>, areas': seq<string>)
    requires Collected(done, byArea, totals, areas)
    ensures Collected(done + [(area, info)], byArea', totals', areas')
  {
    Collects(done, byArea, totals, areas, (area, info));
    byArea', totals', areas' := byArea, totals, areas;
    if area !in byArea {
      areas' := areas + [area];
      byArea' := byArea'[area := []];
      totals' := totals'[area := 0];
    }
    byArea' := byArea'[area := byArea'[area] + [info]];
    totals' := totals'[area := totals'[area] + info.count];
  }

  ghost predicate Grouped(done: seq<Pair>, byArea: map<string, seq<Info>>) {
    forall a | a in byArea :: byArea[a] == Group(done, a)
  }

  ghost predicate Totalled(done: seq<Pair>, totals: map<string, nat>) {
    forall a | a in totals :: totals[a] == Total(done, a)
  }

  /** What the two dictionaries hold after the pairs `done`. */
  ghost predicate Collected(
      done: seq<Pair>, byArea: map<string, seq<Info>>, totals: map<string, nat>, areas: seq<string>)
  {
    && areas == Areas(done)
    && (forall a :: a in areas <==> a in byArea) && byArea.Keys == totals.Keys
    && Grouped(done, byArea) && Totalled(done, totals)
  }

  lemma Groups(done: seq<Pair>, byArea: map<string, seq<Info>>, p: Pair)
    requires Grouped(done, byArea) && (p.0 !in byArea ==> Group(done, p.0) == [])
    ensures Grouped(done + [p], byArea[p.0 := (if p.0 in byArea then byArea[p.0] else []) + [p.1]])
  {
  }

  lemma Totals(done: seq<Pair>, totals: map<string, nat>, p: Pair)
    requires Totalled(done, totals) && (p.0 !in totals ==> Total(done, p.0) == 0)
    ensures Totalled(done + [p], totals[p.0 := (if p.0 in totals then totals[p.0] else 0) + p.1.count])
  {
  }

  lemma Collects(done: seq<Pair>, byArea: map<string, seq<Info>>, totals: map<string, nat>, areas: seq<string>, p: Pair)
    requires Collected(done, byArea, totals, areas)
    ensures Collected(done + [p],
                      byArea[p.0 := (if p.0 in byArea then byArea[p.0] else []) + [p.1]],
                      totals[p.0 := (if p.0 in totals then totals[p.0] else 0) + p.1.count],
                      if p.0 in byArea then areas else areas + [p.0])
  {
    if p.0 !in byArea {
      NoGroup(done, p.0);
    }
    Groups(done, byArea, p);
    Totals(done, totals, p);
  }

  lemma NoGroup(pairs: seq<Pair>, area: string)
    requires area !in Areas(pairs)
    ensures Group(pairs, area) == [] && Total(pairs, area) == 0
  {
  }

  lemma {:induction false} SameKeys<T>(xs: seq<T>, f: T -> int, g: T -> int)
    requires forall x | x in xs :: f(x) == g(x)
    ensures SortDescending(xs, f) == SortDescending(xs, g)
  {
    if xs != [] {
      SameKeys(xs[1..], f, g);
      var sorted := SortDescending(xs[1..], f);
      forall x | x in sorted ensures f(x) == g(x) {
        assert x in multiset(sorted);
      }
      SameInsert(xs[0], sorted, f, g);
    }
  }

  lemma SameInsert<T>(x: T, xs: seq<T>, f: T -> int, g: T -> int)
    requires f(x) == g(x) && forall y | y in xs :: f(y) == g(y)
    ensures InsertDescending(x, xs, f) == InsertDescending(x, xs, g)
  {
  }
}
