/** The layout of the duplicate-magnet text: areas by their totals, issues by their counts. */
module MagnetBody {
  import opened Text
  import opened Magnets

  /** How often an issue counts for an area. */
  function Times(info: Info, area: string): nat {
    multiset(info.areas)[area]
  }

  /** The duplicates counted for an area over all issues. */
  function SumOf(infos: seq<Info>, area: string): nat {
    if infos == [] then 0
    else SumOf(infos[..|infos| - 1], area) + Times(infos[|infos| - 1], area) * infos[|infos| - 1].count
  }

  /** The issues that belong to an area. */
  function IssuesOf(infos: seq<Info>, area: string): multiset<Info> {
    if infos == [] then multiset{}
    else
      var last := infos[|infos| - 1];
      IssuesOf(infos[..|infos| - 1], area) + multiset{}[last := Times(last, area)]
  }

  lemma {:induction false} GroupConcat(a: seq<Pair>, b: seq<Pair>, area: string)
    ensures Group(a + b, area) == Group(a, area) + Group(b, area)
    ensures Total(a + b, area) == Total(a, area) + Total(b, area)
  {
    if b == [] {
      assert a + b == a;
    } else {
      assert (a + b)[..|a + b| - 1] == a + b[..|b| - 1];
      GroupConcat(a, b[..|b| - 1], area);
    }
  }

  lemma OneMorePair(info: Info, n: nat, next: nat, area: string)
    requires next == n + 1 && next <= |info.areas|
    ensures Group(PairsOf(info, next), area) ==
            Group(PairsOf(info, n), area) + if info.areas[n] == area then [info] else []
    ensures Total(PairsOf(info, next), area) ==
            Total(PairsOf(info, n), area) + if info.areas[n] == area then info.count else 0
  {
    var all := PairsOf(info, next);
    assert all == PairsOf(info, n) + [(info.areas[n], info)];
    assert all[..|all| - 1] == PairsOf(info, n);
  }

  lemma OneMoreTime(info: Info, n: nat, next: nat, area: string)
    requires next == n + 1 && next <= |info.areas|
    ensures multiset(info.areas[..next])[area] ==
            multiset(info.areas[..n])[area] + if info.areas[n] == area then 1 else 0
  {
    assert info.areas[..next] == info.areas[..n] + [info.areas[n]];
  }

  lemma Product(times: nat, count: nat)
    ensures (times + 1) * count == times * count + count
  {
  }

  lemma OneMoreIssue(list: seq<Info>, info: Info, times: nat)
    requires multiset(list) == multiset{}[info := times]
    ensures multiset(list + [info]) == multiset{}[info := times + 1]
  {
  }

  lemma {:induction false} GroupOfOne(info: Info, n: nat, area: string)
    requires n <= |info.areas|
    ensures multiset(Group(PairsOf(info, n), area)) == multiset{}[info := multiset(info.areas[..n])[area]]
  {
    if n > 0 {
      var before := n - 1;
      GroupOfOne(info, before, area);
      OneMorePair(info, before, n, area);
      OneMoreTime(info, before, n, area);
      OneMoreIssue(Group(PairsOf(info, before), area), info, multiset(info.areas[..before])[area]);
    }
  }

  lemma {:induction false} TotalOfOne(info: Info, n: nat, area: string)
    requires n <= |info.areas|
    ensures Total(PairsOf(info, n), area) == multiset(info.areas[..n])[area] * info.count
  {
    if n > 0 {
      var before := n - 1;
      TotalOfOne(info, before, area);
      OneMorePair(info, before, n, area);
      OneMoreTime(info, before, n, area);
      Product(multiset(info.areas[..before])[area], info.count);
    }
  }

  lemma {:induction false} GroupOfAll(infos: seq<Info>, area: string)
    ensures multiset(Group(Pairs(infos), area)) == IssuesOf(infos, area)
    ensures Total(Pairs(infos), area) == SumOf(infos, area)
  {
    if infos != [] {
      var before, last := infos[..|infos| - 1], infos[|infos| - 1];
      GroupOfAll(before, area);
      GroupConcat(Pairs(before), PairsOf(last, |last.areas|), area);
      GroupOfOne(last, |last.areas|, area);
      TotalOfOne(last, |last.areas|, area);
      assert last.areas[..|last.areas|] == last.areas;
    }
  }

  // ---------------------------------------------------------------------------
  // The layout
  // ---------------------------------------------------------------------------

  predicate IsNamed(infos: seq<Info>, area: string) {
    exists info | info in infos :: area in info.areas
  }

  /** Every area of some issue, once, by falling total. */
  ghost predicate AreasRanked(infos: seq<Info>, ranked: seq<string>) {
    && (forall a :: a in ranked <==> IsNamed(infos, a))
    && (forall i, j | 0 <= i < j < |ranked| :: ranked[i] != ranked[j])
    && (forall i, j | 0 <= i < j < |ranked| :: SumOf(infos, ranked[i]) >= SumOf(infos, ranked[j]))
  }

  /** Every issue of an area, by falling count. */
  ghost predicate IssuesRanked(infos: seq<Info>, area: string, issues: seq<Info>) {
    && multiset(issues) == IssuesOf(infos, area)
    && forall i, j | 0 <= i < j < |issues| :: issues[i].count >= issues[j].count
  }

  /** The sections of the areas, each with its issues. */
  function Printed(ranked: seq<string>, sections: seq<seq<Info>>): seq<string>
    requires |ranked| == |sections|
  {
    if ranked == [] then []
    else
      var n := |ranked| - 1;
      Printed(ranked[..n], sections[..n]) + (["", "## " + ranked[n], ""] + EntryLines(sections[n]))
  }

  ghost predicate IsBody(infos: seq<Info>, lines: seq<string>, ranked: seq<string>, sections: seq<seq<Info>>) {
    && |ranked| == |sections| && AreasRanked(infos, ranked)
    && (forall k | 0 <= k < |ranked| :: IssuesRanked(infos, ranked[k], sections[k]))
    && lines == [INTRO] + Printed(ranked, sections)
  }

  function SortedGroup(pairs: seq<Pair>, area: string): seq<Info> {
    SortDescending(Group(pairs, area), (i: Info) => i.count)
  }

  lemma GroupIsRanked(infos: seq<Info>, area: string)
    ensures IssuesRanked(infos, area, SortedGroup(Pairs(infos), area))
  {
    GroupOfAll(infos, area);
    SortOrders(Group(Pairs(infos), area), (i: Info) => i.count);
  }

  lemma {:induction false} SectionsArePrinted(pairs: seq<Pair>, ranked: seq<string>, sections: seq<seq<Info>>)
    requires |sections| == |ranked| && forall k | 0 <= k < |ranked| :: sections[k] == SortedGroup(pairs, ranked[k])
    ensures SectionsLines(pairs, ranked) == Printed(ranked, sections)
  {
    if ranked != [] {
      var n := |ranked| - 1;
      SectionsArePrinted(pairs, ranked[..n], sections[..n]);
    }
  }

  lemma {:induction false} AreasOnce(pairs: seq<Pair>)
    ensures forall i, j | 0 <= i < j < |Areas(pairs)| :: Areas(pairs)[i] != Areas(pairs)[j]
    ensures forall a :: a in Areas(pairs) <==> exists p :: p in pairs && p.0 == a
  {
    if pairs != [] {
      var before, last := pairs[..|pairs| - 1], pairs[|pairs| - 1];
      AreasOnce(before);
      assert pairs == before + [last];
    }
  }

  lemma {:induction false} PairsNamed(infos: seq<Info>, a: string)
    ensures (exists p :: p in Pairs(infos) && p.0 == a) <==> IsNamed(infos, a)
  {
    if infos != [] {
      var before, last := infos[..|infos| - 1], infos[|infos| - 1];
      PairsNamed(before, a);
      assert infos == before + [last];
      var ps := PairsOf(last, |last.areas|);
      if a in last.areas {
        var i :| 0 <= i < |last.areas| && last.areas[i] == a;
        assert ps[i] in ps && ps[i] in Pairs(infos);
      }
      if p :| p in ps && p.0 == a {
        var i :| 0 <= i < |ps| && ps[i] == p;
      }
    }
  }

  lemma SortedOnce(areas: seq<string>, ranked: seq<string>)
    requires multiset(ranked) == multiset(areas)
    requires forall i, j | 0 <= i < j < |areas| :: areas[i] != areas[j]
    ensures forall i, j | 0 <= i < j < |ranked| :: ranked[i] != ranked[j]
  {
    forall i, j | 0 <= i < j < |ranked| ensures ranked[i] != ranked[j] {
      if ranked[i] == ranked[j] {
        TwiceInBag(ranked, i, j);
        OnceInBag(areas, ranked[i]);
      }
    }
  }

  lemma TwiceInBag(xs: seq<string>, i: nat, j: nat)
    requires i < j < |xs| && xs[i] == xs[j]
    ensures multiset(xs)[xs[i]] >= 2
  {
    assert xs == xs[..j] + [xs[j]] + xs[j + 1..];
    assert xs[..j][i] == xs[i];
    assert xs[i] in multiset(xs[..j]);
  }

  lemma {:induction false} OnceInBag(xs: seq<string>, x: string)
    requires forall i, j | 0 <= i < j < |xs| :: xs[i] != xs[j]
    ensures multiset(xs)[x] <= 1
  {
    if xs != [] {
      var n := |xs| - 1;
      OnceInBag(xs[..n], x);
      assert xs == xs[..n] + [xs[n]];
      if xs[n] == x {
        assert x !in xs[..n];
        assert x !in multiset(xs[..n]);
      }
    }
  }

  lemma RankedNames(infos: seq<Info>, ranked: seq<string>, a: string)
    requires multiset(ranked) == multiset(Areas(Pairs(infos)))
    ensures a in ranked <==> IsNamed(infos, a)
  {
    AreasOnce(Pairs(infos));
    PairsNamed(infos, a);
    assert a in ranked <==> a in multiset(ranked);
    assert a in Areas(Pairs(infos)) <==> a in multiset(Areas(Pairs(infos)));
  }

  lemma RankedOrder(infos: seq<Info>, ranked: seq<string>, i: nat, j: nat)
    requires i < j < |ranked| && Descending(ranked, (a: string) => Total(Pairs(infos), a))
    ensures SumOf(infos, ranked[i]) >= SumOf(infos, ranked[j])
  {
    GroupOfAll(infos, ranked[i]);
    GroupOfAll(infos, ranked[j]);
  }

  lemma RankedByTotal(infos: seq<Info>, ranked: seq<string>)
    requires multiset(ranked) == multiset(Areas(Pairs(infos)))
    requires Descending(ranked, (a: string) => Total(Pairs(infos), a))
    ensures AreasRanked(infos, ranked)
  {
    AreasOnce(Pairs(infos));
    SortedOnce(Areas(Pairs(infos)), ranked);
    forall a ensures a in ranked <==> IsNamed(infos, a) {
      RankedNames(infos, ranked, a);
    }
    forall i, j | 0 <= i < j < |ranked| ensures SumOf(infos, ranked[i]) >= SumOf(infos, ranked[j]) {
      RankedOrder(infos, ranked, i, j);
    }
  }

  lemma SectionsAreRanked(infos: seq<Info>, ranked: seq<string>, sections: seq<seq<Info>>)
    requires |sections| == |ranked|
    requires forall k | 0 <= k < |ranked| :: sections[k] == SortedGroup(Pairs(infos), ranked[k])
    ensures forall k | 0 <= k < |ranked| :: IssuesRanked(infos, ranked[k], sections[k])
    ensures SectionsLines(Pairs(infos), ranked) == Printed(ranked, sections)
  {
    forall k | 0 <= k < |ranked| ensures IssuesRanked(infos, ranked[k], sections[k]) {
      GroupIsRanked(infos, ranked[k]);
    }
    SectionsArePrinted(Pairs(infos), ranked, sections);
  }

  /** The printed text is an introduction and one section per area, both ranked. */
  lemma BodyIsRanked(infos: seq<Info>)
    ensures exists ranked, sections :: IsBody(infos, BodyLines(infos), ranked, sections)
  {
    var pairs := Pairs(infos);
    var ranked := SortDescending(Areas(pairs), (a: string) => Total(pairs, a));
    var sections := seq(|ranked|, k requires 0 <= k < |ranked| => SortedGroup(pairs, ranked[k]));
    SortOrders(Areas(pairs), (a: string) => Total(pairs, a));
    RankedByTotal(infos, ranked);
    SectionsAreRanked(infos, ranked, sections);
    assert BodyLines(infos) == [INTRO] + SectionsLines(pairs, ranked);
    assert IsBody(infos, BodyLines(infos), ranked, sections);
  }
}
