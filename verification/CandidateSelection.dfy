/** Quota selection of search candidates (script/github-check-new-issue-for-duplicates.py). */
module CandidateSelection {

  datatype Candidate = Candidate(key: string, matched: set<string>)

  function Max(a: int, b: int): int { if a >= b then a else b }

  function Min(a: int, b: int): int { if a <= b then a else b }

  /** The retrieval channels with their reserved capacity. */
  function Reserved(limit: int): seq<(string, int)> {
    [("semantic_query", Max(2, limit / 3)),
     ("error_pattern", Max(1, limit / 10)),
     ("title_keywords", Max(1, limit / 6)),
     ("popular_area", Max(1, limit / 5)),
     ("area_label", Max(1, limit / 6))]
  }

  function Matching(candidates: seq<Candidate>, channel: string): seq<Candidate> {
    if candidates == [] then []
    else
      var rest := Matching(candidates[..|candidates| - 1], channel);
      var c := candidates[|candidates| - 1];
      if channel in c.matched then rest + [c] else rest
  }

  /** `matching[:quota]`. */
  function Top(candidates: seq<Candidate>, channel: string, quota: int): seq<Candidate>
    requires quota >= 0
  {
    var m := Matching(candidates, channel);
    m[..Min(quota, |m|)]
  }

  function Keys(cs: seq<Candidate>): set<string> {
    set c | c in cs :: c.key
  }

  function Add(selected: seq<Candidate>, c: Candidate, limit: int): seq<Candidate> {
    if c.key !in Keys(selected) && |selected| < limit then selected + [c] else selected
  }

  function AddAll(selected: seq<Candidate>, cs: seq<Candidate>, limit: int): seq<Candidate> {
    if cs == [] then selected
    else Add(AddAll(selected, cs[..|cs| - 1], limit), cs[|cs| - 1], limit)
  }

  /** The selection after the first `n` channels took their share. */
  function AfterReserved(candidates: seq<Candidate>, limit: int, n: nat): seq<Candidate>
    requires n <= 5
  {
    if n == 0 then []
    else
      var (channel, quota) := Reserved(limit)[n - 1];
      AddAll(AfterReserved(candidates, limit, n - 1), Top(candidates, channel, quota), limit)
  }

  function Select(candidates: seq<Candidate>, limit: int): seq<Candidate> {
    AddAll(AfterReserved(candidates, limit, 5), candidates, limit)
  }

  /** `select_search_candidates`, growing a list and a set of keys. */
  method SelectSearchCandidates(candidates: seq<Candidate>, limit: int) returns (selected: seq<Candidate>)
    ensures selected == Select(candidates, limit)
  {
    selected := [];
    var selectedKeys: set<string> := {};
    var reserved := Reserved(limit);
    for i := 0 to |reserved|
      invariant selected == AfterReserved(candidates, limit, i)
      invariant selectedKeys == Keys(selected)
    {
      var (channel, quota) := reserved[i];
      var top := Top(candidates, channel, quota);
      selected, selectedKeys := AddEach(selected, selectedKeys, top, limit);
    }
    selected, selectedKeys := AddEach(selected, selectedKeys, candidates, limit);
  }

  method AddEach(selected: seq<Candidate>, keys: set<string>, cs: seq<Candidate>, limit: int)
    returns (selected': seq<Candidate>, keys': set<string>)
    requires keys == Keys(selected)
    ensures selected' == AddAll(selected, cs, limit) && keys' == Keys(selected')
  {
    selected', keys' := selected, keys;
    for i := 0 to |cs|
      invariant selected' == AddAll(selected, cs[..i], limit)
      invariant keys' == Keys(selected')
    {
      assert cs[..i + 1][..i] == cs[..i];
      if cs[i].key !in keys' && |selected'| < limit {
        assert Keys(selected' + [cs[i]]) == Keys(selected') + {cs[i].key};
        selected' := selected' + [cs[i]];
        keys' := keys' + {cs[i].key};
      }
    }
    assert cs[..|cs|] == cs;
  }

  // ---------------------------------------------------------------------------
  // Distinct keys and size
  // ---------------------------------------------------------------------------

  predicate DistinctKeys(cs: seq<Candidate>) {
    forall i, j | 0 <= i < j < |cs| :: cs[i].key != cs[j].key
  }

  /** The outcome of adding `cs` to `selected`: keys stay distinct, and a key is skipped only when full. */
  ghost predicate Added(selected: seq<Candidate>, cs: seq<Candidate>, limit: int, r: seq<Candidate>) {
    && DistinctKeys(r) && |selected| <= |r| <= Max(limit, 0) && |r| <= |selected| + |cs|
    && Keys(selected) <= Keys(r) <= Keys(selected) + Keys(cs)
    && (|r| < limit || |selected| + |cs| <= limit ==> Keys(cs) <= Keys(r))
  }

  lemma KeysAppend(cs: seq<Candidate>, c: Candidate)
    ensures Keys(cs + [c]) == Keys(cs) + {c.key}
    ensures DistinctKeys(cs) && c.key !in Keys(cs) ==> DistinctKeys(cs + [c])
  {
  }

  lemma AddOne(selected: seq<Candidate>, cs: seq<Candidate>, c: Candidate, limit: int, mid: seq<Candidate>)
    requires Added(selected, cs, limit, mid)
    ensures Added(selected, cs + [c], limit, Add(mid, c, limit))
  {
    KeysAppend(cs, c);
    KeysAppend(mid, c);
  }

  lemma {:induction false} AddAllFacts(selected: seq<Candidate>, cs: seq<Candidate>, limit: int)
    requires DistinctKeys(selected) && |selected| <= Max(limit, 0)
    ensures Added(selected, cs, limit, AddAll(selected, cs, limit))
  {
    if cs != [] {
      var before, c := cs[..|cs| - 1], cs[|cs| - 1];
      AddAllFacts(selected, before, limit);
      AddOne(selected, before, c, limit, AddAll(selected, before, limit));
      assert cs == before + [c];
    }
  }

  lemma {:induction false} DistinctSize(cs: seq<Candidate>)
    requires DistinctKeys(cs)
    ensures |Keys(cs)| == |cs|
  {
    if cs != [] {
      var before, c := cs[..|cs| - 1], cs[|cs| - 1];
      DistinctSize(before);
      assert cs == before + [c];
      assert Keys(cs) == Keys(before) + {c.key};
      assert forall i | 0 <= i < |before| :: before[i].key != c.key;
    }
  }

  lemma {:induction false} MatchingIsCandidates(candidates: seq<Candidate>, channel: string)
    ensures Keys(Matching(candidates, channel)) <= Keys(candidates)
  {
    if candidates != [] {
      var before, c := candidates[..|candidates| - 1], candidates[|candidates| - 1];
      MatchingIsCandidates(before, channel);
      assert candidates == before + [c];
      KeysAppend(before, c);
      KeysAppend(Matching(before, channel), c);
    }
  }

  lemma {:induction false} AfterReservedFacts(candidates: seq<Candidate>, limit: int, n: nat)
    requires n <= 5
    ensures var r := AfterReserved(candidates, limit, n);
            DistinctKeys(r) && |r| <= Max(limit, 0) && Keys(r) <= Keys(candidates)
  {
    if n > 0 {
      AfterReservedFacts(candidates, limit, n - 1);
      var (channel, quota) := Reserved(limit)[n - 1];
      var top := Top(candidates, channel, quota);
      AddAllFacts(AfterReserved(candidates, limit, n - 1), top, limit);
      MatchingIsCandidates(candidates, channel);
      assert Keys(top) <= Keys(Matching(candidates, channel));
    }
  }

  /** No key twice, only candidates, and as many as the limit and the distinct keys allow. */
  lemma SelectionIsFull(candidates: seq<Candidate>, limit: int)
    ensures var r := Select(candidates, limit);
            && DistinctKeys(r) && Keys(r) <= Keys(candidates)
            && |r| == Min(Max(limit, 0), |Keys(candidates)|)
  {
    var r := Select(candidates, limit);
    AfterReservedFacts(candidates, limit, 5);
    AddAllFacts(AfterReserved(candidates, limit, 5), candidates, limit);
    DistinctSize(r);
    SubsetSize(Keys(r), Keys(candidates));
  }

  lemma SubsetSize(a: set<string>, b: set<string>)
    requires a <= b
    ensures |a| <= |b| && (|a| == |b| <==> a == b)
  {
    assert b == a + (b - a);
  }

  // ---------------------------------------------------------------------------
  // Reserved capacity
  // ---------------------------------------------------------------------------

  function QuotaSum(limit: int, n: nat): int
    requires n <= 5
  {
    if n == 0 then 0 else QuotaSum(limit, n - 1) + Reserved(limit)[n - 1].1
  }

  lemma QuotaSumIs(limit: int)
    ensures QuotaSum(limit, 5) ==
            Max(2, limit / 3) + Max(1, limit / 10) + Max(1, limit / 6) + Max(1, limit / 5) + Max(1, limit / 6)
  {
    assert QuotaSum(limit, 1) == Max(2, limit / 3);
    assert QuotaSum(limit, 3) == QuotaSum(limit, 2) + Max(1, limit / 6);
  }

  /** The quotas fit exactly from a limit of 6 on. */
  lemma QuotasFit(limit: int)
    ensures QuotaSum(limit, 5) <= limit <==> limit >= 6
  {
    QuotaSumIs(limit);
  }

  lemma {:induction false} QuotaSumGrows(limit: int, n: nat)
    requires n <= 5
    ensures 0 <= QuotaSum(limit, n) <= QuotaSum(limit, 5)
    decreases 5 - n
  {
    if n < 5 {
      QuotaSumGrows(limit, n + 1);
    }
    QuotaSumNonNegative(limit, n);
  }

  lemma QuotaSumNonNegative(limit: int, n: nat)
    requires n <= 5
    ensures 0 <= QuotaSum(limit, n)
  {
  }

  /** Every channel up to `n` has its share while the quotas fit. */
  lemma {:induction false} SharesKept(candidates: seq<Candidate>, limit: int, n: nat, k: nat)
    requires limit >= 6 && k < n <= 5
    ensures Keys(Top(candidates, Reserved(limit)[k].0, Reserved(limit)[k].1)) <=
            Keys(AfterReserved(candidates, limit, n))
  {
    var (channel, quota) := Reserved(limit)[n - 1];
    var before := AfterReserved(candidates, limit, n - 1);
    var top := Top(candidates, channel, quota);
    AfterReservedFacts(candidates, limit, n - 1);
    AddAllFacts(before, top, limit);
    if k < n - 1 {
      SharesKept(candidates, limit, n - 1, k);
    } else {
      ReservedSize(candidates, limit, n - 1);
      QuotasFit(limit);
      QuotaSumGrows(limit, n);
    }
  }

  lemma {:induction false} ReservedSize(candidates: seq<Candidate>, limit: int, n: nat)
    requires n <= 5
    ensures |AfterReserved(candidates, limit, n)| <= QuotaSum(limit, n)
  {
    if n > 0 {
      ReservedSize(candidates, limit, n - 1);
      AfterReservedFacts(candidates, limit, n - 1);
      var (channel, quota) := Reserved(limit)[n - 1];
      AddAllFacts(AfterReserved(candidates, limit, n - 1), Top(candidates, channel, quota), limit);
    }
  }

  ghost predicate HonoursTops(candidates: seq<Candidate>, limit: int) {
    forall k | 0 <= k < 5 ::
      Keys(Top(candidates, Reserved(limit)[k].0, Reserved(limit)[k].1)) <= Keys(Select(candidates, limit))
  }

  lemma TopsHonoured(candidates: seq<Candidate>, limit: int)
    requires limit >= 6
    ensures HonoursTops(candidates, limit)
  {
    AfterReservedFacts(candidates, limit, 5);
    AddAllFacts(AfterReserved(candidates, limit, 5), candidates, limit);
    forall k | 0 <= k < 5
      ensures Keys(Top(candidates, Reserved(limit)[k].0, Reserved(limit)[k].1)) <= Keys(Select(candidates, limit))
    {
      SharesKept(candidates, limit, 5, k);
    }
  }

  lemma {:induction false} MatchingConcat(a: seq<Candidate>, b: seq<Candidate>, channel: string)
    ensures Matching(a + b, channel) == Matching(a, channel) + Matching(b, channel)
  {
    if b == [] {
      assert a + b == a;
    } else {
      assert (a + b)[..|a + b| - 1] == a + b[..|b| - 1];
      MatchingConcat(a, b[..|b| - 1], channel);
    }
  }

  lemma MatchingFirst(c: Candidate, rest: seq<Candidate>, channel: string)
    ensures Matching([c] + rest, channel) == (if channel in c.matched then [c] else []) + Matching(rest, channel)
  {
    MatchingConcat([c], rest, channel);
    assert [c][..0] == [];
  }

  /** One candidate per channel, and a second one for the first channel. */
  function Spread(): seq<Candidate> {
    [Candidate("a", {"semantic_query"})] + ([Candidate("b", {"semantic_query"})] +
    ([Candidate("c", {"error_pattern"})] + ([Candidate("d", {"title_keywords"})] +
    ([Candidate("e", {"popular_area"})] + ([Candidate("f", {"area_label"})] + [])))))
  }

  lemma SpreadMatching(channel: string)
    ensures Matching(Spread(), channel) ==
            (if channel == "semantic_query" then [Candidate("a", {"semantic_query"})] else [])
            + ((if channel == "semantic_query" then [Candidate("b", {"semantic_query"})] else [])
            + ((if channel == "error_pattern" then [Candidate("c", {"error_pattern"})] else [])
            + ((if channel == "title_keywords" then [Candidate("d", {"title_keywords"})] else [])
            + ((if channel == "popular_area" then [Candidate("e", {"popular_area"})] else [])
            + ((if channel == "area_label" then [Candidate("f", {"area_label"})] else []) + [])))))
  {
    var f := [Candidate("f", {"area_label"})] + [];
    var e := [Candidate("e", {"popular_area"})] + f;
    var d := [Candidate("d", {"title_keywords"})] + e;
    var c := [Candidate("c", {"error_pattern"})] + d;
    var b := [Candidate("b", {"semantic_query"})] + c;
    MatchingFirst(Candidate("a", {"semantic_query"}), b, channel);
    MatchingFirst(Candidate("b", {"semantic_query"}), c, channel);
    MatchingFirst(Candidate("c", {"error_pattern"}), d, channel);
    MatchingFirst(Candidate("d", {"title_keywords"}), e, channel);
    MatchingFirst(Candidate("e", {"popular_area"}), f, channel);
    MatchingFirst(Candidate("f", {"area_label"}), [], channel);
  }

  lemma TopHolds(limit: int, k: nat, c: Candidate)
    requires k < 5 && c in Matching(Spread(), Reserved(limit)[k].0)
    requires |Matching(Spread(), Reserved(limit)[k].0)| <= Reserved(limit)[k].1
    requires HonoursTops(Spread(), limit)
    ensures c.key in Keys(Select(Spread(), limit))
  {
  }

  lemma SemanticShare(limit: int)
    requires limit < 6 && HonoursTops(Spread(), limit)
    ensures "a" in Keys(Select(Spread(), limit)) && "b" in Keys(Select(Spread(), limit))
  {
    var channel := "semantic_query";
    assert channel[0] != "title_keywords"[0];
    SpreadMatching(channel);
    assert Matching(Spread(), channel) == [Candidate("a", {channel}), Candidate("b", {channel})];
    TopHolds(limit, 0, Candidate("a", {channel}));
    TopHolds(limit, 0, Candidate("b", {channel}));
  }

  lemma OtherShare(limit: int, k: nat, c: Candidate)
    requires limit < 6 && HonoursTops(Spread(), limit) && 1 <= k < 5
    requires Matching(Spread(), Reserved(limit)[k].0) == [c]
    ensures c.key in Keys(Select(Spread(), limit))
  {
    TopHolds(limit, k, c);
  }

  lemma OtherMatches()
    ensures Matching(Spread(), "error_pattern") == [Candidate("c", {"error_pattern"})]
    ensures Matching(Spread(), "title_keywords") == [Candidate("d", {"title_keywords"})]
    ensures Matching(Spread(), "popular_area") == [Candidate("e", {"popular_area"})]
    ensures Matching(Spread(), "area_label") == [Candidate("f", {"area_label"})]
  {
    assert "semantic_query"[0] != "title_keywords"[0];
    SpreadMatching("error_pattern");
    SpreadMatching("title_keywords");
    SpreadMatching("popular_area");
    SpreadMatching("area_label");
  }

  lemma TopsBreakBelowSix(limit: int)
    requires limit < 6
    ensures !HonoursTops(Spread(), limit)
  {
    if HonoursTops(Spread(), limit) {
      var r := Select(Spread(), limit);
      SemanticShare(limit);
      OtherMatches();
      OtherShare(limit, 1, Candidate("c", {"error_pattern"}));
      OtherShare(limit, 2, Candidate("d", {"title_keywords"}));
      OtherShare(limit, 3, Candidate("e", {"popular_area"}));
      OtherShare(limit, 4, Candidate("f", {"area_label"}));
      SelectionIsFull(Spread(), limit);
      DistinctSize(r);
      SixKeys(Keys(r));
    }
  }

  lemma SixKeys(keys: set<string>)
    requires "a" in keys && "b" in keys && "c" in keys && "d" in keys && "e" in keys && "f" in keys
    ensures |keys| >= 6
  {
    SubsetSize({"a", "b", "c", "d", "e", "f"}, keys);
  }

  // ---------------------------------------------------------------------------
  // Quotas in terms of the list
  // ---------------------------------------------------------------------------

  /** The candidates before `i` that the channel matched. */
  ghost function Earlier(candidates: seq<Candidate>, channel: string, i: nat): set<nat>
    requires i <= |candidates|
  {
    set j: nat | j < i && channel in candidates[j].matched
  }

  /** Candidate `i` is one of the first `quota` that the channel matched. */
  ghost predicate IsAmongFirst(candidates: seq<Candidate>, channel: string, quota: int, i: nat) {
    i < |candidates| && channel in candidates[i].matched && |Earlier(candidates, channel, i)| < quota
  }

  ghost predicate Serves(candidates: seq<Candidate>, channel: string, quota: int, limit: int) {
    forall i: nat | IsAmongFirst(candidates, channel, quota, i) ::
      exists c :: c in Select(candidates, limit) && c.key == candidates[i].key
  }

  /** Each channel's first candidates are selected: a third for meaning, and shares for the other four. */
  ghost predicate HonoursQuotas(candidates: seq<Candidate>, limit: int) {
    && Serves(candidates, "semantic_query", Max(2, limit / 3), limit)
    && Serves(candidates, "error_pattern", Max(1, limit / 10), limit)
    && Serves(candidates, "title_keywords", Max(1, limit / 6), limit)
    && Serves(candidates, "popular_area", Max(1, limit / 5), limit)
    && Serves(candidates, "area_label", Max(1, limit / 6), limit)
  }

  lemma {:induction false} MatchingCounts(candidates: seq<Candidate>, channel: string)
    ensures |Matching(candidates, channel)| == |Earlier(candidates, channel, |candidates|)|
  {
    if candidates != [] {
      var n := |candidates| - 1;
      var before := candidates[..n];
      MatchingCounts(before, channel);
      assert Earlier(before, channel, n) == Earlier(candidates, channel, n);
      assert Earlier(candidates, channel, n + 1) ==
             Earlier(candidates, channel, n) + if channel in candidates[n].matched then {n} else {};
    }
  }

  lemma MatchingPlace(candidates: seq<Candidate>, channel: string, i: nat)
    requires i < |candidates| && channel in candidates[i].matched
    ensures var place := |Earlier(candidates, channel, i)|;
            place < |Matching(candidates, channel)| && Matching(candidates, channel)[place] == candidates[i]
  {
    var front := candidates[..i];
    MatchingCounts(front, channel);
    assert Earlier(front, channel, i) == Earlier(candidates, channel, i);
    assert candidates == front + ([candidates[i]] + candidates[i + 1..]);
    MatchingConcat(front, [candidates[i]] + candidates[i + 1..], channel);
    MatchingFirst(candidates[i], candidates[i + 1..], channel);
  }

  lemma {:induction false} MatchingComesFrom(candidates: seq<Candidate>, channel: string, place: nat)
    requires place < |Matching(candidates, channel)|
    ensures exists i: nat :: i < |candidates| && channel in candidates[i].matched &&
                             |Earlier(candidates, channel, i)| == place
  {
    var n := |candidates| - 1;
    var before := candidates[..n];
    MatchingCounts(before, channel);
    assert Earlier(before, channel, n) == Earlier(candidates, channel, n);
    if place < |Matching(before, channel)| {
      MatchingComesFrom(before, channel, place);
      var i: nat :| i < |before| && channel in before[i].matched && |Earlier(before, channel, i)| == place;
      assert Earlier(before, channel, i) == Earlier(candidates, channel, i);
    }
  }

  /** `Top` is exactly the first candidates that the channel matched. */
  lemma TopIsFirst(candidates: seq<Candidate>, channel: string, quota: int, c: Candidate)
    requires quota >= 0
    ensures c in Top(candidates, channel, quota) <==>
            exists i: nat :: IsAmongFirst(candidates, channel, quota, i) && candidates[i] == c
  {
    var m := Matching(candidates, channel);
    var top := Top(candidates, channel, quota);
    if i: nat :| IsAmongFirst(candidates, channel, quota, i) && candidates[i] == c {
      MatchingPlace(candidates, channel, i);
      assert top[|Earlier(candidates, channel, i)|] == c;
    }
    if c in top {
      var place: nat :| place < |top| && top[place] == c;
      MatchingComesFrom(candidates, channel, place);
      var i: nat :| i < |candidates| && channel in candidates[i].matched && |Earlier(candidates, channel, i)| == place;
      MatchingPlace(candidates, channel, i);
      assert IsAmongFirst(candidates, channel, quota, i);
    }
  }

  lemma ServesExactly(candidates: seq<Candidate>, channel: string, quota: int, limit: int)
    requires quota >= 0
    ensures Serves(candidates, channel, quota, limit) <==>
            Keys(Top(candidates, channel, quota)) <= Keys(Select(candidates, limit))
  {
    var top := Top(candidates, channel, quota);
    forall c ensures c in top <==>
        exists i: nat :: IsAmongFirst(candidates, channel, quota, i) && candidates[i] == c
    {
      TopIsFirst(candidates, channel, quota, c);
    }
    if Serves(candidates, channel, quota, limit) {
      forall key | key in Keys(top) ensures key in Keys(Select(candidates, limit)) {
        var c :| c in top && c.key == key;
        var i: nat :| IsAmongFirst(candidates, channel, quota, i) && candidates[i] == c;
      }
    }
    if Keys(top) <= Keys(Select(candidates, limit)) {
      forall i: nat | IsAmongFirst(candidates, channel, quota, i)
        ensures exists c :: c in Select(candidates, limit) && c.key == candidates[i].key
      {
        assert candidates[i] in top;
        assert candidates[i].key in Keys(top);
      }
    }
  }

  lemma HonoursExactly(candidates: seq<Candidate>, limit: int)
    ensures HonoursQuotas(candidates, limit) <==> HonoursTops(candidates, limit)
  {
    ServesExactly(candidates, "semantic_query", Max(2, limit / 3), limit);
    ServesExactly(candidates, "error_pattern", Max(1, limit / 10), limit);
    ServesExactly(candidates, "title_keywords", Max(1, limit / 6), limit);
    ServesExactly(candidates, "popular_area", Max(1, limit / 5), limit);
    ServesExactly(candidates, "area_label", Max(1, limit / 6), limit);
    var r := Reserved(limit);
    assert r[0] == ("semantic_query", Max(2, limit / 3)) && r[1] == ("error_pattern", Max(1, limit / 10));
    assert r[2] == ("title_keywords", Max(1, limit / 6)) && r[3] == ("popular_area", Max(1, limit / 5));
    assert r[4] == ("area_label", Max(1, limit / 6));
  }

  lemma QuotasHonoured(candidates: seq<Candidate>, limit: int)
    requires limit >= 6
    ensures HonoursQuotas(candidates, limit)
  {
    TopsHonoured(candidates, limit);
    HonoursExactly(candidates, limit);
  }

  /** Below a limit of 6 the reserved capacity cannot always be honoured. */
  lemma QuotasBreakBelowSix(limit: int)
    requires limit < 6
    ensures !HonoursQuotas(Spread(), limit)
  {
    TopsBreakBelowSix(limit);
    HonoursExactly(Spread(), limit);
  }

  /** Every channel always gets its top candidates exactly when the limit is at least 6. */
  lemma QuotasHonouredExactlyFromSix(limit: int)
    ensures limit >= 6 <==> forall candidates :: HonoursQuotas(candidates, limit)
  {
    if limit >= 6 {
      forall candidates ensures HonoursQuotas(candidates, limit) {
        QuotasHonoured(candidates, limit);
      }
    } else {
      QuotasBreakBelowSix(limit);
    }
  }

  // ---------------------------------------------------------------------------
  // What fills the rest
  // ---------------------------------------------------------------------------

  lemma {:induction false} AddsInOrder(selected: seq<Candidate>, cs: seq<Candidate>, limit: int, i: nat, j: nat)
    requires i < j < |cs| && forall h | 0 <= h < j :: cs[h].key != cs[j].key
    requires cs[j].key in Keys(AddAll(selected, cs, limit)) && cs[j].key !in Keys(selected)
    ensures cs[i].key in Keys(AddAll(selected, cs, limit))
  {
    var n := |cs| - 1;
    var before, mid := cs[..n], AddAll(selected, cs[..n], limit);
    KeysAppend(mid, cs[n]);
    if j < n {
      if cs[j].key !in Keys(mid) {
        AddedWithRoom(selected, before, limit, i);
      } else {
        AddsInOrder(selected, before, limit, i, j);
      }
    } else {
      if cs[j].key in Keys(mid) {
        AddedFrom(selected, before, limit, cs[j].key);
      }
      AddedWithRoom(selected, before, limit, i);
    }
  }

  lemma {:induction false} AddedFrom(selected: seq<Candidate>, cs: seq<Candidate>, limit: int, key: string)
    requires key in Keys(AddAll(selected, cs, limit)) && key !in Keys(selected)
    ensures exists h: nat :: h < |cs| && cs[h].key == key
  {
    if cs != [] {
      var n := |cs| - 1;
      KeysAppend(AddAll(selected, cs[..n], limit), cs[n]);
      if cs[n].key != key {
        AddedFrom(selected, cs[..n], limit, key);
        var h: nat :| h < |cs[..n]| && cs[..n][h].key == key;
        assert cs[h].key == key;
      }
    }
  }

  /** While there is room, everything so far is in. */
  lemma {:induction false} AddedWithRoom(selected: seq<Candidate>, cs: seq<Candidate>, limit: int, i: nat)
    requires i < |cs| && |AddAll(selected, cs, limit)| < limit
    ensures cs[i].key in Keys(AddAll(selected, cs, limit))
  {
    var n := |cs| - 1;
    var mid := AddAll(selected, cs[..n], limit);
    KeysAppend(mid, cs[n]);
    if i < n {
      AddedWithRoom(selected, cs[..n], limit, i);
    }
  }

  lemma {:induction false} ReservedFrom(candidates: seq<Candidate>, limit: int, n: nat, key: string)
    requires n <= 5 && key in Keys(AfterReserved(candidates, limit, n))
    ensures exists k: nat :: k < n && key in Keys(Top(candidates, Reserved(limit)[k].0, Reserved(limit)[k].1))
  {
    if n > 0 {
      var (channel, quota) := Reserved(limit)[n - 1];
      var before, top := AfterReserved(candidates, limit, n - 1), Top(candidates, channel, quota);
      if key in Keys(before) {
        ReservedFrom(candidates, limit, n - 1, key);
      } else {
        AddedFrom(before, top, limit, key);
      }
    }
  }

  /** The five channels with their quotas. */
  ghost predicate HasQuota(limit: int, channel: string, quota: int) {
    || (channel == "semantic_query" && quota == Max(2, limit / 3))
    || (channel == "error_pattern" && quota == Max(1, limit / 10))
    || (channel == "title_keywords" && quota == Max(1, limit / 6))
    || (channel == "popular_area" && quota == Max(1, limit / 5))
    || (channel == "area_label" && quota == Max(1, limit / 6))
  }

  /** The issue is among the first of some channel. */
  ghost predicate IsReserved(candidates: seq<Candidate>, limit: int, key: string) {
    exists channel, quota, i: nat ::
      HasQuota(limit, channel, quota) && IsAmongFirst(candidates, channel, quota, i) && candidates[i].key == key
  }

  lemma ReservedExactly(candidates: seq<Candidate>, limit: int, key: string)
    requires key in Keys(AfterReserved(candidates, limit, 5))
    ensures IsReserved(candidates, limit, key)
  {
    ReservedFrom(candidates, limit, 5, key);
    var k: nat :| k < 5 && key in Keys(Top(candidates, Reserved(limit)[k].0, Reserved(limit)[k].1));
    var (channel, quota) := Reserved(limit)[k];
    assert HasQuota(limit, channel, quota);
    var c :| c in Top(candidates, channel, quota) && c.key == key;
    TopIsFirst(candidates, channel, quota, c);
    var i: nat :| IsAmongFirst(candidates, channel, quota, i) && candidates[i] == c;
  }

  /** Beyond the channels' shares the list is taken from the front: nothing is passed over for something later. */
  lemma FillsFromTheFront(candidates: seq<Candidate>, limit: int, i: nat, j: nat)
    requires i < j < |candidates| && forall h | 0 <= h < j :: candidates[h].key != candidates[j].key
    requires candidates[j].key in Keys(Select(candidates, limit)) && !IsReserved(candidates, limit, candidates[j].key)
    ensures candidates[i].key in Keys(Select(candidates, limit))
  {
    if candidates[j].key in Keys(AfterReserved(candidates, limit, 5)) {
      ReservedExactly(candidates, limit, candidates[j].key);
    }
    AddsInOrder(AfterReserved(candidates, limit, 5), candidates, limit, i, j);
  }

  lemma {:induction false} AddsOnly(selected: seq<Candidate>, cs: seq<Candidate>, limit: int, c: Candidate)
    requires c in AddAll(selected, cs, limit)
    ensures c in selected || c in cs
  {
    if cs != [] && c !in selected && c != cs[|cs| - 1] {
      AddsOnly(selected, cs[..|cs| - 1], limit, c);
    }
  }

  lemma {:induction false} ReservedOnly(candidates: seq<Candidate>, limit: int, n: nat, c: Candidate)
    requires n <= 5 && c in AfterReserved(candidates, limit, n)
    ensures c in candidates
  {
    if n > 0 {
      var (channel, quota) := Reserved(limit)[n - 1];
      AddsOnly(AfterReserved(candidates, limit, n - 1), Top(candidates, channel, quota), limit, c);
      if c in Top(candidates, channel, quota) {
        TopIsFirst(candidates, channel, quota, c);
      } else {
        ReservedOnly(candidates, limit, n - 1, c);
      }
    }
  }

  /** What is selected was on the list as it is. */
  lemma SelectsFromTheList(candidates: seq<Candidate>, limit: int, c: Candidate)
    requires c in Select(candidates, limit)
    ensures c in candidates
  {
    AddsOnly(AfterReserved(candidates, limit, 5), candidates, limit, c);
    if c !in candidates {
      ReservedOnly(candidates, limit, 5, c);
    }
  }
}
