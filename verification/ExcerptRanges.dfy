/**
  Sorting and merging of excerpt ranges (crates/acp_thread/src/diff.rs,
  `PendingDiff::excerpt_ranges`).
 */
module ExcerptRanges {

  type Column = c: nat | c < 0x1_0000_0000

  datatype Point = Point(row: nat, column: Column)

  datatype Range = Range(start: Point, end: Point)

  /** A point's place in the order by row, then column. */
  function Rank(p: Point): nat {
    p.row * 0x1_0000_0000 + p.column
  }

  predicate Le(a: Point, b: Point) {
    Rank(a) <= Rank(b)
  }

  function MaxPoint(a: Point, b: Point): Point {
    if Le(a, b) then b else a
  }

  /** The sort key: by start, and the longer range first. */
  predicate KeyLe(a: Range, b: Range) {
    Rank(a.start) < Rank(b.start) || (Rank(a.start) == Rank(b.start) && Rank(b.end) <= Rank(a.end))
  }

  predicate Before(a: Point, b: Point) {
    a.row < b.row || (a.row == b.row && a.column < b.column)
  }

  /** Points are ordered by row, then column; ranges are sorted by start, the later end first. */
  lemma OrderIsByRowThenColumn(a: Point, b: Point, r: Range, s: Range)
    ensures Le(a, b) <==> Before(a, b) || a == b
    ensures KeyLe(r, s) <==>
            Before(r.start, s.start) || (r.start == s.start && (Before(s.end, r.end) || s.end == r.end))
  {
  }

  predicate ProperRange(r: Range) {
    Le(r.start, r.end)
  }

  predicate Proper(rs: seq<Range>) {
    forall i | 0 <= i < |rs| :: ProperRange(rs[i])
  }

  predicate Sorted(rs: seq<Range>) {
    forall i, j | 0 <= i < j < |rs| :: KeyLe(rs[i], rs[j])
  }

  function Elements(rs: seq<Range>): set<Range> {
    set r | r in rs
  }

  function Insert(r: Range, rs: seq<Range>): (s: seq<Range>)
    ensures Elements(s) == Elements(rs) + {r}
    ensures multiset(s) == multiset(rs) + multiset{r}
  {
    if rs == [] || KeyLe(r, rs[0]) then [r] + rs
    else
      assert rs == [rs[0]] + rs[1..] && Elements(rs) == {rs[0]} + Elements(rs[1..]);
      var tail := Insert(r, rs[1..]);
      assert Elements([rs[0]] + tail) == {rs[0]} + Elements(tail);
      [rs[0]] + tail
  }

  /** The outcome of `sort_unstable_by_key`; equal keys are equal ranges, so it is the only one. */
  function Sort(rs: seq<Range>): (s: seq<Range>)
    ensures Elements(s) == Elements(rs)
    ensures multiset(s) == multiset(rs)
  {
    if rs == [] then []
    else
      assert rs == [rs[0]] + rs[1..];
      Insert(rs[0], Sort(rs[1..]))
  }

  lemma {:induction false} InsertSorts(r: Range, rs: seq<Range>)
    requires Sorted(rs)
    ensures Sorted(Insert(r, rs))
  {
    if rs != [] && !KeyLe(r, rs[0]) {
      InsertSorts(r, rs[1..]);
      var tail := Insert(r, rs[1..]);
      forall i | 0 <= i < |tail| ensures KeyLe(rs[0], tail[i]) {
        assert tail[i] in Elements(tail);
      }
    }
  }

  lemma {:induction false} SortSorts(rs: seq<Range>)
    ensures Sorted(Sort(rs))
  {
    if rs != [] {
      SortSorts(rs[1..]);
      InsertSorts(rs[0], Sort(rs[1..]));
    }
  }

  /** Merging of sorted ranges while `range` is being grown. */
  function Merge(range: Range, rest: seq<Range>): seq<Range>
    decreases |rest|
  {
    if rest == [] then [range]
    else if Le(rest[0].start, range.end) then Merge(Joined(range, rest[0]), rest[1..])
    else [range] + Merge(rest[0], rest[1..])
  }

  function Joined(range: Range, next: Range): Range {
    Range(range.start, MaxPoint(range.end, next.end))
  }

  function Merged(sorted: seq<Range>): seq<Range> {
    if sorted == [] then [] else Merge(sorted[0], sorted[1..])
  }

  function Excerpts(rs: seq<Range>): seq<Range> {
    Merged(Sort(rs))
  }

  lemma Regroup(before: seq<Range>, range: Range, after: seq<Range>)
    ensures before + ([range] + after) == before + [range] + after
  {
  }

  /** `excerpt_ranges`, with its two nested loops. */
  method ExcerptRanges(rs: seq<Range>) returns (merged: seq<Range>)
    ensures merged == Excerpts(rs)
  {
    var ranges := Sort(rs);
    merged := [];
    var i := 0;
    assert ranges[0..] == ranges;
    while i < |ranges|
      invariant i <= |ranges|
      invariant Merged(ranges) == merged + Merged(ranges[i..])
    {
      var range;
      range, i := GrowRange(ranges, i);
      Regroup(merged, range, Merged(ranges[i..]));
      merged := merged + [range];
    }
    assert merged + [] == merged;
  }

  /** The inner loop: one output range, and where the next one starts. */
  method GrowRange(ranges: seq<Range>, from: nat) returns (range: Range, i: nat)
    requires from < |ranges|
    ensures from < i <= |ranges|
    ensures Merged(ranges[from..]) == [range] + Merged(ranges[i..])
  {
    range, i := ranges[from], from + 1;
    assert ranges[from..][1..] == ranges[i..];
    while i < |ranges| && Le(ranges[i].start, range.end)
      invariant from < i <= |ranges|
      invariant Merged(ranges[from..]) == Merge(range, ranges[i..])
    {
      range := Joined(range, ranges[i]);
      i := i + 1;
    }
  }

  // ---------------------------------------------------------------------------
  // What the merged ranges are
  // ---------------------------------------------------------------------------

  predicate Inside(r: Range, o: Range) {
    Le(o.start, r.start) && Le(r.end, o.end)
  }

  predicate Holds(r: Range, p: Point) {
    Le(r.start, p) && !Le(r.end, p)
  }

  /** Ranges in order with a gap between any two. */
  predicate Separated(out: seq<Range>) {
    forall i, j | 0 <= i < j < |out| :: !Le(out[j].start, out[i].end)
  }

  predicate Contained(r: Range, out: seq<Range>) {
    exists i | 0 <= i < |out| :: Inside(r, out[i])
  }

  predicate IsStart(p: Point, rs: set<Range>) {
    exists r | r in rs :: r.start == p
  }

  predicate IsEnd(p: Point, rs: set<Range>) {
    exists r | r in rs :: r.end == p
  }

  predicate Covered(p: Point, rs: set<Range>) {
    exists r | r in rs :: Holds(r, p)
  }

  predicate ContainsAll(rs: set<Range>, out: seq<Range>) {
    forall r {:trigger Contained(r, out)} | r in rs :: Contained(r, out)
  }

  predicate HasEndpointsOf(rs: set<Range>, out: seq<Range>) {
    && (forall i {:trigger IsStart(out[i].start, rs)} | 0 <= i < |out| :: IsStart(out[i].start, rs))
    && (forall i {:trigger IsEnd(out[i].end, rs)} | 0 <= i < |out| :: IsEnd(out[i].end, rs))
  }

  ghost predicate CoversNoMore(rs: set<Range>, out: seq<Range>) {
    forall i, p {:trigger Holds(out[i], p)} | 0 <= i < |out| && Holds(out[i], p) :: Covered(p, rs)
  }

  /** The complete description of the merged form of a set of ranges. */
  ghost predicate IsMergedForm(rs: set<Range>, out: seq<Range>) {
    Proper(out) && Separated(out) && ContainsAll(rs, out) && HasEndpointsOf(rs, out) && CoversNoMore(rs, out)
  }

  lemma GrownContains(range: Range, next: Range, rest: set<Range>, out: seq<Range>)
    requires Le(range.start, next.start)
    requires ContainsAll({Joined(range, next)} + rest, out)
    ensures ContainsAll({range, next} + rest, out)
  {
    var grown := Joined(range, next);
    var small, large := {grown} + rest, {range, next} + rest;
    forall r | r in large ensures Contained(r, out) {
      if r in rest {
        assert r in small && Contained(r, out);
      } else {
        assert grown in small && Contained(grown, out);
        var i :| 0 <= i < |out| && Inside(grown, out[i]);
        assert Inside(r, out[i]);
      }
    }
  }

  lemma GrownEndpoints(range: Range, next: Range, rest: set<Range>, out: seq<Range>)
    requires HasEndpointsOf({Joined(range, next)} + rest, out)
    ensures HasEndpointsOf({range, next} + rest, out)
  {
    var grown := Joined(range, next);
    var small, large := {grown} + rest, {range, next} + rest;
    forall i | 0 <= i < |out| ensures IsStart(out[i].start, large) && IsEnd(out[i].end, large) {
      assert IsStart(out[i].start, small) && IsEnd(out[i].end, small);
      var a :| a in small && a.start == out[i].start;
      assert (if a == grown then range else a) in large;
      var b :| b in small && b.end == out[i].end;
      assert (if b != grown then b else if Le(range.end, next.end) then next else range) in large;
    }
  }

  lemma GrownForm(range: Range, next: Range, rest: set<Range>, out: seq<Range>)
    requires ProperRange(range) && ProperRange(next)
    requires Le(range.start, next.start) && Le(next.start, range.end)
    requires IsMergedForm({Joined(range, next)} + rest, out)
    ensures IsMergedForm({range, next} + rest, out)
  {
    GrownContains(range, next, rest, out);
    GrownEndpoints(range, next, rest, out);
    var grown := Joined(range, next);
    var small, large := {grown} + rest, {range, next} + rest;
    forall i, p | 0 <= i < |out| && Holds(out[i], p) ensures Covered(p, large) {
      assert Covered(p, small);
      var r :| r in small && Holds(r, p);
      var r' := if r != grown then r else if Le(range.end, p) then next else range;
      assert r' in large && Holds(r', p);
    }
  }

  lemma NewSeparated(range: Range, rest: set<Range>, out: seq<Range>)
    requires forall r | r in rest :: !Le(r.start, range.end)
    requires Separated(out) && HasEndpointsOf(rest, out)
    ensures Separated([range] + out)
    ensures HasEndpointsOf({range} + rest, [range] + out)
  {
    var ins, outs := {range} + rest, [range] + out;
    assert range in ins;
    forall i | 0 <= i < |outs| ensures IsStart(outs[i].start, ins) && IsEnd(outs[i].end, ins) {
      if i > 0 {
        assert outs[i] == out[i - 1] && IsStart(out[i - 1].start, rest) && IsEnd(out[i - 1].end, rest);
      }
    }
    forall i, j | 0 <= i < j < |outs| ensures !Le(outs[j].start, outs[i].end) {
      assert outs[j] == out[j - 1] && IsStart(out[j - 1].start, rest);
      assert i > 0 ==> outs[i] == out[i - 1];
    }
  }

  lemma NewContains(range: Range, rest: set<Range>, out: seq<Range>)
    requires ContainsAll(rest, out)
    ensures ContainsAll({range} + rest, [range] + out)
  {
    var outs := [range] + out;
    forall r | r in {range} + rest ensures Contained(r, outs) {
      if r in rest {
        assert Contained(r, out);
        var i :| 0 <= i < |out| && Inside(r, out[i]);
        assert Inside(r, outs[i + 1]);
      } else {
        assert Inside(r, outs[0]);
      }
    }
  }

  lemma NewForm(range: Range, rest: set<Range>, out: seq<Range>)
    requires ProperRange(range)
    requires forall r | r in rest :: !Le(r.start, range.end)
    requires IsMergedForm(rest, out)
    ensures IsMergedForm({range} + rest, [range] + out)
  {
    NewSeparated(range, rest, out);
    NewContains(range, rest, out);
    var ins, outs := {range} + rest, [range] + out;
    assert range in ins;
    forall i, p | 0 <= i < |outs| && Holds(outs[i], p) ensures Covered(p, ins) {
      if i > 0 {
        assert outs[i] == out[i - 1] && Holds(out[i - 1], p) && Covered(p, rest);
        var r :| r in rest && Holds(r, p);
        assert r in ins;
      }
    }
  }

  lemma SingleForm(range: Range)
    requires ProperRange(range)
    ensures IsMergedForm({range}, [range])
  {
    assert range in {range};
    assert Inside(range, [range][0]);
  }

  lemma {:induction false} MergeForm(range: Range, rest: seq<Range>)
    requires ProperRange(range) && Proper(rest) && Sorted(rest)
    requires rest != [] ==> Le(range.start, rest[0].start)
    ensures IsMergedForm({range} + Elements(rest), Merge(range, rest))
    decreases |rest|
  {
    if rest == [] {
      SingleForm(range);
      assert {range} + Elements(rest) == {range};
    } else {
      var next, tail := rest[0], rest[1..];
      assert Elements(rest) == {next} + Elements(tail);
      assert tail != [] ==> KeyLe(next, tail[0]);
      if Le(next.start, range.end) {
        MergeForm(Joined(range, next), tail);
        GrownForm(range, next, Elements(tail), Merge(range, rest));
        assert {range} + Elements(rest) == {range, next} + Elements(tail);
      } else {
        MergeForm(next, tail);
        forall r | r in Elements(rest) ensures !Le(r.start, range.end) {
          var i :| 0 <= i < |rest| && rest[i] == r;
          assert i > 0 ==> KeyLe(next, rest[i]);
        }
        NewForm(range, Elements(rest), Merge(next, tail));
      }
    }
  }

  /** The merged ranges are sorted, separated, made of input endpoints, and cover what the inputs cover. */
  lemma ExcerptsAreMergedForm(rs: seq<Range>)
    requires Proper(rs)
    ensures IsMergedForm(Elements(rs), Excerpts(rs))
  {
    var sorted := Sort(rs);
    SortSorts(rs);
    forall i | 0 <= i < |sorted| ensures ProperRange(sorted[i]) {
      assert sorted[i] in Elements(sorted);
    }
    if sorted != [] {
      var tail := sorted[1..];
      assert Elements(sorted) == {sorted[0]} + Elements(tail);
      assert tail != [] ==> KeyLe(sorted[0], tail[0]);
      MergeForm(sorted[0], tail);
    }
  }

  // ---------------------------------------------------------------------------
  // The merged form is unique
  // ---------------------------------------------------------------------------

  ghost predicate AllProper(rs: set<Range>) {
    forall r | r in rs :: ProperRange(r)
  }

  /** No output before `out[k]` contains a range that starts with `out[k]`. */
  lemma StartPinsOutput(out: seq<Range>, k: nat, r: Range)
    requires k < |out| && Separated(out)
    requires r.start == out[k].start && ProperRange(r)
    ensures forall j | 0 <= j < k :: !Inside(r, out[j])
  {
  }

  lemma NextStart(rs: set<Range>, a: seq<Range>, b: seq<Range>, k: nat)
    requires AllProper(rs) && IsMergedForm(rs, a) && IsMergedForm(rs, b)
    requires k < |a| && k <= |b| && a[..k] == b[..k]
    ensures k < |b| && Le(b[k].start, a[k].start)
  {
    assert IsStart(a[k].start, rs);
    var r :| r in rs && r.start == a[k].start;
    assert Contained(r, b);
    var j :| 0 <= j < |b| && Inside(r, b[j]);
    StartPinsOutput(a, k, r);
    assert forall i | 0 <= i < k :: a[..k][i] == b[..k][i];
    assert k <= j;
    assert ProperRange(b[k]);
    assert j > k ==> !Le(b[j].start, b[k].end);
  }

  /** An input that reaches the end of an output does not go beyond it. */
  lemma EndBoundsInputs(rs: set<Range>, a: seq<Range>, k: nat, r: Range)
    requires AllProper(rs) && IsMergedForm(rs, a) && k < |a|
    requires r in rs && Le(r.start, a[k].end) && Le(a[k].end, r.end)
    ensures Le(r.end, a[k].end)
  {
    assert Contained(r, a);
    var i :| 0 <= i < |a| && Inside(r, a[i]);
    assert ProperRange(a[k]);
    assert i == k;
  }

  lemma NextEnd(rs: set<Range>, a: seq<Range>, b: seq<Range>, k: nat)
    requires AllProper(rs) && IsMergedForm(rs, a) && IsMergedForm(rs, b)
    requires k < |a| && k < |b| && a[k].start == b[k].start
    ensures Le(b[k].end, a[k].end)
  {
    var p := a[k].end;
    assert ProperRange(a[k]);
    if !Le(b[k].end, p) {
      assert Holds(b[k], p);
      assert Covered(p, rs);
      var r :| r in rs && Holds(r, p);
      EndBoundsInputs(rs, a, k, r);
    }
  }

  lemma {:induction false} SamePrefix(rs: set<Range>, a: seq<Range>, b: seq<Range>, k: nat)
    requires AllProper(rs) && IsMergedForm(rs, a) && IsMergedForm(rs, b)
    requires k <= |a|
    ensures k <= |b| && a[..k] == b[..k]
  {
    if k > 0 {
      var i := k - 1;
      SamePrefix(rs, a, b, i);
      NextStart(rs, a, b, i);
      NextStart(rs, b, a, i);
      NextEnd(rs, a, b, i);
      NextEnd(rs, b, a, i);
      assert a[..k] == a[..i] + [a[i]] && b[..k] == b[..i] + [b[i]];
    }
  }

  /** Nothing but the merged ranges fits the description. */
  lemma MergedFormIsUnique(rs: set<Range>, a: seq<Range>, b: seq<Range>)
    requires AllProper(rs) && IsMergedForm(rs, a) && IsMergedForm(rs, b)
    ensures a == b
  {
    SamePrefix(rs, a, b, |a|);
    SamePrefix(rs, b, a, |b|);
    assert a[..|a|] == a && b[..|b|] == b;
  }

  /** Order and repetition of the inputs do not matter. */
  lemma ExcerptsIgnoreOrder(a: seq<Range>, b: seq<Range>)
    requires Proper(a) && Proper(b) && Elements(a) == Elements(b)
    ensures Excerpts(a) == Excerpts(b)
  {
    ExcerptsAreMergedForm(a);
    ExcerptsAreMergedForm(b);
    MergedFormIsUnique(Elements(a), Excerpts(a), Excerpts(b));
  }

  /** Merging again changes nothing. */
  lemma ExcerptsAreIdempotent(rs: seq<Range>)
    requires Proper(rs)
    ensures Excerpts(Excerpts(rs)) == Excerpts(rs)
  {
    var out := Excerpts(rs);
    ExcerptsAreMergedForm(rs);
    ExcerptsAreMergedForm(out);
    forall r | r in Elements(out) ensures Contained(r, out) {
      var i :| 0 <= i < |out| && out[i] == r;
      assert Inside(r, out[i]);
    }
    forall i | 0 <= i < |out| ensures IsStart(out[i].start, Elements(out)) && IsEnd(out[i].end, Elements(out)) {
      assert out[i] in Elements(out);
    }
    forall i, p | 0 <= i < |out| && Holds(out[i], p) ensures Covered(p, Elements(out)) {
      assert out[i] in Elements(out);
    }
    MergedFormIsUnique(Elements(out), Excerpts(out), out);
  }

  /** Every input range lies inside exactly one merged range. */
  lemma InputLiesInOneExcerpt(rs: seq<Range>, r: Range)
    requires Proper(rs) && r in rs
    ensures var out := Excerpts(rs);
            exists i | 0 <= i < |out| :: Inside(r, out[i]) && forall j | 0 <= j < |out| && Inside(r, out[j]) :: j == i
  {
    ExcerptsAreMergedForm(rs);
    var out := Excerpts(rs);
    assert ProperRange(r) && Contained(r, out);
    var i :| 0 <= i < |out| && Inside(r, out[i]);
    forall j | 0 <= j < |out| && Inside(r, out[j]) ensures j == i {
    }
  }
}
