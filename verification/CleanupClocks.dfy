/** How the clock starts of the four clean-ups move while people act. */
module CleanupClocks {
  import opened Wrappers
  import opened CleanupDecisions
  import opened CleanupProtocol

  lemma {:induction false} DismissedVerdict(reviews: seq<Review>, staff: set<Login>, i: nat)
    requires i < |reviews|
    ensures var r := StaffChangeRequestAt(reviews[i := reviews[i].(verdict := Dismissed)], staff);
            r.None? || r == StaffChangeRequestAt(reviews, staff)
  {
    var last := |reviews| - 1;
    var after := reviews[i := reviews[i].(verdict := Dismissed)];
    if i < last {
      assert after[..last] == reviews[..last][i := reviews[i].(verdict := Dismissed)];
      DismissedVerdict(reviews[..last], staff, i);
    } else {
      assert after[..last] == reviews[..last];
    }
  }

  predicate StaysOrRestarts(before: Option<Instant>, after: Option<Instant>, at: Instant) {
    after.None? || after == before || after == Some(at)
  }

  /** Only a push can set a clock back, and only a draft's; all else leaves it, stops it, or starts it now. */
  lemma ClockStartsNowOrStays(w: World, a: Activity, at: Instant, k: Cleanup)
    requires Bounded(w) && at >= w.clock
    requires !(k == Draft && a.Pushes?)
    ensures StaysOrRestarts(Since(k, w.pr), Since(k, Apply(w.pr, a, at)), at)
  {
    if a.Reviews? {
      ReviewedHere(w, a.reviewer, a.verdict, at, k);
    } else if a.Dismisses? {
      DismissedHere(w.pr, a, at, k);
    } else if a.MarksReady? || a.Reopens? || a.AddsLabel? || a.RequestsReview? {
      TimelineHere(w, a, at, k);
    }
  }

  lemma TimelineHere(w: World, a: Activity, at: Instant, k: Cleanup)
    requires Bounded(w) && at >= w.clock
    requires a.MarksReady? || a.Reopens? || a.AddsLabel? || a.RequestsReview?
    ensures var s := Since(k, Apply(w.pr, a, at)); s == Since(k, w.pr) || s == Some(at)
  {
    var e := match a
      case MarksReady => ReadyForReview(at)
      case Reopens => Reopened(at)
      case AddsLabel(name) => Labeled(at, name)
      case _ => ReviewRequested(at);
    AppendedHere(w, e, at, k);
    var timed := w.pr.(timeline := w.pr.timeline + [e]);
    var pr' := Apply(w.pr, a, at);
    assert pr' == timed.(isDraft := pr'.isDraft, labels := pr'.labels);
    assert Since(k, pr') == Since(k, timed);
  }

  lemma DismissedHere(pr: PullRequest, a: Activity, at: Instant, k: Cleanup)
    requires a.Dismisses?
    ensures var s := Since(k, Apply(pr, a, at)); s.None? || s == Since(k, pr)
  {
    if a.index < |pr.reviews| {
      DismissedVerdict(pr.reviews, pr.staff, a.index);
    }
  }

  lemma ReviewedHere(w: World, who: Option<Login>, verdict: Option<Verdict>, at: Instant, k: Cleanup)
    requires Bounded(w) && at >= w.clock
    ensures var s := Since(k, Apply(w.pr, Reviews(who, verdict), at));
            s.None? || s == Since(k, w.pr) || s == Some(at)
  {
    var timed := w.pr.(timeline := w.pr.timeline + [Reviewed(at, who)]);
    AppendedHere(w, Reviewed(at, who), at, k);
    var pr' := Apply(w.pr, Reviews(who, verdict), at);
    assert pr' == timed.(reviews := pr'.reviews);
    if k == Changes && verdict.Some? {
      VerdictHere(w, Review(at, who, verdict.value), timed, at);
    }
  }

  lemma VerdictHere(w: World, v: Review, timed: PullRequest, at: Instant)
    requires Bounded(w) && at >= w.clock && v.at == at
    requires timed == w.pr.(timeline := w.pr.timeline + [Reviewed(at, v.author)])
    ensures var s := Since(Changes, timed.(reviews := w.pr.reviews + [v]));
            s.None? || s == Since(Changes, timed) || s == Some(at)
  {
  }

  lemma AppendedHere(w: World, e: Event, at: Instant, k: Cleanup)
    requires Bounded(w) && at >= w.clock && e.at == at
    ensures var s := Since(k, w.pr.(timeline := w.pr.timeline + [e]));
            s == Since(k, w.pr) || s == Some(at)
  {
    if k == SelfReview {
      AppendedToReview(w, e, at);
    }
  }

  lemma AppendedToReview(w: World, e: Event, at: Instant)
    requires Bounded(w) && at >= w.clock && e.at == at
    ensures var s := Since(SelfReview, w.pr.(timeline := w.pr.timeline + [e]));
            s == Since(SelfReview, w.pr) || s == Some(at)
  {
    var pr' := w.pr.(timeline := w.pr.timeline + [e]);
  }

  // ---------------------------------------------------------------------------
  // People at work
  // ---------------------------------------------------------------------------

  /** What people leave alone: they only add, and nothing they add speaks for the bot. */
  ghost predicate Continues(w: World, w': World) {
    && w.clock <= w'.clock
    && w'.pr.createdAt == w.pr.createdAt && w'.pr.author == w.pr.author && w'.pr.staff == w.pr.staff
    && w.pr.timeline <= w'.pr.timeline
    && (forall i | |w.pr.timeline| <= i < |w'.pr.timeline| :: w'.pr.timeline[i].at >= w.clock)
    && w.pr.comments <= w'.pr.comments
    && Unmarked(w'.pr.comments[|w.pr.comments|..])
  }

  ghost predicate Unmarked(comments: seq<Comment>) {
    forall c, m | c in comments :: !ByBot(c, m)
  }

  lemma HappenContinues(w: World, t: Timed)
    requires IsHonest(t)
    ensures Continues(w, Happen(w, t))
  {
  }

  lemma {:induction false} LiveContinues(w: World, acts: seq<Timed>)
    requires AllHonest(acts)
    ensures Continues(w, Live(w, acts))
  {
    if acts == [] {
      assert w.pr.comments[|w.pr.comments|..] == [];
    } else {
      var before := Live(w, acts[..|acts| - 1]);
      LiveContinues(w, acts[..|acts| - 1]);
      HappenContinues(before, acts[|acts| - 1]);
    }
  }

  lemma HappenKeepsBounds(w: World, t: Timed)
    requires Bounded(w)
    ensures Bounded(Happen(w, t))
  {
    var at := Happen(w, t).clock;
    LaterDated(w.pr, w.clock, at);
    ApplyKeepsDates(w.pr, t.activity, at);
  }

  lemma LaterDated(pr: PullRequest, a: Instant, b: Instant)
    requires Dated(pr, a) && a <= b
    ensures Dated(pr, b)
  {
  }

  lemma ApplyKeepsDates(pr: PullRequest, a: Activity, at: Instant)
    requires Dated(pr, at)
    ensures Dated(Apply(pr, a, at), at)
  {
  }

  /** The clock of `k` in `after` is the one in `w`, or does not run, or starts behind every comment of `k` in `w`. */
  ghost predicate Onward(k: Cleanup, w: World, after: Option<Instant>) {
    || after.None? || after == Since(k, w.pr) || after.value >= w.clock
    || (k == Draft && Renewed(k, w.pr.comments, after.value))
  }

  lemma HappenOnward(k: Cleanup, w: World, t: Timed)
    requires Bounded(w) && Timely(k, w, t)
    ensures Onward(k, w, Since(k, Happen(w, t).pr))
  {
    var at := w.clock + t.delay;
    var after := Apply(w.pr, t.activity, at);
    assert Happen(w, t).pr == after;
    if !(k == Draft && t.activity.Pushes?) {
      ClockStartsNowOrStays(w, t.activity, at, k);
    }
  }

  lemma OnwardFurther(k: Cleanup, a: World, b: World, after: Option<Instant>)
    requires Onward(k, a, Since(k, b.pr)) && Onward(k, b, after)
    requires a.clock <= b.clock && a.pr.comments <= b.pr.comments
    ensures Onward(k, a, after)
  {
  }

  lemma ReopenGrows(before: seq<Event>, after: seq<Event>, start: Instant, t: Instant)
    requires before <= after && forall i | |before| <= i < |after| :: after[i].at >= t
    ensures var r := LatestReopen(after, start); r == LatestReopen(before, start) || r >= t
  {
  }

  /** A clock read partly from the list and partly from the details is one of the two, or starts after the list. */
  lemma MixedClock(k: Cleanup, listed: World, fetched: World)
    requires Continues(listed, fetched)
    ensures var s := Since(k, Seen(listed.pr, fetched.pr));
            s == Since(k, listed.pr) || s == Since(k, fetched.pr) || (s.Some? && s.value >= listed.clock)
  {
    var seen := Seen(listed.pr, fetched.pr);
    match k
    case Cla =>
    case SelfReview =>
    case Draft => ReopenGrows(listed.pr.timeline, fetched.pr.timeline, DraftActiveAt(listed.pr), listed.clock);
    case Changes =>
      var requested := StaffChangeRequestAt(listed.pr.reviews, listed.pr.staff);
      if requested.Some? {
        ReopenGrows(listed.pr.timeline, fetched.pr.timeline, requested.value, listed.clock);
      }
  }

  /** `w'` is what people make of `w` without setting the clock of `k` back behind its comments. */
  ghost predicate Moved(k: Cleanup, w: World, w': World) {
    Continues(w, w') && Bounded(w') && Onward(k, w, Since(k, w'.pr))
  }

  lemma HappenMoves(k: Cleanup, w: World, t: Timed)
    requires Bounded(w) && IsHonest(t) && Timely(k, w, t)
    ensures Moved(k, w, Happen(w, t))
  {
    HappenContinues(w, t);
    HappenKeepsBounds(w, t);
    HappenOnward(k, w, t);
  }

  lemma {:induction false} LiveMoves(k: Cleanup, w: World, acts: seq<Timed>)
    requires Bounded(w) && AllHonest(acts) && AllTimely(k, w, acts)
    ensures Moved(k, w, Live(w, acts))
  {
    if acts == [] {
      assert w.pr.comments[|w.pr.comments|..] == [];
    } else {
      var n := |acts| - 1;
      var before := Live(w, acts[..n]);
      assert forall i | 0 <= i < n :: acts[..n][..i] == acts[..i];
      LiveMoves(k, w, acts[..n]);
      HappenMoves(k, before, acts[n]);
      MovedFurther(k, w, before, Live(w, acts));
    }
  }

  lemma MovedFurther(k: Cleanup, a: World, b: World, c: World)
    requires Moved(k, a, b) && Moved(k, b, c)
    ensures Moved(k, a, c)
  {
    OnwardFurther(k, a, b, Since(k, c.pr));
  }

  /** What a decision reads is as good as a state the pull request was in. */
  lemma SeenOnward(k: Cleanup, started: World, listed: World, fetched: World)
    requires Moved(k, started, listed) && Moved(k, listed, fetched)
    ensures Moved(k, started, fetched)
    ensures Onward(k, started, Since(k, Seen(listed.pr, fetched.pr)))
  {
    MovedFurther(k, started, listed, fetched);
    MixedClock(k, listed, fetched);
  }

}
