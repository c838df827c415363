/** Which steps a visit takes: what it posts, counts and closes, call by call. */
module CleanupVisits {
  import opened Wrappers
  import opened CleanupDecisions
  import opened CleanupProtocol
  import opened CleanupClocks
  import opened CleanupGrounds
  import opened CleanupTheorems
  import opened CleanupRun
  import opened CleanupExemptions

  /** Every call that the step makes is answered without an error. */
  predicate Succeeds(step: Step, r: Replies) {
    (step.notice.Some? ==> r.post.Delivered?) && (step.kind.Close? ==> r.close.Delivered?)
  }

  /** The visit comes from index `i` to the decision at `j`: nothing before it fails or closes. */
  predicate Comes(plan: seq<Option<Step>>, replies: seq<Replies>, i: nat, j: nat)
    requires |plan| == |replies| && j <= |plan|
  {
    forall h | i <= h < j && plan[h].Some? :: plan[h].value.kind != Close && Succeeds(plan[h].value, replies[h])
  }

  lemma ComesOn(plan: seq<Option<Step>>, replies: seq<Replies>, i: nat, next: nat, j: nat)
    requires |plan| == |replies| && i < j <= |plan| && next == i + 1
    ensures Comes(plan, replies, i, j) <==>
            (plan[i].Some? ==> plan[i].value.kind != Close && Succeeds(plan[i].value, replies[i])) &&
            Comes(plan, replies, next, j)
  {
  }

  /** The rules planned for, each in its place. */
  predicate Planned(plan: seq<Option<Step>>) {
    && |plan| == |CLEANUPS|
    && forall j | 0 <= j < |plan| && plan[j].Some? && plan[j].value.notice.Some? ::
         Owner(plan[j].value.notice.value.mark) == CLEANUPS[j]
  }

  lemma PlanIsPlanned(seen: PullRequest, now: Instant)
    ensures Planned(Plan(seen, now))
  {
    var plan := Plan(seen, now);
    forall j | 0 <= j < |plan| && plan[j].Some? && plan[j].value.notice.Some?
      ensures Owner(plan[j].value.notice.value.mark) == CLEANUPS[j]
    {
      ActionOwns(CLEANUPS[j], seen, now, plan[j].value);
    }
  }

  // ---------------------------------------------------------------------------
  // Counting
  // ---------------------------------------------------------------------------

  predicate CountsStep(plan: seq<Option<Step>>, replies: seq<Replies>, i: nat, j: nat, kind: Kind)
    requires |plan| == |replies| && j < |plan|
  {
    && i <= j && Comes(plan, replies, i, j)
    && plan[j].Some? && plan[j].value.kind == kind && Succeeds(plan[j].value, replies[j])
  }

  lemma StepSucceeds(w: World, step: Step, r: Replies)
    ensures TakeStep(w, step, r).1 <==> Succeeds(step, r)
  {
  }

  lemma OwnIndex(i: nat, k: Cleanup)
    requires i < |CLEANUPS|
    ensures CLEANUPS[i] == k <==> i == IndexOf(k)
  {
  }

  /** What the step at `i` adds to the count of `x`, and whether the visit goes on after it. */
  lemma CountedOn(w: World, plan: seq<Option<Step>>, replies: seq<Replies>, i: nat, next: nat, x: (Cleanup, Kind))
    requires i < |plan| == |replies| == |CLEANUPS| && next == i + 1
    ensures var v := Live(w, replies[i].meanwhile);
            Counted(w, plan, replies, i)[x] ==
            if plan[i].None? then Counted(v, plan, replies, next)[x]
            else if !Succeeds(plan[i].value, replies[i]) then 0
            else (if x == (CLEANUPS[i], plan[i].value.kind) then 1 else 0) +
                 if plan[i].value.kind == Close then 0
                 else Counted(TakeStep(v, plan[i].value, replies[i]).0, plan, replies, next)[x]
  {
    if plan[i].Some? {
      StepSucceeds(Live(w, replies[i].meanwhile), plan[i].value, replies[i]);
    }
  }

  lemma CountsOn(plan: seq<Option<Step>>, replies: seq<Replies>, i: nat, next: nat, j: nat, kind: Kind)
    requires i < |plan| == |replies| && j < |plan| && next == i + 1
    ensures CountsStep(plan, replies, i, j, kind) <==>
            if i == j then plan[j].Some? && plan[j].value.kind == kind && Succeeds(plan[j].value, replies[j])
            else
              && (plan[i].Some? ==> plan[i].value.kind != Close && Succeeds(plan[i].value, replies[i]))
              && CountsStep(plan, replies, next, j, kind)
  {
    if i < j {
      ComesOn(plan, replies, i, next, j);
    }
  }

  /** A step is counted exactly when the visit comes to it and its calls succeed, and then once. */
  lemma {:induction false} CountedExactly(
      w: World, plan: seq<Option<Step>>, replies: seq<Replies>, i: nat, k: Cleanup, kind: Kind)
    requires i <= |plan| == |replies| == |CLEANUPS|
    ensures Counted(w, plan, replies, i)[(k, kind)] == if CountsStep(plan, replies, i, IndexOf(k), kind) then 1 else 0
    decreases |plan| - i
  {
    if i < |plan| {
      var next := i + 1;
      var v := Live(w, replies[i].meanwhile);
      OwnIndex(i, k);
      CountedOn(w, plan, replies, i, next, (k, kind));
      CountsOn(plan, replies, i, next, IndexOf(k), kind);
      CountedExactly(v, plan, replies, next, k, kind);
      if plan[i].Some? {
        CountedExactly(TakeStep(v, plan[i].value, replies[i]).0, plan, replies, next, k, kind);
      }
    }
  }

  /** A dry run counts what a run without failures does: every step that no earlier step closes before. */
  lemma WantedExactly(w: World, plan: seq<Option<Step>>, replies: seq<Replies>, k: Cleanup, kind: Kind)
    requires |plan| == |replies| == |CLEANUPS| && AllDelivered(replies)
    ensures Wanted(plan, 0)[(k, kind)] ==
            if plan[IndexOf(k)].Some? && plan[IndexOf(k)].value.kind == kind &&
               (forall h | 0 <= h < IndexOf(k) && plan[h].Some? :: plan[h].value.kind != Close) then 1 else 0
  {
    assert forall h | 0 <= h < |replies| :: replies[h] in replies;
    DryRunPredictsSteps(w, plan, replies, 0);
    CountedExactly(w, plan, replies, 0, k, kind);
  }

  // ---------------------------------------------------------------------------
  // Posting
  // ---------------------------------------------------------------------------

  /** The visit comes to the step of `k`, which has a comment to post that takes effect. */
  predicate PostsNotice(plan: seq<Option<Step>>, replies: seq<Replies>, i: nat, k: Cleanup)
    requires |plan| == |replies| == |CLEANUPS|
  {
    var j := IndexOf(k);
    i <= j && Comes(plan, replies, i, j) && PostsFor(k, plan[j]) && !replies[j].post.Refused?
  }

  predicate IsNoticeOf(c: Comment, n: Notice) {
    c.author == Some("zed-community-bot") && c.marks == {n.mark} && c.promise == n.promise &&
    c.bareClaCheck == (n.mark == ClaRetry)
  }

  /** One comment of `k` was written, which is the notice `n`. */
  ghost predicate OneWrote(k: Cleanup, n: Notice, a: seq<Comment>, b: seq<Comment>) {
    exists mid: seq<Comment>, c: Comment {:trigger OnlyOthersWrote(k, a, mid), IsNoticeOf(c, n)} ::
      OnlyOthersWrote(k, a, mid) && IsNoticeOf(c, n) && OnlyOthersWrote(k, mid + [c], b)
  }

  lemma OneWroteOn(k: Cleanup, n: Notice, a: seq<Comment>, b: seq<Comment>, c: seq<Comment>)
    requires OnlyOthersWrote(k, a, b) && OneWrote(k, n, b, c)
    ensures OneWrote(k, n, a, c)
  {
    var mid, x :| OnlyOthersWrote(k, b, mid) && IsNoticeOf(x, n) && OnlyOthersWrote(k, mid + [x], c);
    OthersWroteOn(k, a, b, mid);
  }

  lemma PostWrote(k: Cleanup, w: World, step: Step, r: Replies, end: seq<Comment>)
    requires step.notice.Some? && !r.post.Refused?
    requires OnlyOthersWrote(k, TakeStep(w, step, r).0.pr.comments, end)
    ensures OneWrote(k, step.notice.value, w.pr.comments, end)
  {
    var at := w.clock + r.post.delay;
    NobodyWrote(k, w.pr.comments);
    assert IsNoticeOf(Post(step.notice.value, at), step.notice.value);
  }

  lemma PostsOn(plan: seq<Option<Step>>, replies: seq<Replies>, i: nat, next: nat, k: Cleanup)
    requires i < |plan| == |replies| == |CLEANUPS| && next == i + 1 && i != IndexOf(k)
    ensures PostsNotice(plan, replies, i, k) <==>
            (plan[i].Some? ==> plan[i].value.kind != Close && Succeeds(plan[i].value, replies[i])) &&
            PostsNotice(plan, replies, next, k)
  {
    if i < IndexOf(k) {
      ComesOn(plan, replies, i, next, IndexOf(k));
    }
  }

  /** The visit ends with the step at `i`, or goes on from there. */
  lemma VisitOn(w: World, plan: seq<Option<Step>>, replies: seq<Replies>, i: nat, next: nat)
    requires i < |plan| == |replies| && next == i + 1
    ensures var v := Live(w, replies[i].meanwhile);
            Visit(w, plan, replies, i).0 ==
            if plan[i].None? then Visit(v, plan, replies, next).0
            else
              var after := TakeStep(v, plan[i].value, replies[i]).0;
              if plan[i].value.kind == Close || !Succeeds(plan[i].value, replies[i]) then after
              else Visit(after, plan, replies, next).0
  {
    if plan[i].Some? {
      StepSucceeds(Live(w, replies[i].meanwhile), plan[i].value, replies[i]);
    }
  }

  /** What people wrote before a step does not matter. */
  lemma WriteLater(k: Cleanup, a: seq<Comment>, b: seq<Comment>, end: seq<Comment>, n: Option<Notice>)
    requires OnlyOthersWrote(k, a, b)
    requires if n.Some? then OneWrote(k, n.value, b, end) else OnlyOthersWrote(k, b, end)
    ensures if n.Some? then OneWrote(k, n.value, a, end) else OnlyOthersWrote(k, a, end)
  {
    if n.Some? {
      OneWroteOn(k, n.value, a, b, end);
    } else {
      OthersWroteOn(k, a, b, end);
    }
  }

  /** The notice of `k` that the visit posts from index `i` on, if any. */
  function NoticePosted(plan: seq<Option<Step>>, replies: seq<Replies>, i: nat, k: Cleanup): Option<Notice>
    requires |plan| == |replies| == |CLEANUPS|
  {
    if PostsNotice(plan, replies, i, k) then plan[IndexOf(k)].value.notice else None
  }

  ghost predicate Wrote(k: Cleanup, n: Option<Notice>, a: seq<Comment>, b: seq<Comment>) {
    if n.Some? then OneWrote(k, n.value, a, b) else OnlyOthersWrote(k, a, b)
  }

  lemma OwnStepWrites(k: Cleanup, v: World, plan: seq<Option<Step>>, replies: seq<Replies>, i: nat, next: nat,
                      end: seq<Comment>)
    requires i == IndexOf(k) && next == i + 1 && Planned(plan) && |replies| == |plan| && plan[i].Some?
    requires OnlyOthersWrote(k, TakeStep(v, plan[i].value, replies[i]).0.pr.comments, end)
    ensures Wrote(k, NoticePosted(plan, replies, i, k), v.pr.comments, end)
  {
    var step := plan[i].value;
    if step.notice.Some? && !replies[i].post.Refused? {
      PostWrote(k, v, step, replies[i], end);
    } else {
      StepIsSilent(v, step, replies[i]);
    }
  }

  lemma OtherStepWrites(k: Cleanup, v: World, plan: seq<Option<Step>>, replies: seq<Replies>, i: nat, end: seq<Comment>,
                        n: Option<Notice>)
    requires i < |plan| && i != IndexOf(k) && Planned(plan) && |replies| == |plan| && plan[i].Some?
    requires Wrote(k, n, TakeStep(v, plan[i].value, replies[i]).0.pr.comments, end)
    ensures Wrote(k, n, v.pr.comments, end)
  {
    OwnIndex(i, k);
    StepWrote(k, v, plan[i].value, replies[i]);
    WriteLater(k, v.pr.comments, TakeStep(v, plan[i].value, replies[i]).0.pr.comments, end, n);
  }

  /** A visit posts a rule's notice once if it comes to it and the call takes effect, and nothing else of that rule. */
  lemma {:induction false} VisitWritesExactly(
      k: Cleanup, w: World, plan: seq<Option<Step>>, replies: seq<Replies>, i: nat)
    requires i <= |plan| && Planned(plan) && |replies| == |plan| && HonestReplies(replies)
    ensures Wrote(k, NoticePosted(plan, replies, i, k), w.pr.comments, Visit(w, plan, replies, i).0.pr.comments)
    decreases |plan| - i
  {
    NobodyWrote(k, w.pr.comments);
    if i < |plan| {
      var next, n := i + 1, NoticePosted(plan, replies, i, k);
      var v, end := Live(w, replies[i].meanwhile), Visit(w, plan, replies, i).0.pr.comments;
      PeopleWrote(k, w, replies[i].meanwhile);
      VisitOn(w, plan, replies, i, next);
      if i != IndexOf(k) {
        PostsOn(plan, replies, i, next, k);
      }
      if plan[i].None? {
        VisitWritesExactly(k, v, plan, replies, next);
      } else {
        var after := TakeStep(v, plan[i].value, replies[i]).0;
        NobodyWrote(k, after.pr.comments);
        VisitWritesExactly(k, after, plan, replies, next);
        if i == IndexOf(k) {
          OwnStepWrites(k, v, plan, replies, i, next, end);
        } else {
          OtherStepWrites(k, v, plan, replies, i, end, n);
        }
      }
      WriteLater(k, w.pr.comments, v.pr.comments, end, n);
    }
  }

  // ---------------------------------------------------------------------------
  // Closing
  // ---------------------------------------------------------------------------

  /** The visit comes to a close whose comment does not fail and whose call takes effect. */
  predicate ClosesAt(plan: seq<Option<Step>>, replies: seq<Replies>, i: nat, j: nat)
    requires |plan| == |replies|
  {
    i <= j < |plan| && Comes(plan, replies, i, j) && TakesEffect(plan, replies, j)
  }

  /** The step at `j` is a close that takes effect. */
  predicate TakesEffect(plan: seq<Option<Step>>, replies: seq<Replies>, j: nat)
    requires |plan| == |replies| && j < |plan|
  {
    IsClose(plan[j]) && (plan[j].value.notice.Some? ==> replies[j].post.Delivered?) && !replies[j].close.Refused?
  }

  predicate NobodyReopens(acts: seq<Timed>) {
    forall i | 0 <= i < |acts| :: !acts[i].activity.Reopens?
  }

  lemma {:induction false} OpenAsBefore(w: World, acts: seq<Timed>)
    requires NobodyCloses(acts) && NobodyReopens(acts)
    ensures Live(w, acts).open == w.open
  {
    if acts != [] {
      OpenAsBefore(w, acts[..|acts| - 1]);
    }
  }

  lemma StepCloses(w: World, step: Step, r: Replies)
    ensures TakeStep(w, step, r).0.open ==
            (w.open && !(step.kind == Close && (step.notice.Some? ==> r.post.Delivered?) && !r.close.Refused?))
  {
  }

  lemma ClosesOn(plan: seq<Option<Step>>, replies: seq<Replies>, i: nat, next: nat, j: nat)
    requires i < |plan| == |replies| && next == i + 1
    ensures ClosesAt(plan, replies, i, j) <==>
            if i == j then
              TakesEffect(plan, replies, j)
            else
              && (plan[i].Some? ==> plan[i].value.kind != Close && Succeeds(plan[i].value, replies[i]))
              && ClosesAt(plan, replies, next, j)
  {
    if i < j < |plan| {
      ComesOn(plan, replies, i, next, j);
    }
  }

  /** Where people leave that alone, a visit closes exactly when it comes to a close that takes effect. */
  lemma {:induction false} VisitClosesExactly(w: World, plan: seq<Option<Step>>, replies: seq<Replies>, i: nat)
    requires i <= |plan| == |replies|
    requires forall j | 0 <= j < |replies| :: NobodyCloses(replies[j].meanwhile) && NobodyReopens(replies[j].meanwhile)
    ensures Visit(w, plan, replies, i).0.open <==> w.open && forall j: nat :: !ClosesAt(plan, replies, i, j)
    decreases |plan| - i
  {
    if i < |plan| {
      var next := i + 1;
      var v := Live(w, replies[i].meanwhile);
      OpenAsBefore(w, replies[i].meanwhile);
      VisitOn(w, plan, replies, i, next);
      forall j: nat ensures ClosesAt(plan, replies, i, j) <==>
          if i == j then
            TakesEffect(plan, replies, j)
          else
            && (plan[i].Some? ==> plan[i].value.kind != Close && Succeeds(plan[i].value, replies[i]))
            && ClosesAt(plan, replies, next, j)
      {
        ClosesOn(plan, replies, i, next, j);
      }
      assert !ClosesAt(plan, replies, next, i);
      VisitClosesExactly(v, plan, replies, next);
      if plan[i].Some? {
        var after := TakeStep(v, plan[i].value, replies[i]).0;
        StepCloses(v, plan[i].value, replies[i]);
        VisitClosesExactly(after, plan, replies, next);
      }
    }
  }

  // ---------------------------------------------------------------------------
  // What is read when
  // ---------------------------------------------------------------------------

  /** An activity that changes only what the list shows. */
  predicate OnlyListed(a: Activity) {
    a.RemovesLabel? || a.ConvertsToDraft?
  }

  /** One that changes only what the details show. */
  predicate OnlyDetailed(a: Activity) {
    a.Says? || a.Reopens? || a.RequestsReview? || a.EditsReadme?
  }

  lemma {:induction false} LateSummaryIsUnseen(w: World, acts: seq<Timed>)
    requires forall i | 0 <= i < |acts| :: OnlyListed(acts[i].activity)
    ensures Seen(w.pr, Live(w, acts).pr) == w.pr
  {
    if acts != [] {
      LateSummaryIsUnseen(w, acts[..|acts| - 1]);
    }
  }

  lemma {:induction false} LateDetailIsSeen(w: World, acts: seq<Timed>)
    requires forall i | 0 <= i < |acts| :: OnlyDetailed(acts[i].activity)
    ensures Seen(w.pr, Live(w, acts).pr) == Live(w, acts).pr
  {
    if acts != [] {
      LateDetailIsSeen(w, acts[..|acts| - 1]);
    }
  }

  /** Once the list is fetched, what it shows may change unseen; the details are seen as of when they are fetched. */
  lemma ReadsInTwoSteps(start: World, p: Passage)
    ensures (forall i | 0 <= i < |p.late| :: OnlyListed(p.late[i].activity)) ==> SeenBy(start, p) == Listed(start, p).pr
    ensures (forall i | 0 <= i < |p.late| :: OnlyDetailed(p.late[i].activity)) ==>
              SeenBy(start, p) == Fetched(start, p).pr
  {
    if forall i | 0 <= i < |p.late| :: OnlyListed(p.late[i].activity) {
      LateSummaryIsUnseen(Listed(start, p), p.late);
    }
    if forall i | 0 <= i < |p.late| :: OnlyDetailed(p.late[i].activity) {
      LateDetailIsSeen(Listed(start, p), p.late);
    }
  }
}
