/**
  What each clean-up decides, read off what GitHub reports: which comments, commits, reviews,
  labels and events call for which step, and that nothing else does.
 */
module CleanupRules {
  import opened Wrappers
  import opened CleanupDecisions
  import opened CleanupProtocol
  import opened CleanupTheorems

  // ---------------------------------------------------------------------------
  // What was said and done
  // ---------------------------------------------------------------------------

  /** The bot posted a comment carrying `m` at `t`. */
  ghost predicate SaidAt(pr: PullRequest, m: Marker, t: Instant) {
    exists c :: c in pr.comments && c.author == Some("zed-community-bot") && m in c.marks && c.at == t
  }

  ghost predicate SaidAfter(pr: PullRequest, m: Marker, since: Instant) {
    exists t :: SaidAt(pr, m, t) && t > since
  }

  /** It last did so at `t`, later than `since`. */
  ghost predicate LastSaidAt(pr: PullRequest, m: Marker, since: Instant, t: Instant) {
    SaidAt(pr, m, t) && t > since && forall u | SaidAt(pr, m, u) :: u <= t
  }

  /** The author wrote something other than a bare CLA check, or reviewed, at `t`. */
  ghost predicate RepliedAt(pr: PullRequest, t: Instant) {
    || (exists c :: c in pr.comments && c.author == pr.author && !c.bareClaCheck && c.at == t)
    || Reviewed(t, pr.author) in pr.timeline
  }

  ghost predicate RepliedAfter(pr: PullRequest, since: Instant) {
    exists t :: RepliedAt(pr, t) && t > since
  }

  /** A commit that is no merge, by the author or by nobody known, dated after `t`. */
  ghost predicate WorkedAfter(pr: PullRequest, t: Instant) {
    exists c :: c in pr.commits && c.parents <= 1 && (c.user == None || c.user == pr.author) && c.at > t
  }

  ghost predicate AskedForReviewAfter(pr: PullRequest, t: Instant) {
    exists u :: ReviewRequested(u) in pr.timeline && u > t
  }

  /** Review `i` is by staff and requests changes, and no later review is by staff. */
  ghost predicate IsStanding(pr: PullRequest, i: nat) {
    && i < |pr.reviews| && pr.reviews[i].verdict == ChangesRequested
    && (exists who :: pr.reviews[i].author == Some(who) && who in pr.staff)
    && forall j, who | i < j < |pr.reviews| && pr.reviews[j].author == Some(who) :: who !in pr.staff
  }

  ghost predicate RequestedAt(pr: PullRequest, t: Instant) {
    exists i: nat :: IsStanding(pr, i) && pr.reviews[i].at == t
  }

  // ---------------------------------------------------------------------------
  // Clocks
  // ---------------------------------------------------------------------------

  /** It was last turned into a draft at `t`, or opened as one. */
  predicate DraftedAt(pr: PullRequest, t: Instant) {
    pr.convertedAt == Some(t) || (pr.convertedAt == None && pr.createdAt == t)
  }

  /** A moment from which the clock of `k` counts. */
  ghost predicate CountsFrom(k: Cleanup, pr: PullRequest, t: Instant) {
    || Reopened(t) in pr.timeline
    || match k
       case Cla => t == pr.createdAt
       case Draft => t == pr.latestCommitAt || DraftedAt(pr, t)
       case Changes => RequestedAt(pr, t)
       case SelfReview =>
         || ReadyForReview(t) in pr.timeline
         || Labeled(t, "no self-review") in pr.timeline
         || (t == pr.createdAt && forall u :: Labeled(u, "no self-review") !in pr.timeline)
  }

  /** The clock of `k` starts at the last of them; that of a change request only while there is one. */
  ghost predicate StartsAt(k: Cleanup, pr: PullRequest, s: Instant) {
    && (k == Changes ==> exists t :: RequestedAt(pr, t))
    && CountsFrom(k, pr, s) && forall t | CountsFrom(k, pr, t) :: t <= s
  }

  lemma RequestIsStanding(pr: PullRequest, t: Instant)
    ensures StaffChangeRequestAt(pr.reviews, pr.staff) == Some(t) <==> RequestedAt(pr, t)
  {
    LatestStaffVerdict(pr.reviews, pr.staff, t);
    forall i: nat ensures StandsAt(pr.reviews, pr.staff, i, t) <==> IsStanding(pr, i) && pr.reviews[i].at == t {
    }
  }

  lemma OneRequest(pr: PullRequest)
    ensures forall t {:trigger RequestedAt(pr, t)} ::
              RequestedAt(pr, t) <==> StaffChangeRequestAt(pr.reviews, pr.staff) == Some(t)
  {
    forall t ensures RequestedAt(pr, t) <==> StaffChangeRequestAt(pr.reviews, pr.staff) == Some(t) {
      RequestIsStanding(pr, t);
    }
  }

  lemma LatestReopened(events: seq<Event>, start: Instant, s: Instant)
    ensures LatestReopen(events, start) == s <==>
            (s == start || Reopened(s) in events) && start <= s && forall t | Reopened(t) in events :: t <= s
  {
  }

  /** `start` is the last of them but for reopenings. */
  ghost predicate LastBefore(k: Cleanup, pr: PullRequest, start: Instant) {
    CountsFrom(k, pr, start) && forall t | CountsFrom(k, pr, t) && Reopened(t) !in pr.timeline :: t <= start
  }

  lemma ReopeningsToo(k: Cleanup, pr: PullRequest, start: Instant, s: Instant)
    requires LastBefore(k, pr, start)
    ensures LatestReopen(pr.timeline, start) == s <==>
            CountsFrom(k, pr, s) && forall t | CountsFrom(k, pr, t) :: t <= s
  {
    LatestReopened(pr.timeline, start, s);
    assert forall t | Reopened(t) in pr.timeline :: CountsFrom(k, pr, t);
  }

  lemma DraftCountsFrom(pr: PullRequest)
    ensures LastBefore(Draft, pr, DraftActiveAt(pr))
  {
  }

  lemma ReviewCountsFrom(pr: PullRequest)
    ensures LastBefore(SelfReview, pr, SelfReviewStartedAt(pr))
  {
    var labeled := LabeledAt(pr.timeline);
    assert labeled.None? ==> forall u :: Labeled(u, "no self-review") !in pr.timeline;
  }

  /** The clock of a clean-up starts at the last moment from which it counts. */
  lemma ClockStartsAt(k: Cleanup, pr: PullRequest, s: Instant)
    ensures Since(k, pr) == Some(s) <==> StartsAt(k, pr, s)
  {
    match k
    case Cla => ReopeningsToo(Cla, pr, pr.createdAt, s);
    case Draft =>
      DraftCountsFrom(pr);
      ReopeningsToo(Draft, pr, DraftActiveAt(pr), s);
    case Changes => ChangesStartsAt(pr, s);
    case SelfReview =>
      ReviewCountsFrom(pr);
      ReopeningsToo(SelfReview, pr, SelfReviewStartedAt(pr), s);
  }

  lemma ChangesStartsAt(pr: PullRequest, s: Instant)
    ensures Since(Changes, pr) == Some(s) <==> StartsAt(Changes, pr, s)
  {
    OneRequest(pr);
    var requested := StaffChangeRequestAt(pr.reviews, pr.staff);
    if requested.Some? {
      assert RequestedAt(pr, requested.value);
      ReopeningsToo(Changes, pr, requested.value, s);
    }
  }

  // ---------------------------------------------------------------------------
  // What opens a clean-up
  // ---------------------------------------------------------------------------

  predicate FromOutside(pr: PullRequest) {
    "staff" !in pr.labels && "bot" !in pr.labels
  }

  /** What must be so before the comments matter. */
  ghost predicate Opens(k: Cleanup, pr: PullRequest, now: Instant) {
    match k
    case Cla => FromOutside(pr) && "cla-signed" !in pr.labels && now >= pr.createdAt + 7 * DAY
    case Draft =>
      pr.isDraft && now >= pr.latestCommitAt + 21 * DAY && exists t :: DraftedAt(pr, t) && now >= t + 21 * DAY
    case Changes =>
      && !pr.isDraft && FromOutside(pr)
      && exists t :: RequestedAt(pr, t) && now >= t + 14 * DAY && !AskedForReviewAfter(pr, t) && !WorkedAfter(pr, t)
    case SelfReview => !pr.isDraft && "no self-review" in pr.labels && FromOutside(pr)
  }

  lemma ChangesOpens(pr: PullRequest, now: Instant)
    ensures Opens(Changes, pr, now) <==> Applies(Changes, pr, now)
  {
    OneRequest(pr);
    forall t ensures WorkedAfter(pr, t) <==> AuthorPushedSince(pr, t) {
    }
    forall t ensures AskedForReviewAfter(pr, t) <==> ReviewRequestedSince(pr, t) {
    }
  }

  lemma OpensWhenApplies(k: Cleanup, pr: PullRequest, now: Instant)
    ensures Opens(k, pr, now) <==> Applies(k, pr, now)
  {
    if k == Changes {
      ChangesOpens(pr, now);
    } else if k == Draft {
      assert DraftedAt(pr, if pr.convertedAt == None then pr.createdAt else pr.convertedAt.value);
    }
  }

  // ---------------------------------------------------------------------------
  // What each clean-up calls for
  // ---------------------------------------------------------------------------

  /** What follows a dated notice on a change request: an acknowledgement of an answer, or the closing. */
  ghost predicate FollowsNotice(pr: PullRequest, noticed: Instant, grace: int, now: Instant, step: Step) {
    if RepliedAfter(pr, noticed) then
      step == Step(Acknowledge, Some(Notice(ChangesAck, Some(Day(now + 14 * DAY)))))
    else
      Day(now) >= Day(noticed + grace) && step == Step(Close, Some(Notice(ChangesClose, None)))
  }

  ghost predicate ClaCallsFor(pr: PullRequest, s: Instant, now: Instant, step: Step) {
    && now >= s + 7 * DAY && !RepliedAfter(pr, s)
    && if !SaidAfter(pr, ClaRetry, s) then step == Step(Retry, Some(Notice(ClaRetry, None)))
       else
         && (forall t | LastSaidAt(pr, ClaRetry, s, t) :: now >= t + DAY)
         && step == Step(Close, Some(Notice(ClaClose, None)))
  }

  ghost predicate DraftCallsFor(pr: PullRequest, s: Instant, now: Instant, step: Step) {
    && now >= s + 21 * DAY
    && if !SaidAfter(pr, DraftPing, s) then step == Step(Ping, Some(Notice(DraftPing, None)))
       else
         && (forall t | LastSaidAt(pr, DraftPing, s, t) :: now >= t + 7 * DAY)
         && step == Step(Close, Some(Notice(DraftClose, None)))
  }

  ghost predicate ChangesCallsFor(pr: PullRequest, s: Instant, now: Instant, step: Step) {
    if !SaidAfter(pr, ChangesPing, s) then
      && now >= s + 14 * DAY && (forall t | RepliedAt(pr, t) && t > s :: now >= t + 14 * DAY)
      && step == Step(Ping, Some(Notice(ChangesPing, Some(Day(now + 7 * DAY)))))
    else if !SaidAfter(pr, ChangesAck, s) then
      exists t :: LastSaidAt(pr, ChangesPing, s, t) && FollowsNotice(pr, t, 7 * DAY, now, step)
    else
      exists t :: LastSaidAt(pr, ChangesAck, s, t) && FollowsNotice(pr, t, 14 * DAY, now, step)
  }

  ghost predicate ReviewCallsFor(pr: PullRequest, s: Instant, now: Instant, step: Step) {
    if !SaidAfter(pr, ReviewPing, s) then
      && pr.noticePresent && now >= s + DAY
      && step == Step(Ping, Some(Notice(ReviewPing, Some(Day(now + 3 * DAY)))))
    else
      exists t :: && LastSaidAt(pr, ReviewPing, s, t)
                  && Day(now) >= Day(t + 3 * DAY) && (pr.noticePresent || !RepliedAfter(pr, t))
                  && step == Step(Close, Some(Notice(ReviewClose, None)))
  }

  /** Once the closing is announced it is only repeated. */
  ghost predicate CallsFor(k: Cleanup, pr: PullRequest, s: Instant, now: Instant, step: Step) {
    match k
    case Cla => if SaidAfter(pr, ClaClose, s) then step == Step(Close, None) else ClaCallsFor(pr, s, now, step)
    case Draft => if SaidAfter(pr, DraftClose, s) then step == Step(Close, None) else DraftCallsFor(pr, s, now, step)
    case Changes =>
      if SaidAfter(pr, ChangesClose, s) then step == Step(Close, None) else ChangesCallsFor(pr, s, now, step)
    case SelfReview =>
      if SaidAfter(pr, ReviewClose, s) then step == Step(Close, None) else ReviewCallsFor(pr, s, now, step)
  }

  lemma SaidMeans(pr: PullRequest, m: Marker, s: Instant)
    ensures var r := BotCommentedAt(pr.comments, m, s);
            && (r.None? <==> !SaidAfter(pr, m, s))
            && (r.Some? ==> LastSaidAt(pr, m, s, r.value))
            && forall t {:trigger LastSaidAt(pr, m, s, t)} | LastSaidAt(pr, m, s, t) :: r == Some(t)
  {
    var r := BotCommentedAt(pr.comments, m, s);
    if r.Some? {
      assert SaidAt(pr, m, r.value);
    }
  }

  lemma RepliedMeans(pr: PullRequest, s: Instant)
    ensures var r := AuthorCommentedAt(pr, s);
            && (r.None? <==> !RepliedAfter(pr, s))
            && (r.Some? ==> RepliedAt(pr, r.value) && r.value > s && forall t | RepliedAt(pr, t) :: t <= r.value)
  {
    LatestAnswer(pr, s);
    forall t ensures RepliedAt(pr, t) <==> Answers(pr, t) {
    }
  }

  lemma ClaCalls(pr: PullRequest, s: Instant, now: Instant, step: Step)
    requires Opens(Cla, pr, now) && Since(Cla, pr) == Some(s)
    ensures ClaAction(pr, now) == Some(step) <==> CallsFor(Cla, pr, s, now, step)
  {
    SaidMeans(pr, ClaClose, s);
    SaidMeans(pr, ClaRetry, s);
    RepliedMeans(pr, s);
  }

  lemma DraftCalls(pr: PullRequest, s: Instant, now: Instant, step: Step)
    requires Opens(Draft, pr, now) && Since(Draft, pr) == Some(s)
    ensures DraftAction(pr, now) == Some(step) <==> CallsFor(Draft, pr, s, now, step)
  {
    OpensWhenApplies(Draft, pr, now);
    SaidMeans(pr, DraftClose, s);
    SaidMeans(pr, DraftPing, s);
  }

  lemma ReviewCalls(pr: PullRequest, s: Instant, now: Instant, step: Step)
    requires Opens(SelfReview, pr, now) && Since(SelfReview, pr) == Some(s)
    ensures SelfReviewAction(pr, now) == Some(step) <==> CallsFor(SelfReview, pr, s, now, step)
  {
    SaidMeans(pr, ReviewClose, s);
    SaidMeans(pr, ReviewPing, s);
    var pinged := BotCommentedAt(pr.comments, ReviewPing, s);
    if pinged.Some? {
      RepliedMeans(pr, pinged.value);
      assert LastSaidAt(pr, ReviewPing, s, pinged.value);
    }
  }

  lemma FollowsExactly(pr: PullRequest, since: Instant, noticed: Instant, grace: int, now: Instant, step: Step)
    requires noticed > since
    ensures var commented := AuthorCommentedAt(pr, since);
            FollowsNotice(pr, noticed, grace, now, step) <==>
            if commented.Some? && commented.value > noticed then
              step == Step(Acknowledge, Some(Notice(ChangesAck, Some(ClosingDay(CHANGES_CLOSE_AFTER_ACK, now)))))
            else ClosingDateReached(noticed, grace, now) && step == Step(Close, Some(Notice(ChangesClose, None)))
  {
    RepliedMeans(pr, since);
  }

  lemma ChangesNoticed(pr: PullRequest, s: Instant, now: Instant, step: Step)
    requires Applies(Changes, pr, now) && Since(Changes, pr) == Some(s)
    requires BotCommentedAt(pr.comments, ChangesClose, s).None? && BotCommentedAt(pr.comments, ChangesPing, s).Some?
    ensures ChangesAction(pr, now) == Some(step) <==> ChangesCallsFor(pr, s, now, step)
  {
    var pinged, acked := BotCommentedAt(pr.comments, ChangesPing, s), BotCommentedAt(pr.comments, ChangesAck, s);
    SaidMeans(pr, ChangesPing, s);
    SaidMeans(pr, ChangesAck, s);
    if acked.Some? {
      FollowsExactly(pr, s, acked.value, CHANGES_CLOSE_AFTER_ACK, now, step);
    } else {
      FollowsExactly(pr, s, pinged.value, CHANGES_CLOSE_AFTER_PING, now, step);
    }
  }

  lemma ChangesUnnoticed(pr: PullRequest, s: Instant, now: Instant, step: Step)
    requires Applies(Changes, pr, now) && Since(Changes, pr) == Some(s)
    requires BotCommentedAt(pr.comments, ChangesClose, s).None? && BotCommentedAt(pr.comments, ChangesPing, s).None?
    ensures ChangesAction(pr, now) == Some(step) <==> ChangesCallsFor(pr, s, now, step)
  {
    SaidMeans(pr, ChangesPing, s);
    RepliedMeans(pr, s);
  }

  lemma ChangesCalls(pr: PullRequest, s: Instant, now: Instant, step: Step)
    requires Opens(Changes, pr, now) && Since(Changes, pr) == Some(s)
    ensures ChangesAction(pr, now) == Some(step) <==> CallsFor(Changes, pr, s, now, step)
  {
    OpensWhenApplies(Changes, pr, now);
    SaidMeans(pr, ChangesClose, s);
    if BotCommentedAt(pr.comments, ChangesClose, s).None? {
      if BotCommentedAt(pr.comments, ChangesPing, s).Some? {
        ChangesNoticed(pr, s, now, step);
      } else {
        ChangesUnnoticed(pr, s, now, step);
      }
    }
  }

  lemma ClosedUnlessOpen(k: Cleanup, pr: PullRequest, now: Instant)
    requires !Opens(k, pr, now) || Since(k, pr).None?
    ensures Action(k, pr, now).None?
  {
    OpensWhenApplies(k, pr, now);
  }

  /** The decision table: each clean-up takes exactly the step that what was said and done calls for. */
  lemma DecidesExactlyWhen(k: Cleanup, pr: PullRequest, now: Instant, step: Step)
    ensures Action(k, pr, now) == Some(step) <==>
            Opens(k, pr, now) && exists s :: StartsAt(k, pr, s) && CallsFor(k, pr, s, now, step)
  {
    forall s ensures Since(k, pr) == Some(s) <==> StartsAt(k, pr, s) {
      ClockStartsAt(k, pr, s);
    }
    if !Opens(k, pr, now) || Since(k, pr).None? {
      ClosedUnlessOpen(k, pr, now);
    } else {
      var s := Since(k, pr).value;
      match k
      case Cla => ClaCalls(pr, s, now, step);
      case Draft => DraftCalls(pr, s, now, step);
      case Changes => ChangesCalls(pr, s, now, step);
      case SelfReview => ReviewCalls(pr, s, now, step);
    }
  }
}
