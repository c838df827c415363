/** What the four decisions rely on, and what posting their comments keeps. */
module CleanupGrounds {
  import opened Wrappers
  import opened CleanupDecisions
  import opened CleanupProtocol

  ghost predicate BotIsPast(comments: seq<Comment>, now: Instant) {
    forall c, m | c in comments && ByBot(c, m) :: c.at <= now
  }

  /** What every decision of `k` with a comment to post relies on. */
  ghost predicate Decided(k: Cleanup, comments: seq<Comment>, since: Instant, now: Instant, step: Step) {
    && step.notice.Some?
    && Owner(step.notice.value.mark) == k
    && now > since
    && !HasCounting(comments, CloseMark(k), since)
    && (step.notice.value.mark == PingMark(k) ==> !HasCounting(comments, PingMark(k), since))
    && (IsDated(step.notice.value.mark) ==>
          step.notice.value.promise == Some(Day(now + CloseAfter(step.notice.value.mark))))
    && (step.notice.value.mark == CloseMark(k) && k != Changes ==> AllExpired(comments, k, since, now))
  }

  /** What it has waited for. */
  ghost predicate Grounds(k: Cleanup, comments: seq<Comment>, since: Instant, now: Instant, step: Step) {
    && Decided(k, comments, since, now, step)
    && (if step.kind.Close? then
          && step.notice.value.mark == CloseMark(k)
          && HasCounting(comments, PingMark(k), since)
          && AllExpired(comments, k, since, now)
        else if step.kind.Acknowledge? then
          && k == Changes && step.notice.value.mark == ChangesAck
          && HasCounting(comments, ChangesPing, since)
        else
          && step.notice.value.mark == PingMark(k)
          && now >= since + PingAfter(k))
  }

  lemma PingsExpired(comments: seq<Comment>, k: Cleanup, since: Instant, now: Instant)
    requires k != Changes
    requires BotCommentedAt(comments, PingMark(k), since).Some?
    requires var p := BotCommentedAt(comments, PingMark(k), since).value;
             if IsDated(PingMark(k)) then ClosingDateReached(p, CloseAfter(PingMark(k)), now)
             else now - p >= CloseAfter(PingMark(k))
    ensures AllExpired(comments, k, since, now)
    ensures HasCounting(comments, PingMark(k), since)
  {
    var p := BotCommentedAt(comments, PingMark(k), since).value;
    forall c, m | c in comments && Counts(c, m, since) && IsNoticeMark(m) && Owner(m) == k
      ensures Expired(c, m, now)
    {
      assert m == PingMark(k) && c.at <= p;
    }
    var c :| c in comments && ByBot(c, PingMark(k)) && c.at == p;
    assert Counts(c, PingMark(k), since);
  }

  lemma ClaGrounds(pr: PullRequest, now: Instant, step: Step)
    requires ClaAction(pr, now) == Some(step) && step.notice.Some?
    ensures Grounds(Cla, pr.comments, Since(Cla, pr).value, now, step)
  {
    var since := Since(Cla, pr).value;
    if step.kind.Close? {
      PingsExpired(pr.comments, Cla, since, now);
    }
  }

  lemma DraftGrounds(pr: PullRequest, now: Instant, step: Step)
    requires DraftAction(pr, now) == Some(step) && step.notice.Some?
    ensures Grounds(Draft, pr.comments, Since(Draft, pr).value, now, step)
  {
    var since := Since(Draft, pr).value;
    if step.kind.Close? {
      PingsExpired(pr.comments, Draft, since, now);
    }
  }

  /** The two decisions with a comment that the self-review rule can take. */
  predicate SelfReviewDecision(comments: seq<Comment>, since: Instant, now: Instant, step: Step) {
    var pinged := BotCommentedAt(comments, ReviewPing, since);
    && BotCommentedAt(comments, ReviewClose, since).None?
    && (if pinged.None? then
          && step == Step(Ping, Some(Notice(ReviewPing, Some(Day(now + REVIEW_CLOSE_AFTER_PING)))))
          && now >= since + REVIEW_PING_AFTER
        else
          && step == Step(Close, Some(Notice(ReviewClose, None)))
          && ClosingDateReached(pinged.value, REVIEW_CLOSE_AFTER_PING, now))
  }

  lemma SelfReviewDecisionGrounds(comments: seq<Comment>, since: Instant, now: Instant, step: Step)
    requires SelfReviewDecision(comments, since, now, step)
    ensures Grounds(SelfReview, comments, since, now, step)
  {
    if step.kind.Close? {
      PingsExpired(comments, SelfReview, since, now);
    }
  }

  lemma SelfReviewGrounds(pr: PullRequest, now: Instant, step: Step)
    requires SelfReviewAction(pr, now) == Some(step) && step.notice.Some?
    ensures Grounds(SelfReview, pr.comments, Since(SelfReview, pr).value, now, step)
  {
    SelfReviewDecisionGrounds(pr.comments, Since(SelfReview, pr).value, now, step);
  }

  lemma ChangesExpired(comments: seq<Comment>, since: Instant, now: Instant)
    requires Orderly(Changes, comments, since)
    requires BotCommentedAt(comments, ChangesPing, since).Some?
    requires var pinged := BotCommentedAt(comments, ChangesPing, since);
             var acknowledged := BotCommentedAt(comments, ChangesAck, since);
             if acknowledged.Some? then ClosingDateReached(acknowledged.value, CHANGES_CLOSE_AFTER_ACK, now)
             else ClosingDateReached(pinged.value, CHANGES_CLOSE_AFTER_PING, now)
    ensures AllExpired(comments, Changes, since, now)
  {
    var pinged := BotCommentedAt(comments, ChangesPing, since);
    var acknowledged := BotCommentedAt(comments, ChangesAck, since);
    forall c, m | c in comments && Counts(c, m, since) && IsNoticeMark(m) && Owner(m) == Changes
      ensures Expired(c, m, now)
    {
      if acknowledged.Some? {
        var a :| a in comments && ByBot(a, ChangesAck) && a.at == acknowledged.value;
        assert Counts(a, ChangesAck, since);
        assert c.at + CloseAfter(m) <= a.at + CHANGES_CLOSE_AFTER_ACK;
      } else {
        assert m == ChangesPing && c.at <= pinged.value;
      }
    }
  }

  /** The three decisions with a comment that the changes-requested rule can take. */
  predicate ChangesDecision(comments: seq<Comment>, since: Instant, now: Instant, step: Step) {
    var pinged := BotCommentedAt(comments, ChangesPing, since);
    var acknowledged := BotCommentedAt(comments, ChangesAck, since);
    && BotCommentedAt(comments, ChangesClose, since).None?
    && (if pinged.None? then
          && step == Step(Ping, Some(Notice(ChangesPing, Some(Day(now + CHANGES_CLOSE_AFTER_PING)))))
          && now >= since + CHANGES_PING_AFTER
        else if step.kind.Close? then
          && step == Step(Close, Some(Notice(ChangesClose, None)))
          && (if acknowledged.Some? then ClosingDateReached(acknowledged.value, CHANGES_CLOSE_AFTER_ACK, now)
              else ClosingDateReached(pinged.value, CHANGES_CLOSE_AFTER_PING, now))
        else
          step == Step(Acknowledge, Some(Notice(ChangesAck, Some(Day(now + CHANGES_CLOSE_AFTER_ACK))))))
  }

  lemma ChangesShape(pr: PullRequest, now: Instant, step: Step)
    requires ChangesAction(pr, now) == Some(step) && step.notice.Some?
    ensures Since(Changes, pr).Some?
    ensures ChangesDecision(pr.comments, Since(Changes, pr).value, now, step)
  {
  }

  lemma ChangesDecided(comments: seq<Comment>, since: Instant, now: Instant, step: Step)
    requires ChangesDecision(comments, since, now, step) && BotIsPast(comments, now)
    ensures Decided(Changes, comments, since, now, step)
  {
  }

  lemma ChangesLaterGrounds(comments: seq<Comment>, since: Instant, now: Instant, step: Step)
    requires ChangesDecision(comments, since, now, step)
    requires BotCommentedAt(comments, ChangesPing, since).Some?
    requires HasCounting(comments, ChangesPing, since) && now > since
    requires step.kind.Close? ==> AllExpired(comments, Changes, since, now)
    ensures Grounds(Changes, comments, since, now, step)
  {
  }

  lemma ChangesGrounds(pr: PullRequest, now: Instant, step: Step)
    requires ChangesAction(pr, now) == Some(step) && step.notice.Some?
    requires Follows(Changes, pr)
    requires BotIsPast(pr.comments, now)
    ensures Since(Changes, pr).Some?
    ensures Grounds(Changes, pr.comments, Since(Changes, pr).value, now, step)
  {
    ChangesShape(pr, now, step);
    ChangesDecisionGrounds(pr.comments, Since(Changes, pr).value, now, step);
  }

  lemma ChangesDecisionGrounds(comments: seq<Comment>, since: Instant, now: Instant, step: Step)
    requires ChangesDecision(comments, since, now, step) && Orderly(Changes, comments, since)
    requires BotIsPast(comments, now)
    ensures Grounds(Changes, comments, since, now, step)
  {
    if BotCommentedAt(comments, ChangesPing, since).Some? {
      if step.kind.Close? {
        ChangesExpired(comments, since, now);
      }
      ChangesLaterGrounds(comments, since, now, step);
    }
  }

  lemma ActionDecided(k: Cleanup, pr: PullRequest, now: Instant, step: Step)
    requires Action(k, pr, now) == Some(step) && step.notice.Some? && BotIsPast(pr.comments, now)
    ensures Since(k, pr).Some?
    ensures Decided(k, pr.comments, Since(k, pr).value, now, step)
  {
    match k
    case Cla => ClaGrounds(pr, now, step);
    case Draft => DraftGrounds(pr, now, step);
    case Changes =>
      ChangesShape(pr, now, step);
      ChangesDecided(pr.comments, Since(Changes, pr).value, now, step);
    case SelfReview => SelfReviewGrounds(pr, now, step);
  }

  lemma ActionGrounds(k: Cleanup, pr: PullRequest, now: Instant, step: Step)
    requires Action(k, pr, now) == Some(step) && step.notice.Some? && BotIsPast(pr.comments, now)
    requires Follows(k, pr)
    ensures Since(k, pr).Some?
    ensures Grounds(k, pr.comments, Since(k, pr).value, now, step)
  {
    match k
    case Cla => ClaGrounds(pr, now, step);
    case Draft => DraftGrounds(pr, now, step);
    case Changes => ChangesGrounds(pr, now, step);
    case SelfReview => SelfReviewGrounds(pr, now, step);
  }

  /** Whatever a clean-up posts carries one of its own markers. */
  lemma ActionOwns(k: Cleanup, pr: PullRequest, now: Instant, step: Step)
    requires Action(k, pr, now) == Some(step) && step.notice.Some?
    ensures Owner(step.notice.value.mark) == k
  {
  }

  /** Closing without a comment only repeats a close that was already announced. */
  lemma SilentStepRepeatsClose(k: Cleanup, pr: PullRequest, now: Instant, step: Step)
    requires Action(k, pr, now) == Some(step) && step.notice.None?
    ensures step.kind.Close?
    ensures Since(k, pr).Some? && HasCounting(pr.comments, CloseMark(k), Since(k, pr).value)
  {
    var since := Since(k, pr).value;
    var closed := BotCommentedAt(pr.comments, CloseMark(k), since);
    var c :| c in pr.comments && ByBot(c, CloseMark(k)) && c.at == closed.value;
    assert Counts(c, CloseMark(k), since);
  }

  // ---------------------------------------------------------------------------
  // Comments that do not concern a clean-up
  // ---------------------------------------------------------------------------

  /** None of the comments carries a marker of `k` under the bot's name. */
  ghost predicate Foreign(comments: seq<Comment>, k: Cleanup) {
    forall c, m | c in comments && ByBot(c, m) :: Owner(m) != k
  }

  lemma CountingInConcat(a: seq<Comment>, b: seq<Comment>, m: Marker, since: Instant)
    requires Foreign(b, Owner(m))
    ensures HasCounting(a + b, m, since) <==> HasCounting(a, m, since)
  {
  }

  lemma ForeignKeepsSingle(a: seq<Comment>, b: seq<Comment>, m: Marker, since: Instant)
    requires Foreign(b, Owner(m)) && Single(a, m, since)
    ensures Single(a + b, m, since)
  {
  }

  lemma ForeignKeepsProtocol(k: Cleanup, a: seq<Comment>, b: seq<Comment>, since: Instant)
    requires Foreign(b, k) && Protocol(k, a, since)
    ensures Protocol(k, a + b, since)
  {
    ForeignKeepsSingle(a, b, PingMark(k), since);
    ForeignKeepsSingle(a, b, CloseMark(k), since);
    CountingInConcat(a, b, PingMark(k), since);
    assert forall c, m | c in a + b && Counts(c, m, since) && Owner(m) == k :: c in a;
  }

  lemma ForeignKeepsSteady(k: Cleanup, a: seq<Comment>, b: seq<Comment>, since: Instant)
    requires Foreign(b, k) && Steady(k, a, since)
    ensures Steady(k, a + b, since)
  {
    ForeignKeepsSingle(a, b, PingMark(k), since);
    ForeignKeepsSingle(a, b, CloseMark(k), since);
    assert forall c, m | c in a + b && Counts(c, m, since) && Owner(m) == k :: c in a;
  }

  lemma RenewedClockStartsClean(k: Cleanup, comments: seq<Comment>, since: Instant)
    requires Renewed(k, comments, since)
    ensures Protocol(k, comments, since)
  {
    assert Owner(PingMark(k)) == k && Owner(CloseMark(k)) == k;
  }

  lemma DecidedAhead(k: Cleanup, a: seq<Comment>, b: seq<Comment>, since: Instant, now: Instant, step: Step)
    requires Decided(k, a, since, now, step) && Foreign(b, k)
    ensures Decided(k, a + b, since, now, step)
  {
  }

  lemma GroundsAhead(k: Cleanup, a: seq<Comment>, b: seq<Comment>, since: Instant, now: Instant, step: Step)
    requires Grounds(k, a, since, now, step) && Foreign(b, k)
    ensures Grounds(k, a + b, since, now, step)
  {
  }

  // ---------------------------------------------------------------------------
  // Posting
  // ---------------------------------------------------------------------------

  /** A comment the script posts for `step`, at whatever time it gets through. */
  predicate IsPostOf(c: Comment, step: Step) {
    && step.notice.Some? && c.author == Some(COMMUNITY_BOT)
    && c.marks == {step.notice.value.mark} && c.promise == step.notice.value.promise
  }

  /** Posting a decided comment keeps it single and its promise good, even under another clock that it is first for. */
  lemma PostKeepsSteady(
      k: Cleanup, comments: seq<Comment>, since: Instant, decidedOn: Instant, now: Instant, step: Step, c: Comment)
    requires Steady(k, comments, since) && Decided(k, comments, decidedOn, now, step)
    requires since == decidedOn || Renewed(k, comments, since)
    requires IsPostOf(c, step) && now <= c.at
    ensures Steady(k, comments + [c], since)
  {
  }

  lemma PostedClose(k: Cleanup, comments: seq<Comment>, since: Instant, now: Instant, step: Step, c: Comment)
    requires Orderly(k, comments, since)
    requires Grounds(k, comments, since, now, step) && now <= c.at
    requires c.marks == {step.notice.value.mark}
    ensures forall d | d in comments + [c] && Counts(d, CloseMark(k), since) ::
              HasCounting(comments, PingMark(k), since) && AllExpired(comments + [c], k, since, d.at)
  {
  }

  lemma PostKeepsOrderly(k: Cleanup, comments: seq<Comment>, since: Instant, now: Instant, step: Step, c: Comment)
    requires Orderly(k, comments, since) && Grounds(k, comments, since, now, step)
    requires IsPostOf(c, step) && now <= c.at && forall d | d in comments :: d.at <= c.at
    ensures Orderly(k, comments + [c], since)
  {
    var all := comments + [c];
    assert Counts(c, step.notice.value.mark, since);
    assert forall m | HasCounting(comments, m, since) :: HasCounting(all, m, since) by {
      forall m | HasCounting(comments, m, since) ensures HasCounting(all, m, since) {
        var d :| d in comments && Counts(d, m, since);
        assert d in all;
      }
    }
    PostedClose(k, comments, since, now, step, c);
  }

  /** The heart of the protocol: posting what a decision asks for keeps it. */
  lemma PostKeepsProtocol(k: Cleanup, comments: seq<Comment>, since: Instant, now: Instant, step: Step, c: Comment)
    requires Protocol(k, comments, since) && Grounds(k, comments, since, now, step)
    requires IsPostOf(c, step) && now <= c.at && forall d | d in comments :: d.at <= c.at
    ensures Protocol(k, comments + [c], since)
  {
    PostKeepsSteady(k, comments, since, since, now, step, c);
    PostKeepsOrderly(k, comments, since, now, step, c);
  }

  lemma SinceIgnoresComments(k: Cleanup, pr: PullRequest, comments: seq<Comment>)
    ensures Since(k, pr.(comments := comments)) == Since(k, pr)
  {
  }
}
