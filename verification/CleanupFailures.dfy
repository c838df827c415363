/** Inputs on which the clean-up script breaks a promise, each for want of one condition. */
module CleanupFailures {
  import opened Wrappers
  import opened CleanupDecisions
  import opened CleanupProtocol
  import opened CleanupGrounds
  import opened CleanupTheorems
  import opened CleanupExactness
  import opened CleanupPromises

  function YoungDraft(): PullRequest {
    PullRequest(0, Some("author"), {}, {}, true, 0, None, [], [], [Commit(0, Some("author"), 1)], [], false)
  }

  const DRAFT_NOTICE: Notice := Notice(DraftPing, None)

  lemma OneNotice(pr: PullRequest, at: Instant, since: Instant)
    requires pr.comments == [] && at > since
    ensures var pinged := Posted(pr, DRAFT_NOTICE, at);
            && BotCommentedAt(pinged.comments, DraftPing, since) == Some(at)
            && BotCommentedAt(pinged.comments, DraftClose, since) == None
  {
    var c := Comment(at, Some(COMMUNITY_BOT), {DraftPing}, false, None);
    assert [c][..0] == [];
  }

  /**
    A push at `at` that lands between the decision to ping a draft and the ping: the ping
    counts for the new clock, and the next closing comes before 28 days have passed.
   */
  lemma PushDuringRunBreaksTheWord(pr: PullRequest, commits: seq<Commit>, at: Instant, posted: Instant)
    requires pr.isDraft && BotIsPast(pr.comments, at)
    requires commits != [] && commits[|commits| - 1].at == at
    requires Since(Draft, Apply(pr, Pushes(commits), at)) == Some(at)
    requires at < posted < at + 21 * DAY
    ensures var after := Posted(Apply(pr, Pushes(commits), at), DRAFT_NOTICE, posted);
            Since(Draft, after) == Some(at) && !KeepsItsWord(Draft, after, posted)
  {
    var pushed := Apply(pr, Pushes(commits), at);
    var after := Posted(pushed, DRAFT_NOTICE, posted);
    SinceIgnoresComments(Draft, pushed, after.comments);
    assert after.comments == pr.comments + [after.comments[|pr.comments|]];
    NoticedExactlyWhen(Draft, after, posted);
  }

  /**
    A commit made before the ping but pushed after it sets the clock back behind the ping,
    and the draft is closed 21 days after that commit.
   */
  lemma BackdatedCommitClosesEarly()
    ensures exists push: Activity, now: Instant ::
              var pinged := Posted(YoungDraft(), DRAFT_NOTICE, 22 * DAY);
              var pr := Apply(pinged, push, 23 * DAY);
              && DraftAction(YoungDraft(), 22 * DAY) == Some(Step(Ping, Some(DRAFT_NOTICE)))
              && Since(Draft, pr) == Some(20 * DAY)
              && IsClose(DraftAction(pr, now)) && now - 20 * DAY == 21 * DAY
  {
    var push := Pushes([Commit(0, Some("author"), 1), Commit(20 * DAY, Some("author"), 1)]);
    var now := 41 * DAY;
    var pinged := Posted(YoungDraft(), DRAFT_NOTICE, 22 * DAY);
    OneNotice(YoungDraft(), 22 * DAY, 20 * DAY);
    var pr := Apply(pinged, push, 23 * DAY);
    assert IsClose(DraftAction(pr, now));
  }

  // ---------------------------------------------------------------------------
  // A closing comment that comes too late
  // ---------------------------------------------------------------------------

  lemma OnlyClosing(k: Cleanup, comments: seq<Comment>, at: Instant, c: Comment)
    requires BotIsPast(comments, at) && c.at > at && ByBot(c, CloseMark(k)) && c.marks == {CloseMark(k)}
    ensures HasCounting(comments + [c], CloseMark(k), at) && BotIsPast(comments + [c], c.at)
    ensures BotCommentedAt(comments + [c], PingMark(k), at).None?
  {
    assert c in comments + [c] && Counts(c, CloseMark(k), at);
  }

  /**
    A reopening between the decision to close and the closing comment, under any rule: the
    comment counts for the new clock, and the pull request is closed without a new notice.
   */
  lemma LateClosingCommentSkipsNotice(k: Cleanup, pr: PullRequest, at: Instant, posted: Instant)
    requires Concerns(k, pr) && BotIsPast(pr.comments, at) && posted > at
    requires Since(k, Apply(pr, Reopens, at)) == Some(at)
    ensures var after := Posted(Apply(pr, Reopens, at), Notice(CloseMark(k), None), posted);
            CanClose(k, after) && !Pinged(k, after) && !StaysDue(k, after, posted)
  {
    var reopened := Apply(pr, Reopens, at);
    var after := Posted(reopened, Notice(CloseMark(k), None), posted);
    SinceIgnoresComments(k, reopened, after.comments);
    OnlyClosing(k, pr.comments, at, Post(Notice(CloseMark(k), None), posted));
    ReopeningKeepsConcern(k, pr, at, after.comments);
    DueExactlyWhen(k, after, posted);
  }

  lemma ReopeningKeepsConcern(k: Cleanup, pr: PullRequest, at: Instant, comments: seq<Comment>)
    requires Concerns(k, pr)
    ensures Concerns(k, Apply(pr, Reopens, at).(comments := comments))
  {
  }

  // ---------------------------------------------------------------------------
  // A push that sets a draft's clock back
  // ---------------------------------------------------------------------------

  const FIRST: Commit := Commit(0, Some("author"), 1)
  const DRAFT_CLOSING: Notice := Notice(DraftClose, None)

  lemma OneMore(comments: seq<Comment>, c: Comment, m: Marker, since: Instant)
    ensures var before := BotCommentedAt(comments, m, since);
            BotCommentedAt(comments + [c], m, since) == if ByBot(c, m) then Later(before, c.at, since) else before
  {
    assert (comments + [c])[..|comments|] == comments;
  }

  /** The draft after a first notice at 22 days and a closing comment at 29, both under its first commit. */
  function ClosedOnce(): PullRequest {
    Posted(Posted(YoungDraft(), DRAFT_NOTICE, 22 * DAY), DRAFT_CLOSING, 29 * DAY)
  }

  /** A second commit is pushed at 30 days. */
  function SecondCommit(): PullRequest {
    Apply(ClosedOnce(), Pushes([FIRST, Commit(30 * DAY, Some("author"), 1)]), 30 * DAY)
  }

  /** The same after a notice at 51 days and a closing comment at 58. */
  function ClosedTwice(): PullRequest {
    Posted(Posted(SecondCommit(), DRAFT_NOTICE, 51 * DAY), DRAFT_CLOSING, 58 * DAY)
  }

  lemma ClosedOnceIsDecided()
    ensures DraftAction(YoungDraft(), 22 * DAY) == Some(Step(Ping, Some(DRAFT_NOTICE)))
    ensures DraftAction(Posted(YoungDraft(), DRAFT_NOTICE, 22 * DAY), 29 * DAY) ==
            Some(Step(Close, Some(DRAFT_CLOSING)))
  {
    OneNotice(YoungDraft(), 22 * DAY, 0);
  }

  /** What the rule decides on a draft whose notice, if any, is old enough. */
  lemma DraftDecides(pr: PullRequest, active: Instant, pinged: Option<Instant>, now: Instant)
    requires pr.isDraft && DraftActiveAt(pr) == active && Since(Draft, pr) == Some(active)
    requires BotCommentedAt(pr.comments, DraftClose, active).None?
    requires BotCommentedAt(pr.comments, DraftPing, active) == pinged
    requires now >= active + 21 * DAY && (pinged.Some? ==> now >= pinged.value + 7 * DAY)
    ensures DraftAction(pr, now) ==
            Some(if pinged.None? then Step(Ping, Some(DRAFT_NOTICE)) else Step(Close, Some(DRAFT_CLOSING)))
  {
  }

  lemma ClosedTwiceIsDecided()
    ensures DraftAction(SecondCommit(), 51 * DAY) == Some(Step(Ping, Some(DRAFT_NOTICE)))
    ensures DraftAction(Posted(SecondCommit(), DRAFT_NOTICE, 51 * DAY), 58 * DAY) ==
            Some(Step(Close, Some(DRAFT_CLOSING)))
  {
    var before, c := SecondCommit().comments, Post(DRAFT_NOTICE, 51 * DAY);
    assert forall d | d in before :: d.at <= 30 * DAY;
    DraftDecides(SecondCommit(), 30 * DAY, None, 51 * DAY);
    OneMore(before, c, DraftPing, 30 * DAY);
    OneMore(before, c, DraftClose, 30 * DAY);
    DraftDecides(Posted(SecondCommit(), DRAFT_NOTICE, 51 * DAY), 30 * DAY, Some(51 * DAY), 58 * DAY);
  }

  /** When both close calls fail and the second commit is taken back, two closing comments count for the first. */
  lemma UntimelyPushClosesTwice()
    ensures var pr := Apply(ClosedTwice(), Pushes([FIRST]), 59 * DAY);
            Since(Draft, pr) == Some(0) && !Single(pr.comments, DraftClose, 0)
  {
    var pr := Apply(ClosedTwice(), Pushes([FIRST]), 59 * DAY);
    assert Counts(pr.comments[1], DraftClose, 0) && Counts(pr.comments[3], DraftClose, 0);
  }

  // ---------------------------------------------------------------------------
  // An acknowledgement that comes too late
  // ---------------------------------------------------------------------------

  const AUTHOR: Option<Login> := Some("author")
  const STAFF: Option<Login> := Some("staff")

  const FIRST_PING: Notice := Notice(ChangesPing, Some(21))
  const ACKNOWLEDGEMENT: Notice := Notice(ChangesAck, Some(30))
  const SECOND_PING: Notice := Notice(ChangesPing, Some(37))
  const AGAIN: Instant := 16 * DAY + 10

  /** Staff requested changes at 0. */
  function Requested(comments: seq<Comment>): PullRequest {
    PullRequest(0, AUTHOR, {"staff"}, {}, false, 0, None, [Review(0, STAFF, ChangesRequested)], comments,
                [FIRST], [Reviewed(0, STAFF)], false)
  }

  /** And once more at `AGAIN`. */
  function RequestedAgain(comments: seq<Comment>): PullRequest {
    PullRequest(0, AUTHOR, {"staff"}, {}, false, 0, None,
                [Review(0, STAFF, ChangesRequested), Review(AGAIN, STAFF, ChangesRequested)], comments,
                [FIRST], [Reviewed(0, STAFF), Reviewed(AGAIN, STAFF)], false)
  }

  /** The author answers the first ping a day later. */
  function Answered(): seq<Comment> {
    [Post(FIRST_PING, 14 * DAY), Comment(15 * DAY, AUTHOR, {}, false, None)]
  }

  /** The acknowledgement is posted after the second request. */
  function Acked(): seq<Comment> {
    Answered() + [Post(ACKNOWLEDGEMENT, 16 * DAY + 20)]
  }

  /** The author is pinged under the new clock. */
  function PingedAgain(): seq<Comment> {
    Acked() + [Post(SECOND_PING, 30 * DAY + 20)]
  }

  lemma FirstClock(comments: seq<Comment>)
    ensures var pr := Requested(comments);
            Since(Changes, pr) == Some(0) == StaffChangeRequestAt(pr.reviews, pr.staff)
  {
    assert forall e | e in Requested(comments).timeline :: !e.Reopened?;
  }

  lemma SecondClock(comments: seq<Comment>)
    ensures var pr := RequestedAgain(comments);
            Since(Changes, pr) == Some(AGAIN) == StaffChangeRequestAt(pr.reviews, pr.staff)
  {
    assert forall e | e in RequestedAgain(comments).timeline :: !e.Reopened?;
  }

  lemma OnlyStaffReviewed(comments: seq<Comment>, t: Instant)
    ensures AuthorReviewedAt(Requested(comments).timeline, AUTHOR, t).None?
    ensures AuthorReviewedAt(RequestedAgain(comments).timeline, AUTHOR, t).None?
  {
  }

  predicate NoNewAnswer(comments: seq<Comment>) {
    forall c | c in comments && ByAuthor(c, AUTHOR) :: c.at <= AGAIN
  }

  lemma StillNoAnswer(comments: seq<Comment>, n: Notice, at: Instant)
    requires NoNewAnswer(comments)
    ensures NoNewAnswer(comments + [Post(n, at)])
  {
  }

  lemma AnswerIsOld(comments: seq<Comment>)
    requires NoNewAnswer(comments)
    ensures AuthorCommentedAt(RequestedAgain(comments), AGAIN).None?
  {
    OnlyStaffReviewed(comments, AGAIN);
  }

  /** Under the second request the acknowledgement is the first comment that counts. */
  lemma AckCountsAlone()
    ensures BotCommentedAt(Acked(), ChangesPing, AGAIN).None? && BotCommentedAt(Acked(), ChangesClose, AGAIN).None?
    ensures BotCommentedAt(Acked(), ChangesAck, AGAIN) == Some(16 * DAY + 20)
  {
    OneMore(Answered(), Post(ACKNOWLEDGEMENT, 16 * DAY + 20), ChangesAck, AGAIN);
  }

  lemma PingCountsToo()
    ensures BotCommentedAt(PingedAgain(), ChangesPing, AGAIN) == Some(30 * DAY + 20)
    ensures BotCommentedAt(PingedAgain(), ChangesClose, AGAIN).None?
    ensures BotCommentedAt(PingedAgain(), ChangesAck, AGAIN) == Some(16 * DAY + 20)
  {
    AckCountsAlone();
    var c := Post(SECOND_PING, 30 * DAY + 20);
    OneMore(Acked(), c, ChangesPing, AGAIN);
    OneMore(Acked(), c, ChangesAck, AGAIN);
    OneMore(Acked(), c, ChangesClose, AGAIN);
  }

  lemma AnswerCounts()
    ensures AuthorCommentedAt(Requested(Answered()), 0) == Some(15 * DAY)
    ensures BotCommentedAt(Answered(), ChangesPing, 0) == Some(14 * DAY)
    ensures BotCommentedAt(Answered(), ChangesAck, 0).None? && BotCommentedAt(Answered(), ChangesClose, 0).None?
  {
    OnlyStaffReviewed(Answered(), 0);
    assert Answered()[1] in Answered() && Answered()[0] in Answered();
  }

  lemma FirstPingIsDecided()
    ensures ChangesAction(Requested([]), 14 * DAY) == Some(Step(Ping, Some(FIRST_PING)))
  {
    FirstClock([]);
    OnlyStaffReviewed([], 0);
  }

  lemma AcknowledgementIsDecided()
    ensures ChangesAction(Requested(Answered()), 16 * DAY) == Some(Step(Acknowledge, Some(ACKNOWLEDGEMENT)))
  {
    FirstClock(Answered());
    AnswerCounts();
  }

  /** The facts about the comments under the second request that the rule looks at. */
  predicate Under(comments: seq<Comment>, pinged: Option<Instant>, acked: Option<Instant>) {
    && NoNewAnswer(comments)
    && BotCommentedAt(comments, ChangesPing, AGAIN) == pinged
    && BotCommentedAt(comments, ChangesAck, AGAIN) == acked
    && BotCommentedAt(comments, ChangesClose, AGAIN) == None
  }

  lemma PingsAgain(comments: seq<Comment>, acked: Option<Instant>, now: Instant)
    requires Under(comments, None, acked) && now >= AGAIN + CHANGES_PING_AFTER
    ensures ChangesAction(RequestedAgain(comments), now) ==
            Some(Step(Ping, Some(Notice(ChangesPing, Some(Day(now + CHANGES_CLOSE_AFTER_PING))))))
  {
    SecondClock(comments);
    AnswerIsOld(comments);
  }

  lemma ClosesAgain(comments: seq<Comment>, pinged: Instant, acked: Instant, now: Instant)
    requires Under(comments, Some(pinged), Some(acked)) && now >= AGAIN + CHANGES_PING_AFTER
    requires Day(now) >= Day(acked + CHANGES_CLOSE_AFTER_ACK)
    ensures IsClose(ChangesAction(RequestedAgain(comments), now))
  {
    SecondClock(comments);
    AnswerIsOld(comments);
  }

  lemma UnderAcked()
    ensures Under(Acked(), None, Some(16 * DAY + 20))
  {
    AckCountsAlone();
    StillNoAnswer(Answered(), ACKNOWLEDGEMENT, 16 * DAY + 20);
  }

  lemma UnderPingedAgain()
    ensures Under(PingedAgain(), Some(30 * DAY + 20), Some(16 * DAY + 20))
  {
    PingCountsToo();
    UnderAcked();
    StillNoAnswer(Acked(), SECOND_PING, 30 * DAY + 20);
  }

  lemma SecondPingIsDecided()
    ensures ChangesAction(RequestedAgain(Acked()), 30 * DAY + 10) == Some(Step(Ping, Some(SECOND_PING)))
  {
    UnderAcked();
    PingsAgain(Acked(), Some(16 * DAY + 20), 30 * DAY + 10);
  }

  lemma CloseIsDecided()
    ensures IsClose(ChangesAction(RequestedAgain(PingedAgain()), 31 * DAY))
  {
    UnderPingedAgain();
    ClosesAgain(PingedAgain(), 30 * DAY + 20, 16 * DAY + 20, 31 * DAY);
  }

  lemma DateIsMissed(comments: seq<Comment>, c: Comment, day: int)
    requires c in comments && Counts(c, ChangesPing, AGAIN) && c.promise.Some? && c.promise.value > day
    ensures !DatesBy(Changes, comments, AGAIN, day)
  {
  }

  /** How the five states follow from each other. */
  lemma ActivitiesBetween()
    ensures Requested(Answered()) ==
            Apply(Posted(Requested([]), FIRST_PING, 14 * DAY), Says(AUTHOR, {}, false), 15 * DAY)
    ensures RequestedAgain(Acked()) ==
            Posted(Apply(Requested(Answered()), Reviews(STAFF, Some(ChangesRequested)), AGAIN),
                   ACKNOWLEDGEMENT, 16 * DAY + 20)
    ensures RequestedAgain(PingedAgain()) == Posted(RequestedAgain(Acked()), SECOND_PING, 30 * DAY + 20)
  {
  }

  /**
    The acknowledgement counts for the second request and wins over the later ping: the ping
    promises day 37, and the decision on day 31 is to close.
   */
  lemma LateAcknowledgementBreaksTheDate()
    ensures var pr := RequestedAgain(PingedAgain());
            && IsClose(ChangesAction(pr, 31 * DAY)) && SECOND_PING.promise == Some(37)
            && Since(Changes, pr).Some? && !DatesKept(Changes, pr, 31 * DAY)
  {
    SecondClock(PingedAgain());
    CloseIsDecided();
    DateIsMissed(PingedAgain(), PingedAgain()[3], Day(31 * DAY));
  }
}
