/**
  Exactly when the waiting times hold, for every pull request whatever its history:
  the last notice must not fall too early after the clock start. Calm histories see
  to that; a push during a run, or a commit dated before a notice, need not.
 */
module CleanupExactness {
  import opened Wrappers
  import opened CleanupDecisions
  import opened CleanupProtocol
  import opened CleanupGrounds
  import opened CleanupTheorems

  /** The part of a rule's opening conditions that time does not change. */
  predicate Concerns(k: Cleanup, pr: PullRequest) {
    match k
    case Cla => IsCommunity(pr.labels) && CLA_SIGNED !in pr.labels
    case Draft => pr.isDraft
    case Changes =>
      && !pr.isDraft && IsCommunity(pr.labels)
      && StaffChangeRequestAt(pr.reviews, pr.staff).Some?
      && var requested := StaffChangeRequestAt(pr.reviews, pr.staff).value;
      !ReviewRequestedSince(pr, requested) && !AuthorPushedSince(pr, requested)
    case SelfReview => !pr.isDraft && NO_SELF_REVIEW in pr.labels && IsCommunity(pr.labels)
  }

  predicate Pinged(k: Cleanup, pr: PullRequest) {
    Since(k, pr).Some? && BotCommentedAt(pr.comments, PingMark(k), Since(k, pr).value).Some?
  }

  function PingedAt(k: Cleanup, pr: PullRequest): Instant
    requires Pinged(k, pr)
  {
    BotCommentedAt(pr.comments, PingMark(k), Since(k, pr).value).value
  }

  predicate Acknowledged(pr: PullRequest)
    requires Since(Changes, pr).Some?
  {
    BotCommentedAt(pr.comments, ChangesAck, Since(Changes, pr).value).Some?
  }

  /** When the notice that counts was posted. */
  function NoticedAt(k: Cleanup, pr: PullRequest): Instant
    requires Pinged(k, pr)
  {
    if k == Changes && Acknowledged(pr) then BotCommentedAt(pr.comments, ChangesAck, Since(k, pr).value).value
    else PingedAt(k, pr)
  }

  /** How long it delays the closing. */
  function Grace(k: Cleanup, pr: PullRequest): int
    requires Pinged(k, pr)
  {
    CloseAfter(if k == Changes && Acknowledged(pr) then ChangesAck else PingMark(k))
  }

  /** The author has not answered in the way the rule asks for. */
  predicate Unanswered(k: Cleanup, pr: PullRequest)
    requires Pinged(k, pr)
  {
    var since := Since(k, pr).value;
    match k
    case Cla => AuthorCommentedAt(pr, since).None?
    case Draft => true
    case Changes => AuthorCommentedAt(pr, since).None? || AuthorCommentedAt(pr, since).value <= NoticedAt(k, pr)
    case SelfReview => pr.noticePresent || AuthorCommentedAt(pr, PingedAt(k, pr)).None?
  }

  /** The notice came late enough for the whole waiting time to pass before the closing. */
  predicate OnTime(k: Cleanup, pr: PullRequest)
    requires Pinged(k, pr)
  {
    var since, noticed := Since(k, pr).value, NoticedAt(k, pr);
    match k
    case Cla => noticed >= since + CLA_RETRY_AFTER
    case Draft => noticed >= since + DRAFT_PING_AFTER
    case Changes => Day(noticed) >= Day(since) + if Acknowledged(pr) then 7 else 14
    case SelfReview => Day(noticed) >= Day(since) + 1
  }

  // ---------------------------------------------------------------------------
  // The first moment of closing
  // ---------------------------------------------------------------------------

  lemma DayLater(t: Instant, n: int)
    ensures Day(t + n * DAY) == Day(t) + n
  {
  }

  /** When the rule's own waiting time is over, notices aside. */
  function OpensAt(k: Cleanup, pr: PullRequest): Instant
    requires Since(k, pr).Some?
  {
    match k
    case Cla => Since(k, pr).value + CLA_RETRY_AFTER
    case Draft => Since(k, pr).value + DRAFT_PING_AFTER
    case Changes => StaffChangeRequestAt(pr.reviews, pr.staff).value + CHANGES_PING_AFTER
    case SelfReview => Since(k, pr).value
  }

  predicate Reached(k: Cleanup, noticed: Instant, grace: int, now: Instant) {
    if k == Cla || k == Draft then now >= noticed + grace else Day(now) >= Day(noticed + grace)
  }

  /** A pull request that has its notice is closed from a certain moment on. */
  lemma ClosesFromThen(k: Cleanup, pr: PullRequest, now: Instant)
    requires Pinged(k, pr) && !Announced(k, pr)
    ensures IsClose(Action(k, pr, now)) <==>
            && Concerns(k, pr) && Unanswered(k, pr)
            && (k == SelfReview || now >= OpensAt(k, pr))
            && Reached(k, NoticedAt(k, pr), Grace(k, pr), now)
  {
    match k
    case Cla =>
    case Draft =>
    case Changes => ChangesClosesFromThen(pr, now);
    case SelfReview => SelfReviewClosesFromThen(pr, now);
  }

  lemma ChangesClosesFromThen(pr: PullRequest, now: Instant)
    requires Pinged(Changes, pr) && BotCommentedAt(pr.comments, ChangesClose, Since(Changes, pr).value).None?
    ensures IsClose(ChangesAction(pr, now)) <==>
            && Concerns(Changes, pr) && Unanswered(Changes, pr)
            && now >= OpensAt(Changes, pr) && Reached(Changes, NoticedAt(Changes, pr), Grace(Changes, pr), now)
  {
    if Concerns(Changes, pr) && now >= OpensAt(Changes, pr) {
      ChangesClosesOnceOpen(pr, now);
    }
  }

  lemma ChangesClosesOnceOpen(pr: PullRequest, now: Instant)
    requires Pinged(Changes, pr) && BotCommentedAt(pr.comments, ChangesClose, Since(Changes, pr).value).None?
    requires Concerns(Changes, pr) && now >= OpensAt(Changes, pr)
    ensures IsClose(ChangesAction(pr, now)) <==>
            Unanswered(Changes, pr) && Reached(Changes, NoticedAt(Changes, pr), Grace(Changes, pr), now)
  {
  }

  lemma SelfReviewClosesFromThen(pr: PullRequest, now: Instant)
    requires Pinged(SelfReview, pr) && BotCommentedAt(pr.comments, ReviewClose, Since(SelfReview, pr).value).None?
    ensures IsClose(SelfReviewAction(pr, now)) <==>
            && Concerns(SelfReview, pr) && Unanswered(SelfReview, pr)
            && Reached(SelfReview, NoticedAt(SelfReview, pr), Grace(SelfReview, pr), now)
  {
  }

  // ---------------------------------------------------------------------------
  // Exactly when the waiting times hold
  // ---------------------------------------------------------------------------

  /** No closing decision, now or later, comes before the whole waiting time. */
  ghost predicate KeepsItsWord(k: Cleanup, pr: PullRequest, from: Instant)
    requires Since(k, pr).Some?
  {
    forall now | now >= from && IsClose(Action(k, pr, now)) :: Waited(k, Since(k, pr).value, now)
  }

  function DayStart(t: Instant): Instant {
    Day(t) * DAY
  }

  /** The first moment at which a notice has run its course. */
  function ReachedFrom(k: Cleanup, noticed: Instant, grace: int): Instant {
    if k == Cla || k == Draft then noticed + grace else DayStart(noticed + grace)
  }

  /** The first moment at which an unanswered notice lets the pull request be closed. */
  function FirstMoment(k: Cleanup, pr: PullRequest): Instant
    requires Pinged(k, pr)
  {
    var reached := ReachedFrom(k, NoticedAt(k, pr), Grace(k, pr));
    if k == SelfReview then reached else Max(OpensAt(k, pr), reached)
  }

  lemma SameDay(t: Instant, now: Instant)
    ensures Day(DayStart(t)) == Day(t)
    ensures now >= DayStart(t) <==> Day(now) >= Day(t)
  {
  }

  lemma ReachedFromThere(k: Cleanup, noticed: Instant, grace: int, now: Instant)
    ensures Reached(k, noticed, grace, now) <==> now >= ReachedFrom(k, noticed, grace)
  {
    SameDay(noticed + grace, now);
  }

  /** Nothing but the time matters then. */
  lemma ClosesFromFirstMoment(k: Cleanup, pr: PullRequest, now: Instant)
    requires Pinged(k, pr) && !Announced(k, pr)
    ensures IsClose(Action(k, pr, now)) <==> Concerns(k, pr) && Unanswered(k, pr) && now >= FirstMoment(k, pr)
  {
    ClosesFromThen(k, pr, now);
    ReachedFromThere(k, NoticedAt(k, pr), Grace(k, pr), now);
  }

  lemma LaterDay(a: Instant, b: Instant)
    requires a <= b
    ensures Day(a) <= Day(b)
  {
  }

  lemma OnTimeWaits(k: Cleanup, pr: PullRequest, now: Instant)
    requires Pinged(k, pr) && OnTime(k, pr) && Reached(k, NoticedAt(k, pr), Grace(k, pr), now)
    ensures Waited(k, Since(k, pr).value, now)
  {
    var since, noticed := Since(k, pr).value, NoticedAt(k, pr);
    DayLater(since, 21);
    DayLater(since, 4);
    DayLater(noticed, 7);
    DayLater(noticed, 14);
    DayLater(noticed, 3);
  }

  /** On which day an unanswered notice on a change request lets the pull request be closed. */
  lemma GraceDay(pr: PullRequest)
    requires Pinged(Changes, pr)
    ensures Day(NoticedAt(Changes, pr) + Grace(Changes, pr)) ==
            Day(NoticedAt(Changes, pr)) + if Acknowledged(pr) then 14 else 7
  {
    DayLater(NoticedAt(Changes, pr), if Acknowledged(pr) then 14 else 7);
  }

  lemma EarlyDoesNotWait(k: Cleanup, pr: PullRequest)
    requires Pinged(k, pr) && !OnTime(k, pr)
    ensures !Waited(k, Since(k, pr).value, FirstMoment(k, pr))
  {
    var since, noticed := Since(k, pr).value, NoticedAt(k, pr);
    if k == Changes {
      GraceDay(pr);
      EarlyChanges(since, OpensAt(k, pr), noticed + Grace(k, pr));
    } else if k == SelfReview {
      EarlyReview(since, noticed);
    }
  }

  lemma EarlyChanges(since: Instant, opens: Instant, over: Instant)
    requires opens <= since + 14 * DAY && Day(over) < Day(since) + 21
    ensures Day(Max(opens, DayStart(over))) < Day(since + 21 * DAY)
  {
    DayLater(since, 21);
    DayLater(since, 14);
    SameDay(over, since);
    LaterDay(opens, since + 14 * DAY);
  }

  lemma EarlyReview(since: Instant, noticed: Instant)
    requires Day(noticed) < Day(since) + 1
    ensures Day(DayStart(noticed + 3 * DAY)) < Day(since + 4 * DAY)
  {
    DayLater(since, 4);
    DayLater(noticed, 3);
    SameDay(noticed + 3 * DAY, since);
  }

  lemma EarlyBreaksTheWord(k: Cleanup, pr: PullRequest, from: Instant)
    requires Pinged(k, pr) && !Announced(k, pr) && Concerns(k, pr) && Unanswered(k, pr)
    requires !OnTime(k, pr) && !Waited(k, Since(k, pr).value, from)
    ensures !KeepsItsWord(k, pr, from)
  {
    var now := Max(from, FirstMoment(k, pr));
    ClosesFromFirstMoment(k, pr, now);
    EarlyDoesNotWait(k, pr);
  }

  /**
    With a notice and no closing comment yet, the waiting time holds from `from` on exactly
    when the notice was on time, or the time has passed by then anyway.
   */
  lemma NoticedExactlyWhen(k: Cleanup, pr: PullRequest, from: Instant)
    requires Pinged(k, pr) && !Announced(k, pr)
    ensures KeepsItsWord(k, pr, from) <==>
            (Concerns(k, pr) && Unanswered(k, pr) ==> OnTime(k, pr) || Waited(k, Since(k, pr).value, from))
  {
    var since := Since(k, pr).value;
    if Concerns(k, pr) && Unanswered(k, pr) && !OnTime(k, pr) && !Waited(k, since, from) {
      EarlyBreaksTheWord(k, pr, from);
    } else {
      forall now | now >= from && IsClose(Action(k, pr, now)) ensures Waited(k, since, now) {
        ClosesFromThen(k, pr, now);
        if OnTime(k, pr) {
          OnTimeWaits(k, pr, now);
        }
      }
    }
  }

  /** When the rule's opening condition is met, closing comments aside. */
  function AppliesFrom(k: Cleanup, pr: PullRequest): Instant
    requires Since(k, pr).Some?
  {
    match k
    case Cla => pr.createdAt + CLA_RETRY_AFTER
    case Draft => DraftActiveAt(pr) + DRAFT_PING_AFTER
    case Changes => StaffChangeRequestAt(pr.reviews, pr.staff).value + CHANGES_PING_AFTER
    case SelfReview => Since(k, pr).value
  }

  /** Once announced, it holds exactly when the closing comment itself was not early. */
  lemma AnnouncedExactlyWhen(k: Cleanup, pr: PullRequest, at: Instant)
    requires Since(k, pr).Some? && BotCommentedAt(pr.comments, CloseMark(k), Since(k, pr).value) == Some(at)
    ensures KeepsItsWord(k, pr, at) <==> (Concerns(k, pr) ==> Waited(k, Since(k, pr).value, at))
  {
    if Concerns(k, pr) && !Waited(k, Since(k, pr).value, at) {
      var now := if k == SelfReview then at else Max(at, AppliesFrom(k, pr));
      AnnouncedCloseIsRetried(k, pr, now);
      assert IsClose(Action(k, pr, now));
    } else {
      forall now | now >= at && IsClose(Action(k, pr, now)) ensures Waited(k, Since(k, pr).value, now) {
        AnnouncedCloseIsRetried(k, pr, now);
      }
    }
  }

  // ---------------------------------------------------------------------------
  // Calm histories meet both conditions
  // ---------------------------------------------------------------------------

  lemma CountingNotice(k: Cleanup, pr: PullRequest, m: Marker) returns (c: Comment)
    requires Since(k, pr).Some? && BotCommentedAt(pr.comments, m, Since(k, pr).value).Some?
    ensures c in pr.comments && Counts(c, m, Since(k, pr).value)
    ensures c.at == BotCommentedAt(pr.comments, m, Since(k, pr).value).value
  {
    c :| c in pr.comments && ByBot(c, m) && c.at == BotCommentedAt(pr.comments, m, Since(k, pr).value).value;
  }

  lemma OrderlyIsOnTime(k: Cleanup, pr: PullRequest)
    requires Pinged(k, pr) && Orderly(k, pr.comments, Since(k, pr).value)
    ensures OnTime(k, pr)
  {
    var since := Since(k, pr).value;
    var ping := CountingNotice(k, pr, PingMark(k));
    DayLater(since, 14);
    DayLater(since, 1);
    LaterDay(since + PingAfter(k), ping.at);
    if k == Changes && Acknowledged(pr) {
      var ack := CountingNotice(k, pr, ChangesAck);
      LaterDay(ping.at, ack.at);
    }
  }

  /** After a calm history every notice was on time. */
  lemma CalmIsOnTime(k: Cleanup, w: World, moves: seq<Move>)
    requires JustOpened(w) && HonestMoves(moves) && Calm(k, w, moves)
    requires Pinged(k, History(w, moves).pr)
    ensures OnTime(k, History(w, moves).pr)
  {
    HistoryKeeps(k, w, moves, true);
    OrderlyIsOnTime(k, History(w, moves).pr);
  }

  /** Nobody acts during runs, and no commit is dated before the moment just before its push. */
  predicate Quiet(w: World, m: Move) {
    match m
    case Happens(t) =>
      t.activity.Pushes? && t.activity.commits != [] ==> t.activity.commits[|t.activity.commits| - 1].at >= w.clock
    case BotRuns(_, p) =>
      p.early == [] && p.late == [] && forall i | 0 <= i < |p.replies| :: p.replies[i].meanwhile == []
  }

  predicate AllQuiet(w: World, moves: seq<Move>)
    requires HonestMoves(moves)
  {
    moves == [] ||
    (AllQuiet(w, moves[..|moves| - 1]) && Quiet(History(w, moves[..|moves| - 1]), moves[|moves| - 1]))
  }

  lemma {:induction false} QuietVisitIsCalm(
      k: Cleanup, w: World, seen: PullRequest, plan: seq<Option<Step>>, replies: seq<Replies>, i: nat)
    requires i <= |plan| == |replies| == |CLEANUPS|
    requires forall j | 0 <= j < |replies| :: replies[j].meanwhile == []
    requires w.pr == seen.(comments := w.pr.comments)
    ensures PacedVisit(k, w, seen, plan, replies, i, true)
    decreases |plan| - i
  {
    if i < |plan| {
      var next := i + 1;
      SinceIgnoresComments(k, seen, w.pr.comments);
      if plan[i].None? {
        QuietVisitIsCalm(k, w, seen, plan, replies, next);
      } else {
        QuietVisitIsCalm(k, TakeStep(w, plan[i].value, replies[i]).0, seen, plan, replies, next);
      }
    }
  }

  /** Such histories are calm for all four clean-ups, so every promise holds in them. */
  lemma {:induction false} QuietIsCalm(k: Cleanup, w: World, moves: seq<Move>)
    requires JustOpened(w) && HonestMoves(moves) && AllQuiet(w, moves)
    ensures Calm(k, w, moves)
  {
    if moves != [] {
      var before := moves[..|moves| - 1];
      QuietIsCalm(k, w, before);
      HistoryKeeps(k, w, before, true);
      match moves[|moves| - 1]
      case Happens(t) =>
      case BotRuns(delay, p) =>
        var start := After(History(w, before), delay);
        assert SeenBy(start, p) == start.pr;
        QuietVisitIsCalm(k, start, start.pr, PlanOf(start, p), p.replies, 0);
    }
  }
}
