/**
  Exactly when every closing decision still to come is due: that a notice was given in
  time, that no promised day is missed, and that the waiting time has passed. For every
  pull request, and with less to check for those that a history leads to.
 */
module CleanupPromises {
  import opened Wrappers
  import opened CleanupDecisions
  import opened CleanupProtocol
  import opened CleanupClocks
  import opened CleanupGrounds
  import opened CleanupTheorems
  import opened CleanupExactness

  /** As it stands, the rule closes the pull request sooner or later. */
  ghost predicate CanClose(k: Cleanup, pr: PullRequest) {
    Since(k, pr).Some? && Concerns(k, pr) && (Announced(k, pr) || (Pinged(k, pr) && Unanswered(k, pr)))
  }

  /** The first moment from `from` on at which it does. */
  ghost function FirstClose(k: Cleanup, pr: PullRequest, from: Instant): Instant
    requires CanClose(k, pr)
  {
    if !Announced(k, pr) then Max(from, FirstMoment(k, pr))
    else if k == SelfReview then from
    else Max(from, AppliesFrom(k, pr))
  }

  lemma UnnoticedStaysOpen(k: Cleanup, pr: PullRequest, now: Instant)
    requires !Announced(k, pr) && !Pinged(k, pr)
    ensures !IsClose(Action(k, pr, now))
  {
    if Since(k, pr).Some? {
      assert BotCommentedAt(pr.comments, CloseMark(k), Since(k, pr).value).None?;
    }
  }

  /** From that moment on, and not before, the decision is to close. */
  lemma ClosesFrom(k: Cleanup, pr: PullRequest, from: Instant, now: Instant)
    requires now >= from
    ensures IsClose(Action(k, pr, now)) <==> CanClose(k, pr) && now >= FirstClose(k, pr, from)
  {
    if Announced(k, pr) {
      AnnouncedCloseIsRetried(k, pr, now);
    } else if Pinged(k, pr) {
      ClosesFromFirstMoment(k, pr, now);
    } else {
      UnnoticedStaysOpen(k, pr, now);
    }
  }

  // ---------------------------------------------------------------------------
  // Every pull request
  // ---------------------------------------------------------------------------

  /** Every closing decision from `from` on is due. */
  ghost predicate StaysDue(k: Cleanup, pr: PullRequest, from: Instant) {
    forall now | now >= from && IsClose(Action(k, pr, now)) :: Due(k, pr, now)
  }

  /** None of them misses a promised day. */
  ghost predicate DatesKept(k: Cleanup, pr: PullRequest, from: Instant)
    requires Since(k, pr).Some?
  {
    forall now | now >= from && IsClose(Action(k, pr, now)) ::
      DatesBy(k, pr.comments, Since(k, pr).value, Day(now))
  }

  /** The last first notice came after its own waiting time. */
  predicate NoticedInTime(k: Cleanup, pr: PullRequest) {
    Pinged(k, pr) && PingedAt(k, pr) >= Since(k, pr).value + PingAfter(k)
  }

  lemma NoticeInTime(k: Cleanup, pr: PullRequest, from: Instant, now: Instant)
    requires Since(k, pr).Some? && BotIsPast(pr.comments, from) && now >= from
    ensures NoticedInTime(k, pr) <==>
            exists p :: p in pr.comments && Counts(p, PingMark(k), Since(k, pr).value) &&
                        Since(k, pr).value + PingAfter(k) <= p.at <= now
  {
    if Pinged(k, pr) {
      var p := CountingNotice(k, pr, PingMark(k));
    }
  }

  lemma DueParts(k: Cleanup, pr: PullRequest, from: Instant, now: Instant)
    requires Since(k, pr).Some? && BotIsPast(pr.comments, from) && now >= from
    ensures Due(k, pr, now) <==>
            && NoticedInTime(k, pr)
            && DatesBy(k, pr.comments, Since(k, pr).value, Day(now))
            && Waited(k, Since(k, pr).value, now)
  {
    NoticeInTime(k, pr, from, now);
  }

  lemma StillBy(k: Cleanup, comments: seq<Comment>, since: Instant, a: Instant, b: Instant)
    requires DatesBy(k, comments, since, Day(a)) && a <= b
    ensures DatesBy(k, comments, since, Day(b))
  {
    LaterDay(a, b);
  }

  lemma StillWaited(k: Cleanup, since: Instant, a: Instant, b: Instant)
    requires Waited(k, since, a) && a <= b
    ensures Waited(k, since, b)
  {
    LaterDay(a, b);
  }

  /** No promised day is missed exactly when none is later than the first moment of closing. */
  lemma DatesExactlyWhen(k: Cleanup, pr: PullRequest, from: Instant)
    requires Since(k, pr).Some?
    ensures DatesKept(k, pr, from) <==>
            (CanClose(k, pr) ==> DatesBy(k, pr.comments, Since(k, pr).value, Day(FirstClose(k, pr, from))))
  {
    if CanClose(k, pr) {
      var first := FirstClose(k, pr, from);
      ClosesFrom(k, pr, from, first);
      if DatesBy(k, pr.comments, Since(k, pr).value, Day(first)) {
        forall now | now >= from && IsClose(Action(k, pr, now))
          ensures DatesBy(k, pr.comments, Since(k, pr).value, Day(now))
        {
          ClosesFrom(k, pr, from, now);
          StillBy(k, pr.comments, Since(k, pr).value, first, now);
        }
      }
    } else {
      forall now | now >= from ensures !IsClose(Action(k, pr, now)) {
        ClosesFrom(k, pr, from, now);
      }
    }
  }

  /** Every close to come is due exactly when a notice was in time and the first close is not early. */
  lemma DueExactlyWhen(k: Cleanup, pr: PullRequest, from: Instant)
    requires Since(k, pr).Some? && BotIsPast(pr.comments, from)
    ensures StaysDue(k, pr, from) <==>
            (CanClose(k, pr) ==>
               && NoticedInTime(k, pr)
               && DatesBy(k, pr.comments, Since(k, pr).value, Day(FirstClose(k, pr, from)))
               && Waited(k, Since(k, pr).value, FirstClose(k, pr, from)))
  {
    if CanClose(k, pr) {
      var first := FirstClose(k, pr, from);
      ClosesFrom(k, pr, from, first);
      DueParts(k, pr, from, first);
      if Due(k, pr, first) {
        forall now | now >= from && IsClose(Action(k, pr, now)) ensures Due(k, pr, now) {
          DueLasts(k, pr, from, first, now);
        }
      }
    } else {
      forall now | now >= from ensures !IsClose(Action(k, pr, now)) {
        ClosesFrom(k, pr, from, now);
      }
    }
  }

  lemma DueLasts(k: Cleanup, pr: PullRequest, from: Instant, first: Instant, now: Instant)
    requires CanClose(k, pr) && first == FirstClose(k, pr, from) && now >= from && BotIsPast(pr.comments, from)
    requires Due(k, pr, first) && IsClose(Action(k, pr, now))
    ensures Due(k, pr, now)
  {
    ClosesFrom(k, pr, from, now);
    DueParts(k, pr, from, first);
    StillBy(k, pr.comments, Since(k, pr).value, first, now);
    StillWaited(k, Since(k, pr).value, first, now);
    DueParts(k, pr, from, now);
  }

  // ---------------------------------------------------------------------------
  // Changes requested: the promised days
  // ---------------------------------------------------------------------------

  /** Every dated notice was posted on the day it was written. */
  ghost predicate Punctual(pr: PullRequest, since: Instant) {
    forall c, m | c in pr.comments && Counts(c, m, since) && Owner(m) == Changes && IsDated(m) ::
      c.promise == Some(Day(c.at + CloseAfter(m)))
  }

  ghost predicate Covered(k: Cleanup, pr: PullRequest) {
    Since(k, pr).Some? ==>
      forall c, m | c in pr.comments && Counts(c, m, Since(k, pr).value) && Owner(m) == k :: PromiseCovered(c, m)
  }

  function AckedAt(pr: PullRequest): Instant
    requires Since(Changes, pr).Some? && Acknowledged(pr)
  {
    BotCommentedAt(pr.comments, ChangesAck, Since(Changes, pr).value).value
  }

  /**
    The day of the last ping does not lie behind the one that the last acknowledgement
    leads to, or has come anyway; after an announcement, both have come.
   */
  ghost predicate DatesReached(pr: PullRequest, from: Instant)
    requires CanClose(Changes, pr)
  {
    var opens := Day(Max(from, OpensAt(Changes, pr)));
    if Announced(Changes, pr) then
      && (Pinged(Changes, pr) ==> Day(PingedAt(Changes, pr)) + 7 <= opens)
      && (Acknowledged(pr) ==> Day(AckedAt(pr)) + 14 <= opens)
    else
      Acknowledged(pr) ==>
        Day(PingedAt(Changes, pr)) <= Day(AckedAt(pr)) + 7 || Day(PingedAt(Changes, pr)) + 7 <= opens
  }

  /** Both named days have come by `day`. */
  predicate NamedBy(pr: PullRequest, day: int)
    requires Since(Changes, pr).Some?
  {
    && (Pinged(Changes, pr) ==> Day(PingedAt(Changes, pr)) + 7 <= day)
    && (Acknowledged(pr) ==> Day(AckedAt(pr)) + 14 <= day)
  }

  lemma LaterOf(a: Instant, b: Instant, t: Instant)
    ensures Day(Max(a, Max(b, DayStart(t)))) == Max(Day(Max(a, b)), Day(t))
  {
    SameDay(t, a);
    LaterDay(Max(a, b), Max(a, Max(b, DayStart(t))));
    LaterDay(DayStart(t), Max(a, Max(b, DayStart(t))));
  }

  lemma ReachedIsNamed(pr: PullRequest, from: Instant)
    requires CanClose(Changes, pr)
    ensures DatesReached(pr, from) <==> NamedBy(pr, Day(FirstClose(Changes, pr, from)))
  {
    if !Announced(Changes, pr) {
      FirstCloseDay(pr, from);
    }
  }

  lemma FirstCloseDay(pr: PullRequest, from: Instant)
    requires CanClose(Changes, pr) && !Announced(Changes, pr)
    ensures Day(FirstClose(Changes, pr, from)) ==
            Max(Day(Max(from, OpensAt(Changes, pr))),
                if Acknowledged(pr) then Day(AckedAt(pr)) + 14 else Day(PingedAt(Changes, pr)) + 7)
  {
    var noticed := NoticedAt(Changes, pr);
    LaterOf(from, OpensAt(Changes, pr), noticed + Grace(Changes, pr));
    GraceDay(pr);
  }

  lemma NamedCovers(pr: PullRequest, day: int)
    requires Since(Changes, pr).Some? && Covered(Changes, pr) && NamedBy(pr, day)
    ensures DatesBy(Changes, pr.comments, Since(Changes, pr).value, day)
  {
    var since := Since(Changes, pr).value;
    forall c, m | c in pr.comments && Counts(c, m, since) && Owner(m) == Changes && IsDated(m)
      ensures c.promise.Some? && c.promise.value <= day
    {
      assert PromiseCovered(c, m);
      var last := BotCommentedAt(pr.comments, m, since).value;
      LaterDay(c.at + CloseAfter(m), last + CloseAfter(m));
      DayLater(last, 7);
      DayLater(last, 14);
    }
  }

  lemma PunctualIsNamed(pr: PullRequest, day: int)
    requires Since(Changes, pr).Some? && Punctual(pr, Since(Changes, pr).value)
    requires DatesBy(Changes, pr.comments, Since(Changes, pr).value, day)
    ensures NamedBy(pr, day)
  {
    if Pinged(Changes, pr) {
      var ping := CountingNotice(Changes, pr, ChangesPing);
      DayLater(ping.at, 7);
    }
    if Acknowledged(pr) {
      var ack := CountingNotice(Changes, pr, ChangesAck);
      DayLater(ack.at, 14);
    }
  }

  /**
    With notices posted on the day they were written, the script misses a promised day
    exactly when the times of the last ping and the last acknowledgement say so.
   */
  lemma ChangesDatesExactlyWhen(pr: PullRequest, from: Instant)
    requires Since(Changes, pr).Some? && Punctual(pr, Since(Changes, pr).value)
    ensures DatesKept(Changes, pr, from) <==> (CanClose(Changes, pr) ==> DatesReached(pr, from))
  {
    DatesExactlyWhen(Changes, pr, from);
    if CanClose(Changes, pr) {
      var day := Day(FirstClose(Changes, pr, from));
      ReachedIsNamed(pr, from);
      if NamedBy(pr, day) {
        NamedCovers(pr, day);
      } else if DatesBy(Changes, pr.comments, Since(Changes, pr).value, day) {
        PunctualIsNamed(pr, day);
      }
    }
  }

  // ---------------------------------------------------------------------------
  // What a history leads to
  // ---------------------------------------------------------------------------

  /** The one thing to check, or for a change request the two things. */
  ghost predicate SafeToClose(k: Cleanup, pr: PullRequest, from: Instant) {
    CanClose(k, pr) ==> NoticedInTime(k, pr) && (k == Changes ==> DatesReached(pr, from))
  }

  lemma NamedIsWaited(pr: PullRequest, now: Instant)
    requires NoticedInTime(Changes, pr) && NamedBy(pr, Day(now))
    ensures Waited(Changes, Since(Changes, pr).value, now)
  {
    var since := Since(Changes, pr).value;
    LaterDay(since + 14 * DAY, PingedAt(Changes, pr));
    DayLater(since, 14);
    DayLater(since, 21);
  }

  lemma ChangesStaysDue(pr: PullRequest, from: Instant)
    requires Since(Changes, pr).Some? && BotIsPast(pr.comments, from) && Covered(Changes, pr)
    ensures SafeToClose(Changes, pr, from) ==> StaysDue(Changes, pr, from)
    ensures Punctual(pr, Since(Changes, pr).value) && StaysDue(Changes, pr, from) ==> SafeToClose(Changes, pr, from)
  {
    DueExactlyWhen(Changes, pr, from);
    if CanClose(Changes, pr) {
      var first := FirstClose(Changes, pr, from);
      ReachedIsNamed(pr, from);
      if SafeToClose(Changes, pr, from) {
        NamedCovers(pr, Day(first));
        NamedIsWaited(pr, first);
      } else if Punctual(pr, Since(Changes, pr).value) && StaysDue(Changes, pr, from) {
        PunctualIsNamed(pr, Day(first));
      }
    }
  }

  lemma CloseFindsAllExpired(k: Cleanup, pr: PullRequest, now: Instant)
    requires k != Changes && StaysSteady(k, pr) && BotIsPast(pr.comments, now) && IsClose(Action(k, pr, now))
    ensures Since(k, pr).Some? && AllExpired(pr.comments, k, Since(k, pr).value, now)
  {
    var step := Action(k, pr, now).value;
    if step.notice.Some? {
      ActionDecided(k, pr, now, step);
      CloseCommentIsClosing(k, pr, now, step);
    } else {
      SilentStepRepeatsClose(k, pr, now, step);
      var since := Since(k, pr).value;
      var c :| c in pr.comments && Counts(c, CloseMark(k), since);
      ExpiryLasts(pr.comments, k, since, c.at, now);
    }
  }

  lemma CloseCommentIsClosing(k: Cleanup, pr: PullRequest, now: Instant, step: Step)
    requires Action(k, pr, now) == Some(step) && step.kind.Close? && step.notice.Some?
    ensures step.notice.value.mark == CloseMark(k)
  {
  }

  lemma ExpiredDates(k: Cleanup, pr: PullRequest, now: Instant)
    requires Since(k, pr).Some? && Covered(k, pr) && AllExpired(pr.comments, k, Since(k, pr).value, now)
    ensures DatesBy(k, pr.comments, Since(k, pr).value, Day(now))
  {
    var since := Since(k, pr).value;
    forall c, m | c in pr.comments && Counts(c, m, since) && Owner(m) == k && IsDated(m)
      ensures c.promise.Some? && c.promise.value <= Day(now)
    {
      assert PromiseCovered(c, m) && Expired(c, m, now);
    }
  }

  lemma ExpiredWaited(k: Cleanup, pr: PullRequest, now: Instant)
    requires k != Changes && NoticedInTime(k, pr) && AllExpired(pr.comments, k, Since(k, pr).value, now)
    ensures Waited(k, Since(k, pr).value, now)
  {
    var since := Since(k, pr).value;
    var p := CountingNotice(k, pr, PingMark(k));
    assert Expired(p, PingMark(k), now);
    LaterDay(since + 4 * DAY, p.at + 3 * DAY);
  }

  lemma NoticeStaysDue(k: Cleanup, pr: PullRequest, from: Instant)
    requires k != Changes && Since(k, pr).Some? && BotIsPast(pr.comments, from) && StaysSteady(k, pr)
    requires NoticedInTime(k, pr)
    ensures StaysDue(k, pr, from)
  {
    forall now | now >= from && IsClose(Action(k, pr, now)) ensures Due(k, pr, now) {
      CloseFindsAllExpired(k, pr, now);
      ExpiredDates(k, pr, now);
      ExpiredWaited(k, pr, now);
      DueParts(k, pr, from, now);
    }
  }

  /** Checking `SafeToClose` suffices, and is needed wherever dated notices were posted the day they were written. */
  ghost predicate CheckDecides(k: Cleanup, pr: PullRequest, from: Instant)
    requires Since(k, pr).Some?
  {
    && (SafeToClose(k, pr, from) ==> StaysDue(k, pr, from))
    && (k != Changes || Punctual(pr, Since(k, pr).value) ==> (StaysDue(k, pr, from) ==> SafeToClose(k, pr, from)))
  }

  /** What a history keeps leaves little to check: for all rules but one, that a notice was in time. */
  lemma SteadyStaysDue(k: Cleanup, pr: PullRequest, from: Instant)
    requires Since(k, pr).Some? && BotIsPast(pr.comments, from) && StaysSteady(k, pr)
    ensures CheckDecides(k, pr, from)
  {
    if k == Changes {
      ChangesStaysDue(pr, from);
    } else {
      DueExactlyWhen(k, pr, from);
      if CanClose(k, pr) && NoticedInTime(k, pr) {
        NoticeStaysDue(k, pr, from);
      }
    }
  }

  lemma ReviewDatesKept(pr: PullRequest, from: Instant)
    requires BotIsPast(pr.comments, from) && StaysSteady(SelfReview, pr)
    ensures DatesKept(SelfReview, pr, from)
  {
    forall now | now >= from && IsClose(Action(SelfReview, pr, now))
      ensures DatesBy(SelfReview, pr.comments, Since(SelfReview, pr).value, Day(now))
    {
      CloseFindsAllExpired(SelfReview, pr, now);
      ExpiredDates(SelfReview, pr, now);
    }
  }

  /** After every history, calm or not, that check decides; only a draft's pushes must be timely. */
  lemma HistoryStaysDue(k: Cleanup, w: World, moves: seq<Move>)
    requires JustOpened(w) && HonestMoves(moves) && (k == Draft ==> TimelyPushes(w, moves))
    requires Since(k, History(w, moves).pr).Some?
    ensures CheckDecides(k, History(w, moves).pr, History(w, moves).clock)
  {
    HistoryKeeps(k, w, moves, false);
    SteadyStaysDue(k, History(w, moves).pr, History(w, moves).clock);
  }

  /** The self-review rule needs no check for its dates. */
  lemma HistoryKeepsReviewDates(w: World, moves: seq<Move>)
    requires JustOpened(w) && HonestMoves(moves)
    ensures DatesKept(SelfReview, History(w, moves).pr, History(w, moves).clock)
  {
    HistoryKeeps(SelfReview, w, moves, false);
    ReviewDatesKept(History(w, moves).pr, History(w, moves).clock);
  }

  /** The pushes of people at work on the list and the details are timely too. */
  ghost predicate TimelyReading(start: World, p: Passage) {
    AllTimely(Draft, start, p.early) && AllTimely(Draft, Listed(start, p), p.late)
  }

  lemma SeenSteady(k: Cleanup, start: World, p: Passage)
    requires Bounded(start) && StaysSteady(k, start.pr) && HonestPassage(p)
    requires k == Draft ==> TimelyReading(start, p)
    ensures BotIsPast(SeenBy(start, p).comments, start.clock) && StaysSteady(k, SeenBy(start, p))
  {
    LiveMoves(k, start, p.early);
    LiveMoves(k, Listed(start, p), p.late);
    ReadWell(k, start, Listed(start, p), Fetched(start, p), false);
  }

  lemma SteadyAfter(k: Cleanup, w: World, moves: seq<Move>, delay: nat)
    requires JustOpened(w) && HonestMoves(moves) && (k == Draft ==> TimelyPushes(w, moves))
    ensures var start := After(History(w, moves), delay); Bounded(start) && StaysSteady(k, start.pr)
  {
    HistoryKeeps(k, w, moves, false);
  }

  /** The same of what the next run reads while people go on working. */
  lemma RunStaysDue(k: Cleanup, w: World, moves: seq<Move>, delay: nat, p: Passage)
    requires JustOpened(w) && HonestMoves(moves) && HonestPassage(p)
    requires k == Draft ==> TimelyPushes(w, moves) && TimelyReading(After(History(w, moves), delay), p)
    requires Since(k, SeenBy(After(History(w, moves), delay), p)).Some?
    ensures var start := After(History(w, moves), delay); CheckDecides(k, SeenBy(start, p), start.clock)
  {
    var start := After(History(w, moves), delay);
    SteadyAfter(k, w, moves, delay);
    SeenSteady(k, start, p);
    SteadyStaysDue(k, SeenBy(start, p), start.clock);
  }

  lemma RunKeepsReviewDates(w: World, moves: seq<Move>, delay: nat, p: Passage)
    requires JustOpened(w) && HonestMoves(moves) && HonestPassage(p)
    ensures var start := After(History(w, moves), delay); DatesKept(SelfReview, SeenBy(start, p), start.clock)
  {
    var start := After(History(w, moves), delay);
    SteadyAfter(SelfReview, w, moves, delay);
    SeenSteady(SelfReview, start, p);
    ReviewDatesKept(SeenBy(start, p), start.clock);
  }

  lemma DueNowStaysDue(k: Cleanup, pr: PullRequest, now: Instant)
    requires BotIsPast(pr.comments, now) && IsClose(Action(k, pr, now))
    ensures Due(k, pr, now) <==> StaysDue(k, pr, now)
  {
    ClosesFrom(k, pr, now, now);
    if Due(k, pr, now) {
      forall later | later >= now && IsClose(Action(k, pr, later)) ensures Due(k, pr, later) {
        DueLasts(k, pr, now, now, later);
      }
    }
  }

  /** The decision to close that the check is about, made at `now`. */
  ghost predicate CloseIsChecked(k: Cleanup, pr: PullRequest, now: Instant) {
    && IsClose(Action(k, pr, now)) && Since(k, pr).Some?
    && (SafeToClose(k, pr, now) ==> Due(k, pr, now))
    && (k != Changes || Punctual(pr, Since(k, pr).value) ==> (Due(k, pr, now) ==> SafeToClose(k, pr, now)))
  }

  lemma CloseWasChecked(k: Cleanup, start: World, p: Passage)
    requires Bounded(start) && StaysSteady(k, start.pr) && HonestPassage(p)
    requires k == Draft ==> TimelyReading(start, p)
    requires IsClose(Action(k, SeenBy(start, p), start.clock))
    ensures CloseIsChecked(k, SeenBy(start, p), start.clock)
  {
    var seen := SeenBy(start, p);
    SeenSteady(k, start, p);
    ClosesFrom(k, seen, start.clock, start.clock);
    SteadyStaysDue(k, seen, start.clock);
    DueNowStaysDue(k, seen, start.clock);
  }

  /** After any history, what a run closes was decided by a rule, and was due by it exactly when the check says so. */
  lemma BotClosesWhatIsChecked(w: World, moves: seq<Move>, delay: nat, p: Passage) returns (k: Cleanup)
    requires JustOpened(w) && HonestMoves(moves) && HonestPassage(p) && NobodyClosesDuring(p)
    requires TimelyPushes(w, moves) && TimelyReading(After(History(w, moves), delay), p)
    requires History(w, moves).open && !BotRun(After(History(w, moves), delay), p).0.open
    ensures var start := After(History(w, moves), delay); CloseIsChecked(k, SeenBy(start, p), start.clock)
  {
    var start := After(History(w, moves), delay);
    if forall j: Cleanup :: !IsClose(Action(j, SeenBy(start, p), start.clock)) {
      RunStaysOpen(start, p);
    }
    k :| IsClose(Action(k, SeenBy(start, p), start.clock));
    SteadyAfter(k, w, moves, delay);
    CloseWasChecked(k, start, p);
  }
}
