/** The other half of the clean-up promises: what nobody attends to is closed. */
module CleanupLiveness {
  import opened Wrappers
  import opened CleanupDecisions
  import opened CleanupProtocol
  import opened CleanupGrounds
  import opened CleanupTheorems
  import opened CleanupExactness

  /** The longest time a clean-up gives after its last notice. */
  function Patience(k: Cleanup): int {
    match k
    case Cla => CLA_CLOSE_AFTER_RETRY
    case Draft => DRAFT_CLOSE_AFTER_PING
    case Changes => CHANGES_CLOSE_AFTER_ACK
    case SelfReview => REVIEW_CLOSE_AFTER_PING
  }

  /**
    The next step is the script's: the author has left the clock alone, or has the notice and
    not answered it as the rule asks. An answer to a change request is acknowledged first.
   */
  predicate ScriptsTurn(k: Cleanup, pr: PullRequest, now: Instant)
    requires Since(k, pr).Some?
  {
    var since := Since(k, pr).value;
    if Pinged(k, pr) then k == Changes || Unanswered(k, pr)
    else match k
      case Cla => AuthorCommentedAt(pr, since).None?
      case Draft => true
      case Changes =>
        AuthorCommentedAt(pr, since).Some? ==> now - AuthorCommentedAt(pr, since).value >= CHANGES_PING_AFTER
      case SelfReview => pr.noticePresent
  }

  /** Only the script's own steps stand between the pull request and its closing under `k`. */
  predicate Abandoned(k: Cleanup, pr: PullRequest, now: Instant) {
    && Since(k, pr).Some? && Concerns(k, pr)
    && now >= Since(k, pr).value + PingAfter(k) && ScriptsTurn(k, pr, now)
  }

  predicate Posts(step: Option<Step>, m: Marker) {
    step.Some? && step.value.notice.Some? && step.value.notice.value.mark == m
  }

  /** Such a pull request is closed, gets its first notice, or has it already; then an answer is acknowledged. */
  lemma AbandonedIsNoticed(k: Cleanup, pr: PullRequest, now: Instant)
    requires Abandoned(k, pr, now)
    ensures IsClose(Action(k, pr, now)) || Posts(Action(k, pr, now), PingMark(k)) || Pinged(k, pr)
    ensures Pinged(k, pr) && !Unanswered(k, pr) ==>
              IsClose(Action(k, pr, now)) || Posts(Action(k, pr, now), ChangesAck)
  {
    if k == Changes {
      ChangesIsNoticed(pr, now);
    }
  }

  lemma ChangesIsNoticed(pr: PullRequest, now: Instant)
    requires Abandoned(Changes, pr, now)
    ensures var step := ChangesAction(pr, now);
            || IsClose(step) || (if !Pinged(Changes, pr) then Posts(step, ChangesPing) else
                                 Unanswered(Changes, pr) || Posts(step, ChangesAck))
  {
  }

  /** Every notice of `k` is at least as old as its patience. */
  ghost predicate NoticesAreOld(k: Cleanup, comments: seq<Comment>, now: Instant) {
    forall c, m | c in comments && ByBot(c, m) && Owner(m) == k :: c.at + Patience(k) <= now
  }

  /** The marker of the notice that counts. */
  function NoticeMark(k: Cleanup, pr: PullRequest): Marker
    requires Pinged(k, pr)
  {
    if k == Changes && Acknowledged(pr) then ChangesAck else PingMark(k)
  }

  lemma OldNoticeReached(k: Cleanup, pr: PullRequest, now: Instant)
    requires Pinged(k, pr) && NoticesAreOld(k, pr.comments, now)
    ensures Reached(k, NoticedAt(k, pr), Grace(k, pr), now)
  {
    var notice := CountingNotice(k, pr, NoticeMark(k, pr));
    ReachedByAge(k, notice.at, Grace(k, pr), now);
  }

  lemma ReachedByAge(k: Cleanup, noticed: Instant, grace: int, now: Instant)
    requires noticed + Patience(k) <= now && grace <= Patience(k)
    ensures Reached(k, noticed, grace, now)
  {
  }

  /** Once noticed for long enough without an answer, a pull request is closed. */
  lemma NoticedIsClosed(k: Cleanup, pr: PullRequest, now: Instant)
    requires Pinged(k, pr) && Concerns(k, pr) && Unanswered(k, pr) && NoticesAreOld(k, pr.comments, now)
    requires now >= Since(k, pr).value + PingAfter(k)
    ensures IsClose(Action(k, pr, now))
  {
    if Announced(k, pr) {
      AnnouncedCloseIsRetried(k, pr, now);
    } else {
      OldNoticeReached(k, pr, now);
      ClosesFromThen(k, pr, now);
    }
  }

  // ---------------------------------------------------------------------------
  // What a run posts
  // ---------------------------------------------------------------------------

  ghost predicate HasMark(comments: seq<Comment>, m: Marker, from: Instant) {
    exists c :: c in comments && ByBot(c, m) && c.at >= from
  }

  lemma MarkStays(a: seq<Comment>, b: seq<Comment>, m: Marker, from: Instant, later: Instant)
    requires a <= b && HasMark(a, m, later) && from <= later
    ensures HasMark(b, m, from)
  {
  }

  lemma TimePasses(w: World, acts: seq<Timed>)
    ensures w.clock <= Live(w, acts).clock
  {
  }

  lemma {:induction false} VisitTakesTime(w: World, plan: seq<Option<Step>>, replies: seq<Replies>, i: nat)
    requires i <= |plan| == |replies|
    ensures w.clock <= Visit(w, plan, replies, i).0.clock
    decreases |plan| - i
  {
    if i < |plan| {
      var next := i + 1;
      var v := Live(w, replies[i].meanwhile);
      TimePasses(w, replies[i].meanwhile);
      if plan[i].None? {
        VisitTakesTime(v, plan, replies, next);
      } else {
        VisitTakesTime(TakeStep(v, plan[i].value, replies[i]).0, plan, replies, next);
      }
    }
  }

  lemma RunTakesTime(start: World, p: Passage)
    requires |p.replies| == |CLEANUPS|
    ensures start.clock <= BotRun(start, p).0.clock
  {
    TimePasses(start, p.early);
    TimePasses(Listed(start, p), p.late);
    VisitTakesTime(Fetched(start, p), PlanOf(start, p), p.replies, 0);
  }

  lemma {:induction false} HistoryTakesTime(w: World, moves: seq<Move>)
    requires HonestMoves(moves)
    ensures w.clock <= History(w, moves).clock
  {
    if moves != [] {
      HistoryTakesTime(w, moves[..|moves| - 1]);
      var before := History(w, moves[..|moves| - 1]);
      match moves[|moves| - 1]
      case Happens(t) =>
      case BotRuns(delay, p) => RunTakesTime(After(before, delay), p);
    }
  }

  /** When all calls get through, every comment of the plan is posted unless an earlier step closes. */
  lemma {:induction false} VisitPosts(
      w: World, plan: seq<Option<Step>>, replies: seq<Replies>, i: nat, j: nat, m: Marker)
    requires i <= j < |plan| == |replies| && AllDelivered(replies)
    requires Posts(plan[j], m) && !plan[j].value.kind.Close?
    ensures var w' := Visit(w, plan, replies, i).0; !w'.open || HasMark(w'.pr.comments, m, w.clock)
    decreases |plan| - i
  {
    assert replies[i] in replies;
    var next := i + 1;
    var v := Live(w, replies[i].meanwhile);
    TimePasses(w, replies[i].meanwhile);
    var end := Visit(w, plan, replies, i).0;
    if plan[i].None? {
      VisitPosts(v, plan, replies, next, j, m);
      if end.open {
        MarkStays(end.pr.comments, end.pr.comments, m, w.clock, v.clock);
      }
    } else if !plan[i].value.kind.Close? {
      var after := TakeStep(v, plan[i].value, replies[i]).0;
      if i == j {
        VisitOnlyAppends(after, plan, replies, next);
        MarkStays(after.pr.comments, end.pr.comments, m, w.clock, v.clock);
      } else {
        VisitPosts(after, plan, replies, next, j, m);
        if end.open {
          MarkStays(end.pr.comments, end.pr.comments, m, w.clock, after.clock);
        }
      }
    }
  }

  /** The first run closes an abandoned pull request or leaves it with its notice. */
  lemma FirstRun(k: Cleanup, start: World, p: Passage)
    requires |p.replies| == |CLEANUPS| && AllDelivered(p.replies) && !Skipped(Listed(start, p))
    requires Abandoned(k, SeenBy(start, p), start.clock)
    ensures var end := BotRun(start, p).0;
            !end.open || HasCounting(end.pr.comments, PingMark(k), Since(k, SeenBy(start, p)).value)
  {
    var seen, end := SeenBy(start, p), BotRun(start, p).0;
    AbandonedIsNoticed(k, seen, start.clock);
    if IsClose(Action(k, seen, start.clock)) {
      ClosingRunCloses(k, start, p);
    } else if Posts(Action(k, seen, start.clock), PingMark(k)) {
      RunPosts(k, start, p, PingMark(k));
    } else {
      var c := CountingNotice(k, seen, PingMark(k));
      SeenOnlyAppends(start, p);
      VisitOnlyAppends(Fetched(start, p), PlanOf(start, p), p.replies, 0);
      assert c in end.pr.comments;
    }
  }

  lemma RunPosts(k: Cleanup, start: World, p: Passage, m: Marker)
    requires |p.replies| == |CLEANUPS| && AllDelivered(p.replies) && !Skipped(Listed(start, p))
    requires Posts(Action(k, SeenBy(start, p), start.clock), m)
    requires !IsClose(Action(k, SeenBy(start, p), start.clock))
    ensures var end := BotRun(start, p).0; !end.open || HasMark(end.pr.comments, m, start.clock)
  {
    TimePasses(start, p.early);
    TimePasses(Listed(start, p), p.late);
    VisitPosts(Fetched(start, p), PlanOf(start, p), p.replies, 0, IndexOf(k), m);
    var end := BotRun(start, p).0;
    if end.open {
      MarkStays(end.pr.comments, end.pr.comments, m, start.clock, Fetched(start, p).clock);
    }
  }

  /** The notice has not been answered as the rule asks, if there is one. */
  predicate StillUnanswered(k: Cleanup, pr: PullRequest) {
    Concerns(k, pr) && (Pinged(k, pr) ==> Unanswered(k, pr))
  }

  /** A later run closes it, if it finds the notice old enough and no answer to it. */
  lemma LaterRun(k: Cleanup, comments: seq<Comment>, since: Instant, start: World, p: Passage)
    requires HasCounting(comments, PingMark(k), since) && comments <= start.pr.comments
    requires |p.replies| == |CLEANUPS| && AllDelivered(p.replies) && !Skipped(Listed(start, p))
    requires StillUnanswered(k, SeenBy(start, p)) && Since(k, SeenBy(start, p)) == Some(since)
    requires NoticesAreOld(k, SeenBy(start, p).comments, start.clock) && start.clock >= since + PingAfter(k)
    ensures !BotRun(start, p).0.open
  {
    var seen := SeenBy(start, p);
    SeenOnlyAppends(start, p);
    NoticedIsClosed(k, seen, start.clock);
    ClosingRunCloses(k, start, p);
  }

  /**
    An abandoned pull request does not outlive two runs whose calls get through, whatever else
    happens between and during them: the second, under the same clock, finds its notices old
    and unanswered.
   */
  lemma AbandonedIsClosed(
      k: Cleanup, start: World, first: Passage, moves: seq<Move>, delay: nat, second: Passage)
    requires |first.replies| == |CLEANUPS| && AllDelivered(first.replies) && !Skipped(Listed(start, first))
    requires Abandoned(k, SeenBy(start, first), start.clock)
    requires HonestMoves(moves)
    requires |second.replies| == |CLEANUPS| && AllDelivered(second.replies)
    requires var again := After(History(BotRun(start, first).0, moves), delay);
             && !Skipped(Listed(again, second)) && StillUnanswered(k, SeenBy(again, second))
             && Since(k, SeenBy(again, second)) == Since(k, SeenBy(start, first))
             && NoticesAreOld(k, SeenBy(again, second).comments, again.clock)
    ensures var end := BotRun(start, first).0;
            !end.open || !BotRun(After(History(end, moves), delay), second).0.open
  {
    var end := BotRun(start, first).0;
    FirstRun(k, start, first);
    if end.open {
      RunTakesTime(start, first);
      HistoryTakesTime(end, moves);
      HistoryOnlyAppends(end, moves);
      LaterRun(k, end.pr.comments, Since(k, SeenBy(start, first)).value, After(History(end, moves), delay), second);
    }
  }

  // ---------------------------------------------------------------------------
  // Left alone, two runs suffice
  // ---------------------------------------------------------------------------

  predicate LeftAlone(p: Passage) {
    && |p.replies| == |CLEANUPS| && AllDelivered(p.replies) && p.early == [] && p.late == []
    && forall i | 0 <= i < |p.replies| :: p.replies[i].meanwhile == []
  }

  /** `w'` differs from `w` by time, openness and comments of the script. */
  ghost predicate Extends(w: World, w': World) {
    && w.clock <= w'.clock
    && w.pr.comments <= w'.pr.comments
    && w'.pr == w.pr.(comments := w'.pr.comments)
    && forall i | |w.pr.comments| <= i < |w'.pr.comments| ::
         w'.pr.comments[i].author == Some(COMMUNITY_BOT) && w.clock <= w'.pr.comments[i].at <= w'.clock
  }

  lemma StepExtends(w: World, step: Step, r: Replies)
    ensures Extends(w, TakeStep(w, step, r).0)
  {
  }

  lemma {:induction false} VisitExtends(w: World, plan: seq<Option<Step>>, replies: seq<Replies>, i: nat)
    requires i <= |plan| == |replies| && forall j | 0 <= j < |replies| :: replies[j].meanwhile == []
    ensures Extends(w, Visit(w, plan, replies, i).0)
    decreases |plan| - i
  {
    if i < |plan| {
      var next := i + 1;
      if plan[i].None? {
        VisitExtends(w, plan, replies, next);
      } else {
        var after := TakeStep(w, plan[i].value, replies[i]).0;
        StepExtends(w, plan[i].value, replies[i]);
        VisitExtends(after, plan, replies, next);
      }
    }
  }

  lemma {:induction false} SilenceLasts(a: seq<Comment>, b: seq<Comment>, author: Option<Login>, since: Instant)
    requires a <= b && author != Some(COMMUNITY_BOT)
    requires forall i | |a| <= i < |b| :: b[i].author == Some(COMMUNITY_BOT)
    ensures AuthorWroteAt(b, author, since) == AuthorWroteAt(a, author, since)
    decreases |b|
  {
    if |a| < |b| {
      SilenceLasts(a, b[..|b| - 1], author, since);
    } else {
      assert a == b;
    }
  }

  /** The script's own comments move no clock start, and answer for nobody. */
  lemma ScriptAnswersForNobody(k: Cleanup, w: World, w': World, t: Instant)
    requires Extends(w, w') && w.pr.author != Some(COMMUNITY_BOT)
    ensures Since(k, w'.pr) == Since(k, w.pr) && (Concerns(k, w'.pr) <==> Concerns(k, w.pr))
    ensures AuthorCommentedAt(w'.pr, t) == AuthorCommentedAt(w.pr, t)
  {
    SinceIgnoresComments(k, w.pr, w'.pr.comments);
    SilenceLasts(w.pr.comments, w'.pr.comments, w.pr.author, t);
  }

  lemma RunExtends(start: World, p: Passage)
    requires LeftAlone(p)
    ensures Extends(start, BotRun(start, p).0) && SeenBy(start, p) == start.pr
  {
    VisitExtends(start, PlanOf(start, p), p.replies, 0);
  }

  lemma LaterNotice(a: seq<Comment>, b: seq<Comment>, m: Marker, since: Instant)
    requires a <= b && BotCommentedAt(a, m, since).Some?
    ensures BotCommentedAt(b, m, since).Some? && BotCommentedAt(b, m, since).value >= BotCommentedAt(a, m, since).value
  {
    var c :| c in a && ByBot(c, m) && c.at == BotCommentedAt(a, m, since).value;
    assert c in b;
  }

  /** The latest notice stays or is one posted since. */
  lemma {:induction false} NewNotice(a: seq<Comment>, b: seq<Comment>, m: Marker, since: Instant, clock: Instant)
    requires a <= b && forall i | |a| <= i < |b| :: b[i].at >= clock
    requires BotCommentedAt(b, m, since).Some? && BotCommentedAt(b, m, since) != BotCommentedAt(a, m, since)
    ensures BotCommentedAt(b, m, since).value >= clock
    decreases |b|
  {
    if a != b {
      var before := b[..|b| - 1];
      if BotCommentedAt(before, m, since).Some? && BotCommentedAt(before, m, since) != BotCommentedAt(a, m, since) {
        NewNotice(a, before, m, since, clock);
      }
    }
  }

  lemma AnswersArePast(w: World, since: Instant)
    requires Bounded(w)
    ensures AuthorCommentedAt(w.pr, since).Some? ==> AuthorCommentedAt(w.pr, since).value <= w.clock
  {
    LatestAnswer(w.pr, since);
  }

  lemma LaterIsSilentToo(pr: PullRequest, a: Instant, b: Instant)
    requires a <= b && AuthorCommentedAt(pr, a).None?
    ensures AuthorCommentedAt(pr, b).None?
  {
    LatestAnswer(pr, a);
    LatestAnswer(pr, b);
  }

  /** No acknowledgement is left over that the author has answered before the first notice. */
  predicate InTurn(k: Cleanup, pr: PullRequest) {
    k == Changes && Since(Changes, pr).Some? && !Pinged(Changes, pr) && Acknowledged(pr) ==>
      var answer := AuthorCommentedAt(pr, Since(Changes, pr).value);
      answer.None? || answer.value <= BotCommentedAt(pr.comments, ChangesAck, Since(Changes, pr).value).value
  }

  /** An answer to a change request that lies behind some notice is behind the one that counts in the end. */
  lemma ChangesAnswered(a: PullRequest, b: PullRequest, clock: Instant)
    requires Pinged(Changes, b) && Since(Changes, a) == Since(Changes, b)
    requires a.comments <= b.comments && forall i | |a.comments| <= i < |b.comments| :: b.comments[i].at >= clock
    requires var answer := AuthorCommentedAt(b, Since(Changes, b).value);
             answer == AuthorCommentedAt(a, Since(Changes, a).value) && (answer.Some? ==> answer.value <= clock)
    requires Pinged(Changes, a) ==> Unanswered(Changes, a)
    requires InTurn(Changes, a)
    ensures Unanswered(Changes, b)
  {
    var since := Since(Changes, a).value;
    if Acknowledged(b) {
      if BotCommentedAt(b.comments, ChangesAck, since) != BotCommentedAt(a.comments, ChangesAck, since) {
        NewNotice(a.comments, b.comments, ChangesAck, since, clock);
      }
    } else if Pinged(Changes, a) {
      LaterNotice(a.comments, b.comments, ChangesPing, since);
      NoNewAck(a.comments, b.comments, since);
    } else {
      NewNotice(a.comments, b.comments, ChangesPing, since, clock);
    }
  }

  lemma NoNewAck(a: seq<Comment>, b: seq<Comment>, since: Instant)
    requires a <= b && BotCommentedAt(b, ChangesAck, since).None?
    ensures BotCommentedAt(a, ChangesAck, since).None?
  {
    if BotCommentedAt(a, ChangesAck, since).Some? {
      LaterNotice(a, b, ChangesAck, since);
    }
  }

  /** An acknowledgement from the run answers whatever the author said before. */
  lemma NewlyAcknowledged(b: PullRequest, clock: Instant)
    requires Pinged(Changes, b) && HasMark(b.comments, ChangesAck, clock) && clock > Since(Changes, b).value
    requires var answer := AuthorCommentedAt(b, Since(Changes, b).value); answer.Some? ==> answer.value <= clock
    ensures Unanswered(Changes, b)
  {
    var c :| c in b.comments && ByBot(c, ChangesAck) && c.at >= clock;
    assert Counts(c, ChangesAck, Since(Changes, b).value);
  }

  /** What the first run leaves open is noticed and unanswered. */
  lemma LeftUnanswered(k: Cleanup, start: World, p: Passage)
    requires Bounded(start) && !Skipped(start) && LeftAlone(p) && start.pr.author != Some(COMMUNITY_BOT)
    requires Abandoned(k, start.pr, start.clock) && InTurn(k, start.pr)
    requires BotRun(start, p).0.open && Pinged(k, BotRun(start, p).0.pr)
    ensures StillUnanswered(k, BotRun(start, p).0.pr)
  {
    var end := BotRun(start, p).0;
    var since := Since(k, start.pr).value;
    RunExtends(start, p);
    ScriptAnswersForNobody(k, start, end, since);
    if k == Changes {
      AnswersArePast(start, since);
      AbandonedIsNoticed(Changes, start.pr, start.clock);
      if Pinged(Changes, start.pr) && !Unanswered(Changes, start.pr) {
        if IsClose(Action(Changes, start.pr, start.clock)) {
          ClosingRunCloses(Changes, start, p);
        } else {
          RunPosts(Changes, start, p, ChangesAck);
          NewlyAcknowledged(end.pr, start.clock);
        }
      } else {
        ChangesAnswered(start.pr, end.pr, start.clock);
      }
    } else if k == SelfReview && Pinged(k, start.pr) {
      LaterNotice(start.pr.comments, end.pr.comments, ReviewPing, since);
      ScriptAnswersForNobody(k, start, end, PingedAt(k, start.pr));
      if AuthorCommentedAt(end.pr, PingedAt(k, start.pr)).None? {
        LaterIsSilentToo(end.pr, PingedAt(k, start.pr), PingedAt(k, end.pr));
      }
    }
  }

  /** Left alone, an abandoned pull request is closed by the second of two runs at the latest. */
  lemma LeftAloneIsClosed(k: Cleanup, start: World, first: Passage, grace: nat, second: Passage)
    requires Bounded(start) && !Skipped(start) && start.pr.author != Some(COMMUNITY_BOT)
    requires Abandoned(k, start.pr, start.clock) && InTurn(k, start.pr)
    requires LeftAlone(first) && LeftAlone(second) && grace >= Patience(k)
    ensures var end := BotRun(start, first).0; !end.open || !BotRun(After(end, grace), second).0.open
  {
    var end := BotRun(start, first).0;
    var again := After(end, grace);
    RunExtends(start, first);
    RunExtends(again, second);
    if end.open {
      ScriptAnswersForNobody(k, start, end, Since(k, start.pr).value);
      FirstRun(k, start, first);
      LeftNoticed(k, end.pr);
      LeftUnanswered(k, start, first);
      LaterRun(k, end.pr.comments, Since(k, start.pr).value, again, second);
    }
  }

  lemma LeftNoticed(k: Cleanup, pr: PullRequest)
    requires Since(k, pr).Some? && HasCounting(pr.comments, PingMark(k), Since(k, pr).value)
    ensures Pinged(k, pr)
  {
  }

  lemma ExtendsBounded(w: World, w': World)
    requires Bounded(w) && Extends(w, w')
    ensures Bounded(w')
  {
  }

  lemma LeftAbandoned(w: World, w': World, delay: nat)
    requires Abandoned(Changes, w.pr, w.clock) && Extends(w, w') && Pinged(Changes, w'.pr)
    ensures Abandoned(Changes, w'.pr, w'.clock + delay)
  {
    SinceIgnoresComments(Changes, w.pr, w'.pr.comments);
  }

  /** By the third, whatever acknowledgement is left over. */
  lemma LeftAloneIsClosedInThree(
      k: Cleanup, start: World, first: Passage, grace: nat, second: Passage, delay: nat, third: Passage)
    requires Bounded(start) && !Skipped(start) && start.pr.author != Some(COMMUNITY_BOT)
    requires Abandoned(k, start.pr, start.clock)
    requires LeftAlone(first) && LeftAlone(second) && LeftAlone(third) && grace >= Patience(k) && delay >= Patience(k)
    ensures var end := BotRun(start, first).0;
            var end' := BotRun(After(end, grace), second).0;
            !end.open || !end'.open || !BotRun(After(end', delay), third).0.open
  {
    var end := BotRun(start, first).0;
    var again := After(end, grace);
    if InTurn(k, start.pr) {
      LeftAloneIsClosed(k, start, first, grace, second);
    } else if end.open {
      RunExtends(start, first);
      ExtendsBounded(start, end);
      FirstRun(k, start, first);
      SinceIgnoresComments(k, start.pr, end.pr.comments);
      LeftNoticed(k, end.pr);
      LeftAbandoned(start, end, grace);
      LeftAloneIsClosed(k, again, second, delay, third);
    }
  }

  /** No calm history leaves such an acknowledgement. */
  lemma CalmIsInTurn(k: Cleanup, w: World, moves: seq<Move>)
    requires JustOpened(w) && HonestMoves(moves) && Calm(k, w, moves)
    ensures InTurn(k, History(w, moves).pr)
  {
    HistoryKeeps(k, w, moves, true);
    OrderlyIsInTurn(k, History(w, moves).pr);
  }

  lemma OrderlyIsInTurn(k: Cleanup, pr: PullRequest)
    requires Follows(k, pr)
    ensures InTurn(k, pr)
  {
    if k == Changes && Since(k, pr).Some? && Acknowledged(pr) {
      var ack := CountingNotice(k, pr, ChangesAck);
      LeftNoticed(k, pr);
    }
  }

  /** So it goes after every history: three runs suffice, and two unless such an acknowledgement is left. */
  lemma EveryAbandonedIsClosed(
      k: Cleanup, w: World, moves: seq<Move>, wait: nat, first: Passage, grace: nat, second: Passage, delay: nat,
      third: Passage)
    requires JustOpened(w) && HonestMoves(moves)
    requires var start := After(History(w, moves), wait);
             !Skipped(start) && start.pr.author != Some(COMMUNITY_BOT) && Abandoned(k, start.pr, start.clock)
    requires LeftAlone(first) && LeftAlone(second) && LeftAlone(third) && grace >= Patience(k) && delay >= Patience(k)
    ensures var start := After(History(w, moves), wait);
            var end := BotRun(start, first).0;
            var end' := BotRun(After(end, grace), second).0;
            && (!end.open || !end'.open || !BotRun(After(end', delay), third).0.open)
            && (InTurn(k, start.pr) ==> !end.open || !end'.open)
  {
    var start := After(History(w, moves), wait);
    HistoryKeeps(Cla, w, moves, false);
    LeftAloneIsClosedInThree(k, start, first, grace, second, delay, third);
    if InTurn(k, start.pr) {
      LeftAloneIsClosed(k, start, first, grace, second);
    }
  }
}
