/** What every history of a pull request under the clean-up script guarantees. */
module CleanupTheorems {
  import opened Wrappers
  import opened CleanupDecisions
  import opened CleanupProtocol
  import opened CleanupClocks
  import opened CleanupGrounds

  /** The invariant of `k`: all of its protocol, or the part that needs no calm. */
  ghost predicate Kept(k: Cleanup, pr: PullRequest, calm: bool) {
    if calm then Follows(k, pr) else StaysSteady(k, pr)
  }

  ghost predicate KeptSince(k: Cleanup, comments: seq<Comment>, since: Instant, calm: bool) {
    if calm then Protocol(k, comments, since) else Steady(k, comments, since)
  }

  // ---------------------------------------------------------------------------
  // People keep the invariant
  // ---------------------------------------------------------------------------

  lemma ForeignKeeps(k: Cleanup, a: seq<Comment>, b: seq<Comment>, since: Instant, calm: bool)
    requires Foreign(b, k) && KeptSince(k, a, since, calm)
    ensures KeptSince(k, a + b, since, calm)
  {
    if calm {
      ForeignKeepsProtocol(k, a, b, since);
    } else {
      ForeignKeepsSteady(k, a, b, since);
    }
  }

  lemma RenewedKeeps(k: Cleanup, comments: seq<Comment>, since: Instant, calm: bool)
    requires Renewed(k, comments, since)
    ensures KeptSince(k, comments, since, calm)
  {
    RenewedClockStartsClean(k, comments, since);
  }

  /** A later clock start, with comments added that do not concern `k`. */
  lemma OnwardKeeps(k: Cleanup, w: World, pr: PullRequest, extra: seq<Comment>, calm: bool)
    requires Kept(k, w.pr, calm) && BotIsPast(w.pr.comments, w.clock)
    requires Onward(k, w, Since(k, pr)) && pr.comments == w.pr.comments + extra && Foreign(extra, k)
    ensures Kept(k, pr, calm)
  {
    if Since(k, pr).Some? {
      var since := Since(k, pr).value;
      if Since(k, pr) == Since(k, w.pr) {
        ForeignKeeps(k, w.pr.comments, extra, since, calm);
      } else {
        RenewedKeeps(k, pr.comments, since, calm);
      }
    }
  }

  lemma MovedKeeps(k: Cleanup, w: World, w': World, calm: bool)
    requires Bounded(w) && Moved(k, w, w') && Kept(k, w.pr, calm)
    ensures Kept(k, w'.pr, calm)
  {
    var extra := w'.pr.comments[|w.pr.comments|..];
    assert w'.pr.comments == w.pr.comments + extra;
    OnwardKeeps(k, w, w'.pr, extra, calm);
  }

  // ---------------------------------------------------------------------------
  // A run keeps the invariant
  // ---------------------------------------------------------------------------

  /** What a run that began in `start` knows of the pull request it read. */
  ghost predicate Read(k: Cleanup, start: World, seen: PullRequest, calm: bool) {
    BotIsPast(seen.comments, start.clock) && Kept(k, seen, calm)
  }

  /** The clock is the one that was read, if that had started before the run, or no comment read counts for it. */
  ghost predicate Onto(k: Cleanup, start: World, seen: PullRequest, after: Option<Instant>) {
    Since(k, seen).Some? && Since(k, seen).value < start.clock ==>
      after.None? || after == Since(k, seen) || Renewed(k, seen.comments, after.value)
  }

  /** The comments posted and written since the details were fetched do not concern `k`. */
  ghost predicate Ahead(k: Cleanup, pr: PullRequest, seen: PullRequest) {
    seen.comments <= pr.comments && Foreign(pr.comments[|seen.comments|..], k)
  }

  /** How the pull request stands when the clean-up at index `i` has its turn. */
  ghost predicate Stands(k: Cleanup, start: World, pr: PullRequest, seen: PullRequest, i: nat, calm: bool) {
    && seen.comments <= pr.comments
    && Onto(k, start, seen, Since(k, pr))
    && Kept(k, pr, calm)
    && (i <= IndexOf(k) ==> Ahead(k, pr, seen))
  }

  lemma OntoFurther(k: Cleanup, start: World, seen: PullRequest, w: World, after: Option<Instant>)
    requires BotIsPast(seen.comments, start.clock) && start.clock <= w.clock && seen.comments <= w.pr.comments
    requires Onto(k, start, seen, Since(k, w.pr)) && Onward(k, w, after)
    ensures Onto(k, start, seen, after)
  {
  }

  lemma MovedStands(k: Cleanup, start: World, w: World, w': World, seen: PullRequest, i: nat, calm: bool)
    requires Bounded(w) && start.clock <= w.clock && BotIsPast(seen.comments, start.clock)
    requires Stands(k, start, w.pr, seen, i, calm) && Moved(k, w, w')
    ensures Stands(k, start, w'.pr, seen, i, calm)
  {
    MovedKeeps(k, w, w', calm);
    OntoFurther(k, start, seen, w, Since(k, w'.pr));
  }

  /** Under the clock a comment was decided on, posting it keeps the whole protocol. */
  lemma CalmPostKeeps(k: Cleanup, pr: PullRequest, seen: PullRequest, now: Instant, step: Step, at: Instant)
    requires Action(k, seen, now) == Some(step) && step.notice.Some? && BotIsPast(seen.comments, now)
    requires Follows(k, seen) && Follows(k, pr) && Ahead(k, pr, seen) && SameClock(k, pr, seen)
    requires now <= at && NoLater(pr.comments, at)
    ensures Follows(k, Posted(pr, step.notice.value, at))
  {
    var c := Post(step.notice.value, at);
    var pr' := Posted(pr, step.notice.value, at);
    SinceIgnoresComments(k, pr, pr'.comments);
    if Since(k, pr).Some? {
      var since := Since(k, pr).value;
      ActionGrounds(k, seen, now, step);
      assert pr.comments == seen.comments + pr.comments[|seen.comments|..];
      GroundsAhead(k, seen.comments, pr.comments[|seen.comments|..], since, now, step);
      PostKeepsProtocol(k, pr.comments, since, now, step, c);
    }
  }

  /** Whatever happened since the decision, posting its comment keeps what needs no calm. */
  lemma AnyPostKeeps(k: Cleanup, start: World, pr: PullRequest, seen: PullRequest, step: Step, at: Instant)
    requires Action(k, seen, start.clock) == Some(step) && step.notice.Some?
    requires Read(k, start, seen, false) && Onto(k, start, seen, Since(k, pr))
    requires StaysSteady(k, pr) && Ahead(k, pr, seen) && start.clock <= at
    ensures StaysSteady(k, Posted(pr, step.notice.value, at))
  {
    var c := Post(step.notice.value, at);
    var pr' := Posted(pr, step.notice.value, at);
    SinceIgnoresComments(k, pr, pr'.comments);
    if Since(k, pr).Some? {
      var since := Since(k, pr).value;
      ActionDecided(k, seen, start.clock, step);
      var decidedOn := Since(k, seen).value;
      var extra := pr.comments[|seen.comments|..];
      assert pr.comments == seen.comments + extra;
      DecidedAhead(k, seen.comments, extra, decidedOn, start.clock, step);
      SameOrRenewed(k, seen.comments, extra, since, decidedOn);
      PostKeepsSteady(k, pr.comments, since, decidedOn, start.clock, step, c);
    }
  }

  lemma SameOrRenewed(k: Cleanup, a: seq<Comment>, b: seq<Comment>, since: Instant, decidedOn: Instant)
    requires since == decidedOn || Renewed(k, a, since)
    requires Foreign(b, k)
    ensures since == decidedOn || Renewed(k, a + b, since)
  {
  }

  lemma OtherPostKeeps(k: Cleanup, pr: PullRequest, step: Step, at: Instant, calm: bool)
    requires step.notice.Some? && Owner(step.notice.value.mark) != k && Kept(k, pr, calm)
    ensures Kept(k, Posted(pr, step.notice.value, at), calm)
  {
    var c := Post(step.notice.value, at);
    var pr' := Posted(pr, step.notice.value, at);
    SinceIgnoresComments(k, pr, pr'.comments);
    if Since(k, pr).Some? {
      assert Foreign([c], k);
      ForeignKeeps(k, pr.comments, [c], Since(k, pr).value, calm);
    }
  }

  lemma PostKeepsBounds(w: World, n: Notice, delay: nat)
    requires Bounded(w)
    ensures Bounded(AfterPost(w, n, delay))
  {
  }

  ghost predicate NoLater(comments: seq<Comment>, at: Instant) {
    forall c | c in comments :: c.at <= at
  }

  lemma PostKeeps(
      k: Cleanup, start: World, pr: PullRequest, seen: PullRequest, i: nat, step: Step, at: Instant, calm: bool)
    requires i < |CLEANUPS| && Stands(k, start, pr, seen, i, calm) && Read(k, start, seen, calm)
    requires start.clock <= at && NoLater(pr.comments, at)
    requires Action(CLEANUPS[i], seen, start.clock) == Some(step) && step.notice.Some?
    requires calm && CLEANUPS[i] == k ==> SameClock(k, pr, seen)
    ensures Kept(k, Posted(pr, step.notice.value, at), calm)
    ensures Owner(step.notice.value.mark) == CLEANUPS[i]
  {
    ActionOwns(CLEANUPS[i], seen, start.clock, step);
    if CLEANUPS[i] != k {
      OtherPostKeeps(k, pr, step, at, calm);
    } else if calm {
      CalmPostKeeps(k, pr, seen, start.clock, step, at);
    } else {
      AnyPostKeeps(k, start, pr, seen, step, at);
    }
  }

  lemma PostedStands(
      k: Cleanup, start: World, pr: PullRequest, seen: PullRequest, i: nat, step: Step, at: Instant, calm: bool)
    requires i < |CLEANUPS| && Stands(k, start, pr, seen, i, calm)
    requires step.notice.Some? && Owner(step.notice.value.mark) == CLEANUPS[i]
    requires Kept(k, Posted(pr, step.notice.value, at), calm)
    ensures Stands(k, start, Posted(pr, step.notice.value, at), seen, i + 1, calm)
  {
    var pr' := Posted(pr, step.notice.value, at);
    SinceIgnoresComments(k, pr, pr'.comments);
  }

  lemma StepKeepsBounds(v: World, step: Step, r: Replies)
    requires Bounded(v)
    ensures Bounded(TakeStep(v, step, r).0) && TakeStep(v, step, r).0.clock >= v.clock
  {
    if step.notice.Some? && !r.post.Refused? {
      PostKeepsBounds(v, step.notice.value, r.post.delay);
    }
  }

  /** What posting needs of the decision behind it. */
  ghost predicate MayPost(k: Cleanup, pr: PullRequest, i: nat, step: Step, at: Instant, calm: bool)
    requires i < |CLEANUPS|
  {
    step.notice.Some? && Owner(step.notice.value.mark) == CLEANUPS[i] &&
    Kept(k, Posted(pr, step.notice.value, at), calm)
  }

  lemma DecisionMayPost(
      k: Cleanup, start: World, pr: PullRequest, seen: PullRequest, i: nat, step: Step, at: Instant, calm: bool)
    requires i < |CLEANUPS| && Stands(k, start, pr, seen, i, calm) && Read(k, start, seen, calm)
    requires start.clock <= at && NoLater(pr.comments, at)
    requires Action(CLEANUPS[i], seen, start.clock) == Some(step) && step.notice.Some?
    requires calm && CLEANUPS[i] == k ==> SameClock(k, pr, seen)
    ensures MayPost(k, pr, i, step, at, calm)
  {
    PostKeeps(k, start, pr, seen, i, step, at, calm);
  }

  predicate PostsAt(v: World, step: Step, r: Replies, at: Instant) {
    step.notice.Some? && !r.post.Refused? && at == v.clock + r.post.delay
  }

  lemma StepIsPosted(v: World, step: Step, r: Replies, at: Instant)
    requires PostsAt(v, step, r, at)
    ensures TakeStep(v, step, r).0.pr == Posted(v.pr, step.notice.value, at)
  {
  }

  lemma PostingStepStands(
      k: Cleanup, start: World, v: World, seen: PullRequest, i: nat, step: Step, r: Replies, at: Instant, calm: bool)
    requires i < |CLEANUPS| && Stands(k, start, v.pr, seen, i, calm)
    requires PostsAt(v, step, r, at) && MayPost(k, v.pr, i, step, at, calm)
    ensures Stands(k, start, TakeStep(v, step, r).0.pr, seen, i + 1, calm)
  {
    PostedStands(k, start, v.pr, seen, i, step, at, calm);
    StepIsPosted(v, step, r, at);
  }

  lemma OtherStepStands(
      k: Cleanup, start: World, v: World, seen: PullRequest, i: nat, step: Step, r: Replies, calm: bool)
    requires Stands(k, start, v.pr, seen, i, calm) && (step.notice.None? || r.post.Refused?)
    ensures Stands(k, start, TakeStep(v, step, r).0.pr, seen, i + 1, calm)
  {
    StepIsSilent(v, step, r);
  }

  lemma StepIsSilent(v: World, step: Step, r: Replies)
    requires step.notice.None? || r.post.Refused?
    ensures TakeStep(v, step, r).0.pr == v.pr
  {
  }

  lemma StepStands(k: Cleanup, start: World, v: World, seen: PullRequest, i: nat, step: Step, r: Replies, calm: bool)
    requires i < |CLEANUPS| && Stands(k, start, v.pr, seen, i, calm) && Read(k, start, seen, calm)
    requires start.clock <= v.clock && NoLater(v.pr.comments, v.clock)
    requires Action(CLEANUPS[i], seen, start.clock) == Some(step)
    requires calm && CLEANUPS[i] == k && step.notice.Some? ==> SameClock(k, v.pr, seen)
    ensures Stands(k, start, TakeStep(v, step, r).0.pr, seen, i + 1, calm)
  {
    if step.notice.None? || r.post.Refused? {
      OtherStepStands(k, start, v, seen, i, step, r, calm);
    } else {
      var at := v.clock + r.post.delay;
      DecisionMayPost(k, start, v.pr, seen, i, step, at, calm);
      PostingStepStands(k, start, v, seen, i, step, r, at, calm);
    }
  }

  /** The state in which a visit goes on to the clean-up at index `i`. */
  ghost predicate Visiting(k: Cleanup, start: World, w: World, seen: PullRequest, i: nat, calm: bool) {
    && Bounded(w) && start.clock <= w.clock && NoLater(w.pr.comments, w.clock)
    && Stands(k, start, w.pr, seen, i, calm)
  }

  lemma StepKeeps(
      k: Cleanup, start: World, v: World, seen: PullRequest, i: nat, step: Step, r: Replies, next: nat, calm: bool)
    requires i < |CLEANUPS| && Visiting(k, start, v, seen, i, calm) && Read(k, start, seen, calm) && next == i + 1
    requires Action(CLEANUPS[i], seen, start.clock) == Some(step)
    requires calm && CLEANUPS[i] == k && step.notice.Some? ==> SameClock(k, v.pr, seen)
    ensures Visiting(k, start, TakeStep(v, step, r).0, seen, next, calm)
  {
    var v' := TakeStep(v, step, r).0;
    StepKeepsBounds(v, step, r);
    StepStands(k, start, v, seen, i, step, r, calm);
  }

  /** Before a step: what people did meanwhile leaves everything as it should be. */
  lemma MeanwhileStands(
      k: Cleanup, start: World, w: World, seen: PullRequest, acts: seq<Timed>, i: nat, calm: bool)
    requires AllHonest(acts) && (calm || k == Draft ==> AllTimely(k, w, acts))
    requires Visiting(k, start, w, seen, i, calm) && BotIsPast(seen.comments, start.clock)
    ensures Visiting(k, start, Live(w, acts), seen, i, calm)
  {
    LiveMoves(k, w, acts);
    MovedStands(k, start, w, Live(w, acts), seen, i, calm);
  }

  lemma {:induction false} VisitKeeps(
      k: Cleanup, start: World, w: World, seen: PullRequest, plan: seq<Option<Step>>, replies: seq<Replies>, i: nat,
      calm: bool)
    requires |replies| == |CLEANUPS| && i <= |CLEANUPS| && HonestReplies(replies)
    requires Visiting(k, start, w, seen, i, calm) && Read(k, start, seen, calm)
    requires plan == Plan(seen, start.clock)
    requires calm || k == Draft ==> PacedVisit(k, w, seen, plan, replies, i, calm)
    ensures var w' := Visit(w, plan, replies, i).0; Bounded(w') && Kept(k, w'.pr, calm)
    decreases |CLEANUPS| - i
  {
    if i < |CLEANUPS| {
      var next := i + 1;
      var v := Live(w, replies[i].meanwhile);
      MeanwhileStands(k, start, w, seen, replies[i].meanwhile, i, calm);
      if plan[i].None? {
        VisitKeeps(k, start, v, seen, plan, replies, next, calm);
      } else {
        var step := plan[i].value;
        StepKeeps(k, start, v, seen, i, step, replies[i], next, calm);
        var (v', ok) := TakeStep(v, step, replies[i]);
        if ok && !step.kind.Close? {
          VisitKeeps(k, start, v', seen, plan, replies, next, calm);
        }
      }
    }
  }

  lemma SeenKeeps(k: Cleanup, start: World, fetched: World, seen: PullRequest, calm: bool)
    requires Bounded(start) && Kept(k, start.pr, calm) && Continues(start, fetched)
    requires seen.comments == fetched.pr.comments && Onward(k, start, Since(k, seen))
    ensures Kept(k, seen, calm) && BotIsPast(seen.comments, start.clock)
  {
    var extra := seen.comments[|start.pr.comments|..];
    assert seen.comments == start.pr.comments + extra;
    OnwardKeeps(k, start, seen, extra, calm);
  }

  lemma ReadWell(k: Cleanup, start: World, listed: World, fetched: World, calm: bool)
    requires Bounded(start) && Kept(k, start.pr, calm)
    requires Moved(k, start, listed) && Moved(k, listed, fetched)
    ensures var seen := Seen(listed.pr, fetched.pr);
            Read(k, start, seen, calm) && Stands(k, start, fetched.pr, seen, 0, calm)
  {
    var seen := Seen(listed.pr, fetched.pr);
    SeenOnward(k, start, listed, fetched);
    MovedKeeps(k, start, fetched, calm);
    SeenKeeps(k, start, fetched, seen, calm);
    assert fetched.pr.comments[|seen.comments|..] == [];
  }

  lemma RunKeeps(k: Cleanup, start: World, p: Passage, calm: bool)
    requires Bounded(start) && Kept(k, start.pr, calm) && HonestPassage(p)
    requires calm || k == Draft ==> PacedRun(k, start, p, calm)
    ensures var w := BotRun(start, p).0; Bounded(w) && Kept(k, w.pr, calm)
  {
    LiveMoves(k, start, p.early);
    LiveMoves(k, Listed(start, p), p.late);
    ReadWell(k, start, Listed(start, p), Fetched(start, p), calm);
    if !Skipped(Listed(start, p)) {
      VisitKeeps(k, start, Fetched(start, p), SeenBy(start, p), PlanOf(start, p), p.replies, 0, calm);
    }
  }

  lemma MoveKeeps(k: Cleanup, w: World, m: Move, calm: bool)
    requires Bounded(w) && Kept(k, w.pr, calm) && Honest(m)
    requires calm || k == Draft ==> PacedMove(k, w, m, calm)
    ensures Bounded(Next(w, m)) && Kept(k, Next(w, m).pr, calm)
  {
    match m
    case Happens(timed) =>
      HappenMoves(k, w, timed);
      MovedKeeps(k, w, Happen(w, timed), calm);
    case BotRuns(delay, passage) =>
      RunKeeps(k, After(w, delay), passage, calm);
  }

  /**
    Every history keeps the invariant: its whole where `k` is left in calm, and elsewhere what
    needs no calm, for drafts as long as pushes are timely.
   */
  lemma {:induction false} HistoryKeeps(k: Cleanup, w: World, moves: seq<Move>, calm: bool)
    requires JustOpened(w) && HonestMoves(moves)
    requires calm || k == Draft ==> Paced(k, w, moves, calm)
    ensures Bounded(History(w, moves)) && Kept(k, History(w, moves).pr, calm)
  {
    if moves != [] {
      HistoryKeeps(k, w, moves[..|moves| - 1], calm);
      MoveKeeps(k, History(w, moves[..|moves| - 1]), moves[|moves| - 1], calm);
    }
  }

  // ---------------------------------------------------------------------------
  // Main results
  // ---------------------------------------------------------------------------

  /** The whole waiting time from the clock start has passed. */
  predicate Waited(k: Cleanup, since: Instant, now: Instant) {
    match k
    case Cla => now - since >= 8 * DAY
    case Draft => now - since >= 28 * DAY
    case Changes => Day(now) >= Day(since + 21 * DAY)
    case SelfReview => Day(now) >= Day(since + 4 * DAY)
  }

  /** Every closing day promised under the clock has come by `day`. */
  ghost predicate DatesBy(k: Cleanup, comments: seq<Comment>, since: Instant, day: int) {
    forall c, m | c in comments && Counts(c, m, since) && Owner(m) == k && IsDated(m) ::
      c.promise.Some? && c.promise.value <= day
  }

  /** What a reader is owed before the bot closes the pull request at `now`. */
  ghost predicate Due(k: Cleanup, pr: PullRequest, now: Instant) {
    && Since(k, pr).Some?
    && var since := Since(k, pr).value;
    // a notice was posted after this very clock start, not before its waiting time
    && (exists p :: p in pr.comments && Counts(p, PingMark(k), since) && since + PingAfter(k) <= p.at <= now)
    // no closing before a date promised since then
    && DatesBy(k, pr.comments, since, Day(now))
    && Waited(k, since, now)
  }

  lemma ExpiredIsDue(k: Cleanup, pr: PullRequest, now: Instant)
    requires Since(k, pr).Some? && Protocol(k, pr.comments, Since(k, pr).value)
    requires HasCounting(pr.comments, PingMark(k), Since(k, pr).value)
    requires AllExpired(pr.comments, k, Since(k, pr).value, now)
    requires BotIsPast(pr.comments, now)
    ensures Due(k, pr, now)
  {
    var since := Since(k, pr).value;
    var p :| p in pr.comments && Counts(p, PingMark(k), since);
    assert Expired(p, PingMark(k), now);
    forall c, m | c in pr.comments && Counts(c, m, since) && Owner(m) == k && IsDated(m)
      ensures c.promise.Some? && Day(now) >= c.promise.value
    {
      assert PromiseCovered(c, m) && Expired(c, m, now);
    }
  }

  lemma ExpiryLasts(comments: seq<Comment>, k: Cleanup, since: Instant, t: Instant, now: Instant)
    requires AllExpired(comments, k, since, t) && t <= now
    ensures AllExpired(comments, k, since, now)
  {
  }

  predicate IsClose(step: Option<Step>) {
    step.Some? && step.value.kind.Close?
  }

  lemma CloseDecisionIsDue(k: Cleanup, pr: PullRequest, now: Instant, step: Step)
    requires Follows(k, pr) && BotIsPast(pr.comments, now)
    requires Action(k, pr, now) == Some(step) && step.kind.Close?
    ensures Due(k, pr, now)
  {
    if step.notice.Some? {
      ActionGrounds(k, pr, now, step);
    } else {
      SilentStepRepeatsClose(k, pr, now, step);
      var since := Since(k, pr).value;
      var c :| c in pr.comments && Counts(c, CloseMark(k), since);
      ExpiryLasts(pr.comments, k, since, c.at, now);
    }
    ExpiredIsDue(k, pr, now);
  }

  /** After every calm history a decision to close keeps all that was promised. */
  lemma EveryCloseIsDue(k: Cleanup, w: World, moves: seq<Move>, now: Instant, step: Step)
    requires JustOpened(w) && HonestMoves(moves) && Calm(k, w, moves)
    requires now >= History(w, moves).clock
    requires Action(k, History(w, moves).pr, now) == Some(step) && step.kind.Close?
    ensures Due(k, History(w, moves).pr, now)
  {
    HistoryKeeps(k, w, moves, true);
    CloseDecisionIsDue(k, History(w, moves).pr, now, step);
  }

  /** A decision made on what a run reads while people go on working. */
  lemma RunClosesOnlyWhatIsDue(k: Cleanup, start: World, p: Passage)
    requires Bounded(start) && Follows(k, start.pr) && HonestPassage(p) && PacedRun(k, start, p, true)
    requires IsClose(Action(k, SeenBy(start, p), start.clock))
    ensures Due(k, SeenBy(start, p), start.clock)
  {
    LiveMoves(k, start, p.early);
    LiveMoves(k, Listed(start, p), p.late);
    ReadWell(k, start, Listed(start, p), Fetched(start, p), true);
    CloseDecisionIsDue(k, SeenBy(start, p), start.clock, Action(k, SeenBy(start, p), start.clock).value);
  }

  /**
    At most one closing comment and one first notice per clock start, and every dated notice
    names a day no later than the one it delays the closing to: in every history, also where
    clocks move during runs; only a draft's pushes must be timely.
   */
  lemma OneClosingCommentPerClock(k: Cleanup, w: World, moves: seq<Move>)
    requires JustOpened(w) && HonestMoves(moves)
    requires k == Draft ==> TimelyPushes(w, moves)
    requires Since(k, History(w, moves).pr).Some?
    ensures var pr := History(w, moves).pr;
            && Single(pr.comments, CloseMark(k), Since(k, pr).value)
            && Single(pr.comments, PingMark(k), Since(k, pr).value)
            && forall c, m | c in pr.comments && Counts(c, m, Since(k, pr).value) && Owner(m) == k ::
                 PromiseCovered(c, m)
  {
    HistoryKeeps(k, w, moves, false);
  }

  predicate NobodyCloses(acts: seq<Timed>) {
    forall i | 0 <= i < |acts| :: !acts[i].activity.Closes?
  }

  lemma StaysOpen(w: World, acts: seq<Timed>)
    requires w.open && NobodyCloses(acts)
    ensures Live(w, acts).open
  {
  }

  lemma {:induction false} VisitStaysOpen(w: World, plan: seq<Option<Step>>, replies: seq<Replies>, i: nat)
    requires i <= |plan| == |replies| && w.open
    requires forall j | 0 <= j < |replies| :: NobodyCloses(replies[j].meanwhile) && !IsClose(plan[j])
    ensures Visit(w, plan, replies, i).0.open
    decreases |plan| - i
  {
    if i < |plan| {
      var next := i + 1;
      var v := Live(w, replies[i].meanwhile);
      StaysOpen(w, replies[i].meanwhile);
      if plan[i].None? {
        VisitStaysOpen(v, plan, replies, next);
      } else {
        VisitStaysOpen(TakeStep(v, plan[i].value, replies[i]).0, plan, replies, next);
      }
    }
  }

  predicate NobodyClosesDuring(p: Passage) {
    && NobodyCloses(p.early) && NobodyCloses(p.late)
    && forall j | 0 <= j < |p.replies| :: NobodyCloses(p.replies[j].meanwhile)
  }

  /** Nothing but a decision makes the script close a pull request. */
  lemma RunStaysOpen(start: World, p: Passage)
    requires |p.replies| == |CLEANUPS| && NobodyClosesDuring(p) && start.open
    requires forall k: Cleanup :: !IsClose(Action(k, SeenBy(start, p), start.clock))
    ensures BotRun(start, p).0.open
  {
    StaysOpen(start, p.early);
    StaysOpen(Listed(start, p), p.late);
    VisitStaysOpen(Fetched(start, p), PlanOf(start, p), p.replies, 0);
  }

  lemma CalmHistoryFollows(k: Cleanup, w: World, moves: seq<Move>, delay: nat)
    requires JustOpened(w) && HonestMoves(moves) && Calm(k, w, moves)
    ensures var start := After(History(w, moves), delay); Bounded(start) && Follows(k, start.pr)
  {
    HistoryKeeps(k, w, moves, true);
  }

  /** A pull request that the script, and nobody else, closes was due for one of the four reasons. */
  lemma BotClosesOnlyWhenDue(w: World, moves: seq<Move>, delay: nat, p: Passage) returns (k: Cleanup)
    requires JustOpened(w) && HonestMoves(moves) && HonestPassage(p) && NobodyClosesDuring(p)
    requires forall j: Cleanup :: Calm(j, w, moves) && PacedRun(j, After(History(w, moves), delay), p, true)
    requires History(w, moves).open && !BotRun(After(History(w, moves), delay), p).0.open
    ensures var start := After(History(w, moves), delay); Due(k, SeenBy(start, p), start.clock)
  {
    var start := After(History(w, moves), delay);
    if forall j: Cleanup :: !IsClose(Action(j, SeenBy(start, p), start.clock)) {
      RunStaysOpen(start, p);
    }
    k :| IsClose(Action(k, SeenBy(start, p), start.clock));
    assert Calm(k, w, moves) && PacedRun(k, start, p, true);
    CalmHistoryFollows(k, w, moves, delay);
    RunClosesOnlyWhatIsDue(k, start, p);
  }

  // ---------------------------------------------------------------------------
  // Failed closes are retried
  // ---------------------------------------------------------------------------

  /** The conditions under which a clean-up still applies, checked before any comment is. */
  predicate Applies(k: Cleanup, pr: PullRequest, now: Instant) {
    match k
    case Cla => IsCommunity(pr.labels) && CLA_SIGNED !in pr.labels && now - pr.createdAt >= CLA_RETRY_AFTER
    case Draft => pr.isDraft && now - DraftActiveAt(pr) >= DRAFT_PING_AFTER
    case Changes =>
      && !pr.isDraft && IsCommunity(pr.labels)
      && StaffChangeRequestAt(pr.reviews, pr.staff).Some?
      && var requested := StaffChangeRequestAt(pr.reviews, pr.staff).value;
      && now - requested >= CHANGES_PING_AFTER
      && !ReviewRequestedSince(pr, requested) && !AuthorPushedSince(pr, requested)
    case SelfReview => !pr.isDraft && NO_SELF_REVIEW in pr.labels && IsCommunity(pr.labels)
  }

  /** The bot has said that it closes the pull request, under the current clock. */
  ghost predicate Announced(k: Cleanup, pr: PullRequest) {
    Since(k, pr).Some? && HasCounting(pr.comments, CloseMark(k), Since(k, pr).value)
  }

  /** Once announced, the close is repeated without a comment exactly while the rule applies. */
  lemma AnnouncedCloseIsRetried(k: Cleanup, pr: PullRequest, now: Instant)
    requires Announced(k, pr)
    ensures Action(k, pr, now) == if Applies(k, pr, now) then Some(Step(Close, None)) else None
  {
    var since := Since(k, pr).value;
    var c :| c in pr.comments && Counts(c, CloseMark(k), since);
    assert BotCommentedAt(pr.comments, CloseMark(k), since).Some?;
  }

  lemma {:induction false} LiveOnlyAppends(w: World, acts: seq<Timed>)
    ensures w.pr.comments <= Live(w, acts).pr.comments
  {
    if acts != [] {
      LiveOnlyAppends(w, acts[..|acts| - 1]);
    }
  }

  lemma StepOnlyAppends(w: World, step: Step, r: Replies)
    ensures w.pr.comments <= TakeStep(w, step, r).0.pr.comments
  {
  }

  lemma {:induction false} VisitOnlyAppends(w: World, plan: seq<Option<Step>>, replies: seq<Replies>, i: nat)
    requires i <= |plan| == |replies|
    ensures w.pr.comments <= Visit(w, plan, replies, i).0.pr.comments
    decreases |plan| - i
  {
    if i < |plan| {
      var v := Live(w, replies[i].meanwhile);
      LiveOnlyAppends(w, replies[i].meanwhile);
      if plan[i].None? {
        VisitOnlyAppends(v, plan, replies, i + 1);
      } else {
        StepOnlyAppends(v, plan[i].value, replies[i]);
        VisitOnlyAppends(TakeStep(v, plan[i].value, replies[i]).0, plan, replies, i + 1);
      }
    }
  }

  lemma SeenOnlyAppends(start: World, p: Passage)
    ensures start.pr.comments <= Fetched(start, p).pr.comments == SeenBy(start, p).comments
  {
    LiveOnlyAppends(start, p.early);
    LiveOnlyAppends(Listed(start, p), p.late);
  }

  lemma RunOnlyAppends(start: World, p: Passage)
    requires |p.replies| == |CLEANUPS|
    ensures start.pr.comments <= BotRun(start, p).0.pr.comments
  {
    SeenOnlyAppends(start, p);
    VisitOnlyAppends(Fetched(start, p), PlanOf(start, p), p.replies, 0);
  }

  lemma {:induction false} HistoryOnlyAppends(w: World, moves: seq<Move>)
    requires HonestMoves(moves)
    ensures w.pr.comments <= History(w, moves).pr.comments
  {
    if moves != [] {
      var before := History(w, moves[..|moves| - 1]);
      HistoryOnlyAppends(w, moves[..|moves| - 1]);
      match moves[|moves| - 1]
      case Happens(timed) =>
      case BotRuns(delay, passage) => RunOnlyAppends(After(before, delay), passage);
    }
  }

  /** An announcement holds through any further history under the same clock. */
  lemma AnnouncementLasts(k: Cleanup, w: World, moves: seq<Move>)
    requires HonestMoves(moves) && Announced(k, w.pr)
    requires Since(k, History(w, moves).pr) == Since(k, w.pr)
    ensures Announced(k, History(w, moves).pr)
  {
    HistoryOnlyAppends(w, moves);
    var c :| c in w.pr.comments && Counts(c, CloseMark(k), Since(k, w.pr).value);
    assert c in History(w, moves).pr.comments;
  }

  predicate AllDelivered(replies: seq<Replies>) {
    forall r | r in replies :: r.post.Delivered? && r.close.Delivered?
  }

  /** A visit whose calls get through ends at the first decision to close, whatever people do meanwhile. */
  lemma {:induction false} VisitWithCloseDecisionCloses(
      w: World, plan: seq<Option<Step>>, replies: seq<Replies>, i: nat, j: nat)
    requires i <= j < |plan| == |replies| && AllDelivered(replies)
    requires plan[j].Some? && plan[j].value.kind.Close?
    ensures !Visit(w, plan, replies, i).0.open
    decreases |plan| - i
  {
    assert replies[i] in replies;
    var v := Live(w, replies[i].meanwhile);
    if plan[i].None? {
      VisitWithCloseDecisionCloses(v, plan, replies, i + 1, j);
    } else if !plan[i].value.kind.Close? {
      VisitWithCloseDecisionCloses(TakeStep(v, plan[i].value, replies[i]).0, plan, replies, i + 1, j);
    }
  }

  lemma ClosingRunCloses(k: Cleanup, start: World, p: Passage)
    requires |p.replies| == |CLEANUPS| && AllDelivered(p.replies) && !Skipped(Listed(start, p))
    requires IsClose(Action(k, SeenBy(start, p), start.clock))
    ensures !BotRun(start, p).0.open
  {
    VisitWithCloseDecisionCloses(Fetched(start, p), PlanOf(start, p), p.replies, 0, IndexOf(k));
  }

  lemma AnnouncedRunCloses(k: Cleanup, pr: PullRequest, start: World, p: Passage)
    requires Announced(k, pr) && pr.comments <= start.pr.comments
    requires |p.replies| == |CLEANUPS| && AllDelivered(p.replies) && !Skipped(Listed(start, p))
    requires Since(k, SeenBy(start, p)) == Since(k, pr) && Applies(k, SeenBy(start, p), start.clock)
    ensures !BotRun(start, p).0.open
  {
    SeenOnlyAppends(start, p);
    AnnouncedCloseIsRetried(k, SeenBy(start, p), start.clock);
    ClosingRunCloses(k, start, p);
  }

  /** A failed close is completed by the first run that gets through, however late. */
  lemma RetryCompletesTheClose(k: Cleanup, w: World, moves: seq<Move>, delay: nat, p: Passage)
    requires HonestMoves(moves) && Announced(k, w.pr)
    requires |p.replies| == |CLEANUPS| && AllDelivered(p.replies)
    requires var start := After(History(w, moves), delay);
             && !Skipped(Listed(start, p))
             && Since(k, SeenBy(start, p)) == Since(k, w.pr)
             && Applies(k, SeenBy(start, p), start.clock)
    ensures !BotRun(After(History(w, moves), delay), p).0.open
  {
    HistoryOnlyAppends(w, moves);
    AnnouncedRunCloses(k, w.pr, After(History(w, moves), delay), p);
  }
}
