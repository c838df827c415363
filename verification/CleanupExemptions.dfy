/** What keeps the script away from a pull request: work by its author, an exempting label, being closed. */
module CleanupExemptions {
  import opened Wrappers
  import opened CleanupDecisions
  import opened CleanupProtocol
  import opened CleanupClocks
  import opened CleanupGrounds
  import opened CleanupTheorems
  import opened CleanupRules
  import opened CleanupRun

  // ---------------------------------------------------------------------------
  // Work by the author answers a change request
  // ---------------------------------------------------------------------------

  /** A commit of the author's own, later than any standing change request. */
  ghost predicate Fixes(pr: PullRequest, c: Commit) {
    && c in pr.commits && c.parents <= 1 && (c.user == None || c.user == pr.author)
    && forall t | RequestedAt(pr, t) :: c.at > t
  }

  lemma FixEndsTheMatter(pr: PullRequest, c: Commit, now: Instant)
    requires c in pr.commits && c.parents <= 1 && (c.user == None || c.user == pr.author)
    requires forall t | RequestedAt(pr, t) :: c.at > t
    ensures Action(Changes, pr, now) == None
  {
    if Action(Changes, pr, now).Some? {
      DecidesExactlyWhen(Changes, pr, now, Action(Changes, pr, now).value);
    }
  }

  /** A merge, a commit by somebody else, or one no later than the change request. */
  ghost predicate Irrelevant(pr: PullRequest, c: Commit) {
    c.parents > 1 || (c.user != None && c.user != pr.author) || forall t | RequestedAt(pr, t) :: c.at <= t
  }

  lemma SameWork(pr: PullRequest, commits: seq<Commit>, t: Instant)
    requires RequestedAt(pr, t)
    requires forall c | c in commits && c !in pr.commits :: Irrelevant(pr, c)
    requires forall c | c in pr.commits && c !in commits :: Irrelevant(pr, c)
    ensures AuthorPushedSince(pr.(commits := commits), t) <==> AuthorPushedSince(pr, t)
  {
  }

  lemma OnlyWorkMatters(a: PullRequest, b: PullRequest, now: Instant)
    requires b == a.(commits := b.commits, latestCommitAt := b.latestCommitAt)
    requires var requested := StaffChangeRequestAt(a.reviews, a.staff);
             requested.Some? ==>
               (AuthorPushedSince(b, requested.value) <==> AuthorPushedSince(a, requested.value))
    ensures ChangesAction(b, now) == ChangesAction(a, now)
  {
    var requested := StaffChangeRequestAt(a.reviews, a.staff);
    if requested.Some? {
      var since := ClockStart(a, requested.value);
      assert AuthorCommentedAt(b, since) == AuthorCommentedAt(a, since);
      assert ReviewRequestedSince(b, requested.value) == ReviewRequestedSince(a, requested.value);
    }
  }

  /** Pushing and dropping such commits changes no decision on a change request. */
  lemma OtherPushesChangeNothing(pr: PullRequest, commits: seq<Commit>, at: Instant, now: Instant)
    requires forall c | c in commits && c !in pr.commits :: Irrelevant(pr, c)
    requires forall c | c in pr.commits && c !in commits :: Irrelevant(pr, c)
    ensures Action(Changes, Apply(pr, Pushes(commits), at), now) == Action(Changes, pr, now)
  {
    if commits != [] {
      var requested := StaffChangeRequestAt(pr.reviews, pr.staff);
      if requested.Some? {
        RequestIsStanding(pr, requested.value);
        SameWork(pr, commits, requested.value);
      }
      OnlyWorkMatters(pr, Apply(pr, Pushes(commits), at), now);
    }
  }

  // ---------------------------------------------------------------------------
  // Activities of a whole history
  // ---------------------------------------------------------------------------

  /** What people refrain from. */
  datatype Restraint =
    | KeepFix(staff: set<Login>, fix: Commit)
    | KeepLabel(name: string)
    | KeepOpen

  /** Nobody takes the fix back and staff do not request changes again; nobody removes the label; nobody closes. */
  predicate Respects(a: Activity, r: Restraint) {
    match r
    case KeepFix(staff, fix) =>
      && (a.Pushes? && a.commits != [] ==> fix in a.commits)
      && (a.Reviews? && a.verdict == Some(ChangesRequested) && a.reviewer.Some? ==> a.reviewer.value !in staff)
    case KeepLabel(name) => a != RemovesLabel(name)
    case KeepOpen => a != Closes
  }

  predicate AllRespect(acts: seq<Timed>, r: Restraint) {
    forall i | 0 <= i < |acts| :: Respects(acts[i].activity, r)
  }

  predicate PassageRespects(p: Passage, r: Restraint) {
    && AllRespect(p.early, r) && AllRespect(p.late, r)
    && forall i | 0 <= i < |p.replies| :: AllRespect(p.replies[i].meanwhile, r)
  }

  predicate MoveRespects(m: Move, r: Restraint) {
    match m
    case Happens(t) => Respects(t.activity, r)
    case BotRuns(_, p) => PassageRespects(p, r)
  }

  /** So it is with everything people do, between runs and during them. */
  predicate HistoryRespects(moves: seq<Move>, r: Restraint) {
    forall i | 0 <= i < |moves| :: MoveRespects(moves[i], r)
  }

  /** The comments grow, and none of the new ones is a notice of `k`. */
  ghost predicate OnlyOthersWrote(k: Cleanup, a: seq<Comment>, b: seq<Comment>) {
    a <= b && Foreign(b[|a|..], k)
  }

  lemma OthersWroteOn(k: Cleanup, a: seq<Comment>, b: seq<Comment>, c: seq<Comment>)
    requires OnlyOthersWrote(k, a, b) && OnlyOthersWrote(k, b, c)
    ensures OnlyOthersWrote(k, a, c)
  {
    assert c[|a|..] == b[|a|..] + c[|b|..];
  }

  lemma NobodyWrote(k: Cleanup, a: seq<Comment>)
    ensures OnlyOthersWrote(k, a, a)
  {
    assert a[|a|..] == [];
  }

  lemma PeopleWrote(k: Cleanup, w: World, acts: seq<Timed>)
    requires AllHonest(acts)
    ensures OnlyOthersWrote(k, w.pr.comments, Live(w, acts).pr.comments)
  {
    LiveContinues(w, acts);
  }

  predicate PostsFor(k: Cleanup, step: Option<Step>) {
    step.Some? && step.value.notice.Some? && Owner(step.value.notice.value.mark) == k
  }

  lemma StepWrote(k: Cleanup, w: World, step: Step, r: Replies)
    requires !PostsFor(k, Some(step))
    ensures OnlyOthersWrote(k, w.pr.comments, TakeStep(w, step, r).0.pr.comments)
  {
    NobodyWrote(k, w.pr.comments);
  }

  lemma {:induction false} VisitWrote(k: Cleanup, w: World, plan: seq<Option<Step>>, replies: seq<Replies>, i: nat)
    requires i <= |plan| == |replies| && HonestReplies(replies)
    requires forall j | 0 <= j < |plan| :: !PostsFor(k, plan[j])
    ensures OnlyOthersWrote(k, w.pr.comments, Visit(w, plan, replies, i).0.pr.comments)
    decreases |plan| - i
  {
    NobodyWrote(k, w.pr.comments);
    if i < |plan| {
      var next := i + 1;
      var v := Live(w, replies[i].meanwhile);
      var end := Visit(w, plan, replies, i).0;
      PeopleWrote(k, w, replies[i].meanwhile);
      if plan[i].None? {
        VisitWrote(k, v, plan, replies, next);
        OthersWroteOn(k, w.pr.comments, v.pr.comments, end.pr.comments);
      } else {
        var v' := TakeStep(v, plan[i].value, replies[i]).0;
        StepWrote(k, v, plan[i].value, replies[i]);
        OthersWroteOn(k, w.pr.comments, v.pr.comments, v'.pr.comments);
        VisitWrote(k, v', plan, replies, next);
        NobodyWrote(k, v'.pr.comments);
        OthersWroteOn(k, w.pr.comments, v'.pr.comments, end.pr.comments);
      }
    }
  }

  /** A run that decides nothing under `k` posts nothing of `k`. */
  lemma RunWrote(k: Cleanup, start: World, p: Passage)
    requires HonestPassage(p) && Action(k, SeenBy(start, p), start.clock) == None
    ensures OnlyOthersWrote(k, start.pr.comments, BotRun(start, p).0.pr.comments)
  {
    var plan := PlanOf(start, p);
    PeopleWrote(k, start, p.early);
    PeopleWrote(k, Listed(start, p), p.late);
    OthersWroteOn(k, start.pr.comments, Listed(start, p).pr.comments, Fetched(start, p).pr.comments);
    forall j | 0 <= j < |plan| ensures !PostsFor(k, plan[j]) {
      if plan[j].Some? && plan[j].value.notice.Some? {
        ActionOwns(CLEANUPS[j], SeenBy(start, p), start.clock, plan[j].value);
      }
    }
    VisitWrote(k, Fetched(start, p), plan, p.replies, 0);
    OthersWroteOn(k, start.pr.comments, Fetched(start, p).pr.comments,
                  Visit(Fetched(start, p), plan, p.replies, 0).0.pr.comments);
  }

  // ---------------------------------------------------------------------------
  // A fix holds until staff ask again or it is taken back
  // ---------------------------------------------------------------------------

  /** `c` fixes what staff asked for, as far as the decision looks at it. */
  predicate Fixed(pr: PullRequest, staff: set<Login>, c: Commit) {
    && pr.staff == staff && c in pr.commits && c.parents <= 1 && (c.user == None || c.user == pr.author)
    && var requested := StaffChangeRequestAt(pr.reviews, staff);
    requested.None? || c.at > requested.value
  }

  lemma FixedMeans(pr: PullRequest, c: Commit)
    ensures Fixed(pr, pr.staff, c) <==> Fixes(pr, c)
  {
    OneRequest(pr);
    var requested := StaffChangeRequestAt(pr.reviews, pr.staff);
    if requested.Some? {
      assert RequestedAt(pr, requested.value);
    }
  }

  lemma NoNewRequest(pr: PullRequest, a: Activity, at: Instant, c: Commit)
    requires Respects(a, KeepFix(pr.staff, c))
    ensures var s := StaffChangeRequestAt(Apply(pr, a, at).reviews, pr.staff);
            s.None? || s == StaffChangeRequestAt(pr.reviews, pr.staff)
  {
    if a.Dismisses? && a.index < |pr.reviews| {
      DismissedVerdict(pr.reviews, pr.staff, a.index);
    }
  }

  lemma ActivityKeepsFix(pr: PullRequest, a: Activity, at: Instant, staff: set<Login>, c: Commit)
    requires Fixed(pr, staff, c) && Respects(a, KeepFix(staff, c))
    ensures Fixed(Apply(pr, a, at), staff, c)
  {
    NoNewRequest(pr, a, at, c);
  }

  lemma HappeningKeepsFix(w: World, t: Timed, staff: set<Login>, c: Commit)
    requires Fixed(w.pr, staff, c) && Respects(t.activity, KeepFix(staff, c))
    ensures Fixed(Happen(w, t).pr, staff, c)
  {
    var at := w.clock + t.delay;
    ActivityKeepsFix(w.pr, t.activity, at, staff, c);
    assert Happen(w, t).pr == Apply(w.pr, t.activity, at);
  }

  lemma {:induction false} PeopleKeepFix(w: World, acts: seq<Timed>, staff: set<Login>, c: Commit)
    requires Fixed(w.pr, staff, c) && AllRespect(acts, KeepFix(staff, c))
    ensures Fixed(Live(w, acts).pr, staff, c)
  {
    if acts != [] {
      var n := |acts| - 1;
      PeopleKeepFix(w, acts[..n], staff, c);
      HappeningKeepsFix(Live(w, acts[..n]), acts[n], staff, c);
    }
  }

  lemma SeenKeepsFix(listed: PullRequest, fetched: PullRequest, staff: set<Login>, c: Commit)
    requires Fixed(listed, staff, c) && Fixed(fetched, staff, c)
    ensures Fixed(Seen(listed, fetched), staff, c)
  {
  }

  lemma ReadingKeepsFix(start: World, p: Passage, staff: set<Login>, c: Commit)
    requires Fixed(start.pr, staff, c) && PassageRespects(p, KeepFix(staff, c))
    ensures Fixed(Fetched(start, p).pr, staff, c) && Fixed(SeenBy(start, p), staff, c)
  {
    PeopleKeepFix(start, p.early, staff, c);
    PeopleKeepFix(Listed(start, p), p.late, staff, c);
    SeenKeepsFix(Listed(start, p).pr, Fetched(start, p).pr, staff, c);
  }

  lemma StepKeepsFix(w: World, step: Step, r: Replies, staff: set<Login>, c: Commit)
    requires Fixed(w.pr, staff, c)
    ensures Fixed(TakeStep(w, step, r).0.pr, staff, c)
  {
  }

  lemma {:induction false} VisitKeepsFix(
      w: World, plan: seq<Option<Step>>, replies: seq<Replies>, i: nat, staff: set<Login>, c: Commit)
    requires i <= |plan| == |replies| && Fixed(w.pr, staff, c)
    requires forall j | 0 <= j < |replies| :: AllRespect(replies[j].meanwhile, KeepFix(staff, c))
    ensures Fixed(Visit(w, plan, replies, i).0.pr, staff, c)
    decreases |plan| - i
  {
    if i < |plan| {
      var next := i + 1;
      var v := Live(w, replies[i].meanwhile);
      PeopleKeepFix(w, replies[i].meanwhile, staff, c);
      if plan[i].None? {
        VisitKeepsFix(v, plan, replies, next, staff, c);
      } else {
        StepKeepsFix(v, plan[i].value, replies[i], staff, c);
        VisitKeepsFix(TakeStep(v, plan[i].value, replies[i]).0, plan, replies, next, staff, c);
      }
    }
  }

  lemma RunKeepsFix(start: World, p: Passage, staff: set<Login>, c: Commit)
    requires HonestPassage(p) && Fixed(start.pr, staff, c)
    requires PassageRespects(p, KeepFix(staff, c))
    ensures Fixed(BotRun(start, p).0.pr, staff, c)
    ensures forall now :: Action(Changes, SeenBy(start, p), now) == None
    ensures OnlyOthersWrote(Changes, start.pr.comments, BotRun(start, p).0.pr.comments)
  {
    ReadingKeepsFix(start, p, staff, c);
    VisitKeepsFix(Fetched(start, p), PlanOf(start, p), p.replies, 0, staff, c);
    FixedMeans(SeenBy(start, p), c);
    forall now ensures Action(Changes, SeenBy(start, p), now) == None {
      FixEndsTheMatter(SeenBy(start, p), c, now);
    }
    RunWrote(Changes, start, p);
  }

  lemma MoveKeepsFix(w: World, m: Move, staff: set<Login>, c: Commit)
    requires Honest(m) && Fixed(w.pr, staff, c) && MoveRespects(m, KeepFix(staff, c))
    ensures Fixed(Next(w, m).pr, staff, c) && OnlyOthersWrote(Changes, w.pr.comments, Next(w, m).pr.comments)
  {
    match m
    case Happens(t) =>
      HappenContinues(w, t);
      HappeningKeepsFix(w, t, staff, c);
    case BotRuns(delay, p) =>
      RunKeepsFix(After(w, delay), p, staff, c);
  }

  /**
    Once the author has pushed a fix, no run reminds of that change request or closes for it, in every
    history in which nobody takes the fix back and staff do not ask again.
   */
  lemma {:induction false} FixedIsLeftAlone(w: World, moves: seq<Move>, c: Commit)
    requires HonestMoves(moves) && Fixes(w.pr, c) && HistoryRespects(moves, KeepFix(w.pr.staff, c))
    ensures Fixed(History(w, moves).pr, w.pr.staff, c)
    ensures OnlyOthersWrote(Changes, w.pr.comments, History(w, moves).pr.comments)
  {
    FixedMeans(w.pr, c);
    NobodyWrote(Changes, w.pr.comments);
    if moves != [] {
      var n := |moves| - 1;
      var before := History(w, moves[..n]);
      FixedIsLeftAlone(w, moves[..n], c);
      MoveKeepsFix(before, moves[n], w.pr.staff, c);
      OthersWroteOn(Changes, w.pr.comments, before.pr.comments, History(w, moves).pr.comments);
    }
  }

  /** And the next run does not decide to either, at whatever time. */
  lemma FixedIsNeverClosed(w: World, moves: seq<Move>, c: Commit, delay: nat, p: Passage)
    requires HonestMoves(moves) && HonestPassage(p) && Fixes(w.pr, c)
    requires HistoryRespects(moves, KeepFix(w.pr.staff, c))
    requires PassageRespects(p, KeepFix(w.pr.staff, c))
    ensures forall now :: Action(Changes, SeenBy(After(History(w, moves), delay), p), now) == None
  {
    FixedIsLeftAlone(w, moves, c);
    RunKeepsFix(After(History(w, moves), delay), p, w.pr.staff, c);
  }

  // ---------------------------------------------------------------------------
  // Pull requests that a run passes over
  // ---------------------------------------------------------------------------

  /** One that is closed or labelled "never stale" when listed is only watched: nothing is posted or counted. */
  lemma ExemptTurn(w: World, now: Instant, p: Passage, dryRun: bool)
    requires |p.replies| == |CLEANUPS| && w.clock <= now
    requires var listed := Live(w.(clock := now), p.early); !listed.open || "never stale" in listed.pr.labels
    ensures Turn(w, now, p, dryRun) == (Live(Live(w.(clock := now), p.early), p.late), true)
    ensures StepsFor(w, now, p, dryRun) == multiset{}
  {
  }

  /** Every other one is visited with the decisions of all four rules on the list's summary and the later details. */
  lemma OtherTurn(w: World, now: Instant, p: Passage, dryRun: bool)
    requires |p.replies| == |CLEANUPS| && w.clock <= now
    requires var listed := Live(w.(clock := now), p.early); listed.open && "never stale" !in listed.pr.labels
    ensures var listed := Live(w.(clock := now), p.early);
            var fetched := Live(listed, p.late);
            var seen := fetched.pr.(
              labels := listed.pr.labels, isDraft := listed.pr.isDraft, latestCommitAt := listed.pr.latestCommitAt,
              convertedAt := listed.pr.convertedAt, reviews := listed.pr.reviews);
            var plan := [ClaAction(seen, now), DraftAction(seen, now), ChangesAction(seen, now),
                         SelfReviewAction(seen, now)];
            && Turn(w, now, p, dryRun) == (if dryRun then (Watch(fetched, plan, p.replies, 0), true)
                                           else Visit(fetched, plan, p.replies, 0))
            && StepsFor(w, now, p, dryRun) == (if dryRun then Wanted(plan, 0) else Counted(fetched, plan, p.replies, 0))
  {
    var start := w.(clock := now);
    var seen := SeenBy(start, p);
    assert PlanOf(start, p) ==
           [ClaAction(seen, now), DraftAction(seen, now), ChangesAction(seen, now), SelfReviewAction(seen, now)];
  }

  /** A move as it is without the script: people act at the same times. */
  function WithoutRun(w: World, m: Move): World {
    match m
    case Happens(t) => Happen(w, t)
    case BotRuns(delay, p) => Live(Live(w.(clock := w.clock + delay), p.early), p.late)
  }

  /** What the pull request would come to without any run. */
  function Unvisited(w: World, moves: seq<Move>): World {
    if moves == [] then w else WithoutRun(Unvisited(w, moves[..|moves| - 1]), moves[|moves| - 1])
  }

  lemma {:induction false} LabelStays(w: World, acts: seq<Timed>, name: string)
    requires name in w.pr.labels && AllRespect(acts, KeepLabel(name))
    ensures name in Live(w, acts).pr.labels
  {
    if acts != [] {
      LabelStays(w, acts[..|acts| - 1], name);
    }
  }

  lemma RunPassesOver(start: World, p: Passage)
    requires |p.replies| == |CLEANUPS|
    requires "never stale" in start.pr.labels && PassageRespects(p, KeepLabel("never stale"))
    ensures BotRun(start, p).0 == Live(Live(start, p.early), p.late) && "never stale" in BotRun(start, p).0.pr.labels
  {
    LabelStays(start, p.early, "never stale");
    LabelStays(Listed(start, p), p.late, "never stale");
  }

  lemma MovePassesOver(w: World, m: Move)
    requires Honest(m) && "never stale" in w.pr.labels && MoveRespects(m, KeepLabel("never stale"))
    ensures Next(w, m) == WithoutRun(w, m) && "never stale" in Next(w, m).pr.labels
  {
    match m
    case Happens(t) =>
    case BotRuns(delay, p) => RunPassesOver(After(w, delay), p);
  }

  /** A pull request that keeps the label goes through every history as if there were no script. */
  lemma {:induction false} NeverStaleIsLeftAlone(w: World, moves: seq<Move>)
    requires HonestMoves(moves)
    requires "never stale" in w.pr.labels && HistoryRespects(moves, KeepLabel("never stale"))
    ensures History(w, moves) == Unvisited(w, moves) && "never stale" in History(w, moves).pr.labels
  {
    if moves != [] {
      NeverStaleIsLeftAlone(w, moves[..|moves| - 1]);
      MovePassesOver(History(w, moves[..|moves| - 1]), moves[|moves| - 1]);
    }
  }

  lemma {:induction false} PeopleKeepOpen(w: World, acts: seq<Timed>)
    requires w.open && AllRespect(acts, KeepOpen)
    ensures Live(w, acts).open
  {
    if acts != [] {
      PeopleKeepOpen(w, acts[..|acts| - 1]);
    }
  }

  lemma {:induction false} UnvisitedStaysOpen(w: World, moves: seq<Move>)
    requires HonestMoves(moves) && w.open && HistoryRespects(moves, KeepOpen)
    ensures Unvisited(w, moves).open
  {
    if moves != [] {
      var before := Unvisited(w, moves[..|moves| - 1]);
      UnvisitedStaysOpen(w, moves[..|moves| - 1]);
      match moves[|moves| - 1]
      case Happens(t) =>
      case BotRuns(delay, p) =>
        PeopleKeepOpen(After(before, delay), p.early);
        PeopleKeepOpen(Listed(After(before, delay), p), p.late);
    }
  }

  lemma PeopleMoved(k: Cleanup, w: World, m: Move)
    requires Honest(m)
    ensures OnlyOthersWrote(k, w.pr.comments, WithoutRun(w, m).pr.comments)
  {
    match m
    case Happens(t) => HappenContinues(w, t);
    case BotRuns(delay, p) =>
      var start := After(w, delay);
      PeopleWrote(k, start, p.early);
      PeopleWrote(k, Listed(start, p), p.late);
      OthersWroteOn(k, start.pr.comments, Listed(start, p).pr.comments, Fetched(start, p).pr.comments);
  }

  lemma {:induction false} UnvisitedIsPeoplesOwn(k: Cleanup, w: World, moves: seq<Move>)
    requires HonestMoves(moves)
    ensures OnlyOthersWrote(k, w.pr.comments, Unvisited(w, moves).pr.comments)
  {
    NobodyWrote(k, w.pr.comments);
    if moves != [] {
      var before := Unvisited(w, moves[..|moves| - 1]);
      UnvisitedIsPeoplesOwn(k, w, moves[..|moves| - 1]);
      PeopleMoved(k, before, moves[|moves| - 1]);
      OthersWroteOn(k, w.pr.comments, before.pr.comments, Unvisited(w, moves).pr.comments);
    }
  }

  /** No run writes on it, and it stays open unless people close it. */
  lemma NeverStaleIsPeoplesOwn(k: Cleanup, w: World, moves: seq<Move>)
    requires HonestMoves(moves) && "never stale" in w.pr.labels && HistoryRespects(moves, KeepLabel("never stale"))
    ensures OnlyOthersWrote(k, w.pr.comments, History(w, moves).pr.comments)
    ensures w.open && HistoryRespects(moves, KeepOpen) ==> History(w, moves).open
  {
    NeverStaleIsLeftAlone(w, moves);
    UnvisitedIsPeoplesOwn(k, w, moves);
    if w.open && HistoryRespects(moves, KeepOpen) {
      UnvisitedStaysOpen(w, moves);
    }
  }

  // ---------------------------------------------------------------------------
  // The whole queue
  // ---------------------------------------------------------------------------

  /** None of the turns from `i` to `j` fails. */
  predicate AllPass(queue: seq<World>, now: Instant, ps: seq<Passage>, dryRun: bool, i: nat, j: nat)
    requires Ready(queue, now, ps) && i <= j <= |queue|
  {
    forall h | i <= h < j :: Turn(queue[h], now, ps[h], dryRun).1
  }

  lemma SweptOn(queue: seq<World>, now: Instant, ps: seq<Passage>, dryRun: bool, i: nat, next: nat, j: nat)
    requires Ready(queue, now, ps) && next == i + 1 && i <= j < |queue|
    ensures Swept(queue, now, ps, dryRun, i).0[j] ==
            if j == i then Turn(queue[i], now, ps[i], dryRun).0
            else if Turn(queue[i], now, ps[i], dryRun).1 then Swept(queue, now, ps, dryRun, next).0[j]
            else queue[j]
  {
    var turn := Turn(queue[i], now, ps[i], dryRun);
    if turn.1 {
      var rest := Swept(queue, now, ps, dryRun, next).0;
      assert Swept(queue, now, ps, dryRun, i).0 == rest[i := turn.0];
    } else {
      assert Swept(queue, now, ps, dryRun, i).0 == queue[i := turn.0];
    }
  }

  lemma PassOn(queue: seq<World>, now: Instant, ps: seq<Passage>, dryRun: bool, i: nat, next: nat, j: nat)
    requires Ready(queue, now, ps) && next == i + 1 && i < j <= |queue|
    ensures AllPass(queue, now, ps, dryRun, i, j) <==>
            Turn(queue[i], now, ps[i], dryRun).1 && AllPass(queue, now, ps, dryRun, next, j)
  {
  }

  lemma {:induction false} SweptFrom(queue: seq<World>, now: Instant, ps: seq<Passage>, dryRun: bool, i: nat, j: nat)
    requires Ready(queue, now, ps) && i <= j < |queue|
    ensures Swept(queue, now, ps, dryRun, i).0[j] ==
            if AllPass(queue, now, ps, dryRun, i, j) then Turn(queue[j], now, ps[j], dryRun).0 else queue[j]
    decreases j - i
  {
    var next := i + 1;
    SweptOn(queue, now, ps, dryRun, i, next, j);
    if i < j {
      SweptFrom(queue, now, ps, dryRun, next, j);
      PassOn(queue, now, ps, dryRun, i, next, j);
    }
  }

  lemma SweptDone(queue: seq<World>, now: Instant, ps: seq<Passage>, dryRun: bool, i: nat, next: nat)
    requires Ready(queue, now, ps) && next == i + 1 && i < |queue|
    ensures Swept(queue, now, ps, dryRun, i).1 ==
            (Turn(queue[i], now, ps[i], dryRun).1 && Swept(queue, now, ps, dryRun, next).1)
  {
  }

  lemma {:induction false} SweptCompletes(queue: seq<World>, now: Instant, ps: seq<Passage>, dryRun: bool, i: nat)
    requires Ready(queue, now, ps) && i <= |queue|
    ensures Swept(queue, now, ps, dryRun, i).1 <==> AllPass(queue, now, ps, dryRun, i, |queue|)
    decreases |queue| - i
  {
    if i < |queue| {
      var next := i + 1;
      SweptCompletes(queue, now, ps, dryRun, next);
      SweptDone(queue, now, ps, dryRun, i, next);
      PassOn(queue, now, ps, dryRun, i, next, |queue|);
    }
  }

  /** A run gives every pull request its own turn, in order, up to the first that fails; the rest it does not touch. */
  lemma RunTurnsInOrder(queue: seq<World>, now: Instant, ps: seq<Passage>, dryRun: bool, j: nat)
    requires Ready(queue, now, ps) && j < |queue|
    ensures Swept(queue, now, ps, dryRun, 0).0[j] ==
            if AllPass(queue, now, ps, dryRun, 0, j) then Turn(queue[j], now, ps[j], dryRun).0 else queue[j]
    ensures Swept(queue, now, ps, dryRun, 0).1 <==> AllPass(queue, now, ps, dryRun, 0, |queue|)
  {
    SweptFrom(queue, now, ps, dryRun, 0, j);
    SweptCompletes(queue, now, ps, dryRun, 0);
  }

  /** In a run over the queue an exempt pull request is at most watched. */
  lemma RunLeavesExempt(queue: seq<World>, now: Instant, ps: seq<Passage>, dryRun: bool, j: nat)
    requires Ready(queue, now, ps) && j < |queue|
    requires var listed := Live(queue[j].(clock := now), ps[j].early); !listed.open || "never stale" in listed.pr.labels
    ensures var after := Swept(queue, now, ps, dryRun, 0).0[j];
            after == queue[j] || after == Live(Live(queue[j].(clock := now), ps[j].early), ps[j].late)
    ensures Tally(queue, now, ps, dryRun, j + 1) == Tally(queue, now, ps, dryRun, j)
  {
    RunTurnsInOrder(queue, now, ps, dryRun, j);
    ExemptTurn(queue[j], now, ps[j], dryRun);
  }
}
