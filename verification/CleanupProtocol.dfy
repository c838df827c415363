/**
  Whole histories of one pull request: people act on it, also while the clean-up
  script is at work on it, and every GitHub call may succeed, be refused, or take
  effect while its reply is lost. GitHub dates everything but commits; a commit
  carries whatever date its author's machine gave it.
 */
module CleanupProtocol {
  import opened Wrappers
  import opened CleanupDecisions

  datatype World = World(pr: PullRequest, open: bool, clock: Instant)

  datatype Activity =
    | Says(author: Option<Login>, marks: set<Marker>, bareClaCheck: bool)
    | Pushes(commits: seq<Commit>)
    | MarksReady
    | ConvertsToDraft
    | Reopens
    | Closes
    | AddsLabel(name: string)
    | RemovesLabel(name: string)
    | RequestsReview
    | Reviews(reviewer: Option<Login>, verdict: Option<Verdict>)
    | Dismisses(index: nat)
    | EditsReadme(noticePresent: bool)

  datatype Timed = Timed(delay: nat, activity: Activity)

  /** How a call ends; a lost reply means it took effect but raised an error. */
  datatype Reply = Delivered(delay: nat) | Lost(delay: nat) | Refused

  /** What happens around one clean-up's step: what people do before it, and how its calls end. */
  datatype Replies = Replies(meanwhile: seq<Timed>, post: Reply, close: Reply)

  /** One pull request's part in a run: what people do before the list is fetched and before the details are. */
  datatype Passage = Passage(early: seq<Timed>, late: seq<Timed>, replies: seq<Replies>)

  datatype Move =
    | Happens(timed: Timed)
    | BotRuns(delay: nat, passage: Passage)

  const CLEANUPS: seq<Cleanup> := [Cla, Draft, Changes, SelfReview]

  function IndexOf(k: Cleanup): (j: nat)
    ensures j < |CLEANUPS| && CLEANUPS[j] == k
  {
    match k case Cla => 0 case Draft => 1 case Changes => 2 case SelfReview => 3
  }

  /** Only the script posts its own markers under the bot's account. */
  predicate IsHonest(t: Timed) {
    t.activity.Says? && t.activity.author == Some(COMMUNITY_BOT) ==> t.activity.marks == {}
  }

  predicate AllHonest(acts: seq<Timed>) {
    forall i | 0 <= i < |acts| :: IsHonest(acts[i])
  }

  predicate HonestReplies(replies: seq<Replies>) {
    forall i | 0 <= i < |replies| :: AllHonest(replies[i].meanwhile)
  }

  predicate HonestPassage(p: Passage) {
    |p.replies| == |CLEANUPS| && AllHonest(p.early) && AllHonest(p.late) && HonestReplies(p.replies)
  }

  predicate Honest(m: Move) {
    match m
    case Happens(timed) => IsHonest(timed)
    case BotRuns(_, passage) => HonestPassage(passage)
  }

  /** What an activity at time `at` changes in GitHub's report. */
  function Apply(pr: PullRequest, a: Activity, at: Instant): PullRequest {
    match a
    case Says(author, marks, bare) => pr.(comments := pr.comments + [Comment(at, author, marks, bare, None)])
    case Pushes(commits) =>
      if commits == [] then pr else pr.(commits := commits, latestCommitAt := commits[|commits| - 1].at)
    case MarksReady => pr.(isDraft := false, timeline := pr.timeline + [ReadyForReview(at)])
    case ConvertsToDraft => pr.(isDraft := true, convertedAt := Some(at))
    case Reopens => pr.(timeline := pr.timeline + [Reopened(at)])
    case Closes => pr
    case AddsLabel(name) => pr.(labels := pr.labels + {name}, timeline := pr.timeline + [Labeled(at, name)])
    case RemovesLabel(name) => pr.(labels := pr.labels - {name})
    case RequestsReview => pr.(timeline := pr.timeline + [ReviewRequested(at)])
    case Reviews(who, verdict) =>
      pr.(timeline := pr.timeline + [Reviewed(at, who)],
          reviews := if verdict.Some? then pr.reviews + [Review(at, who, verdict.value)] else pr.reviews)
    case Dismisses(i) =>
      if i < |pr.reviews| then pr.(reviews := pr.reviews[i := pr.reviews[i].(verdict := Dismissed)]) else pr
    case EditsReadme(present) => pr.(noticePresent := present)
  }

  function Happen(w: World, t: Timed): World {
    var at := w.clock + t.delay;
    var open := if t.activity.Reopens? then true else if t.activity.Closes? then false else w.open;
    World(Apply(w.pr, t.activity, at), open, at)
  }

  /** People at work, one activity after the other. */
  function Live(w: World, acts: seq<Timed>): World {
    if acts == [] then w else Happen(Live(w, acts[..|acts| - 1]), acts[|acts| - 1])
  }

  function Post(n: Notice, at: Instant): Comment {
    Comment(at, Some(COMMUNITY_BOT), {n.mark}, n.mark == ClaRetry, n.promise)
  }

  function Posted(pr: PullRequest, n: Notice, at: Instant): PullRequest {
    pr.(comments := pr.comments + [Post(n, at)])
  }

  function AfterPost(w: World, n: Notice, delay: nat): World {
    World(Posted(w.pr, n, w.clock + delay), w.open, w.clock + delay)
  }

  /** `take_step` outside dry-run mode; `ok` is false once a call raised an error. */
  function TakeStep(w: World, step: Step, r: Replies): (result: (World, bool)) {
    var afterPost :=
      if step.notice.None? then (w, true)
      else match r.post
        case Delivered(delay) => (AfterPost(w, step.notice.value, delay), true)
        case Lost(delay) => (AfterPost(w, step.notice.value, delay), false)
        case Refused => (w, false);
    if !afterPost.1 || !step.kind.Close? then afterPost
    else match r.close
      case Delivered(delay) => (afterPost.0.(open := false, clock := afterPost.0.clock + delay), true)
      case Lost(delay) => (afterPost.0.(open := false, clock := afterPost.0.clock + delay), false)
      case Refused => (afterPost.0, false)
  }

  /** The decisions of one visit: the details are fetched once and every clean-up reads the same copy. */
  function Plan(seen: PullRequest, now: Instant): (plan: seq<Option<Step>>)
    ensures |plan| == |CLEANUPS|
  {
    seq(|CLEANUPS|, i requires 0 <= i < |CLEANUPS| => Action(CLEANUPS[i], seen, now))
  }

  /** The clean-ups from index `i` on: a close or an error ends the visit. */
  function Visit(w: World, plan: seq<Option<Step>>, replies: seq<Replies>, i: nat): (result: (World, bool))
    requires i <= |plan| == |replies|
    decreases |plan| - i
  {
    if i == |plan| then (w, true)
    else
      var v := Live(w, replies[i].meanwhile);
      if plan[i].None? then Visit(v, plan, replies, i + 1)
      else
        var next := TakeStep(v, plan[i].value, replies[i]);
        if !next.1 || plan[i].value.kind.Close? then next
        else Visit(next.0, plan, replies, i + 1)
  }

  /** What the decisions read: the summary as listed, and the details as fetched later. */
  function Seen(summary: PullRequest, fetched: PullRequest): PullRequest {
    fetched.(labels := summary.labels, isDraft := summary.isDraft, latestCommitAt := summary.latestCommitAt,
             convertedAt := summary.convertedAt, reviews := summary.reviews)
  }

  function Listed(start: World, p: Passage): World {
    Live(start, p.early)
  }

  function Fetched(start: World, p: Passage): World {
    Live(Listed(start, p), p.late)
  }

  function SeenBy(start: World, p: Passage): PullRequest {
    Seen(Listed(start, p).pr, Fetched(start, p).pr)
  }

  /** The script fixed the time before it listed the open pull requests. */
  function PlanOf(start: World, p: Passage): (plan: seq<Option<Step>>)
    ensures |plan| == |CLEANUPS|
  {
    Plan(SeenBy(start, p), start.clock)
  }

  predicate Skipped(listed: World) {
    !listed.open || NEVER_STALE in listed.pr.labels
  }

  /** One run of the script as this pull request sees it, beginning in `start`. */
  function BotRun(start: World, p: Passage): (result: (World, bool))
    requires |p.replies| == |CLEANUPS|
  {
    if Skipped(Listed(start, p)) then (Fetched(start, p), true)
    else Visit(Fetched(start, p), PlanOf(start, p), p.replies, 0)
  }

  function After(w: World, delay: nat): World {
    w.(clock := w.clock + delay)
  }

  function Next(w: World, m: Move): World
    requires Honest(m)
  {
    match m
    case Happens(timed) => Happen(w, timed)
    case BotRuns(delay, passage) => BotRun(After(w, delay), passage).0
  }

  predicate HonestMoves(moves: seq<Move>) {
    forall i | 0 <= i < |moves| :: Honest(moves[i])
  }

  /** The state after a whole history of moves. */
  function History(w: World, moves: seq<Move>): World
    requires HonestMoves(moves)
  {
    if moves == [] then w else Next(History(w, moves[..|moves| - 1]), moves[|moves| - 1])
  }

  /** A pull request that was just opened. */
  predicate JustOpened(w: World) {
    && w.open
    && w.pr.createdAt == w.clock
    && w.pr.commits != [] && w.pr.latestCommitAt == w.pr.commits[|w.pr.commits| - 1].at
    && w.pr.convertedAt.None?
    && w.pr.reviews == [] && w.pr.comments == [] && w.pr.timeline == []
  }

  // ---------------------------------------------------------------------------
  // The protocol invariant
  // ---------------------------------------------------------------------------

  function PingMark(k: Cleanup): Marker {
    match k case Cla => ClaRetry case Draft => DraftPing case Changes => ChangesPing case SelfReview => ReviewPing
  }

  function CloseMark(k: Cleanup): Marker {
    match k case Cla => ClaClose case Draft => DraftClose case Changes => ChangesClose case SelfReview => ReviewClose
  }

  /** The clean-up whose protocol a marker belongs to. */
  function Owner(m: Marker): Cleanup {
    match m
    case ClaRetry => Cla case ClaClose => Cla
    case DraftPing => Draft case DraftClose => Draft
    case ChangesPing => Changes case ChangesAck => Changes case ChangesClose => Changes
    case ReviewPing => SelfReview case ReviewClose => SelfReview
  }

  /** How long a clean-up waits before its first notice. */
  function PingAfter(k: Cleanup): int {
    match k
    case Cla => CLA_RETRY_AFTER case Draft => DRAFT_PING_AFTER
    case Changes => CHANGES_PING_AFTER case SelfReview => REVIEW_PING_AFTER
  }

  /** How long a notice delays the closing. */
  function CloseAfter(m: Marker): int {
    match m
    case ClaRetry => CLA_CLOSE_AFTER_RETRY
    case DraftPing => DRAFT_CLOSE_AFTER_PING
    case ChangesPing => CHANGES_CLOSE_AFTER_PING
    case ChangesAck => CHANGES_CLOSE_AFTER_ACK
    case ReviewPing => REVIEW_CLOSE_AFTER_PING
    case _ => 0
  }

  predicate IsNoticeMark(m: Marker) {
    m in {ClaRetry, DraftPing, ChangesPing, ChangesAck, ReviewPing}
  }

  predicate IsDated(m: Marker) {
    m in {ChangesPing, ChangesAck, ReviewPing}
  }

  /** A bot comment carrying `m` that counts for a clock started at `since`. */
  predicate Counts(c: Comment, m: Marker, since: Instant) {
    ByBot(c, m) && c.at > since
  }

  /** Whether a notice has run its course at `t`: elapsed time, or the date reached. */
  predicate Expired(c: Comment, m: Marker, t: Instant) {
    if IsDated(m) then Day(t) >= Day(c.at + CloseAfter(m)) else t >= c.at + CloseAfter(m)
  }

  /** A dated notice names a day no later than the one the bot will wait for. */
  predicate PromiseCovered(c: Comment, m: Marker) {
    IsDated(m) ==> c.promise.Some? && c.promise.value <= Day(c.at + CloseAfter(m))
  }

  ghost predicate Single(comments: seq<Comment>, m: Marker, since: Instant) {
    forall i, j | 0 <= i < j < |comments| :: !(Counts(comments[i], m, since) && Counts(comments[j], m, since))
  }

  ghost predicate HasCounting(comments: seq<Comment>, m: Marker, since: Instant) {
    exists c :: c in comments && Counts(c, m, since)
  }

  /** Every notice of `k` that counts has expired at `t`. */
  ghost predicate AllExpired(comments: seq<Comment>, k: Cleanup, since: Instant, t: Instant) {
    forall c, m | c in comments && Counts(c, m, since) && IsNoticeMark(m) && Owner(m) == k :: Expired(c, m, t)
  }

  /** A closing comment comes after every notice has run its course. */
  ghost predicate ClosedLast(k: Cleanup, comments: seq<Comment>, since: Instant) {
    forall c | c in comments && Counts(c, CloseMark(k), since) :: AllExpired(comments, k, since, c.at)
  }

  /** What every history keeps of the comments after a clock start that people cannot set back. */
  ghost predicate Steady(k: Cleanup, comments: seq<Comment>, since: Instant) {
    && Single(comments, PingMark(k), since)
    && Single(comments, CloseMark(k), since)
    && (forall c, m | c in comments && Counts(c, m, since) && Owner(m) == k :: PromiseCovered(c, m))
    && (k != Changes ==> ClosedLast(k, comments, since))
  }

  /** Notices come in time and in order, and a closing comment only after they expired. */
  ghost predicate Orderly(k: Cleanup, comments: seq<Comment>, since: Instant) {
    && (forall c | c in comments && Counts(c, PingMark(k), since) :: c.at >= since + PingAfter(k))
    && (forall a | a in comments && k == Changes && Counts(a, ChangesAck, since) ::
          && HasCounting(comments, ChangesPing, since)
          && forall p | p in comments && Counts(p, ChangesPing, since) :: p.at <= a.at)
    && (forall c | c in comments && Counts(c, CloseMark(k), since) ::
          HasCounting(comments, PingMark(k), since) && AllExpired(comments, k, since, c.at))
  }

  /** What the protocol of `k` guarantees of the comments after a clock start. */
  ghost predicate Protocol(k: Cleanup, comments: seq<Comment>, since: Instant) {
    Steady(k, comments, since) && Orderly(k, comments, since)
  }

  /** No comment of `k` counts for a clock started at `since`. */
  ghost predicate Renewed(k: Cleanup, comments: seq<Comment>, since: Instant) {
    forall c, m | c in comments && ByBot(c, m) && Owner(m) == k :: c.at <= since
  }

  /** Nothing that GitHub dates is dated after the clock; commits may be. */
  ghost predicate Bounded(w: World) {
    Dated(w.pr, w.clock)
  }

  ghost predicate Dated(pr: PullRequest, at: Instant) {
    && pr.createdAt <= at && (pr.convertedAt.Some? ==> pr.convertedAt.value <= at)
    && (forall v | v in pr.reviews :: v.at <= at)
    && (forall c | c in pr.comments :: c.at <= at)
    && (forall e | e in pr.timeline :: e.at <= at)
  }

  ghost predicate Follows(k: Cleanup, pr: PullRequest) {
    Since(k, pr).Some? ==> Protocol(k, pr.comments, Since(k, pr).value)
  }

  ghost predicate StaysSteady(k: Cleanup, pr: PullRequest) {
    Since(k, pr).Some? ==> Steady(k, pr.comments, Since(k, pr).value)
  }

  // ---------------------------------------------------------------------------
  // Histories in which a clean-up keeps its word
  // ---------------------------------------------------------------------------

  /** A push that does not set the draft's clock back behind one of its notices. */
  ghost predicate Timely(k: Cleanup, w: World, t: Timed) {
    k == Draft && t.activity.Pushes? ==>
      var since := Since(Draft, Happen(w, t).pr);
      since == Since(Draft, w.pr) || Renewed(Draft, w.pr.comments, since.value)
  }

  ghost predicate AllTimely(k: Cleanup, w: World, acts: seq<Timed>) {
    forall i | 0 <= i < |acts| :: Timely(k, Live(w, acts[..i]), acts[i])
  }

  /** The clock is still the one the decision was made on, or it no longer runs. */
  predicate SameClock(k: Cleanup, pr: PullRequest, seen: PullRequest) {
    Since(k, pr).None? || Since(k, pr) == Since(k, seen)
  }

  /**
    In this visit every push is timely, and, if it is to be calm, the comment of `k` falls
    under the clock it was decided on.
   */
  ghost predicate PacedVisit(
      k: Cleanup, w: World, seen: PullRequest, plan: seq<Option<Step>>, replies: seq<Replies>, i: nat, calm: bool)
    requires i <= |plan| == |replies| == |CLEANUPS|
    decreases |plan| - i
  {
    i < |plan| ==>
      var v := Live(w, replies[i].meanwhile);
      && AllTimely(k, w, replies[i].meanwhile)
      && (calm && CLEANUPS[i] == k && plan[i].Some? && plan[i].value.notice.Some? ==> SameClock(k, v.pr, seen))
      && if plan[i].None? then PacedVisit(k, v, seen, plan, replies, i + 1, calm)
         else
           var next := TakeStep(v, plan[i].value, replies[i]);
           next.1 && !plan[i].value.kind.Close? ==> PacedVisit(k, next.0, seen, plan, replies, i + 1, calm)
  }

  ghost predicate PacedRun(k: Cleanup, start: World, p: Passage, calm: bool)
    requires |p.replies| == |CLEANUPS|
  {
    && AllTimely(k, start, p.early)
    && AllTimely(k, Listed(start, p), p.late)
    && (!Skipped(Listed(start, p)) ==>
          PacedVisit(k, Fetched(start, p), SeenBy(start, p), PlanOf(start, p), p.replies, 0, calm))
  }

  ghost predicate PacedMove(k: Cleanup, w: World, m: Move, calm: bool)
    requires Honest(m)
  {
    match m
    case Happens(timed) => Timely(k, w, timed)
    case BotRuns(delay, passage) => PacedRun(k, After(w, delay), passage, calm)
  }

  ghost predicate Paced(k: Cleanup, w: World, moves: seq<Move>, calm: bool)
    requires HonestMoves(moves)
  {
    moves == [] ||
    (Paced(k, w, moves[..|moves| - 1], calm) &&
     PacedMove(k, History(w, moves[..|moves| - 1]), moves[|moves| - 1], calm))
  }

  /**
    No run is overtaken by a move of the clock of `k` between its decision and its
    comment, and, for drafts, no push sets the clock back behind a notice.
   */
  ghost predicate Calm(k: Cleanup, w: World, moves: seq<Move>)
    requires HonestMoves(moves)
  {
    Paced(k, w, moves, true)
  }

  /** No push sets a draft's clock back behind a notice; a run may be overtaken. */
  ghost predicate TimelyPushes(w: World, moves: seq<Move>)
    requires HonestMoves(moves)
  {
    Paced(Draft, w, moves, false)
  }
}
