/**
  The four timed decisions of script/github-pr-cleanup.py over what GitHub
  reports about one pull request. Instants are seconds in UTC, label names are
  already lower-cased, and a comment carries the set of markers its body
  contains and the closing day its text promises.
 */
module CleanupDecisions {
  import opened Wrappers

  type Instant = int
  type Login = string

  const DAY: int := 86400
  const CLA_RETRY_AFTER: int := 7 * DAY
  const CLA_CLOSE_AFTER_RETRY: int := 1 * DAY
  const DRAFT_PING_AFTER: int := 21 * DAY
  const DRAFT_CLOSE_AFTER_PING: int := 7 * DAY
  const CHANGES_PING_AFTER: int := 14 * DAY
  const CHANGES_CLOSE_AFTER_PING: int := 7 * DAY
  const CHANGES_CLOSE_AFTER_ACK: int := 14 * DAY
  const REVIEW_PING_AFTER: int := 1 * DAY
  const REVIEW_CLOSE_AFTER_PING: int := 3 * DAY

  const COMMUNITY_BOT: Login := "zed-community-bot"
  const CLA_SIGNED: string := "cla-signed"
  const NEVER_STALE: string := "never stale"
  const NO_SELF_REVIEW: string := "no self-review"
  const NON_COMMUNITY: set<string> := {"staff", "bot"}

  datatype Marker =
    | ClaRetry | ClaClose
    | DraftPing | DraftClose
    | ChangesPing | ChangesAck | ChangesClose
    | ReviewPing | ReviewClose

  datatype Comment = Comment(
    at: Instant, author: Option<Login>, marks: set<Marker>, bareClaCheck: bool, promise: Option<int>)

  datatype Commit = Commit(at: Instant, user: Option<Login>, parents: nat)

  datatype Verdict = Approved | ChangesRequested | Dismissed

  datatype Review = Review(at: Instant, author: Option<Login>, verdict: Verdict)

  datatype Event =
    | Labeled(at: Instant, name: string)
    | Reopened(at: Instant)
    | ReadyForReview(at: Instant)
    | ReviewRequested(at: Instant)
    | Reviewed(at: Instant, author: Option<Login>)

  datatype PullRequest = PullRequest(
    createdAt: Instant,
    author: Option<Login>,
    staff: set<Login>,
    labels: set<string>,
    isDraft: bool,
    latestCommitAt: Instant,
    convertedAt: Option<Instant>,
    reviews: seq<Review>,
    comments: seq<Comment>,
    commits: seq<Commit>,
    timeline: seq<Event>,
    noticePresent: bool)

  datatype Cleanup = Cla | Draft | Changes | SelfReview

  datatype Kind = Retry | Ping | Acknowledge | Close

  /** A comment to post: its marker and the closing day it names, if any. */
  datatype Notice = Notice(mark: Marker, promise: Option<int>)

  datatype Step = Step(kind: Kind, notice: Option<Notice>)

  function Max(a: int, b: int): int {
    if a >= b then a else b
  }

  /** The calendar day of an instant, as `datetime.date()` gives it in UTC. */
  function Day(t: Instant): int {
    t / DAY
  }

  predicate IsCommunity(labels: set<string>) {
    NON_COMMUNITY !! labels
  }

  predicate ByBot(c: Comment, m: Marker) {
    c.author == Some(COMMUNITY_BOT) && m in c.marks
  }

  predicate ByAuthor(c: Comment, author: Option<Login>) {
    c.author == author && !c.bareClaCheck
  }

  function LatestReopen(events: seq<Event>, start: Instant): (r: Instant)
    ensures r >= start
    ensures forall e | e in events && e.Reopened? :: e.at <= r
    ensures r == start || Reopened(r) in events
  {
    if events == [] then start
    else
      var r := LatestReopen(events[..|events| - 1], start);
      var e := events[|events| - 1];
      if e.Reopened? then Max(r, e.at) else r
  }

  /** When a clean-up's clock started: `startedAt`, or a later reopen. */
  function ClockStart(pr: PullRequest, startedAt: Instant): Instant {
    LatestReopen(pr.timeline, startedAt)
  }

  function Later(a: Option<Instant>, t: Instant, since: Instant): (r: Option<Instant>) {
    if t <= since then a
    else if a.None? then Some(t)
    else Some(Max(a.value, t))
  }

  /** When the bot last posted a comment carrying `m` after `since`. */
  function BotCommentedAt(comments: seq<Comment>, m: Marker, since: Instant): (r: Option<Instant>)
    ensures r.None? <==> forall c | c in comments && ByBot(c, m) :: c.at <= since
    ensures r.Some? ==> r.value > since
    ensures r.Some? ==> exists c :: c in comments && ByBot(c, m) && c.at == r.value
    ensures r.Some? ==> forall c | c in comments && ByBot(c, m) :: c.at <= r.value
  {
    if comments == [] then None
    else
      var c := comments[|comments| - 1];
      var r := BotCommentedAt(comments[..|comments| - 1], m, since);
      if ByBot(c, m) then Later(r, c.at, since) else r
  }

  function AuthorReviewedAt(events: seq<Event>, author: Option<Login>, since: Instant): (r: Option<Instant>)
    ensures r.Some? ==> r.value > since
    ensures r.None? <==> forall e | e in events && e.Reviewed? && e.author == author :: e.at <= since
    ensures r.Some? ==> Reviewed(r.value, author) in events
    ensures r.Some? ==> forall e | e in events && e.Reviewed? && e.author == author :: e.at <= r.value
  {
    if events == [] then None
    else
      var e := events[|events| - 1];
      var r := AuthorReviewedAt(events[..|events| - 1], author, since);
      if e.Reviewed? && e.author == author then Later(r, e.at, since) else r
  }

  function AuthorWroteAt(comments: seq<Comment>, author: Option<Login>, since: Instant): (r: Option<Instant>)
    ensures r.Some? ==> r.value > since
    ensures r.None? <==> forall c | c in comments && ByAuthor(c, author) :: c.at <= since
    ensures r.Some? ==> exists c :: c in comments && ByAuthor(c, author) && c.at == r.value
    ensures r.Some? ==> forall c | c in comments && ByAuthor(c, author) :: c.at <= r.value
  {
    if comments == [] then None
    else
      var c := comments[|comments| - 1];
      var r := AuthorWroteAt(comments[..|comments| - 1], author, since);
      if ByAuthor(c, author) then Later(r, c.at, since) else r
  }

  /** When the author last commented or answered a review after `since`. */
  function AuthorCommentedAt(pr: PullRequest, since: Instant): (r: Option<Instant>)
    ensures r.Some? ==> r.value > since
  {
    var wrote := AuthorWroteAt(pr.comments, pr.author, since);
    var reviewed := AuthorReviewedAt(pr.timeline, pr.author, since);
    if reviewed.None? then wrote else Later(wrote, reviewed.value, since)
  }

  /** An answer by the author at `t`, in a comment or in a review. */
  ghost predicate Answers(pr: PullRequest, t: Instant) {
    || (exists c :: c in pr.comments && ByAuthor(c, pr.author) && c.at == t)
    || Reviewed(t, pr.author) in pr.timeline
  }

  /** It is the latest answer after `since`, and absent exactly when there is none. */
  lemma LatestAnswer(pr: PullRequest, since: Instant)
    ensures var r := AuthorCommentedAt(pr, since);
            && (r.Some? ==> Answers(pr, r.value))
            && forall t | Answers(pr, t) && t > since :: r.Some? && t <= r.value
  {
    var r := AuthorCommentedAt(pr, since);
    forall t | Answers(pr, t) && t > since ensures r.Some? && t <= r.value {
      var wrote := AuthorWroteAt(pr.comments, pr.author, since);
      var reviewed := AuthorReviewedAt(pr.timeline, pr.author, since);
      if c :| c in pr.comments && ByAuthor(c, pr.author) && c.at == t {
        assert wrote.Some? && t <= wrote.value;
      } else {
        assert reviewed.Some? && t <= reviewed.value;
      }
    }
  }

  predicate AuthorPushedSince(pr: PullRequest, t: Instant) {
    exists c | c in pr.commits :: c.parents <= 1 && (c.user.None? || c.user == pr.author) && c.at > t
  }

  /** The clock a staff change request starts, while it is the latest staff verdict. */
  function StaffChangeRequestAt(reviews: seq<Review>, staff: set<Login>): (r: Option<Instant>)
    ensures r.Some? ==> exists v :: v in reviews && v.verdict.ChangesRequested? && v.at == r.value
  {
    if reviews == [] then None
    else
      var v := reviews[|reviews| - 1];
      if ByStaff(v, staff) then
        if v.verdict.ChangesRequested? then Some(v.at) else None
      else StaffChangeRequestAt(reviews[..|reviews| - 1], staff)
  }

  predicate ByStaff(v: Review, staff: set<Login>) {
    v.author.Some? && v.author.value in staff
  }

  /** Review `i` is the last one by staff, and it requested changes at `t`. */
  ghost predicate StandsAt(reviews: seq<Review>, staff: set<Login>, i: nat, t: Instant) {
    && i < |reviews|
    && ByStaff(reviews[i], staff) && reviews[i].verdict.ChangesRequested? && reviews[i].at == t
    && forall j | i < j < |reviews| :: !ByStaff(reviews[j], staff)
  }

  /** The last staff verdict decides alone. */
  lemma {:induction false} LatestStaffVerdict(reviews: seq<Review>, staff: set<Login>, t: Instant)
    ensures StaffChangeRequestAt(reviews, staff) == Some(t) <==> exists i: nat :: StandsAt(reviews, staff, i, t)
  {
    if reviews != [] {
      var last := |reviews| - 1;
      var before := reviews[..last];
      if ByStaff(reviews[last], staff) {
        assert forall i: nat | StandsAt(reviews, staff, i, t) :: i == last;
        assert StaffChangeRequestAt(reviews, staff) == Some(t) <==> StandsAt(reviews, staff, last, t);
      } else {
        LatestStaffVerdict(before, staff, t);
        forall i: nat ensures StandsAt(reviews, staff, i, t) <==> StandsAt(before, staff, i, t) {
          assert i < last ==> before[i] == reviews[i];
          assert forall j | i < j < last :: before[j] == reviews[j];
        }
      }
    }
  }

  predicate ReviewRequestedSince(pr: PullRequest, t: Instant) {
    exists e | e in pr.timeline :: e.ReviewRequested? && e.at > t
  }

  function DraftActiveAt(pr: PullRequest): Instant {
    Max(if pr.convertedAt.Some? then pr.convertedAt.value else pr.createdAt, pr.latestCommitAt)
  }

  function LabeledAt(events: seq<Event>): (r: Option<Instant>)
    ensures r.None? <==> forall e | e in events :: !(e.Labeled? && e.name == NO_SELF_REVIEW)
    ensures r.Some? ==> Labeled(r.value, NO_SELF_REVIEW) in events
    ensures r.Some? ==> forall e | e in events && e.Labeled? && e.name == NO_SELF_REVIEW :: e.at <= r.value
  {
    if events == [] then None
    else
      var e := events[|events| - 1];
      var r := LabeledAt(events[..|events| - 1]);
      if e.Labeled? && e.name == NO_SELF_REVIEW then
        Some(if r.None? then e.at else Max(r.value, e.at))
      else r
  }

  function LatestReady(events: seq<Event>, start: Instant): (r: Instant)
    ensures r >= start
    ensures forall e | e in events && e.ReadyForReview? :: e.at <= r
    ensures r == start || ReadyForReview(r) in events
  {
    if events == [] then start
    else
      var r := LatestReady(events[..|events| - 1], start);
      var e := events[|events| - 1];
      if e.ReadyForReview? then Max(r, e.at) else r
  }

  function SelfReviewStartedAt(pr: PullRequest): Instant {
    var labeled := LabeledAt(pr.timeline);
    LatestReady(pr.timeline, if labeled.Some? then labeled.value else pr.createdAt)
  }

  /** The current clock start of a clean-up; absent without a standing change request. */
  function Since(k: Cleanup, pr: PullRequest): Option<Instant> {
    match k
    case Cla => Some(ClockStart(pr, pr.createdAt))
    case Draft => Some(ClockStart(pr, DraftActiveAt(pr)))
    case Changes =>
      var requested := StaffChangeRequestAt(pr.reviews, pr.staff);
      if requested.None? then None else Some(ClockStart(pr, requested.value))
    case SelfReview => Some(ClockStart(pr, SelfReviewStartedAt(pr)))
  }

  /** The day `with_closing_date` writes into a notice composed at `now`. */
  function ClosingDay(closesAfter: int, now: Instant): int {
    Day(now + closesAfter)
  }

  predicate ClosingDateReached(noticeAt: Instant, closesAfter: int, now: Instant) {
    Day(now) >= Day(noticeAt + closesAfter)
  }

  function ClaAction(pr: PullRequest, now: Instant): Option<Step> {
    if !IsCommunity(pr.labels) || CLA_SIGNED in pr.labels || now - pr.createdAt < CLA_RETRY_AFTER then None
    else
      var since := ClockStart(pr, pr.createdAt);
      if BotCommentedAt(pr.comments, ClaClose, since).Some? then Some(Step(Close, None))
      else if now - since < CLA_RETRY_AFTER then None
      else if AuthorCommentedAt(pr, since).Some? then None
      else
        var retried := BotCommentedAt(pr.comments, ClaRetry, since);
        if retried.None? then Some(Step(Retry, Some(Notice(ClaRetry, None))))
        else if now - retried.value >= CLA_CLOSE_AFTER_RETRY then Some(Step(Close, Some(Notice(ClaClose, None))))
        else None
  }

  function DraftAction(pr: PullRequest, now: Instant): Option<Step> {
    if !pr.isDraft then None
    else
      var active := DraftActiveAt(pr);
      if now - active < DRAFT_PING_AFTER then None
      else
        var since := ClockStart(pr, active);
        if BotCommentedAt(pr.comments, DraftClose, since).Some? then Some(Step(Close, None))
        else if now - since < DRAFT_PING_AFTER then None
        else
          var pinged := BotCommentedAt(pr.comments, DraftPing, since);
          if pinged.None? then Some(Step(Ping, Some(Notice(DraftPing, None))))
          else if now - pinged.value >= DRAFT_CLOSE_AFTER_PING then Some(Step(Close, Some(Notice(DraftClose, None))))
          else None
  }

  function ChangesAction(pr: PullRequest, now: Instant): Option<Step> {
    if pr.isDraft || !IsCommunity(pr.labels) then None
    else
      var requested := StaffChangeRequestAt(pr.reviews, pr.staff);
      if requested.None? || now - requested.value < CHANGES_PING_AFTER then None
      else if ReviewRequestedSince(pr, requested.value) || AuthorPushedSince(pr, requested.value) then None
      else
        var since := ClockStart(pr, requested.value);
        if BotCommentedAt(pr.comments, ChangesClose, since).Some? then Some(Step(Close, None))
        else
          var commented := AuthorCommentedAt(pr, since);
          var pinged := BotCommentedAt(pr.comments, ChangesPing, since);
          if pinged.None? then
            if now - (if commented.Some? then commented.value else since) < CHANGES_PING_AFTER then None
            else Some(Step(Ping, Some(Notice(ChangesPing, Some(ClosingDay(CHANGES_CLOSE_AFTER_PING, now))))))
          else
            var acknowledged := BotCommentedAt(pr.comments, ChangesAck, since);
            var noticeAt := if acknowledged.Some? then acknowledged.value else pinged.value;
            var closesAfter := if acknowledged.Some? then CHANGES_CLOSE_AFTER_ACK else CHANGES_CLOSE_AFTER_PING;
            if commented.Some? && commented.value > noticeAt then
              Some(Step(Acknowledge, Some(Notice(ChangesAck, Some(ClosingDay(CHANGES_CLOSE_AFTER_ACK, now))))))
            else if ClosingDateReached(noticeAt, closesAfter, now) then
              Some(Step(Close, Some(Notice(ChangesClose, None))))
            else None
  }

  function SelfReviewAction(pr: PullRequest, now: Instant): Option<Step> {
    if pr.isDraft || NO_SELF_REVIEW !in pr.labels || !IsCommunity(pr.labels) then None
    else
      var since := ClockStart(pr, SelfReviewStartedAt(pr));
      if BotCommentedAt(pr.comments, ReviewClose, since).Some? then Some(Step(Close, None))
      else
        var pinged := BotCommentedAt(pr.comments, ReviewPing, since);
        if pinged.None? then
          if pr.noticePresent && now - since >= REVIEW_PING_AFTER then
            Some(Step(Ping, Some(Notice(ReviewPing, Some(ClosingDay(REVIEW_CLOSE_AFTER_PING, now))))))
          else None
        else if !ClosingDateReached(pinged.value, REVIEW_CLOSE_AFTER_PING, now) then None
        else if pr.noticePresent || AuthorCommentedAt(pr, pinged.value).None? then
          Some(Step(Close, Some(Notice(ReviewClose, None))))
        else None
  }

  function Action(k: Cleanup, pr: PullRequest, now: Instant): Option<Step> {
    match k
    case Cla => ClaAction(pr, now)
    case Draft => DraftAction(pr, now)
    case Changes => ChangesAction(pr, now)
    case SelfReview => SelfReviewAction(pr, now)
  }
}
