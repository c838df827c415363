# Verified models from the Zed repository

This project models the parts of Zed where behaviour is spread over many calls,
many runs, or a printer and a parser in different places, and proves what holds
of them for every input and every run.

- **Pull-request clean-up** (`CleanupDecisions`, `CleanupProtocol`,
  `CleanupClocks`, `CleanupGrounds`, `CleanupTheorems`, `CleanupExactness`,
  `CleanupPromises`, `CleanupFailures`, `CleanupLiveness`, `CleanupRules`,
  `CleanupRun`, `CleanupExemptions`, `CleanupVisits`). Four
  timed decisions read a history of comments, commits, reviews and timeline
  events, and the script extends that history itself. A history is any sequence of what people do and of script
  runs; people also act during a run, between the list, the details and each
  comment; commits carry whatever date their author's machine gave them; every
  GitHub call may succeed, be refused, or take effect while its reply is lost.
  The promises to authors (a notice in time, no missed date, the whole waiting
  time) are proved for every calm history; for every other history, and for every
  pull request, the exact condition under which they hold is proved, with the
  inputs on which each of them fails.
- **Session submissions and foreground activity** (`Submissions`,
  `SubmissionTheorems`, `SenderFates`, `SubmissionLives`, `SubmissionTable`,
  `Activity`, `ActivityTheorems`). The state machines are functions on values, the classes
  refine them method by method, and the theorems range over every sequence of
  operations. A one-shot sender is a token whose fate (held, fired or completed,
  dropped) is recorded.
- **Mention URIs and paths** (`Mention`, `MentionRoundTrip`, `MentionForms`,
  `PathEscapes`, `WindowsPaths`). A URL is its path, its decoded query list and
  its fragment.
- **Excerpt ranges and patch association** (`ExcerptRanges`,
  `PatchAssociation`). The first is characterised completely by a predicate that
  only one list satisfies; the second does not depend on hash-map order.
- **Terminal output** (`TerminalOutput`, `TerminalStories`), **skill names and
  front matter** (`SkillNames`, `FrontMatter`), **candidate selection**
  (`CandidateSelection`), the **duplicate-magnet text** (`Magnets`, `MagnetBody`,
  `MagnetParser`, `MagnetEntries`, `MagnetRoundTrip`) and the **content adapters**
  (`ContentSchemas`, `ContentAdapters`).
- `Text`, `Utf8` and `Wrappers` hold string operations, UTF-8 boundaries
  (section 3 of RFC 3629) and result types shared by the others.

Code that changes state step by step is a class or a method with loops, proved
equal to a function on values; the theorems are about that function. What each
such function decides or keeps is also told without it, in terms of its inputs
alone: `CleanupRules.DecidesExactlyWhen`, `CleanupVisits.VisitWritesExactly`,
`SubmissionLives.EveryRecordHasItsLife`, `ActivityTheorems.WaitAnswers`,
`PatchAssociation.AssociatesExactlyWhen`, `TerminalStories.EveryFieldHasItsStory`,
`MentionForms.ParsesExactlyWhen`, `MagnetEntries.ParserGathers`.

Laws that hold only under a condition, stated exactly:

- After every history, calm or not, each later close of the clean-up script is
  due if and only if the last first notice was in time; for a change request the
  days named by the last ping and the last acknowledgement must also fit together,
  which is needed if both were posted on the day they were written and suffices
  always (`CleanupPromises.HistoryStaysDue`; the same of what a run reads,
  `CleanupPromises.RunStaysDue`). Only a draft's pushes must be timely: no push
  dates its clock back behind a notice. Over all pull requests, whatever their
  comments: `CleanupPromises.DueExactlyWhen`.
- A promised day is missed if and only if it is later than the first moment of
  closing (`CleanupPromises.DatesExactlyWhen`). That never happens to the
  self-review rule (`CleanupPromises.HistoryKeepsReviewDates`); it does happen to
  the changes-requested rule, exactly when the times of the last ping and the last
  acknowledgement say so (`CleanupPromises.ChangesDatesExactlyWhen`).
- The waiting time alone holds if and only if the last notice did not come too
  early after the clock start (`CleanupExactness.NoticedExactlyWhen`), or, once
  the closing is announced, if and only if the announcement itself was not early
  (`CleanupExactness.AnnouncedExactlyWhen`).
- Each promise fails on a proved input of `CleanupFailures`: the waiting time
  (`PushDuringRunBreaksTheWord`, `BackdatedCommitClosesEarly`), the notice
  (`LateClosingCommentSkipsNotice`), the promised day
  (`LateAcknowledgementBreaksTheDate`), and the single closing comment
  (`UntimelyPushClosesTwice`). None of these histories is calm: a history is calm
  if no clock moves between a decision and its comment and pushes are timely.
- What one script prints and the other parses loses nothing if and only if every
  area name is non-empty, trimmed and one line (`MagnetRoundTrip.PrintAndParse`).
- A mention reads back if and only if its line and column numbers are below the
  largest 32-bit number (`MentionRoundTrip.MentionRoundTrip`).
- Every retrieval channel gets its reserved candidates if and only if the limit
  is at least 6 (`CandidateSelection.QuotasHonouredExactlyFromSix`).
- A receipt and a disconnect commute if and only if the receipt does not arrive
  already echoed (`SubmissionTheorems.ReceiptRacesDisconnect`).
- Truncated output keeps every whole line that fits if and only if the last
  boundary that fits is not a line break, or no other line break lies below it
  (`TerminalOutput.WholeLinesKeptExactlyWhen`).

## Model

| member | source | states |
|---|---|---|
| `CleanupDecisions.LatestReopen` | script/github-pr-cleanup.py:254-261 | the clock start is the later of the given start and every reopen, and is one of them |
| `CleanupDecisions.BotCommentedAt` | script/github-pr-cleanup.py:264-273 | the latest bot comment with the marker strictly after the clock start; absent exactly when there is none |
| `CleanupDecisions.AuthorReviewedAt` | script/github-pr-cleanup.py:286-295 | the author's latest review after the given time, absent exactly when there is none |
| `CleanupDecisions.AuthorWroteAt` | script/github-pr-cleanup.py:276-285 | the author's latest comment after the given time other than a bare CLA check, absent exactly when there is none |
| `CleanupDecisions.LatestAnswer` | script/github-pr-cleanup.py:276-295 | the author's latest answer of either kind after the given time, absent exactly when there is none |
| `CleanupDecisions.LatestStaffVerdict` | script/github-pr-cleanup.py:386-400 | the clock of a change request is that of the last staff review, and only if it requests changes |
| `CleanupDecisions.LabeledAt` | script/github-pr-cleanup.py:468-478 | the latest time the label was added, absent exactly when it never was |
| `CleanupDecisions.LatestReady` | script/github-pr-cleanup.py:479-482 | the later of the given start and every ready-for-review event, and one of them |
| `CleanupRules.ClockStartsAt` | script/github-pr-cleanup.py:254-261 | a clock starts at the last of the moments it counts from: creation or the latest commit and drafting, the standing request, the label or readiness, and every reopening |
| `CleanupRules.OpensWhenApplies` | script/github-pr-cleanup.py:298-420 | the opening conditions in terms of labels, commits, reviews and events alone; a push is a commit of at most one parent, by the author or by nobody known, dated after the request |
| `CleanupRules.DecidesExactlyWhen` | script/github-pr-cleanup.py:332-508 | the decision table: each of the four rules takes a step, with its notice and named day, if and only if what was said and done calls for it |
| `CleanupClocks.ClockStartsNowOrStays` | script/github-pr-cleanup.py:254-261 | whatever people do, with commits of any date, a clock start stays, disappears, or becomes the present moment, except that a push may set a draft's elsewhere |
| `CleanupClocks.MixedClock` | script/github-pr-cleanup.py:146-169 | a clock read partly from the list and partly from the details fetched later is one that the pull request had, or starts after the list |
| `CleanupGrounds.ActionDecided` | script/github-pr-cleanup.py:332-507 | every comment a decision asks for is its clean-up's own, is not already there, names the right day, and follows the clock start |
| `CleanupGrounds.ActionGrounds` | script/github-pr-cleanup.py:332-507 | first notices come only after the waiting time, closing comments only after a notice and once every notice expired |
| `CleanupGrounds.SilentStepRepeatsClose` | script/github-pr-cleanup.py:344-345 | a step without a comment is a close that was already announced under the same clock |
| `CleanupGrounds.PostKeepsProtocol` | script/github-pr-cleanup.py:519-533 | posting what a decision asks for, however late, keeps the protocol of that clean-up under the same clock |
| `CleanupGrounds.PostKeepsSteady` | script/github-pr-cleanup.py:519-533 | posting it under a clock that started since still keeps single comments and good promises |
| `CleanupTheorems.VisitKeeps` | script/github-pr-cleanup.py:548-557 | a visit keeps the invariant of each clean-up while people act between its steps, wherever a call fails |
| `CleanupTheorems.MoveKeeps` | script/github-pr-cleanup.py:536-557 | every move by people or by the script keeps it |
| `CleanupTheorems.HistoryKeeps` | script/github-pr-cleanup.py:536-557 | the whole invariant after every calm history; its calm-free part after every history, for drafts if pushes are timely, also where clocks move during runs |
| `CleanupTheorems.EveryCloseIsDue` | script/github-pr-cleanup.py:332-507 | after every calm history a decision to close follows a notice under the same clock start, respects every promised date, and comes after 8 days (CLA), 28 days (draft), or on the promised day counted from the clock start |
| `CleanupTheorems.RunClosesOnlyWhatIsDue` | script/github-pr-cleanup.py:536-557 | the same of a decision made on what a run reads while people act |
| `CleanupTheorems.OneClosingCommentPerClock` | script/github-pr-cleanup.py:344-355 | at most one closing comment and one first notice per clock start, and every dated notice names a day no later than the one its own delay leads to; in every history, a draft's pushes being timely |
| `CleanupTheorems.BotClosesOnlyWhenDue` | script/github-pr-cleanup.py:519-557 | a pull request that a run, and nobody else, closes was due under one of the four rules |
| `CleanupTheorems.AnnouncedCloseIsRetried` | script/github-pr-cleanup.py:422-423 | once the closing comment is posted, the close is repeated without a comment exactly while the rule's opening conditions hold |
| `CleanupTheorems.AnnouncementLasts` | script/github-pr-cleanup.py:264-273 | an announcement holds through any further history with the same clock start |
| `CleanupTheorems.RetryCompletesTheClose` | script/github-pr-cleanup.py:519-533 | a close that failed is completed by the first run whose calls get through, after any history with the same clock start while the rule applies |
| `CleanupExactness.ClosesFromThen` | script/github-pr-cleanup.py:332-507 | exactly when each rule closes a pull request that has its notice |
| `CleanupPromises.ClosesFrom` | script/github-pr-cleanup.py:332-507 | for every pull request, announced or not, the one moment from which on each rule closes it, and before which it does not |
| `CleanupExactness.NoticedExactlyWhen` | script/github-pr-cleanup.py:332-507 | for every noticed pull request, no closing decision comes before the whole waiting time if and only if the last notice was on time or the time has passed anyway |
| `CleanupExactness.AnnouncedExactlyWhen` | script/github-pr-cleanup.py:332-507 | for every announced closing, the same if and only if the announcement was not early |
| `CleanupExactness.CalmIsOnTime` | script/github-pr-cleanup.py:332-507 | after every calm history every notice was on time |
| `CleanupExactness.QuietIsCalm` | script/github-pr-cleanup.py:536-557 | a history without activity during runs and without backdated commits is calm for all four rules |
| `CleanupPromises.DatesExactlyWhen` | script/github-pr-cleanup.py:326-329 | for every pull request, no closing decision comes before a promised day if and only if every promised day that counts has come at the first moment of closing |
| `CleanupPromises.DueExactlyWhen` | script/github-pr-cleanup.py:332-507 | for every pull request, every close to come follows a notice given in time, misses no promised day and respects the waiting time if and only if the last first notice was in time and the first moment of closing is not too early for the other two |
| `CleanupPromises.ChangesDatesExactlyWhen` | script/github-pr-cleanup.py:437-455 | with notices posted the day they were written, the changes-requested rule keeps its dates if and only if the last ping came at most 7 days after the last acknowledgement, or its day has come anyway; once announced, if both named days have come |
| `CleanupPromises.HistoryStaysDue` | script/github-pr-cleanup.py:332-507 | after every history every close to come is due if, and apart from unpunctual dated notices only if, the last first notice was in time and a change request's dates fit together; only drafts need timely pushes |
| `CleanupPromises.RunStaysDue` | script/github-pr-cleanup.py:536-557 | the same of what a run reads while people go on working |
| `CleanupPromises.BotClosesWhatIsChecked` | script/github-pr-cleanup.py:519-557 | after any history a pull request that a run, and nobody else, closes was decided on by a rule, and was due by it exactly when that check held |
| `CleanupPromises.HistoryKeepsReviewDates` | script/github-pr-cleanup.py:494-507 | after every history the self-review rule closes before no day it promised, announced or not |
| `CleanupPromises.RunKeepsReviewDates` | script/github-pr-cleanup.py:494-507 | nor in a run that reads while people go on working |
| `CleanupFailures.PushDuringRunBreaksTheWord` | script/github-pr-cleanup.py:358-383 | every push between the decision to ping a draft and its ping, dated honestly, lets the draft be closed too early |
| `CleanupFailures.BackdatedCommitClosesEarly` | script/github-pr-cleanup.py:358-383 | a commit dated before the ping and pushed after it lets a draft be closed after 21 days |
| `CleanupFailures.LateClosingCommentSkipsNotice` | script/github-pr-cleanup.py:344-345 | under every rule, a reopening between the decision to close and the closing comment lets the pull request be closed without a notice under its new clock |
| `CleanupFailures.UntimelyPushClosesTwice` | script/github-pr-cleanup.py:358-383 | with two failed close calls and a push that takes a commit back, two closing comments count for one clock start |
| `CleanupFailures.ClosedTwiceIsDecided` | script/github-pr-cleanup.py:358-383 | the second notice and the second closing comment of that draft are what the rule decides |
| `CleanupFailures.LateAcknowledgementBreaksTheDate` | script/github-pr-cleanup.py:437-455 | an acknowledgement posted after a second change request wins over the later ping, and the pull request is closed on day 31 where the ping promises day 37 |
| `CleanupFailures.ActivitiesBetween` | script/github-pr-cleanup.py:403-456 | the states of that history follow from each other by one activity or one comment each |
| `CleanupFailures.AcknowledgementIsDecided` | script/github-pr-cleanup.py:450-454 | the acknowledgement is what the rule decides before the second request |
| `CleanupFailures.SecondPingIsDecided` | script/github-pr-cleanup.py:429-436 | the ping that promises day 37 is what the rule decides after it |
| `CleanupLiveness.AbandonedIsNoticed` | script/github-pr-cleanup.py:332-507 | after the waiting time every rule closes an abandoned pull request, gives it its first notice, or already has; an answer to a change request is acknowledged |
| `CleanupLiveness.NoticedIsClosed` | script/github-pr-cleanup.py:332-507 | once its notices are old enough and the last one unanswered, every rule closes a pull request, also one acknowledged before |
| `CleanupLiveness.ScriptAnswersForNobody` | script/github-pr-cleanup.py:276-295 | the script's own comments neither move a clock start nor count as an answer of the author |
| `CleanupLiveness.VisitPosts` | script/github-pr-cleanup.py:548-557 | when all calls succeed, every planned comment is posted unless an earlier step closes |
| `CleanupLiveness.AbandonedIsClosed` | script/github-pr-cleanup.py:536-557 | two runs whose calls succeed close a pull request that the first finds abandoned and the second, under the same clock, with old unanswered notices, whatever else happens between and during them |
| `CleanupLiveness.LeftAloneIsClosed` | script/github-pr-cleanup.py:536-557 | left alone, an abandoned pull request is closed by the second of two runs spaced by the notice's time, the first acknowledging an answer if need be; not where an acknowledgement older than the author's answer precedes the first notice |
| `CleanupLiveness.LeftAloneIsClosedInThree` | script/github-pr-cleanup.py:536-557 | there the third run closes it |
| `CleanupLiveness.CalmIsInTurn` | script/github-pr-cleanup.py:437-455 | no calm history leaves such an acknowledgement |
| `CleanupLiveness.EveryAbandonedIsClosed` | script/github-pr-cleanup.py:536-557 | the same from the end of any history: three runs suffice, and two unless such an acknowledgement is left |
| `CleanupExemptions.FixEndsTheMatter` | script/github-pr-cleanup.py:298-314 | a commit of the author's own after the standing request ends every changes-requested decision, at every time |
| `CleanupExemptions.OtherPushesChangeNothing` | script/github-pr-cleanup.py:298-314 | pushing or dropping only merges, commits by others and commits no later than the request changes no such decision |
| `CleanupExemptions.FixedIsLeftAlone` | script/github-pr-cleanup.py:403-420 | after such a commit no run posts a changes-requested notice, in every history in which nobody takes it back and staff do not ask again |
| `CleanupExemptions.FixedIsNeverClosed` | script/github-pr-cleanup.py:403-420 | nor does any run after such a history decide to close by that rule |
| `CleanupExemptions.ExemptTurn` | script/github-pr-cleanup.py:536-541 | a pull request closed or labelled never stale when listed is only watched in a run, dry or not, and nothing is counted for it |
| `CleanupExemptions.OtherTurn` | script/github-pr-cleanup.py:536-557 | every other one is visited with the four decisions on the list's summary and the details fetched later, at the time the run began |
| `CleanupExemptions.NeverStaleIsLeftAlone` | script/github-pr-cleanup.py:537-541 | a pull request that keeps the label goes through every history as if there were no script |
| `CleanupExemptions.NeverStaleIsPeoplesOwn` | script/github-pr-cleanup.py:537-541 | no rule writes on it, and it stays open unless people close it |
| `CleanupExemptions.RunTurnsInOrder` | script/github-pr-cleanup.py:546-557 | over the queue each pull request has its own turn up to the first that fails, the rest are untouched, and a run completes exactly when none fails |
| `CleanupExemptions.RunLeavesExempt` | script/github-pr-cleanup.py:536-557 | over the queue exempt pull requests are at most watched and add nothing to the counter |
| `CleanupVisits.CountedExactly` | script/github-pr-cleanup.py:548-557 | a step is counted exactly when no earlier step closes or fails and its own calls succeed, and then once |
| `CleanupVisits.WantedExactly` | script/github-pr-cleanup.py:519-557 | a dry run counts every step that no earlier step closes before |
| `CleanupVisits.VisitWritesExactly` | script/github-pr-cleanup.py:519-557 | a visit posts a rule's notice once, as decided, exactly when it comes to it and the call takes effect, and nothing else of that rule |
| `CleanupVisits.VisitClosesExactly` | script/github-pr-cleanup.py:519-557 | where people leave that alone, a visit closes exactly when it comes to a close whose comment did not fail and whose call takes effect |
| `CleanupVisits.ReadsInTwoSteps` | script/github-pr-cleanup.py:146-169 | label removals and draft conversions after the list is fetched go unseen; comments, reopenings and review requests are seen until the details are fetched |
| `CleanupRun.DryRunPredictsSteps` | script/github-pr-cleanup.py:519-533 | for one pull request a dry run counts exactly the steps of a run whose calls all succeed |
| `CleanupRun.DryRunPredictsRun` | script/github-pr-cleanup.py:536-562 | the same over the whole queue |
| `CleanupRun.DryRunOnlyWatches` | script/github-pr-cleanup.py:519-525 | whatever changes during a dry run, people changed |
| `CleanupRun.Repository.FollowPlan` | script/github-pr-cleanup.py:548-557 | the loop over the clean-ups stops at a close or an error and counts the steps taken |
| `CleanupRun.Repository.VisitOne` | script/github-pr-cleanup.py:537-541 | pull requests closed or exempt when listed are passed over |
| `CleanupRun.Repository.Run` | script/github-pr-cleanup.py:536-562 | the queue and the counter after a run, dry or not; an error ends it |
| `SubmissionTheorems.EveryRunIsValid` | crates/acp_thread/src/submission.rs:228-348 | in every run each record is the latest, unsettled, or recoverable under a receipt transport, and a set latest id is the last id given out and in the table |
| `SubmissionTheorems.RemovedExactlyWhen` | crates/acp_thread/src/submission.rs:324-348 | an operation removes a record exactly under the stated condition on the operation and the record |
| `SubmissionTheorems.UnsettledIsNeverLost` | crates/acp_thread/src/submission.rs:341-348 | an unsettled record disappears only through the operation that settles or echoes it |
| `SubmissionTheorems.IdsAreNeverReused` | crates/acp_thread/src/submission.rs:228-243 | an id that left the table never comes back |
| `SubmissionTheorems.DisconnectedIsAbsorbing` | crates/acp_thread/src/submission.rs:257-282 | until forgotten, a disconnected record stays so through every run, with the evidence it had or else the first acceptance that arrived |
| `SubmissionTheorems.DisconnectSettlesEverything` | crates/acp_thread/src/submission.rs:284-307 | afterwards nothing is unsettled, the returned ids are exactly the unsettled ones in order, and a second call does nothing |
| `SubmissionTheorems.ReceiptRacesDisconnect` | crates/acp_thread/src/submission.rs:262-273 | a receipt before or after a disconnect leaves the same table exactly when it was not already echoed |
| `SubmissionTheorems.SendersAreConserved` | crates/acp_thread/src/submission.rs:245-307 | in every run the held, fired and dropped senders together are those handed in |
| `SubmissionTheorems.SenderFiresAtMostOnce` | crates/acp_thread/src/submission.rs:297-303 | a sender handed in once is held, fired or dropped once in all |
| `SenderFates.SenderFate` | crates/acp_thread/src/submission.rs:245-348 | in every run a held sender fires at the first disconnect that finds its record unsettled, is dropped if its record is settled, tracked again or removed before, and else stays held |
| `SenderFates.FiredExactlyWhen` | crates/acp_thread/src/submission.rs:284-307 | a sender handed in once has fired in the end exactly when that is its fate |
| `SubmissionLives.EveryRecordHasItsLife` | crates/acp_thread/src/submission.rs:228-348 | in every run each record, its content, state, task, sender and place as the latest, is what its own story makes it, told from the operations without the table |
| `SubmissionLives.ReportsExactly` | crates/acp_thread/src/submission.rs:257-339 | what settle, disconnect, observe_echo and forget report, by the record's state |
| `SubmissionLives.TrackedSenderFires` | crates/acp_thread/src/submission.rs:245-307 | a sender tracked for a waiting record has fired after the next disconnect, whatever happens between that does not settle, echo or track the record |
| `SubmissionTable.SessionSubmissions.constructor` | crates/acp_thread/src/submission.rs:184-191 | a new table |
| `SubmissionTable.SessionSubmissions.Register` | crates/acp_thread/src/submission.rs:228-243 | refines the step on values and returns a fresh id |
| `SubmissionTable.SessionSubmissions.Track` | crates/acp_thread/src/submission.rs:245-255 | refines the step on values |
| `SubmissionTable.SessionSubmissions.Settle` | crates/acp_thread/src/submission.rs:257-282 | refines the step on values and reports whether the record changed |
| `SubmissionTable.SessionSubmissions.Disconnect` | crates/acp_thread/src/submission.rs:284-307 | refines the step on values and returns the changed ids |
| `SubmissionTable.SessionSubmissions.SeverRecords` | crates/acp_thread/src/submission.rs:289-306 | the loop changes every unsettled record and fires its sender, in id order |
| `SubmissionTable.SessionSubmissions.ObserveEcho` | crates/acp_thread/src/submission.rs:309-322 | refines the step on values and returns the changed ids |
| `SubmissionTable.SessionSubmissions.EchoRecords` | crates/acp_thread/src/submission.rs:310-319 | the loop marks exactly the accepted records with that message id |
| `SubmissionTable.SessionSubmissions.Forget` | crates/acp_thread/src/submission.rs:324-339 | refines the step on values; unsettled records are refused |
| `SubmissionTable.SessionSubmissions.PruneRecords` | crates/acp_thread/src/submission.rs:341-348 | keeps exactly the retained records |
| `ActivityTheorems.EveryRunIsValid` | crates/acp_thread/src/submission.rs:401-495 | in every run an active phase is in progress, an idle one is not, and neither idle nor closed leaves a waiter pending |
| `ActivityTheorems.WaitersAreConserved` | crates/acp_thread/src/submission.rs:457-495 | in every run each waiter handed out is exactly one of pending, completed or dropped |
| `ActivityTheorems.WaiterFate` | crates/acp_thread/src/submission.rs:452-485 | a pending waiter's fate is decided by the first idle report, finished close (completed) or closed observation (dropped) |
| `ActivityTheorems.WaitAnswers` | crates/acp_thread/src/submission.rs:487-495 | after every run a wait is refused exactly once the session is over, answered at once exactly when the last word was idle, and otherwise given a waiter never used before |
| `ActivityTheorems.AnsweredInOrder` | crates/acp_thread/src/submission.rs:457-463 | waiters are answered in the order in which they asked |
| `ActivityTheorems.PhaseIsLastWord` | crates/acp_thread/src/submission.rs:405-413 | the phase is the one that the last report or unconfirmed mark names |
| `ActivityTheorems.DurationIsOfLatestWork` | crates/acp_thread/src/submission.rs:439-451 | the duration is that of the latest work interval, from its first active report to the idle one that ended it, and absent while it is open |
| `ActivityTheorems.GenerationCountsIntervals` | crates/acp_thread/src/submission.rs:439-451 | the generation is the number of work intervals, and start time and entry index are those of the latest |
| `ActivityTheorems.SilenceChangesNoWork` | crates/acp_thread/src/submission.rs:401-455 | deleting an unknown report or an unconfirmed mark anywhere in a run leaves the bookkeeping of work unchanged |
| `Activity.SessionActivity.constructor` | crates/acp_thread/src/submission.rs:381-394 | a new session is idle |
| `Activity.SessionActivity.UpdateState` | crates/acp_thread/src/submission.rs:439-455 | refines the step on values |
| `Activity.SessionActivity.CompleteCancelWaiters` | crates/acp_thread/src/submission.rs:457-463 | the loop drains the list, sending to each waiter in order |
| `Activity.SessionActivity.MarkUnconfirmed` | crates/acp_thread/src/submission.rs:401-403 | refines the step on values |
| `Activity.SessionActivity.Wait` | crates/acp_thread/src/submission.rs:487-495 | an error once closed, nothing when idle, otherwise a new waiter |
| `Activity.SessionActivity.Finish` | crates/acp_thread/src/submission.rs:465-468 | refines the step on values |
| `Activity.SessionActivity.Close` | crates/acp_thread/src/submission.rs:482-485 | refines the step on values |
| `ExcerptRanges.ExcerptRanges` | crates/acp_thread/src/diff.rs:655-673 | the sorted list merged by two nested loops is the merged form |
| `ExcerptRanges.GrowRange` | crates/acp_thread/src/diff.rs:660-671 | the inner loop yields the first merged range and where the rest begins |
| `ExcerptRanges.SortSorts` | crates/acp_thread/src/diff.rs:655-655 | the key sort orders by start, then by descending end |
| `ExcerptRanges.OrderIsByRowThenColumn` | crates/acp_thread/src/diff.rs:655-655 | points are ordered by row, then column, and ranges by start, then by falling end |
| `ExcerptRanges.ExcerptsAreMergedForm` | crates/acp_thread/src/diff.rs:655-672 | the result is sorted and strictly separated, contains every input, has only input endpoints, and covers nothing more |
| `ExcerptRanges.MergedFormIsUnique` | crates/acp_thread/src/diff.rs:655-672 | only one list has those properties |
| `ExcerptRanges.ExcerptsIgnoreOrder` | crates/acp_thread/src/diff.rs:637-673 | the result depends only on the set of input ranges |
| `ExcerptRanges.ExcerptsAreIdempotent` | crates/acp_thread/src/diff.rs:637-673 | merging again changes nothing |
| `ExcerptRanges.InputLiesInOneExcerpt` | crates/acp_thread/src/diff.rs:637-673 | every input range lies inside exactly one merged range |
| `PatchAssociation.ResolveInOrder` | crates/acp_thread/src/diff.rs:146-167 | for every iteration order of the hash map the lookup gives the same result |
| `PatchAssociation.ResolveExactly` | crates/acp_thread/src/diff.rs:117-167 | a lookup gives a change exactly when that change is the unique exact match, or, failing any, the unique match by suffix on both sides |
| `PatchAssociation.AmbiguousExactlyWhen` | crates/acp_thread/src/diff.rs:150-162 | the lookup is ambiguous exactly when relative paths that no change reports may mean two different pairs |
| `PatchAssociation.Parse` | crates/acp_thread/src/diff.rs:113-191 | success, failure and result are the same for every iteration order |
| `PatchAssociation.AssociationsAreUnique` | crates/acp_thread/src/diff.rs:126-191 | on success files map to distinct changes in range that stand for them, are text, and agree with the hunks |
| `PatchAssociation.AssociatesExactlyWhen` | crates/acp_thread/src/diff.rs:113-191 | a list is the result exactly when it maps the files one to one to text changes that uniquely stand for them, under those changes' own sides, and no absent side has lines |
| `PatchAssociation.SoleChangeIsFound` | crates/acp_thread/src/diff.rs:274-289 | a patch with the sides of a sole addition, deletion, modification, move or copy is associated with it |
| `PathEscapes.DecodePathEscapes` | crates/acp_thread/src/mention.rs:947-985 | the loop gives an owned text exactly when decoding changes the bytes and the outcome is valid UTF-8 |
| `PathEscapes.OwnedExactlyWhenDecoded` | crates/acp_thread/src/mention.rs:963-984 | decoding changes the bytes exactly when some escape of a non-separator occurs |
| `PathEscapes.EscapeExactly` | crates/acp_thread/src/mention.rs:963-977 | an escape is read as the byte its two hexadecimal digits spell (section 2.1 of RFC 3986), unless that is a separator |
| `PathEscapes.DecodeKeepsStructure` | crates/acp_thread/src/mention.rs:963-977 | decoding commutes with splitting at separators |
| `PathEscapes.DecodeKeepsSeparators` | crates/acp_thread/src/mention.rs:963-977 | the sequence of separators is unchanged |
| `PathEscapes.DecodeInvertsEncoding` | crates/acp_thread/src/mention.rs:963-977 | decoding inverts exactly the encodings (section 2.1 of RFC 3986) in which every percent sign begins an escape |
| `WindowsPaths.NativeIsNormalForm` | crates/acp_thread/src/mention.rs:991-1041 | no change exactly for native paths, and every result is native, so a second pass changes nothing |
| `WindowsPaths.SpellingsAgree` | crates/acp_thread/src/mention.rs:991-1041 | the URL, Git Bash and native spellings of a path become the same path |
| `WindowsPaths.NormalizesExactly` | crates/acp_thread/src/mention.rs:991-1041 | every character keeps its place, slashes turned and a drive letter in upper case, except that a drive in front is written anew; a bare drive in front counts in lower case only |
| `Mention.ParseSkill` | crates/acp_thread/src/mention.rs:331-371 | the loop over the query gives the skill or the first error |
| `MentionRoundTrip.MentionRoundTrip` | crates/acp_thread/src/mention.rs:631-818 | each of the twelve query-carried mentions reads back from its URI exactly when its numbers can be shifted |
| `MentionRoundTrip.UrisAreDistinct` | crates/acp_thread/src/mention.rs:631-818 | different query-carried mentions have different URIs, including those that do not read back |
| `MentionRoundTrip.OneBasedReadsBack` | crates/acp_thread/src/mention.rs:838-863 | a shifted number reads back exactly below the 32-bit maximum |
| `MentionRoundTrip.LineRangeReadsBack` | crates/acp_thread/src/mention.rs:838-863 | a printed line range reads back exactly when neither end is the maximum |
| `MentionRoundTrip.LineRangeSpellings` | crates/acp_thread/src/mention.rs:838-863 | the dashed and single-line spellings mean the expected ranges |
| `MentionRoundTrip.SkillParamsExactlyWhen` | crates/acp_thread/src/mention.rs:331-371 | the loop accepts exactly queries of known keys without repetition, and keeps every value |
| `MentionRoundTrip.SkillIgnoresOrder` | crates/acp_thread/src/mention.rs:331-371 | the order of parameters matters neither for acceptance nor for the skill |
| `MentionForms.ParsesExactlyWhen` | crates/acp_thread/src/mention.rs:189-371 | the grammar: a URL is parsed to a mention if and only if it names it, for all eighteen forms with their defaults, first values and tolerated numbers |
| `MentionForms.LineRangeExactly` | crates/acp_thread/src/mention.rs:838-863 | exactly which fragments are line ranges, and which ends they give |
| `TerminalOutput.TruncateOutput` | crates/acp_thread/src/terminal.rs:841-860 | the loop cuts at the specified place and reports the original length |
| `TerminalOutput.TruncationIsWellFormed` | crates/acp_thread/src/terminal.rs:841-860 | a prefix within the limit on a character boundary: up to the last line break below the last boundary that fits, or to that boundary if there is no such break |
| `TerminalOutput.WholeLinesKeptExactlyWhen` | crates/acp_thread/src/terminal.rs:847-857 | no whole line that fits is dropped, except one whose line break stands exactly at the last boundary that fits |
| `TerminalOutput.TruncationGrows` | crates/acp_thread/src/terminal.rs:841-860 | a larger limit only lengthens the kept text |
| `TerminalOutput.CacheStaysFresh` | crates/acp_thread/src/terminal.rs:667-839 | in every run of display operations a cached output is the truncation of the current content under the current limit |
| `TerminalOutput.RefreshKeepsEnding` | crates/acp_thread/src/terminal.rs:676-682 | in every run the end time stays and the status is the last one reported, unless a patch clears the output |
| `TerminalOutput.ProcessTerminalUntouched` | crates/acp_thread/src/terminal.rs:667-670 | display operations leave a process-backed terminal alone |
| `TerminalStories.EveryFieldHasItsStory` | crates/acp_thread/src/terminal.rs:667-821 | after every run the text, lines, command, directory, limit, flags and recorded ending are what the operations make each of them, told without the terminal |
| `TerminalStories.PatchRefusedExactlyWhen` | crates/acp_thread/src/terminal.rs:752-775 | a patch is refused exactly on a process's own terminal or if the emulator refuses its output, and then changes nothing |
| `TerminalOutput.DisplayTerminal.constructor` | crates/acp_thread/src/terminal.rs:576-609 | a new display terminal has no output |
| `TerminalOutput.DisplayTerminal.Cache` | crates/acp_thread/src/terminal.rs:823-839 | refines the step on values and makes the cache fresh |
| `TerminalOutput.DisplayTerminal.RefreshOutput` | crates/acp_thread/src/terminal.rs:676-682 | refreshes an existing cache |
| `TerminalOutput.DisplayTerminal.WriteOutput` | crates/acp_thread/src/terminal.rs:667-674 | refines the step on values and keeps the cache fresh |
| `TerminalOutput.DisplayTerminal.UpdateCommandLabel` | crates/acp_thread/src/terminal.rs:866-878 | a caption never replaces a reported command |
| `TerminalOutput.DisplayTerminal.InitializeLegacyDisplay` | crates/acp_thread/src/terminal.rs:714-734 | takes effect once and keeps the cache fresh under a new limit |
| `TerminalOutput.DisplayTerminal.Finish` | crates/acp_thread/src/terminal.rs:684-698 | caches the output at the first exit only |
| `TerminalOutput.DisplayTerminal.Apply` | crates/acp_thread/src/terminal.rs:752-821 | refines the step on values and keeps the cache fresh |
| `SkillNames.SlugifySkillName` | crates/agent_skills/agent_skills.rs:530-570 | the one-pass loop computes the slug |
| `SkillNames.SlugIsValid` | crates/agent_skills/agent_skills.rs:530-607 | a slug exists exactly for inputs with an ASCII letter or digit or an ampersand; it passes validation and has no double hyphen |
| `SkillNames.SlugFixedPoints` | crates/agent_skills/agent_skills.rs:530-607 | the fixed points are exactly the valid names without a double hyphen |
| `SkillNames.SlugIsIdempotent` | crates/agent_skills/agent_skills.rs:530-570 | slugifying a slug changes nothing |
| `SkillNames.SlugGrows` | crates/agent_skills/agent_skills.rs:530-555 | what each character adds to a slug: letters and digits in lower case, one dash for spaces and hyphens, and for an ampersand, the rest nothing |
| `SkillNames.SlugIsLongest` | crates/agent_skills/agent_skills.rs:556-570 | the slug is the longest part of at most 64 characters that does not end in a dash |
| `SkillNames.ValidExactlyWhen` | crates/agent_skills/agent_skills.rs:588-612 | a name is valid exactly when it is 1 to 64 lower-case letters, digits and inner hyphens |
| `FrontMatter.FindCandidates` | crates/agent_skills/agent_skills.rs:443-470 | the scan computes the specified candidates |
| `FrontMatter.CandidatesAreClosers` | crates/agent_skills/agent_skills.rs:443-470 | the candidates are exactly the ends of later `---` lines, ascending, on character boundaries |
| `FrontMatter.ExtractFrontMatter` | crates/agent_skills/agent_skills.rs:427-497 | the loop takes the first candidate whose prefix deserializes |
| `FrontMatter.ExtractSplits` | crates/agent_skills/agent_skills.rs:481-492 | prefix and body concatenate to the trimmed content, split at a closing line whose prefix is the metadata |
| `FrontMatter.ExtractsExactlyWhen` | crates/agent_skills/agent_skills.rs:427-497 | extraction succeeds exactly for files that begin with a delimiter and have a closing line whose prefix deserializes, and takes the first of those |
| `FrontMatter.SpacesExactly` | crates/agent_skills/agent_skills.rs:428-428 | trimming removes exactly the characters with the White_Space property, whole |
| `FrontMatter.PlainSubcommand` | crates/agent_skills/agent_skills.rs:800-812 | a file without front matter is all body, and one beyond the size limit is refused |
| `FrontMatter.RenderedBodyReadsBack` | crates/agent_skills/agent_skills.rs:800-883 | the body of a rendered file reads back trimmed, for every body, exactly within the size limit |
| `CandidateSelection.SelectSearchCandidates` | script/github-check-new-issue-for-duplicates.py:568-593 | the loops compute the specified selection |
| `CandidateSelection.SelectionIsFull` | script/github-check-new-issue-for-duplicates.py:568-593 | no key twice, only candidates, and as many as the limit and the distinct keys allow |
| `CandidateSelection.QuotasFit` | script/github-check-new-issue-for-duplicates.py:572-578 | the quotas sum to at most the limit exactly from 6 on |
| `CandidateSelection.QuotasHonoured` | script/github-check-new-issue-for-duplicates.py:580-588 | from a limit of 6 on, each channel's top candidates are all selected |
| `CandidateSelection.QuotasBreakBelowSix` | script/github-check-new-issue-for-duplicates.py:572-578 | for every smaller limit one fixed list of candidates leaves a channel short |
| `CandidateSelection.QuotasHonouredExactlyFromSix` | script/github-check-new-issue-for-duplicates.py:568-593 | every list is served exactly when the limit is at least 6 |
| `CandidateSelection.TopIsFirst` | script/github-check-new-issue-for-duplicates.py:585-588 | a channel's share is exactly the first candidates that it matched |
| `CandidateSelection.FillsFromTheFront` | script/github-check-new-issue-for-duplicates.py:590-593 | beyond the shares nothing on the list is passed over for something later |
| `CandidateSelection.SelectsFromTheList` | script/github-check-new-issue-for-duplicates.py:580-593 | what is selected was on the list as it is |
| `Magnets.BuildBody` | script/github-find-top-duplicated-bugs.py:148-178 | the loops over dictionaries print the specified lines |
| `Magnets.CollectAreas` | script/github-find-top-duplicated-bugs.py:154-159 | the dictionaries hold each area's issues and total, areas in order of first appearance |
| `MagnetBody.BodyIsRanked` | script/github-find-top-duplicated-bugs.py:148-178 | the text is the introduction and one section per area, by falling total of duplicates, each with all its issues by falling count |
| `Text.SortIsStable` | script/github-find-top-duplicated-bugs.py:167-168 | equal keys keep their order |
| `MagnetParser.ParseMagnets` | script/github-check-new-issue-for-duplicates.py:426-477 | the line loop gathers the magnets and returns them by descending count |
| `MagnetEntries.ParserGathers` | script/github-check-new-issue-for-duplicates.py:439-474 | for any text each issue is gathered once, where it first appears, with its first count and the named areas of its entries in order |
| `MagnetEntries.EntriesExactly` | script/github-check-new-issue-for-duplicates.py:455-460 | a line is parsed exactly when an integer begins the part after the first bracket and another, without parentheses at its end, the part after the issue mark, as those two |
| `MagnetEntries.NumeralsRead` | script/github-check-new-issue-for-duplicates.py:455-460 | numbers are digits with single underscores between them, read as the number the digits spell |
| `MagnetRoundTrip.EntryReadsBack` | script/github-check-new-issue-for-duplicates.py:455-460 | a printed entry line reads back as its count and number |
| `MagnetRoundTrip.BodyReflects` | script/github-find-top-duplicated-bugs.py:148-178 | parsing the printed body gathers exactly the printed pairs of area and issue if and only if every area is non-empty, trimmed and one line |
| `MagnetRoundTrip.PrintAndParse` | script/github-check-new-issue-for-duplicates.py:426-477 | printing and parsing recovers every issue's number, count and areas (the unlabeled marker becoming none), nothing else, sorted by count, if and only if every area is non-empty, trimmed and one line |
| `MagnetRoundTrip.UnnamedAreaIsLost` | script/github-check-new-issue-for-duplicates.py:446-453 | wherever it stands, a section with an empty name is read as no section, and its entries are skipped |
| `ContentAdapters.ConvertibleExactlyWhen` | crates/acp_thread/src/content.rs:147-176 | the predicate holds exactly when the conversion succeeds |
| `ContentAdapters.UpgradableExactlyWhen` | crates/acp_thread/src/content.rs:23-77 | a first-version block converts exactly when it has no unknown variant |
| `ContentAdapters.PromptConvertibleExactlyWhen` | crates/acp_thread/src/content.rs:4-21 | a prompt passes validation exactly when all of it converts, block by block, keeping its envelope |
| `ContentAdapters.UpgradeThenDowngrade` | crates/acp_thread/src/content.rs:23-145 | a first-version block comes back unchanged except that a negative size is forgotten |
| `ContentAdapters.DowngradeThenUpgrade` | crates/acp_thread/src/content.rs:80-145 | a second-version block loses only an empty icon list and a size above the signed maximum |
| `ContentAdapters.DowngradeIsProjection` | crates/acp_thread/src/content.rs:80-145 | a second trip through the first version changes nothing more |

## Left out

- Clean-up: the 100-item and 50-item fetch windows and the lower-casing of labels are not modelled; a body is the set of markers it contains and the day it promises, not its wording; nobody else posts the script's markers from its account, and runs do not overlap.
- Clean-up: GitHub's own dates never run backwards, since every delay is a natural number; staff membership does not change.
- CleanupTheorems.RetryCompletesTheClose: speaks of one pull request, so an error on an earlier pull request that ends the run is outside it; `CleanupRun.Repository.Run` states where such a run stops.
- Activity and Submissions: ids and generations are unbounded, so 64-bit overflow is not modelled; a sender whose receiver is gone counts as fired.
- ExcerptRanges.ExcerptsAreMergedForm: assumes that each range starts no later than it ends, as hunks and revealed ranges do.
- PatchAssociation.Parse: patch text parsing and the format check are inputs, every file type other than text is one, and path components and roots are given data.
- Mention: bare paths, `file:` and web addresses, the printing of path-carried mentions, and the `url` library's escaping are not modelled; the one-based shift wraps at the maximum as in a release build.
- FrontMatter.RenderedBodyReadsBack: the YAML library is a parameter, assumed to emit whole lines without a bare delimiter that parse back.
- TerminalOutput: the emulator is a parameter that gives the screen after each write; process-backed terminals, sandbox policies and patch metadata are not modelled; appending raw bytes is the same step as writing, and shrinking the screen changes only its line count.
- Magnets: `extract_duplicate_info` is left out as easy; issue links have the form GitHub gives them, and digits are ASCII.
- ContentAdapters: metadata is carried along unread; the other schema adapters only copy fields.
- GPUI entities, rendering, notifications, network calls, and the remaining scripts are not part of this model.
