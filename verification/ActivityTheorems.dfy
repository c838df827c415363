/** What holds of foreground activity over every run. */
module ActivityTheorems {
  import opened Wrappers
  import opened Activity

  lemma {:induction false} EveryRunIsValid(ops: seq<Op>)
    ensures Consistent(Run(START, ops))
  {
    if ops != [] {
      EveryRunIsValid(ops[..|ops| - 1]);
    }
  }

  // ---------------------------------------------------------------------------
  // Waiters
  // ---------------------------------------------------------------------------

  /** The waiters 0 to `n` - 1, each once. */
  function Waiters(n: nat): (m: multiset<Waiter>)
    ensures forall w: Waiter :: m[w] == if w < n then 1 else 0
  {
    if n == 0 then multiset{} else Waiters(n - 1) + multiset{n - 1}
  }

  function Everyone(s: Session): multiset<Waiter> {
    multiset(s.waiters) + multiset(s.completed) + multiset(s.dropped)
  }

  lemma UpdateKeepsEveryone(s: Session, report: Report, firstEntry: nat, now: int)
    ensures Everyone(Update(s, report, firstEntry, now)) == Everyone(s)
    ensures Update(s, report, firstEntry, now).created == s.created
  {
  }

  lemma WaitKeepsEveryone(s: Session)
    requires Everyone(s) == Waiters(s.created)
    ensures Everyone(WaitForIdle(s).0) == Waiters(WaitForIdle(s).0.created)
  {
    var s' := WaitForIdle(s).0;
    if s' != s {
      assert multiset(s'.waiters) == multiset(s.waiters) + multiset{s.created};
      assert Everyone(s') == Everyone(s) + multiset{s.created};
    }
  }

  lemma StepKeepsEveryone(s: Session, op: Op)
    requires Everyone(s) == Waiters(s.created)
    ensures Everyone(Next(s, op)) == Waiters(Next(s, op).created)
  {
    match op
    case DoUpdate(report, firstEntry, now) => UpdateKeepsEveryone(s, report, firstEntry, now);
    case DoMarkUnconfirmed =>
    case DoWait => WaitKeepsEveryone(s);
    case DoFinishClose =>
    case DoCloseObservation =>
  }

  /** In every run each waiter handed out is exactly one of pending, completed or dropped. */
  lemma {:induction false} WaitersAreConserved(ops: seq<Op>)
    ensures var s := Run(START, ops);
            forall w: Waiter ::
              multiset(s.waiters)[w] + multiset(s.completed)[w] + multiset(s.dropped)[w] ==
              if w < s.created then 1 else 0
    ensures Everyone(Run(START, ops)) == Waiters(Run(START, ops).created)
  {
    if ops != [] {
      WaitersAreConserved(ops[..|ops| - 1]);
      StepKeepsEveryone(Run(START, ops[..|ops| - 1]), ops[|ops| - 1]);
    }
    var s := Run(START, ops);
    assert forall w: Waiter :: Everyone(s)[w] == Waiters(s.created)[w];
  }

  datatype Resolution = Unresolved | Completes | Drops

  function ResolutionOf(op: Op): Resolution {
    match op
    case DoUpdate(IdleReport, _, _) => Completes
    case DoFinishClose => Completes
    case DoCloseObservation => Drops
    case _ => Unresolved
  }

  /** What the first resolving operation of `ops` does to whoever waits. */
  function FirstResolution(ops: seq<Op>): Resolution {
    if ops == [] then Unresolved
    else
      var before := FirstResolution(ops[..|ops| - 1]);
      if before != Unresolved then before else ResolutionOf(ops[|ops| - 1])
  }

  /** The fate of a pending waiter is decided by the first idle report, close or lost observation, and nothing else. */
  lemma {:induction false} WaiterFate(s: Session, ops: seq<Op>, w: Waiter)
    requires w in s.waiters
    ensures var s' := Run(s, ops);
            match FirstResolution(ops)
            case Unresolved => w in s'.waiters
            case Completes => w in s'.completed
            case Drops => w in s'.dropped
  {
    if ops != [] {
      WaiterFate(s, ops[..|ops| - 1], w);
      WaiterStep(Run(s, ops[..|ops| - 1]), ops[|ops| - 1], w);
    }
  }

  lemma WaiterStep(s: Session, op: Op, w: Waiter)
    ensures var s' := Next(s, op);
            && (w in s.completed ==> w in s'.completed)
            && (w in s.dropped ==> w in s'.dropped)
            && (w in s.waiters ==>
                  match ResolutionOf(op)
                  case Unresolved => w in s'.waiters
                  case Completes => w in s'.completed
                  case Drops => w in s'.dropped)
  {
  }

  predicate Ascending(ws: seq<Waiter>) {
    forall i, j | 0 <= i < j < |ws| :: ws[i] < ws[j]
  }

  /** Those who were answered come first, in the order in which they asked, then those who still wait. */
  ghost predicate InOrder(s: Session) {
    Ascending(s.completed + s.waiters) && forall w | w in s.completed + s.waiters :: w < s.created
  }

  lemma AscendingOn(ws: seq<Waiter>, w: Waiter)
    requires Ascending(ws) && forall x | x in ws :: x < w
    ensures Ascending(ws + [w])
  {
    forall i | 0 <= i < |ws| ensures ws[i] < w {
      assert ws[i] in ws;
    }
  }

  lemma StepKeepsInOrder(s: Session, op: Op)
    requires InOrder(s)
    ensures InOrder(Next(s, op))
  {
    var s' := Next(s, op);
    var before, after := s.completed + s.waiters, s'.completed + s'.waiters;
    if s'.created != s.created {
      AscendingOn(before, s.created);
      assert after == before + [s.created];
    } else if op == DoCloseObservation {
      assert after == s.completed;
      assert forall w | w in after :: w in before;
      assert forall i | 0 <= i < |after| :: after[i] == before[i];
    } else {
      assert after == before;
    }
  }

  /** Waiters are answered in the order in which they asked. */
  lemma {:induction false} AnsweredInOrder(ops: seq<Op>)
    ensures Ascending(Run(START, ops).completed) && InOrder(Run(START, ops))
  {
    if ops != [] {
      AnsweredInOrder(ops[..|ops| - 1]);
      StepKeepsInOrder(Run(START, ops[..|ops| - 1]), ops[|ops| - 1]);
    }
    var s := Run(START, ops);
    assert forall i | 0 <= i < |s.completed| :: (s.completed + s.waiters)[i] == s.completed[i];
  }

  // ---------------------------------------------------------------------------
  // Answers to those who ask
  // ---------------------------------------------------------------------------

  predicate Ends(op: Op) {
    op == DoFinishClose || op == DoCloseObservation
  }

  /** What the agent says of itself, or a mark that nothing is known. */
  predicate Speaks(op: Op) {
    op.DoUpdate? || op == DoMarkUnconfirmed
  }

  /** The session was closed or its observation lost. */
  ghost predicate IsOver(ops: seq<Op>) {
    exists i :: 0 <= i < |ops| && Ends(ops[i])
  }

  ghost predicate LastWord(ops: seq<Op>, i: nat) {
    i < |ops| && Speaks(ops[i]) && forall j | i < j < |ops| :: !Speaks(ops[j])
  }

  /** The last word was an idle report, or nothing was said yet. */
  ghost predicate LastHeardIdle(ops: seq<Op>) {
    forall i: nat | LastWord(ops, i) :: ops[i].DoUpdate? && ops[i].report == IdleReport
  }

  lemma WordsAppended(ops: seq<Op>, op: Op)
    ensures LastHeardIdle(ops + [op]) <==>
            if Speaks(op) then op.DoUpdate? && op.report == IdleReport else LastHeardIdle(ops)
    ensures IsOver(ops + [op]) <==> IsOver(ops) || Ends(op)
  {
    var all := ops + [op];
    assert all[|ops|] == op;
    if Speaks(op) {
      assert forall i: nat :: LastWord(all, i) <==> i == |ops|;
    } else {
      forall i: nat ensures LastWord(all, i) <==> LastWord(ops, i) {
        assert i < |ops| ==> all[i] == ops[i];
        if LastWord(all, i) {
          assert forall j | i < j < |ops| :: all[j] == ops[j];
        }
      }
      assert forall i: nat | LastWord(ops, i) :: LastWord(all, i) && all[i] == ops[i];
      assert forall i: nat | LastWord(all, i) :: LastWord(ops, i) && all[i] == ops[i];
    }
    if IsOver(ops) {
      var i :| 0 <= i < |ops| && Ends(ops[i]);
      assert Ends(all[i]);
    }
  }

  ghost predicate Heard(s: Session, ops: seq<Op>) {
    (s.state == Some(IdleReport) <==> LastHeardIdle(ops)) && (s.observationClosed <==> IsOver(ops))
  }

  lemma HeardOn(s: Session, ops: seq<Op>, op: Op)
    requires Heard(s, ops)
    ensures Heard(Next(s, op), ops + [op])
  {
    WordsAppended(ops, op);
  }

  lemma {:induction false} HeardSoFar(ops: seq<Op>)
    ensures Heard(Run(START, ops), ops)
  {
    if ops != [] {
      var before, op := ops[..|ops| - 1], ops[|ops| - 1];
      assert ops == before + [op];
      HeardSoFar(before);
      HeardOn(Run(START, before), before, op);
    }
  }

  /**
    After every run, who asks to wait is refused exactly when the session is over, sent away exactly when
    the last word was idle, and is otherwise put on the list under a number never used before.
   */
  lemma WaitAnswers(ops: seq<Op>)
    ensures var (s, answer) := (Run(START, ops), WaitForIdle(Run(START, ops)).1);
            var s' := Run(START, ops + [DoWait]);
            && (answer.Err? <==> IsOver(ops))
            && (answer == Ok(None) <==> !IsOver(ops) && LastHeardIdle(ops))
            && (answer.Ok? && answer.value.Some? ==>
                  && s'.waiters == s.waiters + [answer.value.value]
                  && answer.value.value !in s.waiters && answer.value.value !in s.completed
                  && answer.value.value !in s.dropped)
            && (IsOver(ops) || LastHeardIdle(ops) ==> s' == s)
  {
    var s := Run(START, ops);
    HeardSoFar(ops);
    NextNumberIsNew(ops);
    assert (ops + [DoWait])[..|ops|] == ops;
  }

  lemma NextNumberIsNew(ops: seq<Op>)
    ensures var s := Run(START, ops);
            s.created !in s.waiters && s.created !in s.completed && s.created !in s.dropped
  {
    var s := Run(START, ops);
    WaitersAreConserved(ops);
    assert s.created in s.waiters <==> multiset(s.waiters)[s.created] > 0;
    assert s.created in s.completed <==> multiset(s.completed)[s.created] > 0;
    assert s.created in s.dropped <==> multiset(s.dropped)[s.created] > 0;
  }

  /** The phase is the one that the last word names. */
  lemma {:induction false} PhaseIsLastWord(ops: seq<Op>, i: nat)
    requires LastWord(ops, i)
    ensures PhaseOf(Run(START, ops).state) ==
            match ops[i]
            case DoUpdate(IdleReport, _, _) => Idle
            case DoUpdate(RunningReport, _, _) => Running
            case DoUpdate(OtherReport, _, _) => Running
            case DoUpdate(ActionReport, _, _) => RequiresAction
            case DoUpdate(UnknownReport, _, _) => Unknown
            case _ => Unconfirmed
  {
    if i < |ops| - 1 {
      assert LastWord(ops[..|ops| - 1], i);
      PhaseIsLastWord(ops[..|ops| - 1], i);
    }
  }

  // ---------------------------------------------------------------------------
  // Generations
  // ---------------------------------------------------------------------------

  predicate StartsWork(op: Op) {
    op.DoUpdate? && (op.report == RunningReport || op.report == ActionReport || op.report == OtherReport)
  }

  predicate EndsWork(op: Op) {
    op.DoUpdate? && op.report.IdleReport?
  }

  /** Work reported at `i` that no idle report up to the end of `ops` has ended. */
  ghost predicate StillOpen(ops: seq<Op>, i: nat) {
    i < |ops| && StartsWork(ops[i]) && forall k | i < k < |ops| :: !EndsWork(ops[k])
  }

  ghost predicate WorkOpen(ops: seq<Op>) {
    exists i: nat :: StillOpen(ops, i)
  }

  /** An active report at `i` begins a work interval when none is open before it. */
  ghost predicate Begins(ops: seq<Op>, i: nat) {
    i < |ops| && StartsWork(ops[i]) && !WorkOpen(ops[..i])
  }

  ghost function Intervals(ops: seq<Op>): set<nat> {
    set i | 0 <= i < |ops| && Begins(ops, i)
  }

  lemma OpenAppended(ops: seq<Op>, op: Op)
    ensures WorkOpen(ops + [op]) <==> !EndsWork(op) && (WorkOpen(ops) || StartsWork(op))
  {
    var all := ops + [op];
    if WorkOpen(all) {
      var i: nat :| StillOpen(all, i);
      if i < |ops| {
        assert forall k | i < k < |ops| :: ops[k] == all[k];
        assert StillOpen(ops, i) && all[|ops|] == op;
      }
    }
    if !EndsWork(op) {
      if WorkOpen(ops) {
        var i: nat :| StillOpen(ops, i);
        assert StillOpen(all, i);
      } else if StartsWork(op) {
        assert StillOpen(all, |ops|);
      }
    }
  }

  lemma IntervalsAppended(ops: seq<Op>, op: Op)
    ensures Intervals(ops + [op]) ==
            Intervals(ops) + if StartsWork(op) && !WorkOpen(ops) then {|ops|} else {}
  {
    var all := ops + [op];
    assert all[..|ops|] == ops;
    forall i: nat | i < |ops| ensures Begins(all, i) <==> Begins(ops, i) {
      assert all[..i] == ops[..i];
    }
  }

  predicate BeginsWork(s: Session, op: Op) {
    StartsWork(op) && !s.inProgress
  }

  /** What an operation does to the bookkeeping of work. */
  lemma NextWork(s: Session, op: Op)
    ensures var s' := Next(s, op);
            && s'.generation == (if BeginsWork(s, op) then s.generation + 1 else s.generation)
            && s'.firstEntryIndex == (if BeginsWork(s, op) then op.firstEntry else s.firstEntryIndex)
            && s'.startedAt == (if BeginsWork(s, op) then Some(op.now) else s.startedAt)
            && s'.inProgress == (!EndsWork(op) && (s.inProgress || StartsWork(op)))
  {
    match op
    case DoUpdate(report, _, _) =>
    case _ =>
  }

  ghost predicate Dates(firstEntry: nat, startedAt: Option<int>, ops: seq<Op>) {
    var begun := Intervals(ops);
    && (begun == {} ==> firstEntry == 0 && startedAt == None)
    && (forall i | i in begun && (forall j | j in begun :: j <= i) ::
          firstEntry == ops[i].firstEntry && startedAt == Some(ops[i].now))
  }

  /** The entry index and start time are those of the latest work interval. */
  ghost predicate DatesLatest(s: Session, ops: seq<Op>) {
    Dates(s.firstEntryIndex, s.startedAt, ops)
  }

  lemma DatesBegun(ops: seq<Op>, op: Op)
    requires StartsWork(op) && !WorkOpen(ops)
    ensures Dates(op.firstEntry, Some(op.now), ops + [op])
  {
    IntervalsAppended(ops, op);
    var all := Intervals(ops + [op]);
    assert |ops| in all;
    forall i | i in all && (forall j | j in all :: j <= i) ensures i == |ops| {
    }
  }

  lemma DatesKept(firstEntry: nat, startedAt: Option<int>, ops: seq<Op>, op: Op)
    requires Dates(firstEntry, startedAt, ops) && !(StartsWork(op) && !WorkOpen(ops))
    ensures Dates(firstEntry, startedAt, ops + [op])
  {
    IntervalsAppended(ops, op);
    assert Intervals(ops + [op]) == Intervals(ops);
    assert forall i | i in Intervals(ops) :: (ops + [op])[i] == ops[i];
  }

  lemma DatesLatestStep(s: Session, ops: seq<Op>, op: Op)
    requires DatesLatest(s, ops) && s.inProgress == WorkOpen(ops)
    ensures DatesLatest(Next(s, op), ops + [op])
  {
    NextWork(s, op);
    if BeginsWork(s, op) {
      DatesBegun(ops, op);
    } else {
      DatesKept(s.firstEntryIndex, s.startedAt, ops, op);
    }
  }

  lemma IntervalCount(ops: seq<Op>, op: Op)
    ensures |Intervals(ops + [op])| == |Intervals(ops)| + if StartsWork(op) && !WorkOpen(ops) then 1 else 0
  {
    IntervalsAppended(ops, op);
    assert |ops| !in Intervals(ops);
  }

  lemma CountsStep(s: Session, ops: seq<Op>, op: Op)
    requires s.generation == |Intervals(ops)| && s.inProgress == WorkOpen(ops)
    ensures Next(s, op).generation == |Intervals(ops + [op])| && Next(s, op).inProgress == WorkOpen(ops + [op])
  {
    NextWork(s, op);
    OpenAppended(ops, op);
    IntervalCount(ops, op);
  }

  /** `generation` counts the work intervals; the entry index and start time date the latest one. */
  lemma {:induction false} GenerationCountsIntervals(ops: seq<Op>)
    ensures var s := Run(START, ops);
            && s.generation == |Intervals(ops)|
            && s.inProgress == WorkOpen(ops)
            && DatesLatest(s, ops)
  {
    if ops == [] {
      assert !WorkOpen([]);
    } else {
      var before, op := ops[..|ops| - 1], ops[|ops| - 1];
      assert ops == before + [op];
      GenerationCountsIntervals(before);
      CountsStep(Run(START, before), before, op);
      DatesLatestStep(Run(START, before), before, op);
    }
  }

  // ---------------------------------------------------------------------------
  // How long the latest work took
  // ---------------------------------------------------------------------------

  ghost predicate LatestBegin(ops: seq<Op>, b: nat) {
    Begins(ops, b) && forall j: nat | Begins(ops, j) :: j <= b
  }

  /** The latest work, begun at `b`, has not ended. */
  ghost predicate OpenSince(ops: seq<Op>, b: nat) {
    LatestBegin(ops, b) && forall k | b < k < |ops| :: !EndsWork(ops[k])
  }

  /** It ended with the report at `e`. */
  ghost predicate EndedAt(ops: seq<Op>, b: nat, e: nat) {
    LatestBegin(ops, b) && b < e < |ops| && EndsWork(ops[e]) && forall k | b < k < e :: !EndsWork(ops[k])
  }

  lemma BeginsAppended(ops: seq<Op>, op: Op, b: nat)
    ensures Begins(ops + [op], b) <==> Begins(ops, b) || (b == |ops| && StartsWork(op) && !WorkOpen(ops))
  {
    var all := ops + [op];
    IntervalsAppended(ops, op);
    assert b < |all| ==> (b in Intervals(all) <==> Begins(all, b));
    assert b < |ops| ==> (b in Intervals(ops) <==> Begins(ops, b));
  }

  lemma LatestAppended(ops: seq<Op>, op: Op, b: nat)
    ensures LatestBegin(ops + [op], b) <==>
            if StartsWork(op) && !WorkOpen(ops) then b == |ops| else LatestBegin(ops, b)
  {
    var all := ops + [op];
    forall j: nat ensures Begins(all, j) <==> Begins(ops, j) || (j == |ops| && StartsWork(op) && !WorkOpen(ops)) {
      BeginsAppended(ops, op, j);
    }
    assert forall j: nat | Begins(ops, j) :: j < |ops|;
    if StartsWork(op) && !WorkOpen(ops) {
      assert Begins(all, |ops|);
    }
  }

  lemma OpenIsStillOpen(ops: seq<Op>, b: nat)
    requires OpenSince(ops, b)
    ensures WorkOpen(ops)
  {
    assert StillOpen(ops, b);
  }

  lemma EndedAppended(ops: seq<Op>, op: Op, b: nat, e: nat)
    ensures EndedAt(ops + [op], b, e) <==>
            && !(StartsWork(op) && !WorkOpen(ops))
            && (EndedAt(ops, b, e) || (e == |ops| && EndsWork(op) && OpenSince(ops, b)))
  {
    var all := ops + [op];
    LatestAppended(ops, op, b);
    assert forall k: nat | k < |ops| :: all[k] == ops[k];
  }

  lemma OpenAppendedSince(ops: seq<Op>, op: Op, b: nat)
    ensures OpenSince(ops + [op], b) <==>
            if StartsWork(op) && !WorkOpen(ops) then b == |ops| else OpenSince(ops, b) && !EndsWork(op)
  {
    var all := ops + [op];
    LatestAppended(ops, op, b);
    assert forall k: nat | k < |ops| :: all[k] == ops[k];
    assert all[|ops|] == op;
  }

  /** Open work has been open since its latest beginning, which is when the session says it started. */
  lemma {:induction false} OpenSinceStart(ops: seq<Op>)
    requires WorkOpen(ops)
    ensures exists b: nat :: OpenSince(ops, b) && Run(START, ops).startedAt == Some(ops[b].now)
  {
    if ops == [] {
    } else {
      var before, op := ops[..|ops| - 1], ops[|ops| - 1];
      assert ops == before + [op];
      OpenAppended(before, op);
      GenerationCountsIntervals(before);
      NextWork(Run(START, before), op);
      if WorkOpen(before) {
        OpenSinceStart(before);
        var b: nat :| OpenSince(before, b) && Run(START, before).startedAt == Some(before[b].now);
        OpenAppendedSince(before, op, b);
        assert ops[b] == before[b];
      } else {
        OpenAppendedSince(before, op, |before|);
      }
    }
  }

  ghost predicate Lasted(ops: seq<Op>, d: int) {
    exists b: nat, e: nat :: EndedAt(ops, b, e) && d == ops[e].now - ops[b].now
  }

  lemma DurationOn(s: Session, op: Op)
    ensures Next(s, op).duration ==
            if BeginsWork(s, op) then None
            else if EndsWork(op) && s.inProgress then
              (if s.startedAt.Some? then Some(op.now - s.startedAt.value) else None)
            else s.duration
  {
  }

  lemma LastedKept(ops: seq<Op>, op: Op, d: int)
    requires !(StartsWork(op) && !WorkOpen(ops)) && !(EndsWork(op) && WorkOpen(ops))
    ensures Lasted(ops + [op], d) <==> Lasted(ops, d)
  {
    var all := ops + [op];
    forall b: nat, e: nat ensures EndedAt(all, b, e) <==> EndedAt(ops, b, e) {
      EndedAppended(ops, op, b, e);
      if OpenSince(ops, b) {
        OpenIsStillOpen(ops, b);
      }
    }
    assert forall k: nat | k < |ops| :: all[k] == ops[k];
  }

  lemma LastedBegun(ops: seq<Op>, op: Op, d: int)
    requires StartsWork(op) && !WorkOpen(ops)
    ensures !Lasted(ops + [op], d)
  {
    forall b: nat, e: nat ensures !EndedAt(ops + [op], b, e) {
      EndedAppended(ops, op, b, e);
    }
  }

  lemma LastedEnded(ops: seq<Op>, op: Op, b: nat, d: int)
    requires EndsWork(op) && OpenSince(ops, b)
    ensures Lasted(ops + [op], d) <==> d == op.now - ops[b].now
  {
    var all := ops + [op];
    forall c: nat, e: nat ensures EndedAt(all, c, e) <==> c == b && e == |ops| {
      EndedAppended(ops, op, c, e);
    }
    assert all[|ops|] == op && all[b] == ops[b];
  }

  lemma DurationStep(s: Session, before: seq<Op>, op: Op, d: int)
    requires s.inProgress == WorkOpen(before) && (s.duration == Some(d) <==> Lasted(before, d))
    requires WorkOpen(before) ==> exists b: nat :: OpenSince(before, b) && s.startedAt == Some(before[b].now)
    ensures Next(s, op).duration == Some(d) <==> Lasted(before + [op], d)
  {
    DurationOn(s, op);
    if StartsWork(op) && !WorkOpen(before) {
      LastedBegun(before, op, d);
    } else if EndsWork(op) && WorkOpen(before) {
      var b: nat :| OpenSince(before, b) && s.startedAt == Some(before[b].now);
      LastedEnded(before, op, b, d);
    } else {
      LastedKept(before, op, d);
    }
  }

  /** The duration is that of the latest work, from its first active report to the idle one that ended it. */
  lemma {:induction false} DurationIsOfLatestWork(ops: seq<Op>, d: int)
    ensures Run(START, ops).duration == Some(d) <==> Lasted(ops, d)
  {
    if ops != [] {
      var before, op := ops[..|ops| - 1], ops[|ops| - 1];
      assert ops == before + [op];
      GenerationCountsIntervals(before);
      DurationIsOfLatestWork(before, d);
      if WorkOpen(before) {
        OpenSinceStart(before);
      }
      DurationStep(Run(START, before), before, op, d);
    }
  }

  /** The bookkeeping of work, as opposed to what the agent last said. */
  function Work(s: Session): (nat, bool, nat, Option<int>, Option<int>) {
    (s.generation, s.inProgress, s.firstEntryIndex, s.startedAt, s.duration)
  }

  predicate SameWork(s: Session, t: Session) {
    Work(s) == Work(t)
  }

  predicate SaysNothing(op: Op) {
    op.DoMarkUnconfirmed? || (op.DoUpdate? && op.report.UnknownReport?)
  }

  lemma SameWorkStep(s: Session, t: Session, op: Op)
    requires SameWork(s, t)
    ensures SameWork(Next(s, op), Next(t, op))
  {
    if !op.DoUpdate? {
      OtherKeepsWork(s, op);
      OtherKeepsWork(t, op);
    }
  }

  lemma OtherKeepsWork(s: Session, op: Op)
    requires !op.DoUpdate?
    ensures SameWork(s, Next(s, op))
  {
  }

  lemma SilentStep(s: Session, op: Op)
    requires SaysNothing(op)
    ensures SameWork(s, Next(s, op))
  {
  }

  lemma {:induction false} SameWorkRuns(s: Session, t: Session, ops: seq<Op>)
    requires SameWork(s, t)
    ensures SameWork(Run(s, ops), Run(t, ops))
  {
    if ops != [] {
      SameWorkRuns(s, t, ops[..|ops| - 1]);
      SameWorkStep(Run(s, ops[..|ops| - 1]), Run(t, ops[..|ops| - 1]), ops[|ops| - 1]);
    }
  }

  lemma {:induction false} RunConcat(s: Session, a: seq<Op>, b: seq<Op>)
    ensures Run(s, a + b) == Run(Run(s, a), b)
  {
    if b == [] {
      assert a + b == a;
    } else {
      RunConcat(s, a, b[..|b| - 1]);
      assert (a + b)[..|a + b| - 1] == a + b[..|b| - 1];
    }
  }

  lemma RunSplits(s: Session, ops: seq<Op>, i: nat)
    requires i < |ops|
    ensures Run(s, ops) == Run(Next(Run(s, ops[..i]), ops[i]), ops[i + 1..])
  {
    var head := ops[..i + 1];
    assert ops == head + ops[i + 1..];
    RunConcat(s, head, ops[i + 1..]);
    assert head[..i] == ops[..i];
  }

  /** Deleting an unknown report or an unconfirmed mark anywhere leaves all the bookkeeping of work unchanged. */
  lemma SilenceChangesNoWork(ops: seq<Op>, i: nat)
    requires i < |ops| && SaysNothing(ops[i])
    ensures SameWork(Run(START, ops[..i] + ops[i + 1..]), Run(START, ops))
  {
    var before := Run(START, ops[..i]);
    RunConcat(START, ops[..i], ops[i + 1..]);
    RunSplits(START, ops, i);
    SilentStep(before, ops[i]);
    SameWorkRuns(before, Next(before, ops[i]), ops[i + 1..]);
  }
}
