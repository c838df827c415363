/** One run of the script over the whole queue, call by call. */
module CleanupRun {
  import opened Wrappers
  import opened CleanupDecisions
  import opened CleanupProtocol
  import opened CleanupClocks
  import opened CleanupTheorems

  type Counter = multiset<(Cleanup, Kind)>

  /** The steps counted for one pull request while its calls get through. */
  function Counted(w: World, plan: seq<Option<Step>>, replies: seq<Replies>, i: nat): Counter
    requires i <= |plan| == |replies| == |CLEANUPS|
    decreases |plan| - i
  {
    if i == |plan| then multiset{}
    else
      var v := Live(w, replies[i].meanwhile);
      if plan[i].None? then Counted(v, plan, replies, i + 1)
      else
        var next := TakeStep(v, plan[i].value, replies[i]);
        if !next.1 then multiset{}
        else multiset{(CLEANUPS[i], plan[i].value.kind)} +
             if plan[i].value.kind.Close? then multiset{} else Counted(next.0, plan, replies, i + 1)
  }

  /** The steps a plan calls for, with no call made. */
  function Wanted(plan: seq<Option<Step>>, i: nat): Counter
    requires i <= |plan| == |CLEANUPS|
    decreases |plan| - i
  {
    if i == |plan| then multiset{}
    else if plan[i].None? then Wanted(plan, i + 1)
    else multiset{(CLEANUPS[i], plan[i].value.kind)} +
         if plan[i].value.kind.Close? then multiset{} else Wanted(plan, i + 1)
  }

  /** A visit in dry-run mode: only people act. */
  function Watch(w: World, plan: seq<Option<Step>>, replies: seq<Replies>, i: nat): World
    requires i <= |plan| == |replies|
    decreases |plan| - i
  {
    if i == |plan| then w
    else
      var v := Live(w, replies[i].meanwhile);
      if IsClose(plan[i]) then v else Watch(v, plan, replies, i + 1)
  }

  /** A dry run reports exactly the steps that a run without failures takes. */
  lemma {:induction false} DryRunPredictsSteps(w: World, plan: seq<Option<Step>>, replies: seq<Replies>, i: nat)
    requires i <= |plan| == |replies| == |CLEANUPS| && AllDelivered(replies)
    ensures Counted(w, plan, replies, i) == Wanted(plan, i)
    ensures Visit(w, plan, replies, i).1
    decreases |plan| - i
  {
    if i < |plan| {
      assert replies[i] in replies;
      var next := i + 1;
      var v := Live(w, replies[i].meanwhile);
      if plan[i].None? {
        DryRunPredictsSteps(v, plan, replies, next);
      } else if !plan[i].value.kind.Close? {
        DryRunPredictsSteps(TakeStep(v, plan[i].value, replies[i]).0, plan, replies, next);
      }
    }
  }

  lemma {:induction false} WatchContinues(w: World, plan: seq<Option<Step>>, replies: seq<Replies>, i: nat)
    requires i <= |plan| == |replies| && HonestReplies(replies)
    ensures Continues(w, Watch(w, plan, replies, i))
    decreases |plan| - i
  {
    if i == |plan| {
      assert w.pr.comments[|w.pr.comments|..] == [];
    } else {
      var next := i + 1;
      var v := Live(w, replies[i].meanwhile);
      LiveContinues(w, replies[i].meanwhile);
      if !IsClose(plan[i]) {
        WatchContinues(v, plan, replies, next);
      }
    }
  }

  /** What a run does to one pull request, and whether the run goes on. */
  function Turn(w: World, now: Instant, p: Passage, dryRun: bool): (World, bool)
    requires |p.replies| == |CLEANUPS| && w.clock <= now
  {
    var start := w.(clock := now);
    if !dryRun then BotRun(start, p)
    else if Skipped(Listed(start, p)) then (Fetched(start, p), true)
    else (Watch(Fetched(start, p), PlanOf(start, p), p.replies, 0), true)
  }

  /** A dry run makes no call: whatever changes in it, people changed. */
  lemma DryRunOnlyWatches(w: World, now: Instant, p: Passage)
    requires HonestPassage(p) && w.clock <= now
    ensures Turn(w, now, p, true).1 && Continues(w.(clock := now), Turn(w, now, p, true).0)
  {
    var start := w.(clock := now);
    LiveContinues(start, p.early);
    LiveContinues(Listed(start, p), p.late);
    WatchContinues(Fetched(start, p), PlanOf(start, p), p.replies, 0);
  }

  /** A passage for every pull request, and a run that begins after all that was. */
  predicate Ready(queue: seq<World>, now: Instant, ps: seq<Passage>) {
    && |queue| == |ps|
    && (forall i | 0 <= i < |queue| :: queue[i].clock <= now)
    && (forall i | 0 <= i < |ps| :: |ps[i].replies| == |CLEANUPS|)
  }

  /** The queue after the pull requests from `i` on were visited; an error ends the run. */
  function Swept(queue: seq<World>, now: Instant, ps: seq<Passage>, dryRun: bool, i: nat): (result: (seq<World>, bool))
    requires Ready(queue, now, ps) && i <= |queue|
    ensures |result.0| == |queue|
    ensures forall j | 0 <= j < i :: result.0[j] == queue[j]
    decreases |queue| - i
  {
    if i == |queue| then (queue, true)
    else
      var turn := Turn(queue[i], now, ps[i], dryRun);
      if turn.1 then
        var rest := Swept(queue, now, ps, dryRun, i + 1);
        (rest.0[i := turn.0], rest.1)
      else (queue[i := turn.0], false)
  }

  /** The steps reported for one pull request. */
  function StepsFor(w: World, now: Instant, p: Passage, dryRun: bool): Counter
    requires |p.replies| == |CLEANUPS|
  {
    var start := w.(clock := now);
    if Skipped(Listed(start, p)) then multiset{}
    else if dryRun then Wanted(PlanOf(start, p), 0)
    else Counted(Fetched(start, p), PlanOf(start, p), p.replies, 0)
  }

  /** The steps reported for the first `n` pull requests. */
  function Tally(queue: seq<World>, now: Instant, ps: seq<Passage>, dryRun: bool, n: nat): Counter
    requires Ready(queue, now, ps) && n <= |queue|
  {
    if n == 0 then multiset{}
    else Tally(queue, now, ps, dryRun, n - 1) + StepsFor(queue[n - 1], now, ps[n - 1], dryRun)
  }

  /** Over the whole queue, a dry run reports what a run without failures does. */
  lemma {:induction false} DryRunPredictsRun(queue: seq<World>, now: Instant, ps: seq<Passage>, n: nat)
    requires Ready(queue, now, ps) && n <= |queue|
    requires forall i | 0 <= i < |ps| :: AllDelivered(ps[i].replies)
    ensures Tally(queue, now, ps, true, n) == Tally(queue, now, ps, false, n)
  {
    if n > 0 {
      DryRunPredictsRun(queue, now, ps, n - 1);
      DryRunPredictsOne(queue[n - 1], now, ps[n - 1]);
    }
  }

  lemma DryRunPredictsOne(w: World, now: Instant, p: Passage)
    requires |p.replies| == |CLEANUPS| && AllDelivered(p.replies)
    ensures StepsFor(w, now, p, true) == StepsFor(w, now, p, false)
  {
    var start := w.(clock := now);
    DryRunPredictsSteps(Fetched(start, p), PlanOf(start, p), p.replies, 0);
  }

  // ---------------------------------------------------------------------------
  // The loop over the queue
  // ---------------------------------------------------------------------------

  /** Where a run stands before its turn `i`. */
  predicate OnCourse(before: seq<World>, now: Instant, ps: seq<Passage>, dryRun: bool, queue: seq<World>, i: nat)
    requires Ready(before, now, ps) && i <= |before|
  {
    && |queue| == |before|
    && (forall j | i <= j < |before| :: queue[j] == before[j])
    && var rest := Swept(before, now, ps, dryRun, i);
    Swept(before, now, ps, dryRun, 0) == (queue[..i] + rest.0[i..], rest.1)
  }

  lemma CourseBegins(before: seq<World>, now: Instant, ps: seq<Passage>, dryRun: bool)
    requires Ready(before, now, ps)
    ensures OnCourse(before, now, ps, dryRun, before, 0)
  {
    var all := Swept(before, now, ps, dryRun, 0);
    assert before[..0] + all.0[0..] == all.0;
  }

  lemma CourseEnds(before: seq<World>, now: Instant, ps: seq<Passage>, dryRun: bool, queue: seq<World>)
    requires Ready(before, now, ps) && OnCourse(before, now, ps, dryRun, queue, |before|)
    ensures Swept(before, now, ps, dryRun, 0) == (queue, true)
  {
    assert queue[..|before|] + before[|before|..] == queue;
  }

  lemma SplicedTail<T>(queue: seq<T>, rest: seq<T>, i: nat, x: T)
    requires i < |queue| == |rest|
    ensures queue[..i] + rest[i := x][i..] == queue[i := x][..i + 1] + rest[i + 1..]
  {
  }

  lemma SplicedWhole<T>(queue: seq<T>, before: seq<T>, i: nat, x: T)
    requires i < |queue| == |before|
    requires forall j | i <= j < |before| :: queue[j] == before[j]
    ensures queue[..i] + before[i := x][i..] == queue[i := x]
  {
  }

  /** One turn keeps the run on course, or ends it with an error. */
  lemma CourseGoesOn(before: seq<World>, now: Instant, ps: seq<Passage>, dryRun: bool, queue: seq<World>, i: nat,
                     turn: (World, bool))
    requires Ready(before, now, ps) && i < |before| && OnCourse(before, now, ps, dryRun, queue, i)
    requires turn == Turn(before[i], now, ps[i], dryRun)
    ensures if turn.1 then OnCourse(before, now, ps, dryRun, queue[i := turn.0], i + 1)
            else Swept(before, now, ps, dryRun, 0) == (queue[i := turn.0], false)
  {
    if turn.1 {
      SplicedTail(queue, Swept(before, now, ps, dryRun, i + 1).0, i, turn.0);
    } else {
      SplicedWhole(queue, before, i, turn.0);
    }
  }

  // ---------------------------------------------------------------------------
  // The loop over the clean-ups
  // ---------------------------------------------------------------------------

  /** Having come to index `k` in `world` with `counted`, the rest of the visit completes the whole. */
  ghost predicate Followed(fetched: World, plan: seq<Option<Step>>, dryRun: bool, replies: seq<Replies>,
                           world: World, counted: Counter, k: nat)
    requires k <= |plan| == |replies| == |CLEANUPS|
  {
    if dryRun then
      && Watch(fetched, plan, replies, 0) == Watch(world, plan, replies, k)
      && Wanted(plan, 0) == counted + Wanted(plan, k)
    else
      && Visit(fetched, plan, replies, 0) == Visit(world, plan, replies, k)
      && Counted(fetched, plan, replies, 0) == counted + Counted(world, plan, replies, k)
  }

  /** What a visit that ends here comes to. */
  ghost predicate Ended(fetched: World, plan: seq<Option<Step>>, dryRun: bool, replies: seq<Replies>,
                        world: World, counted: Counter, ok: bool)
    requires |plan| == |replies| == |CLEANUPS|
  {
    if dryRun then
      world == Watch(fetched, plan, replies, 0) && ok && counted == Wanted(plan, 0)
    else
      (world, ok) == Visit(fetched, plan, replies, 0) && counted == Counted(fetched, plan, replies, 0)
  }

  lemma DryPlanGoesOn(fetched: World, plan: seq<Option<Step>>, replies: seq<Replies>,
                      world: World, counted: Counter, k: nat)
    requires k < |plan| == |replies| == |CLEANUPS|
    requires Followed(fetched, plan, true, replies, world, counted, k)
    ensures var v := Live(world, replies[k].meanwhile);
            if plan[k].None? then Followed(fetched, plan, true, replies, v, counted, k + 1)
            else
              var more := counted + multiset{(CLEANUPS[k], plan[k].value.kind)};
              if IsClose(plan[k]) then Ended(fetched, plan, true, replies, v, more, true)
              else Followed(fetched, plan, true, replies, v, more, k + 1)
  {
  }

  lemma LivePlanGoesOn(fetched: World, plan: seq<Option<Step>>, replies: seq<Replies>,
                       world: World, counted: Counter, k: nat)
    requires k < |plan| == |replies| == |CLEANUPS|
    requires Followed(fetched, plan, false, replies, world, counted, k)
    ensures var v := Live(world, replies[k].meanwhile);
            if plan[k].None? then Followed(fetched, plan, false, replies, v, counted, k + 1)
            else
              var (next, ok) := TakeStep(v, plan[k].value, replies[k]);
              var more := counted + multiset{(CLEANUPS[k], plan[k].value.kind)};
              if !ok then Ended(fetched, plan, false, replies, next, counted, false)
              else if IsClose(plan[k]) then Ended(fetched, plan, false, replies, next, more, true)
              else Followed(fetched, plan, false, replies, next, more, k + 1)
  {
  }

  class Repository {
    var queue: seq<World>

    constructor (queue: seq<World>)
      ensures this.queue == queue
    {
      this.queue := queue;
    }

    /** `run`: visit every open pull request, taking the first close and every earlier step. */
    method Run(now: Instant, dryRun: bool, ps: seq<Passage>) returns (steps: Counter, completed: bool)
      requires Ready(queue, now, ps)
      modifies this
      ensures (queue, completed) == Swept(old(queue), now, ps, dryRun, 0)
      ensures dryRun ==> completed
      ensures completed ==> steps == Tally(old(queue), now, ps, dryRun, |old(queue)|)
    {
      var before := queue;
      steps, completed := multiset{}, true;
      CourseBegins(before, now, ps, dryRun);
      var i := 0;
      while i < |before|
        invariant i <= |before| && completed
        invariant OnCourse(before, now, ps, dryRun, queue, i)
        invariant steps == Tally(before, now, ps, dryRun, i)
      {
        steps, completed := VisitNext(before, i, now, dryRun, ps, steps);
        if !completed {
          return;
        }
        i := i + 1;
      }
      CourseEnds(before, now, ps, dryRun, queue);
    }

    /** One turn of the loop over the queue. */
    method VisitNext(before: seq<World>, i: nat, now: Instant, dryRun: bool, ps: seq<Passage>, steps: Counter)
      returns (steps': Counter, ok: bool)
      requires Ready(before, now, ps) && i < |before| && OnCourse(before, now, ps, dryRun, queue, i)
      modifies this
      ensures dryRun ==> ok
      ensures ok ==> OnCourse(before, now, ps, dryRun, queue, i + 1)
      ensures !ok ==> Swept(before, now, ps, dryRun, 0) == (queue, false)
      ensures steps' == steps + StepsFor(before[i], now, ps[i], dryRun)
    {
      var world, counted;
      world, counted, ok := VisitOne(before[i], now, dryRun, ps[i]);
      steps' := steps + counted;
      CourseGoesOn(before, now, ps, dryRun, queue, i, (world, ok));
      queue := queue[i := world];
    }

    /** A pull request that is closed or exempt when listed is passed over. */
    method VisitOne(w: World, now: Instant, dryRun: bool, p: Passage)
      returns (world: World, counted: Counter, ok: bool)
      requires |p.replies| == |CLEANUPS| && w.clock <= now
      ensures (world, ok) == Turn(w, now, p, dryRun)
      ensures counted == StepsFor(w, now, p, dryRun)
    {
      var start := w.(clock := now);
      if Skipped(Listed(start, p)) {
        return Fetched(start, p), multiset{}, true;
      }
      world, counted, ok := FollowPlan(Fetched(start, p), PlanOf(start, p), dryRun, p.replies);
    }

    method FollowPlan(fetched: World, plan: seq<Option<Step>>, dryRun: bool, replies: seq<Replies>)
      returns (world: World, counted: Counter, ok: bool)
      requires |replies| == |plan| == |CLEANUPS|
      ensures dryRun ==> world == Watch(fetched, plan, replies, 0) && ok && counted == Wanted(plan, 0)
      ensures !dryRun ==> (world, ok) == Visit(fetched, plan, replies, 0)
      ensures !dryRun ==> counted == Counted(fetched, plan, replies, 0)
    {
      world, counted, ok := fetched, multiset{}, true;
      for k := 0 to |CLEANUPS|
        invariant ok && Followed(fetched, plan, dryRun, replies, world, counted, k)
      {
        if dryRun {
          DryPlanGoesOn(fetched, plan, replies, world, counted, k);
        } else {
          LivePlanGoesOn(fetched, plan, replies, world, counted, k);
        }
        world := Live(world, replies[k].meanwhile);
        var step := plan[k];
        if step.Some? {
          if !dryRun {
            var next := TakeStep(world, step.value, replies[k]);
            world, ok := next.0, next.1;
            if !ok { return; }
          }
          counted := counted + multiset{(CLEANUPS[k], step.value.kind)};
          if step.value.kind.Close? { return; }
        }
      }
    }
  }
}
