/**
  Foreground activity of a session (crates/acp_thread/src/submission.rs): work
  generations and cancellation waiters. A waiter is the sending half of a
  one-shot channel, numbered in the order the session created it; `completed`
  and `dropped` record what became of the waiters that left the list.
 */
module Activity {
  import opened Wrappers

  type Waiter = nat

  datatype Report = IdleReport | RunningReport | ActionReport | UnknownReport | OtherReport

  datatype Phase = Unconfirmed | Idle | Running | RequiresAction | Unknown

  datatype Session = Session(
    state: Option<Report>,
    generation: nat,
    inProgress: bool,
    startedAt: Option<int>,
    duration: Option<int>,
    firstEntryIndex: nat,
    waiters: seq<Waiter>,
    observationClosed: bool,
    created: nat,
    completed: seq<Waiter>,
    dropped: seq<Waiter>)

  const START: Session := Session(Some(IdleReport), 0, false, None, None, 0, [], false, 0, [], [])

  predicate IsActive(p: Phase) {
    p.Running? || p.RequiresAction?
  }

  function PhaseOf(state: Option<Report>): Phase {
    match state
    case None => Unconfirmed
    case Some(IdleReport) => Idle
    case Some(ActionReport) => RequiresAction
    case Some(UnknownReport) => Unknown
    case Some(_) => Running
  }

  function CompleteWaiters(s: Session): Session {
    s.(waiters := [], completed := s.completed + s.waiters)
  }

  function Update(s: Session, report: Report, firstEntry: nat, now: int): Session {
    var s := s.(state := Some(report));
    var current := PhaseOf(s.state);
    var timed :=
      if !s.inProgress && IsActive(current) then
        s.(inProgress := true, generation := s.generation + 1, startedAt := Some(now), duration := None,
           firstEntryIndex := firstEntry)
      else if s.inProgress && current == Idle then
        s.(inProgress := false, duration := if s.startedAt.Some? then Some(now - s.startedAt.value) else None)
      else s;
    if current == Idle then CompleteWaiters(timed) else timed
  }

  function WaitForIdle(s: Session): (Session, Result<Option<Waiter>, string>) {
    if s.observationClosed then (s, Err("Session closed or agent connection lost before cancellation was confirmed"))
    else if PhaseOf(s.state) == Idle then (s, Ok(None))
    else (s.(waiters := s.waiters + [s.created], created := s.created + 1), Ok(Some(s.created)))
  }

  function FinishClose(s: Session): Session {
    CompleteWaiters(s.(observationClosed := true))
  }

  function CloseObservation(s: Session): Session {
    s.(observationClosed := true, waiters := [], dropped := s.dropped + s.waiters)
  }

  datatype Op =
    | DoUpdate(report: Report, firstEntry: nat, now: int)
    | DoMarkUnconfirmed
    | DoWait
    | DoFinishClose
    | DoCloseObservation

  function Next(s: Session, op: Op): Session {
    match op
    case DoUpdate(report, firstEntry, now) => Update(s, report, firstEntry, now)
    case DoMarkUnconfirmed => s.(state := None)
    case DoWait => WaitForIdle(s).0
    case DoFinishClose => FinishClose(s)
    case DoCloseObservation => CloseObservation(s)
  }

  function Run(s: Session, ops: seq<Op>): Session {
    if ops == [] then s else Next(Run(s, ops[..|ops| - 1]), ops[|ops| - 1])
  }

  /** An active phase is work in progress, an idle one is not, and neither idle nor closed leaves anyone waiting. */
  predicate Consistent(s: Session) {
    && (IsActive(PhaseOf(s.state)) ==> s.inProgress)
    && (PhaseOf(s.state) == Idle ==> !s.inProgress)
    && (PhaseOf(s.state) == Idle || s.observationClosed ==> s.waiters == [])
    && (s.inProgress ==> s.startedAt.Some?)
  }

  /** `SessionActivity` as the mutable object it is. */
  class SessionActivity {
    var state: Option<Report>
    var generation: nat
    var inProgress: bool
    var startedAt: Option<int>
    var duration: Option<int>
    var firstEntryIndex: nat
    var cancelWaiters: seq<Waiter>
    var observationClosed: bool
    var created: nat
    ghost var completed: seq<Waiter>
    ghost var dropped: seq<Waiter>

    ghost function Model(): Session
      reads this
    {
      Session(state, generation, inProgress, startedAt, duration, firstEntryIndex, cancelWaiters,
              observationClosed, created, completed, dropped)
    }

    ghost predicate Valid()
      reads this
    {
      Consistent(Model())
    }

    constructor ()
      ensures Model() == START && Valid()
    {
      state := Some(IdleReport);
      generation, inProgress, startedAt, duration, firstEntryIndex := 0, false, None, None, 0;
      cancelWaiters, observationClosed, created := [], false, 0;
      completed, dropped := [], [];
    }

    method UpdateState(report: Report, firstEntry: nat, now: int)
      requires Valid()
      modifies this
      ensures Model() == Update(old(Model()), report, firstEntry, now)
      ensures Valid()
    {
      state := Some(report);
      var current := PhaseOf(state);
      if !inProgress && IsActive(current) {
        inProgress := true;
        generation := generation + 1;
        startedAt := Some(now);
        duration := None;
        firstEntryIndex := firstEntry;
      } else if inProgress && current == Idle {
        inProgress := false;
        duration := if startedAt.Some? then Some(now - startedAt.value) else None;
      }
      if current == Idle {
        CompleteCancelWaiters();
      }
    }

    /** Drains the list, sending to every waiter in turn. */
    method CompleteCancelWaiters()
      modifies this`cancelWaiters, this`completed
      ensures cancelWaiters == [] && completed == old(completed) + old(cancelWaiters)
    {
      while |cancelWaiters| > 0
        invariant completed + cancelWaiters == old(completed) + old(cancelWaiters)
      {
        completed := completed + [cancelWaiters[0]];
        cancelWaiters := cancelWaiters[1..];
      }
    }

    method MarkUnconfirmed()
      requires Valid()
      modifies this`state
      ensures Model() == old(Model()).(state := None) && Valid()
    {
      state := None;
    }

    method Wait() returns (result: Result<Option<Waiter>, string>)
      requires Valid()
      modifies this
      ensures (Model(), result) == WaitForIdle(old(Model())) && Valid()
    {
      if observationClosed {
        return Err("Session closed or agent connection lost before cancellation was confirmed");
      }
      if PhaseOf(state) == Idle {
        return Ok(None);
      }
      var waiter := created;
      created := created + 1;
      cancelWaiters := cancelWaiters + [waiter];
      return Ok(Some(waiter));
    }

    method Finish()
      requires Valid()
      modifies this
      ensures Model() == FinishClose(old(Model())) && Valid()
    {
      observationClosed := true;
      CompleteCancelWaiters();
    }

    method Close()
      requires Valid()
      modifies this
      ensures Model() == CloseObservation(old(Model())) && Valid()
    {
      observationClosed := true;
      dropped := dropped + cancelWaiters;
      cancelWaiters := [];
    }
  }
}
