/**
  The table record by record: what becomes of one record depends on the operations alone, not on
  the other records, and is told here without the table.
 */
module SubmissionLives {
  import opened Wrappers
  import opened Submissions
  import opened SubmissionTheorems
  import opened SenderFates

  /** A record's own story: in the table, perhaps as the latest, or not. */
  datatype Life = Absent | Alive(record: Record, latest: bool)

  /** It outlives a pruning as the latest, while unsettled, or, with receipts, if it may still be recovered. */
  function Pruning(transport: Transport, r: Record, latest: bool): Life {
    match r.state
    case Pending => Alive(r, latest)
    case Accepted(_, echoed) => if latest || !echoed then Alive(r, latest) else Absent
    case Completed => if latest then Alive(r, latest) else Absent
    case _ => if latest || transport == ByReceipt then Alive(r, latest) else Absent
  }

  /** A settlement replaces the state, but of a disconnected record only the first evidence is kept. */
  function SettledState(was: State, state: State): State {
    match (was, state)
    case (Disconnected(None), Accepted(receipt, _)) => Disconnected(Some(receipt))
    case (Disconnected(_), _) => was
    case _ => state
  }

  function DisconnectedRecord(r: Record): Record {
    match r.state
    case Pending => Record(r.content, Disconnected(None), r.task, None)
    case Accepted(receipt, false) => Record(r.content, Disconnected(Some(receipt)), r.task, None)
    case _ => r
  }

  /** What an operation does to the record `id`; `born` says whether it registers it. */
  function LiveOn(transport: Transport, life: Life, op: Op, id: Id, born: bool): Life {
    match op
    case DoRegister(content) =>
      if born then Alive(Record(content, Pending, None, None), true)
      else if life.Absent? then Absent
      else Pruning(transport, life.record, false)
    case DoTrack(i, task, sender) =>
      if life.Absent? || i != id then life
      else Alive(Record(life.record.content, life.record.state, Some(task), sender), life.latest)
    case DoSettle(i, state) =>
      if life.Absent? || i != id then life
      else
        var r := life.record;
        Pruning(transport, Record(r.content, SettledState(r.state, state), r.task, None), life.latest)
    case DoDisconnect =>
      if life.Absent? || transport != ByReceipt then life else Alive(DisconnectedRecord(life.record), life.latest)
    case DoEcho(messageId) =>
      if life.Absent? then Absent
      else
        var r := life.record;
        (match r.state
         case Accepted(receipt, false) =>
           if receipt.messageId == messageId then
             Pruning(transport, Record(r.content, Accepted(receipt, true), r.task, r.sender), life.latest)
           else life
         case _ => life)
    case DoForget(i) =>
      if life.Absent? || i != id then life
      else
        match life.record.state
        case Pending => life
        case Accepted(_, false) => life
        case _ => Absent
  }

  function Registered(ops: seq<Op>): nat {
    if ops == [] then 0 else Registered(ops[..|ops| - 1]) + if ops[|ops| - 1].DoRegister? then 1 else 0
  }

  /** The record that the `id`-th registration makes. */
  function LifeOf(transport: Transport, ops: seq<Op>, id: Id): Life {
    if ops == [] then Absent
    else
      var before, op := ops[..|ops| - 1], ops[|ops| - 1];
      LiveOn(transport, LifeOf(transport, before, id), op, id, op.DoRegister? && Registered(before) + 1 == id)
  }

  ghost predicate Lives(s: Session, id: Id, life: Life) {
    match life
    case Absent => id !in s.records && s.latest != Some(id)
    case Alive(r, latest) => id in s.records && s.records[id] == r && (s.latest == Some(id) <==> latest)
  }

  lemma StepLives(s: Session, op: Op, id: Id, life: Life)
    requires Valid(s) && Lives(s, id, life)
    ensures Lives(Next(s, op), id, LiveOn(s.transport, life, op, id, op.DoRegister? && s.nextId + 1 == id))
    ensures Next(s, op).transport == s.transport
    ensures Next(s, op).nextId == s.nextId + if op.DoRegister? then 1 else 0
  {
  }

  /** In every run each record is as its own story has it, and the ids are those of the registrations. */
  lemma {:induction false} EveryRecordHasItsLife(transport: Transport, ops: seq<Op>, id: Id)
    ensures var s := Run(New(transport), ops);
            && Lives(s, id, LifeOf(transport, ops, id))
            && s.nextId == Registered(ops) && s.transport == transport
  {
    if ops != [] {
      var before := ops[..|ops| - 1];
      EveryRecordHasItsLife(transport, before, id);
      EveryRunIsValid(transport, before);
      StepLives(Run(New(transport), before), ops[|ops| - 1], id, LifeOf(transport, before, id));
    }
  }

  predicate Waits(r: Record) {
    r.state == Pending || (r.state.Accepted? && r.state.echoed == false)
  }

  /** What the operations report: a settlement that was taken, the ids disconnected or echoed, a record forgotten. */
  lemma ReportsExactly(s: Session, id: Id, state: State, messageId: string)
    requires Valid(s)
    ensures Settle(s, id, state).1 <==>
            id in s.records &&
            (s.records[id].state.Disconnected? ==> s.records[id].state.evidence == None && state.Accepted?)
    ensures id in Disconnect(s).1 <==> s.transport == ByReceipt && id in s.records && Waits(s.records[id])
    ensures id in ObserveEcho(s, messageId).1 <==>
            id in s.records && s.records[id].state.Accepted? && !s.records[id].state.echoed &&
            s.records[id].state.receipt.messageId == messageId
    ensures Forget(s, id).1 <==> id in s.records && !Waits(s.records[id])
  {
  }

  // ---------------------------------------------------------------------------
  // A tracked sender fires at the disconnect
  // ---------------------------------------------------------------------------

  /** The operation settles the record, echoes its message or tracks it again. */
  predicate Decides(op: Op, id: Id, r: Record) {
    match op
    case DoSettle(i, _) => i == id
    case DoTrack(i, _, _) => i == id
    case DoEcho(messageId) => r.state.Accepted? && r.state.receipt.messageId == messageId
    case _ => false
  }

  ghost predicate Armed(s: Session, id: Id, state: State, sender: Sender) {
    || sender in s.fired
    || (id in s.records && s.records[id].sender == Some(sender) && s.records[id].state == state)
  }

  lemma StepArmed(s: Session, op: Op, id: Id, r: Record, sender: Sender)
    requires Valid(s) && s.transport == ByReceipt && Waits(r) && !Decides(op, id, r)
    requires Armed(s, id, r.state, sender)
    ensures Armed(Next(s, op), id, r.state, sender)
    ensures op.DoDisconnect? ==> sender in Next(s, op).fired
  {
    if sender !in s.fired {
      StepLives(s, op, id, Alive(s.records[id], s.latest == Some(id)));
      assert 1 <= id <= s.nextId;
      if op.DoDisconnect? {
        SenderIsListed(Unsettled(s.records), id, s.nextId, sender);
      }
    }
  }

  lemma {:induction false} RunArmed(s: Session, ops: seq<Op>, id: Id, r: Record, sender: Sender)
    requires Valid(s) && s.transport == ByReceipt && Waits(r) && Armed(s, id, r.state, sender)
    requires forall i | 0 <= i < |ops| :: !Decides(ops[i], id, r)
    ensures Armed(Run(s, ops), id, r.state, sender) && Run(s, ops).transport == ByReceipt
  {
    if ops != [] {
      var before := ops[..|ops| - 1];
      RunArmed(s, before, id, r, sender);
      RunKeepsValid(s, before);
      StepArmed(Run(s, before), ops[|ops| - 1], id, r, sender);
    }
  }

  /**
    A sender handed in for a record that waits has fired after the next disconnect, whatever happens
    between that does not settle, echo or track the record.
   */
  lemma TrackedSenderFires(s: Session, id: Id, task: TaskHandle, sender: Sender, ops: seq<Op>)
    requires Valid(s) && s.transport == ByReceipt && id in s.records && Waits(s.records[id])
    requires forall i | 0 <= i < |ops| :: !Decides(ops[i], id, s.records[id])
    ensures sender in Run(s, [DoTrack(id, task, Some(sender))] + ops + [DoDisconnect]).fired
  {
    var r := s.records[id];
    var tracked := Next(s, DoTrack(id, task, Some(sender)));
    var all := [DoTrack(id, task, Some(sender))] + ops;
    StepKeepsValid(s, DoTrack(id, task, Some(sender)));
    assert Run(s, [DoTrack(id, task, Some(sender))]) == tracked;
    RunConcat(s, [DoTrack(id, task, Some(sender))], ops);
    RunArmed(tracked, ops, id, r, sender);
    RunKeepsValid(tracked, ops);
    StepArmed(Run(tracked, ops), DoDisconnect, id, r, sender);
    assert (all + [DoDisconnect])[..|all|] == all;
  }
}
