/**
  The table of in-flight prompts of crates/acp_thread/src/submission.rs as a
  state machine over values. A disconnect sender is an owned, single-use token;
  `fired` and `dropped` record what became of every token that left the table.
 */
module Submissions {
  import opened Wrappers

  type Id = nat
  type Sender = nat
  type TaskHandle = nat

  datatype Receipt = Receipt(messageId: string, meta: string)

  datatype State =
    | Pending
    | Accepted(receipt: Receipt, echoed: bool)
    | Disconnected(evidence: Option<Receipt>)
    | Completed
    | Failed(message: string)
    | Cancelled

  datatype Record = Record(content: seq<string>, state: State, task: Option<TaskHandle>, sender: Option<Sender>)

  datatype Transport = Completion | ByReceipt | AgentOwned

  datatype Session = Session(
    transport: Transport,
    records: map<Id, Record>,
    nextId: nat,
    latest: Option<Id>,
    fired: seq<Sender>,
    dropped: seq<Sender>)

  function New(transport: Transport): Session {
    Session(transport, map[], 0, None, [], [])
  }

  predicate IsUnsettled(r: Record) {
    r.state.Pending? || (r.state.Accepted? && !r.state.echoed)
  }

  predicate IsRecoverable(r: Record) {
    IsUnsettled(r) || r.state.Failed? || r.state.Cancelled? || r.state.Disconnected?
  }

  /** The rule by which `prune` keeps a record. */
  predicate Retained(s: Session, id: Id, r: Record) {
    s.latest == Some(id) || IsUnsettled(r) || (s.transport.ByReceipt? && IsRecoverable(r))
  }

  function Held(o: Option<Sender>): seq<Sender> {
    if o.Some? then [o.value] else []
  }

  /** The ids from 1 to `n` that are in the table, in the order a BTreeMap visits them. */
  function Ascending(records: map<Id, Record>, n: nat): (ids: seq<Id>)
    ensures forall id | id in ids :: id in records && 1 <= id <= n
    ensures forall id | id in records && 1 <= id <= n :: id in ids
    ensures forall i, j | 0 <= i < j < |ids| :: ids[i] < ids[j]
  {
    if n == 0 then []
    else
      var before := Ascending(records, n - 1);
      if n in records then
        assert forall i | 0 <= i < |before| :: before[i] in before;
        before + [n]
      else before
  }

  /** The senders held by records 1 to `n`, in that order. */
  function Senders(records: map<Id, Record>, n: nat): seq<Sender> {
    if n == 0 then []
    else Senders(records, n - 1) + if n in records then Held(records[n].sender) else []
  }

  function Pruned(s: Session): map<Id, Record> {
    map id | id in s.records && Retained(s, id, s.records[id]) :: s.records[id]
  }

  /** The ids that `prune` removes. */
  function Removed(s: Session): map<Id, Record> {
    map id | id in s.records && !Retained(s, id, s.records[id]) :: s.records[id]
  }

  function Prune(s: Session): Session {
    var gone := Removed(s);
    s.(records := Pruned(s), dropped := s.dropped + Senders(gone, s.nextId))
  }

  function Register(s: Session, content: seq<string>): Session {
    var id := s.nextId + 1;
    var pruned := Prune(s.(nextId := id, latest := Some(id)));
    pruned.(records := pruned.records[id := Record(content, Pending, None, None)])
  }

  function Track(s: Session, id: Id, task: TaskHandle, sender: Option<Sender>): Session {
    if id in s.records then
      s.(records := s.records[id := s.records[id].(task := Some(task), sender := sender)],
         dropped := s.dropped + Held(s.records[id].sender))
    else s.(dropped := s.dropped + Held(sender))
  }

  /** The record state after a settlement, and whether it changed. */
  function Settled(old_: State, state: State): (State, bool) {
    if old_.Disconnected? then
      if old_.evidence.None? && state.Accepted? then (Disconnected(Some(state.receipt)), true)
      else (old_, false)
    else (state, true)
  }

  function Settle(s: Session, id: Id, state: State): (Session, bool) {
    if id in s.records then
      var r := s.records[id];
      var (state', changed) := Settled(r.state, state);
      (Prune(s.(records := s.records[id := r.(state := state', sender := None)],
                dropped := s.dropped + Held(r.sender))), changed)
    else (Prune(s), false)
  }

  function Severed(r: Record): Record
    requires IsUnsettled(r)
  {
    r.(state := Disconnected(if r.state.Accepted? then Some(r.state.receipt) else None), sender := None)
  }

  function SeveredAll(records: map<Id, Record>): map<Id, Record> {
    map id | id in records :: if IsUnsettled(records[id]) then Severed(records[id]) else records[id]
  }

  function Unsettled(records: map<Id, Record>): map<Id, Record> {
    map id | id in records && IsUnsettled(records[id]) :: records[id]
  }

  function Disconnect(s: Session): (Session, seq<Id>) {
    if !s.transport.ByReceipt? then (s, [])
    else
      var changed := Unsettled(s.records);
      (s.(records := SeveredAll(s.records), fired := s.fired + Senders(changed, s.nextId)),
       Ascending(changed, s.nextId))
  }

  predicate Echoes(r: Record, messageId: string) {
    r.state.Accepted? && r.state.receipt.messageId == messageId && !r.state.echoed
  }

  function Echoed(records: map<Id, Record>, messageId: string): map<Id, Record> {
    map id | id in records ::
      if Echoes(records[id], messageId) then records[id].(state := Accepted(records[id].state.receipt, true))
      else records[id]
  }

  function Echoing(records: map<Id, Record>, messageId: string): map<Id, Record> {
    map id | id in records && Echoes(records[id], messageId) :: records[id]
  }

  function ObserveEcho(s: Session, messageId: string): (Session, seq<Id>) {
    (Prune(s.(records := Echoed(s.records, messageId))), Ascending(Echoing(s.records, messageId), s.nextId))
  }

  function Forget(s: Session, id: Id): (Session, bool) {
    if id !in s.records || IsUnsettled(s.records[id]) then (s, false)
    else
      (s.(records := s.records - {id},
          latest := if s.latest == Some(id) then None else s.latest,
          dropped := s.dropped + Held(s.records[id].sender)), true)
  }

  datatype Op =
    | DoRegister(content: seq<string>)
    | DoTrack(id: Id, task: TaskHandle, sender: Option<Sender>)
    | DoSettle(id: Id, state: State)
    | DoDisconnect
    | DoEcho(messageId: string)
    | DoForget(id: Id)

  function Next(s: Session, op: Op): Session {
    match op
    case DoRegister(content) => Register(s, content)
    case DoTrack(id, task, sender) => Track(s, id, task, sender)
    case DoSettle(id, state) => Settle(s, id, state).0
    case DoDisconnect => Disconnect(s).0
    case DoEcho(messageId) => ObserveEcho(s, messageId).0
    case DoForget(id) => Forget(s, id).0
  }

  function Run(s: Session, ops: seq<Op>): Session {
    if ops == [] then s else Next(Run(s, ops[..|ops| - 1]), ops[|ops| - 1])
  }
}
