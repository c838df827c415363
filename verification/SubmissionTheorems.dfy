/** What holds of the submission table over every run of its operations. */
module SubmissionTheorems {
  import opened Wrappers
  import opened Submissions

  /** Ids are 1 to `nextId`, a set latest id is the newest one, and nothing kept is superfluous. */
  ghost predicate Valid(s: Session) {
    && (forall id | id in s.records :: 1 <= id <= s.nextId)
    && (s.latest.Some? ==> s.latest.value == s.nextId && s.nextId in s.records)
    && (forall id | id in s.records :: Retained(s, id, s.records[id]))
  }

  lemma PruneIsNoOp(s: Session)
    requires forall id | id in s.records :: Retained(s, id, s.records[id])
    ensures Prune(s) == s
  {
    assert Removed(s) == map[];
    NoSenders(s.nextId);
    assert s.dropped + [] == s.dropped;
    assert Pruned(s) == s.records;
  }

  lemma NoSenders(n: nat)
    ensures Senders(map[], n) == [] && Ascending(map[], n) == []
  {
  }

  lemma StepKeepsValid(s: Session, op: Op)
    requires Valid(s)
    ensures Valid(Next(s, op))
  {
  }

  lemma {:induction false} RunKeepsValid(s: Session, ops: seq<Op>)
    requires Valid(s)
    ensures Valid(Run(s, ops))
  {
    if ops != [] {
      RunKeepsValid(s, ops[..|ops| - 1]);
      StepKeepsValid(Run(s, ops[..|ops| - 1]), ops[|ops| - 1]);
    }
  }

  /** Over every run from a new session the table stays valid. */
  lemma EveryRunIsValid(transport: Transport, ops: seq<Op>)
    ensures Valid(Run(New(transport), ops))
  {
    RunKeepsValid(New(transport), ops);
  }

  // ---------------------------------------------------------------------------
  // Removal
  // ---------------------------------------------------------------------------

  /** Whether a record that is not the newest still has a reason to be kept. */
  predicate WorthKeeping(transport: Transport, r: Record) {
    IsUnsettled(r) || (transport.ByReceipt? && IsRecoverable(r))
  }

  /** Exactly which operation takes which record out of the table. */
  predicate Removes(s: Session, op: Op, id: Id)
    requires id in s.records
  {
    var r := s.records[id];
    match op
    case DoRegister(_) => !WorthKeeping(s.transport, r)
    case DoSettle(i, state) =>
      i == id && s.latest != Some(id) && !WorthKeeping(s.transport, r.(state := Settled(r.state, state).0))
    case DoEcho(messageId) => Echoes(r, messageId) && s.latest != Some(id)
    case DoForget(i) => i == id && !IsUnsettled(r)
    case _ => false
  }

  lemma RemovedExactlyWhen(s: Session, op: Op, id: Id)
    requires Valid(s) && id in s.records
    ensures id !in Next(s, op).records <==> Removes(s, op, id)
  {
    assert Retained(s, id, s.records[id]);
  }

  /** No record disappears while unsettled, except by the very operation that settles it. */
  lemma UnsettledIsNeverLost(s: Session, op: Op, id: Id)
    requires Valid(s) && id in s.records && IsUnsettled(s.records[id])
    requires id !in Next(s, op).records
    ensures || (op.DoSettle? && op.id == id && !IsUnsettled(s.records[id].(state := op.state)))
            || (op.DoEcho? && Echoes(s.records[id], op.messageId))
  {
    RemovedExactlyWhen(s, op, id);
  }

  /** An id that was given out and is not in the table does not come back. */
  lemma {:induction false} IdsAreNeverReused(s: Session, ops: seq<Op>, id: Id)
    requires Valid(s) && id <= s.nextId && id !in s.records
    ensures id !in Run(s, ops).records && s.nextId <= Run(s, ops).nextId
  {
    if ops != [] {
      IdsAreNeverReused(s, ops[..|ops| - 1], id);
      var before := Run(s, ops[..|ops| - 1]);
      RunKeepsValid(s, ops[..|ops| - 1]);
      GoneStaysGone(before, ops[|ops| - 1], id);
    }
  }

  lemma GoneStaysGone(s: Session, op: Op, id: Id)
    requires Valid(s) && id <= s.nextId && id !in s.records
    ensures id !in Next(s, op).records && s.nextId <= Next(s, op).nextId
  {
  }

  // ---------------------------------------------------------------------------
  // Disconnection
  // ---------------------------------------------------------------------------

  /** The evidence the settlements of `ops` give for `id`: the first accepted one. */
  function FirstAccepted(ops: seq<Op>, id: Id): Option<Receipt> {
    if ops == [] then None
    else
      var before := FirstAccepted(ops[..|ops| - 1], id);
      var op := ops[|ops| - 1];
      if before.Some? then before
      else if op.DoSettle? && op.id == id && op.state.Accepted? then Some(op.state.receipt)
      else None
  }

  lemma DisconnectedStep(s: Session, op: Op, id: Id)
    requires Valid(s) && s.transport.ByReceipt?
    requires id in s.records && s.records[id].state.Disconnected?
    requires op != DoForget(id)
    ensures var s' := Next(s, op);
            && s'.transport == s.transport
            && id in s'.records
            && s'.records[id].content == s.records[id].content
            && s'.records[id].state ==
               if s.records[id].state.evidence.None? && op.DoSettle? && op.id == id && op.state.Accepted?
               then Disconnected(Some(op.state.receipt))
               else s.records[id].state
  {
    if op.DoRegister? {
      assert id != s.nextId + 1;
    }
  }

  /**
    Until it is forgotten, a disconnected record stays disconnected, and its
    evidence is what it had or else the first acceptance that still arrived.
   */
  lemma {:induction false} DisconnectedIsAbsorbing(s: Session, ops: seq<Op>, id: Id)
    requires Valid(s) && s.transport.ByReceipt?
    requires id in s.records && s.records[id].state.Disconnected?
    requires DoForget(id) !in ops
    ensures var s' := Run(s, ops);
            && s'.transport == s.transport
            && id in s'.records
            && s'.records[id].content == s.records[id].content
            && s'.records[id].state == Disconnected(
                 if s.records[id].state.evidence.Some? then s.records[id].state.evidence else FirstAccepted(ops, id))
  {
    if ops != [] {
      var before := ops[..|ops| - 1];
      DisconnectedIsAbsorbing(s, before, id);
      RunKeepsValid(s, before);
      assert ops[|ops| - 1] in ops;
      DisconnectedStep(Run(s, before), ops[|ops| - 1], id);
    }
  }

  lemma SecondDisconnectIsIdle(s: Session)
    requires forall id | id in s.records :: !IsUnsettled(s.records[id])
    ensures Disconnect(s) == (s, [])
  {
    assert Unsettled(s.records) == map[];
    NoSenders(s.nextId);
    assert SeveredAll(s.records) == s.records;
    assert s.fired + [] == s.fired;
  }

  /** A disconnect leaves nothing unsettled, reports exactly the ids that were, and repeating it does nothing. */
  lemma DisconnectSettlesEverything(s: Session)
    requires Valid(s) && s.transport.ByReceipt?
    ensures var (s', changed) := Disconnect(s);
            && (forall id | id in s'.records :: !IsUnsettled(s'.records[id]))
            && (forall id :: id in changed <==> id in s.records && IsUnsettled(s.records[id]))
            && (forall i, j | 0 <= i < j < |changed| :: changed[i] < changed[j])
            && Disconnect(s') == (s', [])
  {
    SecondDisconnectIsIdle(Disconnect(s).0);
  }

  lemma SettledThenCut(s: Session, id: Id, receipt: Receipt, echoed: bool)
    requires Valid(s) && s.transport.ByReceipt?
    requires id in s.records && s.records[id].state.Pending?
    ensures var records := Disconnect(Settle(s, id, Accepted(receipt, echoed)).0).0.records;
            if echoed then id !in records || records[id].state == Accepted(receipt, true)
            else
              var cut := s.records[id].(state := Disconnected(Some(receipt)), sender := None);
              records == SeveredAll(s.records)[id := cut]
  {
    var settled := s.(records := s.records[id := s.records[id].(state := Accepted(receipt, echoed), sender := None)],
                      dropped := s.dropped + Held(s.records[id].sender));
    if !echoed {
      PruneIsNoOp(settled);
      assert SeveredAll(settled.records) ==
             SeveredAll(s.records)[id := s.records[id].(state := Disconnected(Some(receipt)), sender := None)];
    }
  }

  lemma CutThenSettled(s: Session, id: Id, receipt: Receipt, echoed: bool)
    requires Valid(s) && s.transport.ByReceipt?
    requires id in s.records && s.records[id].state.Pending?
    ensures Settle(Disconnect(s).0, id, Accepted(receipt, echoed)).0.records ==
            SeveredAll(s.records)[id := s.records[id].(state := Disconnected(Some(receipt)), sender := None)]
  {
  }

  /**
    A receipt racing with a disconnect: whichever comes first, the table ends up
    the same, exactly when the accepted message was not already echoed.
   */
  lemma ReceiptRacesDisconnect(s: Session, id: Id, receipt: Receipt, echoed: bool)
    requires Valid(s) && s.transport.ByReceipt?
    requires id in s.records && s.records[id].state.Pending?
    ensures var settledFirst := Disconnect(Settle(s, id, Accepted(receipt, echoed)).0).0;
            var cutFirst := Settle(Disconnect(s).0, id, Accepted(receipt, echoed)).0;
            && (settledFirst.records == cutFirst.records <==> !echoed)
            && id in cutFirst.records
            && cutFirst.records[id].state == Disconnected(Some(receipt))
  {
    SettledThenCut(s, id, receipt, echoed);
    CutThenSettled(s, id, receipt, echoed);
  }

  // ---------------------------------------------------------------------------
  // Every disconnect sender is held, fired or dropped, and only one of these
  // ---------------------------------------------------------------------------

  function Bag(o: Option<Sender>): multiset<Sender> {
    if o.Some? then multiset{o.value} else multiset{}
  }

  /** The senders held by records 1 to `n`. */
  function HeldUpTo(records: map<Id, Record>, n: nat): multiset<Sender> {
    if n == 0 then multiset{}
    else HeldUpTo(records, n - 1) + if n in records then Bag(records[n].sender) else multiset{}
  }

  lemma SendersAreHeld(records: map<Id, Record>, n: nat)
    ensures multiset(Senders(records, n)) == HeldUpTo(records, n)
  {
  }

  lemma {:induction false} HeldSplits(all: map<Id, Record>, a: map<Id, Record>, b: map<Id, Record>, n: nat)
    requires a.Keys !! b.Keys && all.Keys == a.Keys + b.Keys
    requires forall id | id in all :: all[id] == if id in a then a[id] else b[id]
    ensures HeldUpTo(all, n) == HeldUpTo(a, n) + HeldUpTo(b, n)
  {
    if n > 0 {
      HeldSplits(all, a, b, n - 1);
    }
  }

  lemma HeldBelow(records: map<Id, Record>, id: Id, n: nat)
    requires n < id
    ensures HeldUpTo(records - {id}, n) == HeldUpTo(records, n)
  {
  }

  lemma {:induction false} HeldWithout(records: map<Id, Record>, id: Id, n: nat)
    requires id in records && 1 <= id <= n
    ensures HeldUpTo(records, n) == HeldUpTo(records - {id}, n) + Bag(records[id].sender)
  {
    if id == n {
      HeldBelow(records, id, n - 1);
    } else {
      HeldWithout(records, id, n - 1);
    }
  }

  lemma HeldUpdated(records: map<Id, Record>, id: Id, r: Record, n: nat)
    requires id in records && 1 <= id <= n
    ensures HeldUpTo(records[id := r], n) + Bag(records[id].sender) == HeldUpTo(records, n) + Bag(r.sender)
  {
    HeldWithout(records, id, n);
    HeldWithout(records[id := r], id, n);
    assert records[id := r] - {id} == records - {id};
  }

  lemma HeldSame(a: map<Id, Record>, b: map<Id, Record>, n: nat)
    requires a.Keys == b.Keys && forall id | id in a :: a[id].sender == b[id].sender
    ensures HeldUpTo(a, n) == HeldUpTo(b, n)
  {
  }

  /** All senders the session was ever given, wherever they are now. */
  function Accounted(s: Session): multiset<Sender> {
    multiset(s.fired) + multiset(s.dropped) + HeldUpTo(s.records, s.nextId)
  }

  lemma PruneAccounts(s: Session)
    ensures Accounted(Prune(s)) == Accounted(s)
  {
    SendersAreHeld(Removed(s), s.nextId);
    HeldSplits(s.records, Pruned(s), Removed(s), s.nextId);
  }

  function HandedBy(op: Op): multiset<Sender> {
    if op.DoTrack? then Bag(op.sender) else multiset{}
  }

  function HandedIn(ops: seq<Op>): multiset<Sender> {
    if ops == [] then multiset{} else HandedIn(ops[..|ops| - 1]) + HandedBy(ops[|ops| - 1])
  }

  lemma GrownAccounts(s: Session, id: Id)
    requires Valid(s) && id == s.nextId + 1
    ensures Accounted(s.(nextId := id, latest := Some(id))) == Accounted(s)
  {
  }

  lemma RegisterAccounts(s: Session, content: seq<string>)
    requires Valid(s)
    ensures Accounted(Register(s, content)) == Accounted(s)
  {
    var id := s.nextId + 1;
    var grown := s.(nextId := id, latest := Some(id));
    GrownAccounts(s, id);
    PruneAccounts(grown);
    var pruned := Prune(grown);
    assert id !in pruned.records by { assert id !in s.records; }
    var r := Record(content, Pending, None, None);
    HeldWithNew(pruned.records, id, r);
    assert Register(s, content) == pruned.(records := pruned.records[id := r]);
  }

  lemma HeldWithNew(records: map<Id, Record>, id: Id, r: Record)
    requires id >= 1 && id !in records && r.sender.None?
    ensures HeldUpTo(records[id := r], id) == HeldUpTo(records, id)
  {
    HeldWithout(records[id := r], id, id);
    assert records[id := r] - {id} == records;
  }

  lemma Regroup(fired: multiset<Sender>, dropped: multiset<Sender>, a: multiset<Sender>, b: multiset<Sender>,
                was: multiset<Sender>, now: multiset<Sender>)
    requires a + was == b + now
    ensures fired + (dropped + was) + a == fired + dropped + b + now
  {
    var left, right := fired + (dropped + was) + a, fired + dropped + b + now;
    forall x ensures left[x] == right[x] {
      assert (a + was)[x] == (b + now)[x];
    }
  }

  /** Moving one record's sender to the dropped ones changes nothing in the account. */
  lemma DropAccounts(s: Session, id: Id, r: Record)
    requires Valid(s) && id in s.records
    ensures Accounted(s.(records := s.records[id := r], dropped := s.dropped + Held(s.records[id].sender))) ==
            Accounted(s) + Bag(r.sender)
  {
    var was := s.records[id].sender;
    assert multiset(Held(was)) == Bag(was);
    HeldUpdated(s.records, id, r, s.nextId);
    assert multiset(s.dropped + Held(was)) == multiset(s.dropped) + Bag(was);
    Regroup(multiset(s.fired), multiset(s.dropped), HeldUpTo(s.records[id := r], s.nextId),
            HeldUpTo(s.records, s.nextId), Bag(was), Bag(r.sender));
  }

  lemma SettleAccounts(s: Session, id: Id, state: State)
    requires Valid(s)
    ensures Accounted(Settle(s, id, state).0) == Accounted(s)
  {
    if id in s.records {
      var r := s.records[id];
      var r' := r.(state := Settled(r.state, state).0, sender := None);
      DropAccounts(s, id, r');
      PruneAccounts(s.(records := s.records[id := r'], dropped := s.dropped + Held(r.sender)));
    } else {
      PruneAccounts(s);
    }
  }

  lemma TrackAccounts(s: Session, id: Id, task: TaskHandle, sender: Option<Sender>)
    requires Valid(s)
    ensures Accounted(Track(s, id, task, sender)) == Accounted(s) + Bag(sender)
  {
    if id in s.records {
      DropAccounts(s, id, s.records[id].(task := Some(task), sender := sender));
    } else {
      assert multiset(s.dropped + Held(sender)) == multiset(s.dropped) + Bag(sender);
    }
  }

  lemma ForgetAccounts(s: Session, id: Id)
    requires Valid(s)
    ensures Accounted(Forget(s, id).0) == Accounted(s)
  {
    if id in s.records {
      var was := s.records[id].sender;
      assert multiset(s.dropped + Held(was)) == multiset(s.dropped) + Bag(was);
      HeldWithout(s.records, id, s.nextId);
    }
  }

  lemma DisconnectAccounts(s: Session)
    ensures Accounted(Disconnect(s).0) == Accounted(s)
  {
    var kept := map id | id in s.records && !IsUnsettled(s.records[id]) :: s.records[id];
    var changed := Unsettled(s.records);
    SendersAreHeld(changed, s.nextId);
    HeldSplits(s.records, changed, kept, s.nextId);
    var severed := map id | id in changed :: Severed(changed[id]);
    HeldSplits(SeveredAll(s.records), severed, kept, s.nextId);
    NothingHeld(severed, s.nextId);
    if s.transport.ByReceipt? {
      assert multiset(s.fired + Senders(changed, s.nextId)) == multiset(s.fired) + HeldUpTo(changed, s.nextId);
      AccountOfFired(multiset(s.fired), multiset(s.dropped), HeldUpTo(changed, s.nextId), HeldUpTo(kept, s.nextId));
    }
  }

  lemma AccountOfFired(fired: multiset<Sender>, dropped: multiset<Sender>, a: multiset<Sender>, b: multiset<Sender>)
    ensures (fired + a) + dropped + (multiset{} + b) == fired + dropped + (a + b)
  {
  }

  lemma NothingHeld(records: map<Id, Record>, n: nat)
    requires forall id | id in records :: records[id].sender.None?
    ensures HeldUpTo(records, n) == multiset{}
  {
  }

  lemma EchoAccounts(s: Session, messageId: string)
    ensures Accounted(ObserveEcho(s, messageId).0) == Accounted(s)
  {
    HeldSame(s.records, Echoed(s.records, messageId), s.nextId);
    PruneAccounts(s.(records := Echoed(s.records, messageId)));
  }

  lemma NoneHanded(account: multiset<Sender>)
    ensures account + multiset{} == account
  {
  }

  lemma OtherAccounts(s: Session, op: Op, next: Session)
    requires Valid(s) && !op.DoTrack? && next == Next(s, op)
    ensures Accounted(next) == Accounted(s)
  {
    match op
    case DoRegister(content) => RegisterAccounts(s, content);
    case DoSettle(id, state) => SettleAccounts(s, id, state);
    case DoDisconnect => DisconnectAccounts(s);
    case DoEcho(messageId) => EchoAccounts(s, messageId);
    case DoForget(id) => ForgetAccounts(s, id);
  }

  lemma StepAccounts(s: Session, op: Op, next: Session)
    requires Valid(s) && next == Next(s, op)
    ensures Accounted(next) == Accounted(s) + HandedBy(op)
  {
    if op.DoTrack? {
      TrackAccounts(s, op.id, op.task, op.sender);
    } else {
      OtherAccounts(s, op, next);
      NoneHanded(Accounted(s));
    }
  }

  /** Conservation: in every run, held, fired and dropped senders are exactly those handed in. */
  lemma {:induction false} SendersAreConserved(transport: Transport, ops: seq<Op>)
    ensures Accounted(Run(New(transport), ops)) == HandedIn(ops)
  {
    var s := New(transport);
    if ops == [] {
    } else {
      var before := ops[..|ops| - 1];
      SendersAreConserved(transport, before);
      EveryRunIsValid(transport, before);
      StepAccounts(Run(s, before), ops[|ops| - 1], Run(s, ops));
    }
  }

  /** A sender handed in once fires at most once, and never after it was dropped or while it is held. */
  lemma SenderFiresAtMostOnce(transport: Transport, ops: seq<Op>, sender: Sender)
    requires HandedIn(ops)[sender] <= 1
    ensures var s := Run(New(transport), ops);
            multiset(s.fired)[sender] + multiset(s.dropped)[sender] + HeldUpTo(s.records, s.nextId)[sender] ==
            HandedIn(ops)[sender] <= 1
  {
    SendersAreConserved(transport, ops);
  }
}
