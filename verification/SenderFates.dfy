/** Which operation decides the fate of a disconnect sender, over every run. */
module SenderFates {
  import opened Wrappers
  import opened Submissions
  import opened SubmissionTheorems

  datatype Fate = Holds | Fires | Drops

  /** A disconnect fires the sender of an unsettled record; settling, tracking again or removing the record drops it. */
  function FateAt(s: Session, op: Op, id: Id): Fate
    requires id in s.records
  {
    match op
    case DoDisconnect => if s.transport.ByReceipt? && IsUnsettled(s.records[id]) then Fires else Holds
    case DoSettle(i, _) => if i == id then Drops else Holds
    case DoTrack(i, _, _) => if i == id then Drops else Holds
    case _ => if Removes(s, op, id) then Drops else Holds
  }

  /** What the first deciding operation of `ops` does to the sender that `id` holds in `s`. */
  function FateIn(s: Session, ops: seq<Op>, id: Id): Fate {
    if ops == [] then Holds
    else
      var before := FateIn(s, ops[..|ops| - 1], id);
      var state := Run(s, ops[..|ops| - 1]);
      if before != Holds || id !in state.records then before else FateAt(state, ops[|ops| - 1], id)
  }

  ghost predicate HasFate(s: Session, id: Id, sender: Sender, fate: Fate) {
    match fate
    case Holds => id in s.records && s.records[id].sender == Some(sender)
    case Fires => sender in s.fired
    case Drops => sender in s.dropped
  }

  lemma SenderIsListed(records: map<Id, Record>, id: Id, n: nat, sender: Sender)
    requires id in records && 1 <= id <= n && records[id].sender == Some(sender)
    ensures sender in Senders(records, n)
  {
  }

  lemma PruneDecides(s: Session, id: Id, sender: Sender)
    requires id in s.records && 1 <= id <= s.nextId && s.records[id].sender == Some(sender)
    ensures HasFate(Prune(s), id, sender, if Retained(s, id, s.records[id]) then Holds else Drops)
    ensures s.dropped <= Prune(s).dropped && Prune(s).fired == s.fired
  {
    if !Retained(s, id, s.records[id]) {
      SenderIsListed(Removed(s), id, s.nextId, sender);
    }
  }

  lemma RegisterDecides(s: Session, content: seq<string>, id: Id, sender: Sender)
    requires Valid(s) && id in s.records && s.records[id].sender == Some(sender)
    ensures HasFate(Register(s, content), id, sender, FateAt(s, DoRegister(content), id))
  {
    assert 1 <= id <= s.nextId;
    PruneDecides(s.(nextId := s.nextId + 1, latest := Some(s.nextId + 1)), id, sender);
  }

  lemma DisconnectDecides(s: Session, id: Id, sender: Sender)
    requires Valid(s) && id in s.records && s.records[id].sender == Some(sender)
    ensures HasFate(Disconnect(s).0, id, sender, FateAt(s, DoDisconnect, id))
  {
    assert 1 <= id <= s.nextId;
    if IsUnsettled(s.records[id]) {
      SenderIsListed(Unsettled(s.records), id, s.nextId, sender);
    }
  }

  lemma EchoDecides(s: Session, messageId: string, id: Id, sender: Sender)
    requires Valid(s) && id in s.records && s.records[id].sender == Some(sender)
    ensures HasFate(ObserveEcho(s, messageId).0, id, sender, FateAt(s, DoEcho(messageId), id))
  {
    assert 1 <= id <= s.nextId && Retained(s, id, s.records[id]);
    var echoed := s.(records := Echoed(s.records, messageId));
    PruneDecides(echoed, id, sender);
  }

  lemma StepDecides(s: Session, op: Op, id: Id, sender: Sender)
    requires Valid(s) && HasFate(s, id, sender, Holds)
    ensures HasFate(Next(s, op), id, sender, FateAt(s, op, id))
  {
    match op
    case DoRegister(content) => RegisterDecides(s, content, id, sender);
    case DoTrack(i, task, other) =>
    case DoSettle(i, state) =>
    case DoDisconnect => DisconnectDecides(s, id, sender);
    case DoEcho(messageId) => EchoDecides(s, messageId, id, sender);
    case DoForget(i) =>
  }

  lemma FateIsFinal(s: Session, op: Op, id: Id, sender: Sender, fate: Fate)
    requires fate != Holds && HasFate(s, id, sender, fate)
    ensures HasFate(Next(s, op), id, sender, fate)
  {
  }

  /** A held sender fires at the first disconnect that finds its record unsettled, unless something drops it before. */
  lemma {:induction false} SenderFate(s: Session, ops: seq<Op>, id: Id, sender: Sender)
    requires Valid(s) && id in s.records && s.records[id].sender == Some(sender)
    ensures HasFate(Run(s, ops), id, sender, FateIn(s, ops, id))
  {
    if ops != [] {
      var before, op := ops[..|ops| - 1], ops[|ops| - 1];
      SenderFate(s, before, id, sender);
      RunKeepsValid(s, before);
      if FateIn(s, before, id) == Holds {
        StepDecides(Run(s, before), op, id, sender);
      } else {
        FateIsFinal(Run(s, before), op, id, sender, FateIn(s, before, id));
      }
    }
  }

  lemma HeldCounts(records: map<Id, Record>, id: Id, n: nat, sender: Sender)
    requires id in records && 1 <= id <= n && records[id].sender == Some(sender)
    ensures HeldUpTo(records, n)[sender] >= 1
  {
  }

  lemma {:induction false} RunConcat(s: Session, a: seq<Op>, b: seq<Op>)
    ensures Run(s, a + b) == Run(Run(s, a), b)
  {
    if b == [] {
      assert a + b == a;
    } else {
      RunConcat(s, a, b[..|b| - 1]);
      assert (a + b)[..|a + b| - 1] == a + b[..|b| - 1];
    }
  }

  /** In a run that hands the sender in once, it has fired in the end exactly when that is its fate. */
  lemma FiredExactlyWhen(transport: Transport, before: seq<Op>, after: seq<Op>, id: Id, sender: Sender)
    requires HandedIn(before + after)[sender] <= 1
    requires var s := Run(New(transport), before); id in s.records && s.records[id].sender == Some(sender)
    ensures sender in Run(New(transport), before + after).fired <==>
            FateIn(Run(New(transport), before), after, id) == Fires
  {
    var s := Run(New(transport), before);
    var end := Run(New(transport), before + after);
    RunConcat(New(transport), before, after);
    EveryRunIsValid(transport, before);
    EveryRunIsValid(transport, before + after);
    SenderFate(s, after, id, sender);
    SenderFiresAtMostOnce(transport, before + after, sender);
    if FateIn(s, after, id) == Holds {
      HeldCounts(end.records, id, end.nextId, sender);
    }
    assert sender in end.fired <==> sender in multiset(end.fired);
    assert sender in end.dropped <==> sender in multiset(end.dropped);
  }
}
