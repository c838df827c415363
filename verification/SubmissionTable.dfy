/** `SessionSubmissions` as the mutable object it is, refining the state machine. */
module SubmissionTable {
  import opened Wrappers
  import opened Submissions
  import Theorems = SubmissionTheorems

  /** The table once `disconnect` has visited the ids up to `n`. */
  ghost function SeveredUpTo(was: map<Id, Record>, n: nat): map<Id, Record> {
    map id | id in was :: if id <= n && IsUnsettled(was[id]) then Severed(was[id]) else was[id]
  }

  /** What the loop of `disconnect` has done after the ids up to `n`. */
  ghost predicate SeveredSoFar(was: map<Id, Record>, sent: seq<Sender>,
                               records: map<Id, Record>, changed: seq<Id>, fired: seq<Sender>, n: nat)
  {
    && records == SeveredUpTo(was, n)
    && changed == Ascending(Unsettled(was), n)
    && fired == sent + Senders(Unsettled(was), n)
  }

  lemma SeverBegins(was: map<Id, Record>, sent: seq<Sender>)
    requires 0 !in was
    ensures SeveredSoFar(was, sent, was, [], sent, 0)
  {
  }

  lemma TableNext(was: map<Id, Record>, n: nat, id: Id)
    requires id == n + 1
    ensures id in SeveredUpTo(was, n) <==> id in was
    ensures id in was ==> SeveredUpTo(was, n)[id] == was[id]
    ensures SeveredUpTo(was, id) ==
            if id in was && IsUnsettled(was[id]) then SeveredUpTo(was, n)[id := Severed(was[id])]
            else SeveredUpTo(was, n)
  {
  }

  lemma ListsNext(was: map<Id, Record>, n: nat, id: Id)
    requires id == n + 1
    ensures var found := id in was && IsUnsettled(was[id]);
            && Ascending(Unsettled(was), id) == Ascending(Unsettled(was), n) + (if found then [id] else [])
            && Senders(Unsettled(was), id) ==
               Senders(Unsettled(was), n) + (if found then Held(was[id].sender) else [])
  {
    assert id in Unsettled(was) <==> id in was && IsUnsettled(was[id]);
  }

  /** One turn of that loop. */
  lemma SeverNext(was: map<Id, Record>, sent: seq<Sender>,
                  records: map<Id, Record>, changed: seq<Id>, fired: seq<Sender>, n: nat, id: Id)
    requires SeveredSoFar(was, sent, records, changed, fired, n) && id == n + 1
    ensures if id in records && IsUnsettled(records[id]) then
              SeveredSoFar(was, sent, records[id := Severed(records[id])], changed + [id],
                           fired + Held(records[id].sender), id)
            else SeveredSoFar(was, sent, records, changed, fired, id)
  {
    TableNext(was, n, id);
    ListsNext(was, n, id);
    Regroup(sent, Senders(Unsettled(was), n), if id in was then Held(was[id].sender) else []);
  }

  lemma Regroup(a: seq<Sender>, b: seq<Sender>, c: seq<Sender>)
    ensures a + b + c == a + (b + c)
  {
  }

  lemma SeverEnds(was: map<Id, Record>, n: nat)
    requires forall id | id in was :: id <= n
    ensures SeveredUpTo(was, n) == SeveredAll(was)
  {
  }

  class SessionSubmissions {
    const transport: Transport
    var records: map<Id, Record>
    var nextId: nat
    var latest: Option<Id>
    ghost var fired: seq<Sender>
    ghost var dropped: seq<Sender>

    ghost function Model(): Session
      reads this
    {
      Session(transport, records, nextId, latest, fired, dropped)
    }

    ghost predicate Valid()
      reads this
    {
      Theorems.Valid(Model())
    }

    constructor (transport: Transport)
      ensures Valid() && Model() == New(transport)
    {
      this.transport := transport;
      records, nextId, latest := map[], 0, None;
      fired, dropped := [], [];
    }

    method Register(content: seq<string>) returns (id: Id)
      requires Valid()
      modifies this
      ensures Valid() && Model() == Submissions.Register(old(Model()), content)
      ensures id == old(nextId) + 1 && id == nextId && id !in old(records)
    {
      Theorems.StepKeepsValid(Model(), DoRegister(content));
      nextId := nextId + 1;
      id := nextId;
      latest := Some(id);
      PruneRecords();
      records := records[id := Record(content, Pending, None, None)];
    }

    method Track(id: Id, task: TaskHandle, sender: Option<Sender>)
      requires Valid()
      modifies this
      ensures Valid() && Model() == Submissions.Track(old(Model()), id, task, sender)
    {
      if id in records {
        dropped := dropped + Held(records[id].sender);
        records := records[id := records[id].(task := Some(task), sender := sender)];
      } else {
        dropped := dropped + Held(sender);
      }
    }

    method Settle(id: Id, state: State) returns (changed: bool)
      requires Valid()
      modifies this
      ensures Valid() && (Model(), changed) == Submissions.Settle(old(Model()), id, state)
    {
      Theorems.StepKeepsValid(Model(), DoSettle(id, state));
      changed := false;
      if id in records {
        var record := records[id];
        dropped := dropped + Held(record.sender);
        record := record.(sender := None);
        if record.state.Disconnected? {
          if record.state.evidence.None? && state.Accepted? {
            record := record.(state := Disconnected(Some(state.receipt)));
            changed := true;
          }
        } else {
          record := record.(state := state);
          changed := true;
        }
        records := records[id := record];
      }
      PruneRecords();
    }

    method Disconnect() returns (changed: seq<Id>)
      requires Valid()
      modifies this
      ensures Valid() && (Model(), changed) == Submissions.Disconnect(old(Model()))
    {
      Theorems.StepKeepsValid(Model(), DoDisconnect);
      if !transport.ByReceipt? {
        return [];
      }
      changed := SeverRecords();
    }

    /** The loop of `disconnect` over the table in id order. */
    method SeverRecords() returns (changed: seq<Id>)
      requires forall id | id in records :: 1 <= id <= nextId
      modifies this`records, this`fired
      ensures records == SeveredAll(old(records))
      ensures changed == Ascending(Unsettled(old(records)), nextId)
      ensures fired == old(fired) + Senders(Unsettled(old(records)), nextId)
    {
      ghost var was, sent := records, fired;
      changed := [];
      SeverBegins(was, sent);
      for n := 0 to nextId
        invariant SeveredSoFar(was, sent, records, changed, fired, n)
      {
        var id := n + 1;
        SeverNext(was, sent, records, changed, fired, n, id);
        if id in records && IsUnsettled(records[id]) {
          var record := records[id];
          fired := fired + Held(record.sender);
          records := records[id := Severed(record)];
          changed := changed + [id];
        }
      }
      SeverEnds(was, nextId);
    }

    method ObserveEcho(messageId: string) returns (changed: seq<Id>)
      requires Valid()
      modifies this
      ensures Valid() && (Model(), changed) == Submissions.ObserveEcho(old(Model()), messageId)
    {
      Theorems.StepKeepsValid(Model(), DoEcho(messageId));
      changed := EchoRecords(messageId);
      PruneRecords();
    }

    /** The loop of `observe_echo` over the table in id order. */
    method EchoRecords(messageId: string) returns (changed: seq<Id>)
      requires forall id | id in records :: 1 <= id <= nextId
      modifies this`records
      ensures records == Echoed(old(records), messageId)
      ensures changed == Ascending(Echoing(old(records), messageId), nextId)
    {
      ghost var was := records;
      changed := [];
      for id := 1 to nextId + 1
        invariant records.Keys == was.Keys
        invariant forall i | i in was && i < id :: records[i] == Echoed(was, messageId)[i]
        invariant forall i | i in was && i >= id :: records[i] == was[i]
        invariant changed == Ascending(Echoing(was, messageId), id - 1)
      {
        assert id in Echoing(was, messageId) <==> id in records && Echoes(records[id], messageId);
        if id in records && Echoes(records[id], messageId) {
          records := records[id := records[id].(state := Accepted(records[id].state.receipt, true))];
          changed := changed + [id];
        }
      }
      assert records == Echoed(was, messageId);
    }

    method Forget(id: Id) returns (gone: bool)
      requires Valid()
      modifies this
      ensures Valid() && (Model(), gone) == Submissions.Forget(old(Model()), id)
    {
      if id in records && IsUnsettled(records[id]) {
        return false;
      }
      if id !in records {
        return false;
      }
      dropped := dropped + Held(records[id].sender);
      records := records - {id};
      if latest == Some(id) {
        latest := None;
      }
      return true;
    }

    /** `prune`: keep what the retention rule names, dropping the senders of the rest. */
    method PruneRecords()
      requires forall id | id in records :: 1 <= id <= nextId
      modifies this
      ensures Model() == Prune(old(Model()))
    {
      ghost var before := Model();
      for id := 1 to nextId + 1
        invariant Model() == before.(records := records, dropped := dropped)
        invariant forall i :: i in records <==>
                    i in before.records && (i >= id || Retained(before, i, before.records[i]))
        invariant forall i | i in records :: records[i] == before.records[i]
        invariant dropped == before.dropped + Senders(Removed(before), id - 1)
      {
        if id in records && !Retains(id, records[id]) {
          dropped := dropped + Held(records[id].sender);
          records := records - {id};
        }
      }
      assert records == Pruned(before);
    }

    predicate Retains(id: Id, r: Record)
      reads this
      ensures Retains(id, r) <==> Retained(Model(), id, r)
    {
      latest == Some(id) || IsUnsettled(r) || (transport.ByReceipt? && IsRecoverable(r))
    }
  }
}
