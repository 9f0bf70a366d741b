// The transactions of Dispatch as the services write them: guarded updates, row counts, commit and rollback.
module DispatchSession {
  import opened Wrappers
  import opened Dispatch
  import R = Receipts

  function PersistOnce(rows: Rows, mine: nat, outcome: Option<Outcome>, recovery: bool, fate: Fate): Rows {
    if CanPersist(rows, mine) && fate != Lost then Persist(rows, mine, outcome, recovery) else rows
  }

  // One result transaction and, for a provider result only, at most one recovery transaction.
  function Persisted(rows: Rows, mine: nat, outcome: Option<Outcome>, recovery: bool, first: Fate, second: Fate): Rows {
    var once := PersistOnce(rows, mine, outcome, recovery, first);
    if (CanPersist(rows, mine) && first == Acknowledged) || recovery || outcome.None? || !outcome.value.Posted?
    then once
    else PersistOnce(once, mine, outcome, true, second)
  }

  // A provider result keeps its operation id unless both transactions are lost, and recovery never overwrites an
  // outcome whose acknowledgement alone was lost.
  lemma OperationKeptUnlessBothLost(rows: Rows, mine: nat, outcome: Outcome, first: Fate, second: Fate)
    requires CanPersist(rows, mine) && outcome.Posted? && rows.attempts[mine].operation.None?
    ensures var after := Persisted(rows, mine, Some(outcome), false, first, second);
      && (after.attempts[mine].operation == Some(outcome.operation) <==> !(first == Lost && second == Lost))
      && (first != Lost ==> after == Persist(rows, mine, Some(outcome), false))
      && (first == Lost && second == Lost ==> after == rows)
      && (first == Lost && second != Lost ==>
            after.publication.status == PublishUnknown && after.attempts[mine].status == Unknown)
  {
  }

  // The recursion is a step's result transaction followed, where the steps recover, by a second one.
  lemma PersistedIsTwoSteps(w: World, d: nat, first: Fate, second: Fate)
    requires d in w.dispatchers && w.dispatchers[d].Answered?
    ensures var pc := w.dispatchers[d];
      Next(Next(w, Dispatches(d, CommitResult(first))), Dispatches(d, CommitResult(second))).rows
        == Persisted(w.rows, pc.mine, Some(pc.outcome), false, first, second)
  {
    var pc := w.dispatchers[d];
    var once := PersistOnce(w.rows, pc.mine, Some(pc.outcome), false, first);
    var between := Next(w, Dispatches(d, CommitResult(first)));
    assert between.rows == once;
    assert d in between.dispatchers ==> between.dispatchers[d] == Recovering(pc.mine, pc.outcome);
  }

  class Database {
    var publication: Publication
    var attempts: seq<Attempt>
    var events: seq<Event>
    var activations: seq<Activation>

    function Committed(): Rows
      reads this
    {
      Rows(publication, attempts, events, activations)
    }

    method Rollback(to: Rows)
      modifies this
      ensures Committed() == to
    {
      publication, attempts, events, activations := to.publication, to.attempts, to.events, to.activations;
    }

    method AtomicAuthorizedClaim(activation: nat, fate: Fate) returns (attempt: Option<nat>)
      modifies this
      ensures Committed() ==
        if CanClaim(old(Committed()), activation) && fate != Lost then Claim(old(Committed()), activation)
        else old(Committed())
      ensures attempt ==
        if CanClaim(old(Committed()), activation) && fate == Acknowledged then Some(|old(attempts)|) else None
    {
      var before := Committed();
      if publication.status != Scheduled { return None; }
      publication := publication.(status := Publishing);
      if activation >= |activations| || activations[activation].status != Active || !activations[activation].own {
        Rollback(before);
        return None;
      }
      activations := activations[activation := activations[activation].(status := Consumed)];
      attempts := attempts + [FRESH];
      if fate == Lost {
        Rollback(before);
        return None;
      }
      attempt := if fate == Acknowledged then Some(|attempts| - 1) else None;
    }

    method PersistResult(mine: nat, outcome: Option<Outcome>, recovery: bool, first: Fate, second: Fate)
      returns (persisted: bool)
      modifies this
      ensures Committed() == Persisted(old(Committed()), mine, outcome, recovery, first, second)
      ensures persisted <==> CanPersist(old(Committed()), mine) && first == Acknowledged
      decreases !recovery
    {
      var before := Committed();
      var failure := RecordsFailure(outcome, recovery);
      var conflict := publication.status != Publishing;
      if !conflict {
        publication := publication.(status := if failure then PublishFailed else PublishUnknown);
        conflict := mine >= |attempts| || attempts[mine].provider != Buffer || attempts[mine].status != Started;
      }
      if !conflict {
        var attempt := attempts[mine].(
          status := if failure then Failed else Unknown, document := R.Document(R.NotAList, None));
        if outcome.Some? && outcome.value.Posted? {
          attempt := attempt.(operation := Some(outcome.value.operation), link := outcome.value.link);
        }
        attempts := attempts[mine := attempt];
      }
      if !conflict && first == Acknowledged { return true; }
      if conflict || first == Lost {
        Rollback(before);
      }
      if outcome.Some? && outcome.value.Posted? && !recovery {
        var _ := PersistResult(mine, outcome, true, second, second);
      }
      persisted := false;
    }

    // The last transaction of reconcile_buffer.
    method SettleObservation(o: Observer, fate: Fate)
      requires o.Armed?
      modifies this
      ensures Committed() ==
        if Settle(old(Committed()), o).Some? && fate != Lost then Settle(old(Committed()), o).value
        else old(Committed())
    {
      var before := Committed();
      var i, pin, terminal := o.target.attempt, o.choice.pin, o.choice.seen.status != Pending;
      var status := if pin.Some? then Published else if terminal then PublishFailed else PublishUnknown;
      if publication.status != PublishUnknown { return; }
      publication := Publication(status, if terminal then pin else o.publicationPin);
      var metadata := R.WithReceipt(o.copy.document, TicketSequence(o.ticket), SettleChange(o.choice));
      if metadata.Err? || i >= |attempts|
        || attempts[i].status != Unknown || attempts[i].operation != Some(o.target.operation)
      {
        Rollback(before);
        return;
      }
      var attempt := attempts[i].(
        link := if o.choice.retained then o.copy.link else o.choice.seen.pin, document := metadata.value);
      if terminal {
        attempt := attempt.(status := if pin.Some? then Succeeded else Failed, pin := pin);
      }
      attempts := attempts[i := attempt];
      if terminal {
        events := events + [Event(i, status, pin)];
      }
      if fate == Lost {
        Rollback(before);
      }
    }
  }
}
