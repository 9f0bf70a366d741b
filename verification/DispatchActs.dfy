// What each act of Dispatch does, written over the columns of the rows.
module DispatchActs {
  import opened Wrappers
  import opened Dispatch
  import R = Receipts

  // ---------- The dispatcher ----------

  // Before the claim: an active activation of this publication, and then no attempt at all.
  lemma ReadsExactly(rows: Rows, x: nat)
    ensures DispatcherMove(rows, None, ReadActivation(x)) ==
      Dispatched(rows, if x < |rows.activations| && rows.activations[x].status == Active && rows.activations[x].own
                       then Some(SawActivation(x)) else None, false)
    ensures DispatcherMove(rows, Some(SawActivation(x)), ReadAttempts) ==
      Dispatched(rows, if |rows.attempts| == 0 then Some(Cleared(x)) else None, false)
  {
  }

  ghost predicate ClaimApplies(rows: Rows, x: nat, fate: Fate) {
    && rows.publication.status == Scheduled && fate != Lost
    && x < |rows.activations| && rows.activations[x].status == Active && rows.activations[x].own
  }

  // A claim changes exactly the status of the publication and of the activation, and adds one started attempt that
  // carries nothing yet.
  lemma ClaimsExactly(rows: Rows, x: nat, fate: Fate)
    ensures var moved := DispatcherMove(rows, Some(Cleared(x)), CommitClaim(fate));
      && !moved.called
      && (!ClaimApplies(rows, x, fate) ==> moved.rows == rows && moved.pc == None)
      && (ClaimApplies(rows, x, fate) ==>
            && moved.rows.publication == Publication(Publishing, rows.publication.pin)
            && moved.rows.attempts ==
                 rows.attempts + [Attempt(Buffer, Started, None, None, None, R.Document(R.NotAList, None))]
            && moved.rows.events == rows.events
            && moved.rows.activations == rows.activations[x := Activation(Consumed, true)]
            && moved.pc == if fate == Acknowledged then Some(Claimed(|rows.attempts|)) else None)
  {
  }

  // The sole attempt, still started under a publishing row.
  ghost predicate Alone(rows: Rows, mine: nat) {
    && mine == 0 && |rows.attempts| == 1
    && rows.attempts[0].provider == Buffer && rows.attempts[0].status == Started
    && rows.publication.status == Publishing
  }

  // Both checks must pass before the mutation; one that fails leads to the failure record and never to the provider.
  lemma ChecksExactly(rows: Rows, mine: nat, valid: bool)
    ensures DispatcherMove(rows, Some(Claimed(mine)), Verify(valid)) ==
      Dispatched(rows, Some(if valid && Alone(rows, mine) then Verified(mine) else Failing(mine)), false)
    ensures DispatcherMove(rows, Some(Verified(mine)), VerifyAgain(valid)) ==
      Dispatched(rows, Some(if valid && Alone(rows, mine) then Ready(mine) else Failing(mine)), false)
  {
  }

  // The provider is called by a ready dispatcher that mutates, and by nothing else.
  lemma CallsExactly(rows: Rows, pc: Option<Dispatcher>, act: DispatcherAct)
    ensures DispatcherMove(rows, pc, act).called <==> act.Mutate? && pc.Some? && pc.value.Ready?
    ensures act.Mutate? && pc.Some? && pc.value.Ready? ==>
      DispatcherMove(rows, pc, act) == Dispatched(rows, Some(Answered(pc.value.mine, act.outcome)), true)
    ensures act.Crash? ==> DispatcherMove(rows, pc, act) == Dispatched(rows, None, false)
  {
  }

  ghost predicate Fits(pc: Option<Dispatcher>, act: DispatcherAct) {
    match act
    case ReadActivation(_) => pc.None?
    case ReadAttempts => pc.Some? && pc.value.SawActivation?
    case CommitClaim(_) => pc.Some? && pc.value.Cleared?
    case Verify(_) => pc.Some? && pc.value.Claimed?
    case VerifyAgain(_) => pc.Some? && pc.value.Verified?
    case Mutate(_) => pc.Some? && pc.value.Ready?
    case CommitResult(_) => pc.Some? && Reports(pc.value)
    case Crash => true
  }

  ghost predicate Reports(pc: Dispatcher) { pc.Failing? || pc.Answered? || pc.Recovering? }

  lemma UnfitDoesNothing(rows: Rows, pc: Option<Dispatcher>, act: DispatcherAct)
    requires !Fits(pc, act)
    ensures DispatcherMove(rows, pc, act) == Dispatched(rows, pc, false)
  {
  }

  // A definitive answer: the checks failed, the provider refused, or it posted an error.
  ghost predicate Definitive(pc: Dispatcher) {
    match pc
    case Failing(_) => true
    case Answered(_, Rejected) => true
    case Answered(_, Posted(ProviderError, _, _)) => true
    case _ => false
  }

  ghost predicate ResultApplies(rows: Rows, mine: nat, fate: Fate) {
    && rows.publication.status == Publishing && fate != Lost
    && mine < |rows.attempts| && rows.attempts[mine].provider == Buffer && rows.attempts[mine].status == Started
  }

  // The operation id and the link that the dispatcher has to record.
  ghost predicate Posts(pc: Dispatcher) { (pc.Answered? || pc.Recovering?) && pc.outcome.Posted? }

  // What a result records: failed if and only if the answer is definitive, and unknown in every other case, recovery
  // included; the operation of a post is kept either way. Nothing else changes.
  lemma RecordsExactly(rows: Rows, pc: Dispatcher, fate: Fate)
    requires Reports(pc)
    ensures var moved := DispatcherMove(rows, Some(pc), CommitResult(fate));
      && !moved.called
      && (!ResultApplies(rows, pc.mine, fate) ==> moved.rows == rows)
      && (ResultApplies(rows, pc.mine, fate) ==>
            && moved.rows.events == rows.events && moved.rows.activations == rows.activations
            && moved.rows.publication ==
                 Publication(if Definitive(pc) then PublishFailed else PublishUnknown, rows.publication.pin)
            && moved.rows.attempts ==
                 rows.attempts[pc.mine := Attempt(
                   Buffer, if Definitive(pc) then Failed else Unknown,
                   if Posts(pc) then Some(pc.outcome.operation) else rows.attempts[pc.mine].operation,
                   rows.attempts[pc.mine].pin,
                   if Posts(pc) then pc.outcome.link else rows.attempts[pc.mine].link,
                   R.Document(R.NotAList, None))])
  {
  }

  // A post whose record was not acknowledged is recovered once; everything else ends the dispatcher.
  lemma RecoversExactly(rows: Rows, pc: Dispatcher, fate: Fate)
    requires Reports(pc)
    ensures DispatcherMove(rows, Some(pc), CommitResult(fate)).pc ==
            if pc.Answered? && pc.outcome.Posted? && !(ResultApplies(rows, pc.mine, fate) && fate == Acknowledged)
            then Some(Recovering(pc.mine, pc.outcome)) else None
  {
  }

  // ---------- Entry ----------

  ghost predicate OnlyBuffer(rows: Rows, i: nat) {
    i < |rows.attempts| && forall k :: 0 <= k < |rows.attempts| ==> (rows.attempts[k].provider == Buffer <==> k == i)
  }

  ghost predicate OneOperation(rows: Rows, operation: string) {
    forall k :: 0 <= k < |rows.attempts| && rows.attempts[k].operation.Some? ==>
      rows.attempts[k].operation.value == operation
  }

  // A pin that some row already names; in historical mode the stored link counts as well.
  ghost predicate KnownPin(rows: Rows, i: nat, historical: bool, pin: string) {
    || rows.publication.pin == Some(pin)
    || (exists k :: 0 <= k < |rows.attempts| && rows.attempts[k].pin == Some(pin))
    || (historical && i < |rows.attempts| && rows.attempts[i].link == Some(pin))
  }

  ghost predicate OnePin(rows: Rows, i: nat, historical: bool) {
    forall x, y :: KnownPin(rows, i, historical, x) && KnownPin(rows, i, historical, y) ==> x == y
  }

  ghost predicate MayEnter(rows: Rows, i: nat, historical: bool) {
    && rows.publication.status == PublishUnknown
    && OnlyBuffer(rows, i) && rows.attempts[i].status == Unknown
    && rows.attempts[i].operation.Some? && OneOperation(rows, rows.attempts[i].operation.value)
    && (historical ==> rows.attempts[i].link.Some?) && OnePin(rows, i, historical)
  }

  lemma AtMostOne(s: set<string>)
    ensures |s| <= 1 <==> forall x, y :: x in s && y in s ==> x == y
  {
    if s != {} {
      var x :| x in s;
      if forall y :: y in s ==> x == y {
        assert s == {x};
      } else {
        var y :| y in s && x != y;
        assert |{x, y}| == 2 && {x, y} <= s;
        SubsetIsSmaller({x, y}, s);
      }
    }
  }

  lemma SubsetIsSmaller(a: set<string>, b: set<string>)
    requires a <= b
    ensures |a| <= |b|
  {
    assert b == a + (b - a);
  }

  lemma KnownIs(rows: Rows, i: nat, historical: bool, pin: string)
    requires i < |rows.attempts|
    ensures pin in Known(rows, i, historical) <==> KnownPin(rows, i, historical, pin)
  {
  }

  lemma KnownAtMostOne(rows: Rows, i: nat, historical: bool)
    requires i < |rows.attempts|
    ensures |Known(rows, i, historical)| <= 1 <==> OnePin(rows, i, historical)
  {
    AtMostOne(Known(rows, i, historical));
    forall pin ensures pin in Known(rows, i, historical) <==> KnownPin(rows, i, historical, pin) {
      KnownIs(rows, i, historical, pin);
    }
  }

  lemma OneOperationIs(rows: Rows, i: nat)
    requires i < |rows.attempts| && rows.attempts[i].operation.Some?
    ensures |Operations(rows.attempts)| == 1 <==> OneOperation(rows, rows.attempts[i].operation.value)
  {
    var operations, own := Operations(rows.attempts), rows.attempts[i].operation.value;
    assert own in operations;
    AtMostOne(operations);
    if OneOperation(rows, own) { assert operations == {own}; }
    if |operations| == 1 {
      forall k | 0 <= k < |rows.attempts| && rows.attempts[k].operation.Some?
        ensures rows.attempts[k].operation.value == own
      {
        assert rows.attempts[k].operation.value in operations;
      }
    }
  }

  lemma EntersExactly(rows: Rows, i: nat, historical: bool)
    ensures EntryPasses(rows, i, historical) <==> MayEnter(rows, i, historical)
  {
    if i < |rows.attempts| && rows.attempts[i].operation.Some? {
      KnownAtMostOne(rows, i, historical);
      OneOperationIs(rows, i);
      assert BufferAttempts(rows.attempts) == {i} <==> OnlyBuffer(rows, i) by {
        assert forall k: nat :: k in BufferAttempts(rows.attempts) <==>
          k < |rows.attempts| && rows.attempts[k].provider == Buffer;
      }
    }
  }

  // ---------- The observer ----------

  // Nobody starts without arriving, and only an unknown publication gets as far as a receipt.
  lemma ArrivesExactly(rows: Rows, act: ObserverAct)
    ensures ObserverMove(rows, None, act) ==
      Observed(rows, if !act.Arrive? then None
                     else if rows.publication.status == PublishUnknown then Some(SawUnknown) else Some(Begun(NoTicket)))
  {
  }

  lemma LeavesExactly(rows: Rows, pc: Option<Observer>)
    ensures ObserverMove(rows, pc, Leave) == Observed(rows, None)
    ensures pc.Some? && !pc.value.SawUnknown? ==>
      ObserverMove(rows, pc, Reject) == Observed(rows, Some(Refused(pc.value.ticket)))
  {
  }

  lemma OnlyBufferCounts(rows: Rows, i: nat)
    ensures OnlyBuffer(rows, i) <==> i < |rows.attempts| && BufferAttempts(rows.attempts) == {i}
  {
    assert forall k: nat :: k in BufferAttempts(rows.attempts) <==>
      k < |rows.attempts| && rows.attempts[k].provider == Buffer;
  }

  // A receipt is begun in the document of the only Buffer attempt, and its ticket is the new total.
  lemma BeginsExactly(rows: Rows, i: nat)
    requires OnlyBuffer(rows, i)
    ensures var moved, document := ObserverMove(rows, Some(SawUnknown), BeginReceipt), rows.attempts[i].document;
      && moved.rows == rows.(attempts := rows.attempts[i := rows.attempts[i].(document := R.Begin(document))])
      && moved.pc == Some(Begun(Ticket(i, R.TotalOf(R.Begin(document)))))
  {
    OnlyBufferCounts(rows, i);
    assert HasBuffer(rows.attempts);
  }

  lemma BeginsNothing(rows: Rows)
    requires forall i: nat :: !OnlyBuffer(rows, i)
    ensures ObserverMove(rows, Some(SawUnknown), BeginReceipt) == Observed(rows, Some(Begun(NoTicket)))
  {
    var buffers := BufferAttempts(rows.attempts);
    if |buffers| == 1 {
      var i :| i in buffers;
      assert buffers == {i} by {
        if j :| j in buffers && j != i { SizeOfTwo(buffers, i, j); }
      }
      OnlyBufferCounts(rows, i);
    }
  }

  lemma SizeOfTwo(s: set<nat>, i: nat, j: nat)
    requires i in s && j in s && i != j
    ensures |s| >= 2
  {
    assert s == {i, j} + (s - {i, j});
  }

  // What comes of committing one phase: without a ticket nothing is written, and a missing receipt ends the observer.
  ghost predicate Notes(rows: Rows, ticket: Ticket, change: R.Change, next: Observer, moved: Observed) {
    if ticket.NoTicket? then moved == Observed(rows, Some(next))
    else if ticket.row >= |rows.attempts| then moved == Observed(rows, None)
    else
      var a := rows.attempts[ticket.row];
      var updated := R.WithReceipt(a.document, Some(ticket.sequence), change);
      if updated.Err? then moved == Observed(rows, None)
      else moved == Observed(
        rows.(attempts := rows.attempts[ticket.row := a.(document := updated.value)]), Some(next))
  }

  // The four phases that are committed on the way, with the values each writes.
  lemma PhasesExactly(rows: Rows, ticket: Ticket, target: Target, seen: Observation, choice: Choice)
    ensures Notes(rows, ticket,
      R.Change(Some("PROVIDER_READ_STARTED"), Some(true), None, None, None, None, None, None),
      Reading(ticket, target), ObserverMove(rows, Some(Entered(ticket, target)), StartRead))
    ensures Notes(rows, ticket,
      R.Change(Some("PROVIDER_READ_COMPLETED"), Some(true), Some(true), Some(StatusText(seen)), None, None, None, None),
      ReadDone(ticket, target, seen), ObserverMove(rows, Some(Reading(ticket, target)), FinishRead(seen)))
    ensures Notes(rows, ticket,
      R.Change(Some("FALLBACK_SELECTED"), Some(true), Some(true), Some(StatusText(choice.seen)), Some(true),
        None, None, None),
      FallbackNoted(ticket, target, choice),
      ObserverMove(rows, Some(FallbackChosen(ticket, target, choice)), NoteFallback))
    ensures Notes(rows, ticket,
      R.Change(Some("CAS_STARTED"), Some(true), Some(true), Some(StatusText(choice.seen)), Some(choice.retained),
        None, None, None),
      Casting(ticket, target, choice), ObserverMove(rows, Some(Chosen(ticket, target, choice)), StartCas))
  {
  }

  function StatusText(seen: Observation): string {
    if seen.status == Sent then "sent" else if seen.status == Pending then "pending" else "error"
  }

  // The refusal is noted in the receipt if it is still there; either way the observer is done.
  lemma RefusalExactly(rows: Rows, ticket: Ticket, change: R.Change)
    ensures var moved := ObserverMove(rows, Some(Refused(ticket)), NoteRefusal(change));
      && moved.pc == None
      && (ticket.NoTicket? || ticket.row >= |rows.attempts| ==> moved.rows == rows)
      && (ticket.Ticket? && ticket.row < |rows.attempts| ==>
            var a := rows.attempts[ticket.row];
            var updated := R.WithReceipt(a.document, Some(ticket.sequence), change);
            moved.rows == if updated.Err? then rows
                          else rows.(attempts := rows.attempts[ticket.row := a.(document := updated.value)]))
  {
  }

  lemma EnterExactly(rows: Rows, ticket: Ticket, i: nat, historical: bool)
    ensures ObserverMove(rows, Some(Begun(ticket)), Enter(i, historical)) ==
      Observed(rows, Some(if MayEnter(rows, i, historical)
                          then Entered(ticket, Target(i, rows.attempts[i].operation.value)) else Refused(ticket)))
  {
    EntersExactly(rows, i, historical);
  }

  // The rows still hold the exact post that was entered.
  ghost predicate StillThere(rows: Rows, target: Target, historical: bool) {
    MayEnter(rows, target.attempt, historical) && rows.attempts[target.attempt].operation == Some(target.operation)
  }

  // No other pin than this one is known.
  ghost predicate KnowsOnly(rows: Rows, i: nat, historical: bool, pin: string) {
    forall x :: KnownPin(rows, i, historical, x) ==> x == pin
  }

  ghost predicate KnowsNone(rows: Rows, i: nat, historical: bool) {
    forall x :: !KnownPin(rows, i, historical, x)
  }

  // Which choice a snapshot leads to: it must be of this operation and match in every immutable field. A sent post is
  // confirmed with its own pin, if nothing contradicts it and nobody else has it; without one, with the stored link's
  // pin, if that is known; an error is confirmed if no pin is known; a pending post is noted.
  ghost predicate Leads(rows: Rows, target: Target, seen: Observation, historical: bool, fallback: bool, taken: bool,
                        choice: Choice)
  {
    && StillThere(rows, target, historical)
    && seen.operation == target.operation && seen.matches
    && choice.seen == seen
    && match seen.status
       case Sent =>
         if seen.pin.Some? then
           && choice == Choice(seen, seen.pin, false)
           && !taken && KnowsOnly(rows, target.attempt, historical, seen.pin.value)
         else
           var link := rows.attempts[target.attempt].link;
           && choice == Choice(seen, link, true) && fallback && link.Some?
           && KnownPin(rows, target.attempt, historical, link.value)
           && KnowsOnly(rows, target.attempt, historical, link.value)
       case ProviderError => choice == Choice(seen, None, false) && KnowsNone(rows, target.attempt, historical)
       case Pending => choice == Choice(seen, None, false)
  }

  lemma KnownSets(rows: Rows, i: nat, historical: bool, pin: string)
    requires i < |rows.attempts|
    ensures Known(rows, i, historical) == {} <==> KnowsNone(rows, i, historical)
    ensures Known(rows, i, historical) == {} || Known(rows, i, historical) == {pin} <==>
            KnowsOnly(rows, i, historical, pin)
    ensures Known(rows, i, historical) == {pin} <==>
            KnowsOnly(rows, i, historical, pin) && KnownPin(rows, i, historical, pin)
  {
    var known := Known(rows, i, historical);
    forall x ensures x in known <==> KnownPin(rows, i, historical, x) {
      KnownIs(rows, i, historical, x);
    }
    if KnowsOnly(rows, i, historical, pin) {
      assert known <= {pin};
    }
  }

  // The decision on a snapshot of the post that is still there, for each kind of snapshot.
  lemma SentDecides(rows: Rows, target: Target, seen: Observation, historical: bool, fallback: bool, taken: bool,
                    choice: Choice)
    requires StillThere(rows, target, historical) && StillTargets(rows, target, historical)
    requires seen.operation == target.operation && seen.matches && seen.status == Sent
    ensures Decide(rows, target, seen, historical, fallback, taken) == Some(choice) <==>
            Leads(rows, target, seen, historical, fallback, taken, choice)
  {
    var link := rows.attempts[target.attempt].link;
    if seen.pin.Some? {
      KnownSets(rows, target.attempt, historical, seen.pin.value);
    } else if link.Some? {
      KnownSets(rows, target.attempt, historical, link.value);
    }
  }

  lemma UnsentDecides(rows: Rows, target: Target, seen: Observation, historical: bool, fallback: bool, taken: bool,
                      choice: Choice)
    requires StillThere(rows, target, historical) && StillTargets(rows, target, historical)
    requires seen.operation == target.operation && seen.matches && seen.status != Sent
    ensures Decide(rows, target, seen, historical, fallback, taken) == Some(choice) <==>
            Leads(rows, target, seen, historical, fallback, taken, choice)
  {
    KnownSets(rows, target.attempt, historical, "");
  }

  lemma DecidesExactly(rows: Rows, target: Target, seen: Observation, historical: bool, fallback: bool, taken: bool,
                       choice: Choice)
    ensures Decide(rows, target, seen, historical, fallback, taken) == Some(choice) <==>
            Leads(rows, target, seen, historical, fallback, taken, choice)
  {
    EntersExactly(rows, target.attempt, historical);
    if StillThere(rows, target, historical) && seen.operation == target.operation && seen.matches {
      if seen.status == Sent {
        SentDecides(rows, target, seen, historical, fallback, taken, choice);
      } else {
        UnsentDecides(rows, target, seen, historical, fallback, taken, choice);
      }
    }
  }

  // Which choice is taken is decided by the snapshot and the rows alone; without one the invocation is refused.
  lemma ChoosesExactly(rows: Rows, ticket: Ticket, target: Target, seen: Observation, act: ObserverAct)
    requires act.MakeChoice?
    ensures var moved := ObserverMove(rows, Some(ReadDone(ticket, target, seen)), act);
      && moved.rows == rows
      && (forall choice: Choice :: Leads(rows, target, seen, act.historical, act.fallback, act.taken, choice) ==>
            moved.pc == Some(if choice.retained then FallbackChosen(ticket, target, choice)
                             else Chosen(ticket, target, choice)))
      && ((forall choice: Choice :: !Leads(rows, target, seen, act.historical, act.fallback, act.taken, choice)) ==>
            moved.pc == Some(Refused(ticket)))
  {
    var decided := Decide(rows, target, seen, act.historical, act.fallback, act.taken);
    forall choice: Choice
      ensures decided == Some(choice) <==> Leads(rows, target, seen, act.historical, act.fallback, act.taken, choice)
    {
      DecidesExactly(rows, target, seen, act.historical, act.fallback, act.taken, choice);
    }
    if decided.Some? {
      assert Leads(rows, target, seen, act.historical, act.fallback, act.taken, decided.value);
    }
  }

  // The fallback's pin must still be the only one and not be taken when its receipt has been written.
  lemma ConfirmsExactly(rows: Rows, ticket: Ticket, target: Target, choice: Choice, historical: bool, taken: bool)
    requires choice.pin.Some?
    ensures ObserverMove(rows, Some(FallbackNoted(ticket, target, choice)), ConfirmFallback(historical, taken)) ==
      Observed(rows, Some(
        if StillThere(rows, target, historical) && !taken
           && KnowsOnly(rows, target.attempt, historical, choice.pin.value)
        then Chosen(ticket, target, choice) else Refused(ticket)))
  {
    EntersExactly(rows, target.attempt, historical);
    if StillThere(rows, target, historical) {
      KnownSets(rows, target.attempt, historical, choice.pin.value);
    }
  }

  lemma ArmsExactly(rows: Rows, ticket: Ticket, target: Target, choice: Choice, historical: bool)
    ensures ObserverMove(rows, Some(Casting(ticket, target, choice)), Arm(historical)) ==
      Observed(rows, Some(
        if StillThere(rows, target, historical)
        then Armed(ticket, target, choice, rows.publication.pin, rows.attempts[target.attempt]) else Refused(ticket)))
  {
    EntersExactly(rows, target.attempt, historical);
  }

  // An act that does not fit where the observer stands does nothing.
  ghost predicate ObserverFits(pc: Observer, act: ObserverAct) {
    match act
    case Arrive => false
    case BeginReceipt => pc.SawUnknown?
    case Enter(_, _) => pc.Begun?
    case StartRead => pc.Entered?
    case FinishRead(_) => pc.Reading?
    case MakeChoice(_, _, _) => pc.ReadDone?
    case NoteFallback => pc.FallbackChosen?
    case ConfirmFallback(_, _) => pc.FallbackNoted?
    case StartCas => pc.Chosen?
    case Arm(_) => pc.Casting?
    case CommitChoice(_) => pc.Armed?
    case Reject => !pc.SawUnknown?
    case NoteRefusal(_) => pc.Refused?
    case Leave => true
  }

  lemma UnfitObserverWaits(rows: Rows, pc: Observer, act: ObserverAct)
    requires !ObserverFits(pc, act)
    ensures ObserverMove(rows, Some(pc), act) == Observed(rows, Some(pc))
  {
  }

  // ---------- The last transaction ----------

  // The receipt of the document that was read last, marked as succeeded.
  function Closing(o: Observer): Result<R.Document, R.Error>
    requires o.Armed?
  {
    var code := if o.choice.seen.status == Sent then None
                else if o.choice.seen.status == Pending then Some("BUFFER_FINAL_OUTCOME_PENDING")
                else Some("BUFFER_PROVIDER_FAILED_CONFIRMED");
    R.WithReceipt(o.copy.document, if o.ticket.Ticket? then Some(o.ticket.sequence) else None,
      R.Change(Some("CAS_SUCCEEDED"), Some(true), Some(true), Some(StatusText(o.choice.seen)), Some(o.choice.retained),
        code, None, None))
  }

  ghost predicate CommitApplies(rows: Rows, o: Observer, fate: Fate)
    requires o.Armed?
  {
    && rows.publication.status == PublishUnknown && fate != Lost && Closing(o).Ok?
    && o.target.attempt < |rows.attempts| && rows.attempts[o.target.attempt].status == Unknown
    && rows.attempts[o.target.attempt].operation == Some(o.target.operation)
  }

  // The rows after the commit of each kind of snapshot: what is written to the publication, to the attempt and to the
  // audit. A pin is confirmed for a sent post and for no other.
  ghost predicate Commits(rows: Rows, o: Observer, rows': Rows)
    requires o.Armed? && o.target.attempt < |rows.attempts| && Closing(o).Ok?
  {
    var i, a, seen := o.target.attempt, rows.attempts[o.target.attempt], o.choice.seen;
    var link := if o.choice.retained then o.copy.link else seen.pin;
    && rows'.activations == rows.activations
    && match seen.status
       case Sent =>
         && rows'.publication == Publication(Published, o.choice.pin)
         && rows'.attempts == rows.attempts[i := Attempt(
              a.provider, Succeeded, a.operation, o.choice.pin, link, Closing(o).value)]
         && rows'.events == rows.events + [Event(i, Published, o.choice.pin)]
       case ProviderError =>
         && rows'.publication == Publication(PublishFailed, None)
         && rows'.attempts == rows.attempts[i := Attempt(a.provider, Failed, a.operation, None, link, Closing(o).value)]
         && rows'.events == rows.events + [Event(i, PublishFailed, None)]
       case Pending =>
         && rows'.publication == Publication(PublishUnknown, o.publicationPin)
         && rows'.attempts == rows.attempts[i := Attempt(
              a.provider, Unknown, a.operation, a.pin, link, Closing(o).value)]
         && rows'.events == rows.events
  }

  lemma CommitsExactly(rows: Rows, o: Observer, fate: Fate)
    requires o.Armed? && (o.choice.pin.Some? <==> o.choice.seen.status == Sent)
    ensures var moved := ObserverMove(rows, Some(o), CommitChoice(fate));
      && (!CommitApplies(rows, o, fate) ==> moved.rows == rows)
      && (CommitApplies(rows, o, fate) ==> Commits(rows, o, moved.rows))
      && moved.pc == if CommitApplies(rows, o, fate) && fate == Acknowledged then None else Some(Refused(o.ticket))
  {
  }

  // ---------- Activation and the clerks ----------

  // One activation of any publication at a time; revocation and foreign consumption take only an active one, and
  // consumption by another publication never one of this publication.
  lemma ActivationsExactly(rows: Rows, own: bool, i: nat, consumed: bool)
    ensures Activate(rows, own) ==
      if exists k :: 0 <= k < |rows.activations| && rows.activations[k].status == Active then rows
      else rows.(activations := rows.activations + [Activation(Active, own)])
    ensures Retire(rows, i, consumed) ==
      if i < |rows.activations| && rows.activations[i].status == Active && (rows.activations[i].own ==> !consumed)
      then rows.(activations := rows.activations[i := Activation(if consumed then Consumed else Revoked,
                                                                 rows.activations[i].own)])
      else rows
  {
  }

  // Which statuses may be cancelled and which rescheduled.
  lemma ClerksReadExactly(w: World, c: nat, cancels: bool)
    requires c !in w.clerks
    ensures var status := w.rows.publication.status;
      Next(w, ReadStatus(c, cancels)) ==
      match status
      case Approved => w.(clerks := w.clerks[c := Clerk(Approved, cancels)])
      case Scheduled => w.(clerks := w.clerks[c := Clerk(Scheduled, cancels)])
      case PublishFailed => w.(clerks := w.clerks[c := Clerk(PublishFailed, cancels)])
      case PublishUnknown => if cancels then w.(clerks := w.clerks[c := Clerk(PublishUnknown, true)]) else w
      case _ => w
  {
  }

  // The write looks at nothing but the id: whatever the status is by now, it becomes CANCELLED or SCHEDULED. Only the
  // rescheduling of what was read as SCHEDULED leaves it alone.
  lemma ClerksWriteExactly(w: World, c: nat)
    requires c in w.clerks
    ensures var clerk, w' := w.clerks[c], Next(w, WriteStatus(c));
      && w' == w.(rows := w'.rows, clerks := w'.clerks)
      && w'.rows == w.rows.(publication := w'.rows.publication) && w'.rows.publication.pin == w.rows.publication.pin
      && (clerk.cancels ==> w'.rows.publication.status == Cancelled)
      && (!clerk.cancels && clerk.seen != Scheduled ==> w'.rows.publication.status == Scheduled)
      && (!clerk.cancels && clerk.seen == Scheduled ==> w'.rows == w.rows)
      && c !in w'.clerks && forall e :: e != c ==> Get(w'.clerks, e) == Get(w.clerks, e)
  {
  }

  // A step of the world is one move: it changes the rows, one place, and the number of calls if it called.
  lemma StepsExactly(w: World, k: nat, act: DispatcherAct, observerAct: ObserverAct)
    ensures var moved, w' := DispatcherMove(w.rows, Get(w.dispatchers, k), act), Next(w, Dispatches(k, act));
      && w'.rows == moved.rows && Get(w'.dispatchers, k) == moved.pc
      && w'.calls == w.calls + (if moved.called then 1 else 0)
      && w'.observers == w.observers && w'.clerks == w.clerks
      && forall e :: e != k ==> Get(w'.dispatchers, e) == Get(w.dispatchers, e)
    ensures var moved, w' := ObserverMove(w.rows, Get(w.observers, k), observerAct), Next(w, Observes(k, observerAct));
      && w'.rows == moved.rows && Get(w'.observers, k) == moved.pc
      && w'.calls == w.calls && w'.dispatchers == w.dispatchers && w'.clerks == w.clerks
      && forall e :: e != k ==> Get(w'.observers, e) == Get(w.observers, e)
  {
  }

  // Another writer can leave any rows with all the attempts still there, and none with fewer.
  lemma OthersExactly(w: World, rows: Rows)
    ensures Next(w, Foreign(rows)) == if |rows.attempts| < |w.rows.attempts| then w else w.(rows := rows)
  {
  }
}
