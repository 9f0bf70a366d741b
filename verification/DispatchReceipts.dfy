// What the runs of Dispatch do to the receipt document of an attempt whose outcome is unknown, and when its total
// falls.
module DispatchReceipts {
  import opened Wrappers
  import opened Dispatch
  import opened DispatchAgreement
  import R = Receipts

  // ---------- A step as an operation on the document ----------

  function PhaseOperation(ticket: Ticket, change: R.Change): Option<R.Operation> {
    if ticket.Ticket? && ticket.row == 0 then Some(R.Phase(ticket.sequence, change)) else None
  }

  // The operation of an act on the first attempt's document, if it has one.
  function ActOperation(rows: Rows, pc: Option<Observer>, act: ObserverAct): Option<R.Operation> {
    if act.Leave? || pc.None? then None
    else if pc.value.SawUnknown? then
      if act.BeginReceipt? && BegunBy(rows).pc.value.ticket.Ticket? then Some(R.Begins) else None
    else if act.CommitChoice? then
      if pc.value.Armed? && Settle(rows, pc.value).Some? && act.fate != Lost
      then Some(R.WriteBack(pc.value.copy.document, TicketSequence(pc.value.ticket), SettleChange(pc.value.choice)))
      else None
    else if act.NoteRefusal? then if pc.value.Refused? then PhaseOperation(pc.value.ticket, act.change) else None
    else
      var plan := PhasePlan(pc.value, act);
      if plan.Write? then PhaseOperation(pc.value.ticket, plan.change) else None
  }

  function StepOperation(w: World, s: Step): Option<R.Operation> {
    if s.Observes? then ActOperation(w.rows, Get(w.observers, s.o), s.observerAct) else None
  }

  function Extended(trace: seq<R.Operation>, operation: Option<R.Operation>): seq<R.Operation> {
    if operation.Some? then trace + [operation.value] else trace
  }

  function Trace(w: World, steps: seq<Step>): seq<R.Operation> {
    if steps == [] then []
    else
      var most := steps[..|steps| - 1];
      Extended(Trace(w, most), StepOperation(Run(w, most), steps[|steps| - 1]))
  }

  function DocumentOf(rows: Rows): R.Document {
    if rows.attempts == [] then FRESH.document else rows.attempts[0].document
  }

  function After(document: R.Document, operation: Option<R.Operation>): R.Document {
    if operation.Some? then R.Apply(document, operation.value) else document
  }

  lemma PhaseDocument(rows: Rows, ticket: Ticket, change: R.Change)
    requires |rows.attempts| == 1
    ensures var noted := Phase(rows, ticket, change);
      DocumentOf(if noted.Some? then noted.value else rows) == After(DocumentOf(rows), PhaseOperation(ticket, change))
  {
  }

  lemma SettleDocument(rows: Rows, o: Observer)
    requires |rows.attempts| == 1 && o.Armed? && Settle(rows, o).Some?
    ensures DocumentOf(Settle(rows, o).value) ==
            R.Apply(DocumentOf(rows), R.WriteBack(o.copy.document, TicketSequence(o.ticket), SettleChange(o.choice)))
  {
  }

  lemma ActDocument(rows: Rows, pc: Option<Observer>, act: ObserverAct)
    requires |rows.attempts| == 1
    ensures DocumentOf(ObserverMove(rows, pc, act).rows) == After(DocumentOf(rows), ActOperation(rows, pc, act))
  {
    if pc.Some? && !pc.value.SawUnknown? {
      if act.CommitChoice? {
        if pc.value.Armed? && Settle(rows, pc.value).Some? { SettleDocument(rows, pc.value); }
      } else if act.NoteRefusal? {
        if pc.value.Refused? { PhaseDocument(rows, pc.value.ticket, act.change); }
      } else {
        var plan := PhasePlan(pc.value, act);
        if plan.Write? { PhaseDocument(rows, pc.value.ticket, plan.change); }
      }
    }
  }

  // Once the outcome is unknown, only the observers write to the document.
  lemma StepDocument(w: World, s: Step, p0: Option<string>)
    requires Inv(w, p0) && !s.Foreign? && Stage(w.rows) >= 2
    ensures DocumentOf(Next(w, s).rows) == After(DocumentOf(w.rows), StepOperation(w, s))
  {
    match s {
      case Dispatches(d, act) =>
      case Observes(o, act) => ActDocument(w.rows, Get(w.observers, o), act);
      case _ =>
    }
  }

  // What is written back was read from the row.
  lemma StepReadsWellFormed(w: World, s: Step, p0: Option<string>)
    requires Inv(w, p0)
    ensures var operation := StepOperation(w, s);
      operation.Some? && R.Commits(operation.value) ==> R.WellFormed(operation.value.read)
  {
    var operation := StepOperation(w, s);
    if operation.Some? && R.Commits(operation.value) {
      assert ObserverAgrees(w.observers[s.o], p0);
      UpdateKeepsGood(operation.value.read, operation.value.receipt, operation.value.change);
    }
  }

  // What a run of the protocol has done to the document so far.
  ghost predicate Documents(v: World, document: R.Document, trace: seq<R.Operation>) {
    Stage(v.rows) >= 2 && R.ReadsWellFormed(trace) && DocumentOf(v.rows) == R.Run(document, trace)
  }

  lemma StepDocuments(v: World, s: Step, document: R.Document, trace: seq<R.Operation>, p0: Option<string>)
    requires Inv(v, p0) && !s.Foreign? && Documents(v, document, trace)
    ensures Documents(Next(v, s), document, Extended(trace, StepOperation(v, s)))
  {
    PinsAndStagesOnlyGrow(v, s, p0);
    StepDocument(v, s, p0);
    StepReadsWellFormed(v, s, p0);
    var operation := StepOperation(v, s);
    if operation.Some? {
      R.RunAppends(document, trace, operation.value);
    }
  }

  // The document after a run is the one the run's operations lead to.
  lemma {:induction false} RunDocument(w: World, steps: seq<Step>, p0: Option<string>)
    requires Inv(w, p0) && Orderly(w, steps) && Stage(w.rows) >= 2
    ensures Documents(Run(w, steps), DocumentOf(w.rows), Trace(w, steps))
  {
    if steps != [] {
      var most, last := steps[..|steps| - 1], steps[|steps| - 1];
      RunDocument(w, most, p0);
      RunKeepsInv(w, most, p0);
      StepDocuments(Run(w, most), last, DocumentOf(w.rows), Trace(w, most), p0);
    }
  }

  // ---------- When the total falls ----------

  lemma ArmReadsTheRow(v: World, o: nat, historical: bool, p0: Option<string>)
    requires Inv(v, p0) && o in v.observers && v.observers[o].Casting?
    ensures var w := Next(v, Observes(o, Arm(historical)));
      && w.rows == v.rows && o in w.observers
      && (w.observers[o].Armed? ==> Stage(w.rows) == 2 && w.observers[o].copy.document == DocumentOf(w.rows))
  {
  }

  lemma CommitWrites(w: World, o: nat, fate: Fate, p0: Option<string>)
    requires Inv(w, p0) && Stage(w.rows) >= 2 && o in w.observers && w.observers[o].Armed?
    ensures var settled := Settle(w.rows, w.observers[o]);
      Next(w, Observes(o, CommitChoice(fate))).rows == if settled.Some? && fate != Lost then settled.value else w.rows
    ensures Settle(w.rows, w.observers[o]).Some? ==>
      && R.WellFormed(w.observers[o].copy.document)
      && R.TotalOf(DocumentOf(Settle(w.rows, w.observers[o]).value)) == R.TotalOf(w.observers[o].copy.document)
  {
    var pc := w.observers[o];
    assert ObserverAgrees(pc, p0);
    if Settle(w.rows, pc).Some? {
      UpdateKeepsGood(pc.copy.document, TicketSequence(pc.ticket), SettleChange(pc.choice));
      SettleRestoresItsReading(w.rows, pc);
    }
  }

  // An observer reads the row for its final write, anything happens since, and it commits. The write lowers the
  // receipt total if and only if it applies and the balance of what happened since is above the total it read.
  lemma CommitKeepsTotalIff(v: World, o: nat, historical: bool, since: seq<Step>, fate: Fate, p0: Option<string>)
    requires Inv(v, p0) && o in v.observers && v.observers[o].Casting?
    requires var w := Next(v, Observes(o, Arm(historical)));
      w.observers[o].Armed? && Orderly(w, since) && Get(Run(w, since).observers, o) == Get(w.observers, o)
    ensures var w := Next(v, Observes(o, Arm(historical)));
      var before, read := Run(w, since), R.TotalOf(DocumentOf(w.rows));
      var after := Next(before, Observes(o, CommitChoice(fate)));
      R.TotalOf(DocumentOf(after.rows)) >= R.TotalOf(DocumentOf(before.rows)) <==>
      (Settle(before.rows, w.observers[o]).None? || fate == Lost || R.Balance(read, Trace(w, since)) <= read)
  {
    var w := Next(v, Observes(o, Arm(historical)));
    ArmReadsTheRow(v, o, historical, p0);
    StepKeepsInvIff(v, Observes(o, Arm(historical)), p0);
    RunDocument(w, since, p0);
    RunKeepsInv(w, since, p0);
    var before := Run(w, since);
    CommitWrites(before, o, fate, p0);
    if Settle(before.rows, w.observers[o]).Some? {
      R.TotalIsBalance(DocumentOf(w.rows), Trace(w, since));
    }
  }

  // ---------- A run in which it falls ----------

  // The rows while the outcome of the sole attempt is unknown and `total` receipts have been begun.
  ghost predicate Awaits(rows: Rows, operation: string, total: nat) {
    && rows.publication.status == PublishUnknown && |rows.attempts| == 1
    && rows.attempts[0].provider == Buffer && rows.attempts[0].status == Unknown
    && rows.attempts[0].operation == Some(operation) && rows.attempts[0].pin == None
    && if total == 0 then R.Blank(DocumentOf(rows))
       else R.WellFormed(DocumentOf(rows)) && R.TotalOf(DocumentOf(rows)) == total && R.Kept(DocumentOf(rows)) != []
  }

  ghost predicate Stands(v: World, o: nat, pc: Observer, operation: string, total: nat) {
    Awaits(v.rows, operation, total) && Get(v.observers, o) == Some(pc)
  }

  lemma AwaitingPassesEntry(rows: Rows, operation: string, total: nat)
    requires Awaits(rows, operation, total)
    ensures StillTargets(rows, Target(0, operation), false)
  {
    assert BufferAttempts(rows.attempts) == {0};
    assert Operations(rows.attempts) == {operation} by {
      assert rows.attempts[0].operation.value == operation;
    }
    assert Known(rows, 0, false) == OptionSet(rows.publication.pin);
  }

  lemma AwaitingBegins(rows: Rows, operation: string, total: nat)
    requires Awaits(rows, operation, total)
    ensures Awaits(BegunBy(rows).rows, operation, total + 1)
    ensures BegunBy(rows).pc == Some(Begun(Ticket(0, total + 1)))
  {
    AwaitingPassesEntry(rows, operation, total);
    assert HasBuffer(rows.attempts);
    var document := DocumentOf(rows);
    if total == 0 {
      R.BeginFromBlank(document);
    } else {
      R.BeginKeepsWellFormed(document);
    }
  }

  lemma AwaitingPhase(rows: Rows, change: R.Change, operation: string, total: nat)
    requires Awaits(rows, operation, total) && total > 0
    ensures var noted := Phase(rows, Ticket(0, total), change);
      noted.Some? && Awaits(noted.value, operation, total)
  {
    R.UpdateTouchesOnlyItsReceipt(DocumentOf(rows), total, change);
  }

  // The later run adds steps of this one observer only.
  ghost predicate Extends(w: World, before: seq<Step>, steps: seq<Step>, o: nat) {
    && (Orderly(w, before) ==> Orderly(w, steps))
    && forall e :: e != o ==> Get(Run(w, steps).observers, e) == Get(Run(w, before).observers, e)
  }

  lemma Follow(w: World, before: seq<Step>, o: nat, act: ObserverAct) returns (steps: seq<Step>)
    ensures var v, v' := Run(w, before), Run(w, steps);
      var moved := ObserverMove(v.rows, Get(v.observers, o), act);
      v'.rows == moved.rows && Get(v'.observers, o) == moved.pc
    ensures Extends(w, before, steps, o)
  {
    steps := before + [Observes(o, act)];
    RunAppends(w, before, Observes(o, act));
  }

  lemma FollowBegins(w: World, before: seq<Step>, o: nat, operation: string, total: nat) returns (steps: seq<Step>)
    requires Awaits(Run(w, before).rows, operation, total) && Get(Run(w, before).observers, o) == None
    ensures Stands(Run(w, steps), o, Begun(Ticket(0, total + 1)), operation, total + 1) && Extends(w, before, steps, o)
  {
    var arrived := Follow(w, before, o, Arrive);
    steps := Follow(w, arrived, o, BeginReceipt);
    AwaitingBegins(Run(w, before).rows, operation, total);
  }

  lemma PhaseMoves(rows: Rows, pc: Observer, act: ObserverAct)
    requires !pc.SawUnknown? && PhasePlan(pc, act).Write?
    ensures ObserverMove(rows, Some(pc), act) == PhaseMove(rows, pc, PhasePlan(pc, act))
  {
  }

  lemma PlannedMove(rows: Rows, pc: Observer, plan: Plan, operation: string, total: nat)
    requires Awaits(rows, operation, total) && total > 0
    requires !pc.SawUnknown? && pc.ticket == Ticket(0, total) && plan.Write?
    ensures var moved := PhaseMove(rows, pc, plan);
      Awaits(moved.rows, operation, total) && moved.pc == Some(plan.next)
  {
    AwaitingPhase(rows, plan.change, operation, total);
  }

  lemma AwaitingMoves(rows: Rows, pc: Observer, act: ObserverAct, operation: string, total: nat)
    requires Awaits(rows, operation, total) && total > 0
    requires !pc.SawUnknown? && pc.ticket == Ticket(0, total) && PhasePlan(pc, act).Write?
    ensures var moved := ObserverMove(rows, Some(pc), act);
      Awaits(moved.rows, operation, total) && moved.pc == Some(PhasePlan(pc, act).next)
  {
    PhaseMoves(rows, pc, act);
    PlannedMove(rows, pc, PhasePlan(pc, act), operation, total);
  }

  lemma FollowPhase(w: World, before: seq<Step>, o: nat, pc: Observer, act: ObserverAct, operation: string, total: nat)
    returns (steps: seq<Step>)
    requires Stands(Run(w, before), o, pc, operation, total) && total > 0
    requires !pc.SawUnknown? && pc.ticket == Ticket(0, total) && PhasePlan(pc, act).Write?
    ensures Stands(Run(w, steps), o, PhasePlan(pc, act).next, operation, total) && Extends(w, before, steps, o)
  {
    steps := Follow(w, before, o, act);
    AwaitingMoves(Run(w, before).rows, pc, act, operation, total);
  }

  function PendingChoice(operation: string): Choice {
    Choice(Observation(operation, Pending, None, true), None, false)
  }

  function Aims(total: nat, operation: string, rows: Rows): Observer
    requires rows.attempts != []
  {
    Armed(Ticket(0, total), Target(0, operation), PendingChoice(operation), rows.publication.pin, rows.attempts[0])
  }

  lemma FollowEnter(w: World, before: seq<Step>, o: nat, operation: string, total: nat) returns (steps: seq<Step>)
    requires Stands(Run(w, before), o, Begun(Ticket(0, total)), operation, total)
    ensures Stands(Run(w, steps), o, Entered(Ticket(0, total), Target(0, operation)), operation, total)
    ensures Extends(w, before, steps, o)
  {
    AwaitingPassesEntry(Run(w, before).rows, operation, total);
    steps := Follow(w, before, o, Enter(0, false));
  }

  lemma FollowRead(w: World, before: seq<Step>, o: nat, operation: string, total: nat) returns (steps: seq<Step>)
    requires Stands(Run(w, before), o, Entered(Ticket(0, total), Target(0, operation)), operation, total) && total > 0
    ensures Stands(Run(w, steps), o, ReadDone(Ticket(0, total), Target(0, operation), PendingChoice(operation).seen),
                   operation, total)
    ensures Extends(w, before, steps, o)
  {
    var ticket, target, seen := Ticket(0, total), Target(0, operation), PendingChoice(operation).seen;
    var started := FollowPhase(w, before, o, Entered(ticket, target), StartRead, operation, total);
    steps := FollowPhase(w, started, o, Reading(ticket, target), FinishRead(seen), operation, total);
  }

  lemma FollowChoice(w: World, before: seq<Step>, o: nat, operation: string, total: nat) returns (steps: seq<Step>)
    requires Stands(Run(w, before), o, ReadDone(Ticket(0, total), Target(0, operation), PendingChoice(operation).seen),
                    operation, total)
    ensures Stands(Run(w, steps), o, Chosen(Ticket(0, total), Target(0, operation), PendingChoice(operation)),
                   operation, total)
    ensures Extends(w, before, steps, o)
  {
    AwaitingPassesEntry(Run(w, before).rows, operation, total);
    steps := Follow(w, before, o, MakeChoice(false, false, false));
  }

  lemma FollowCas(w: World, before: seq<Step>, o: nat, operation: string, total: nat) returns (steps: seq<Step>)
    requires Stands(Run(w, before), o, Chosen(Ticket(0, total), Target(0, operation), PendingChoice(operation)),
                    operation, total) && total > 0
    ensures Stands(Run(w, steps), o, Casting(Ticket(0, total), Target(0, operation), PendingChoice(operation)),
                   operation, total)
    ensures Extends(w, before, steps, o)
  {
    var pc := Chosen(Ticket(0, total), Target(0, operation), PendingChoice(operation));
    steps := FollowPhase(w, before, o, pc, StartCas, operation, total);
  }

  lemma AwaitingArms(rows: Rows, operation: string, total: nat)
    requires Awaits(rows, operation, total)
    ensures var moved := ObserverMove(
        rows, Some(Casting(Ticket(0, total), Target(0, operation), PendingChoice(operation))), Arm(false));
      moved.rows == rows && moved.pc == Some(Aims(total, operation, rows))
  {
    AwaitingPassesEntry(rows, operation, total);
  }

  lemma FollowArm(w: World, before: seq<Step>, o: nat, operation: string, total: nat) returns (steps: seq<Step>)
    requires Stands(Run(w, before), o, Casting(Ticket(0, total), Target(0, operation), PendingChoice(operation)),
                    operation, total)
    ensures Awaits(Run(w, steps).rows, operation, total) && Extends(w, before, steps, o)
    ensures Get(Run(w, steps).observers, o) == Some(Aims(total, operation, Run(w, steps).rows))
  {
    AwaitingArms(Run(w, before).rows, operation, total);
    steps := Follow(w, before, o, Arm(false));
  }

  // One observer goes from its receipt through the provider read and its decision to the reading of the row for its
  // final write.
  lemma FollowToArmed(w: World, before: seq<Step>, o: nat, operation: string, total: nat) returns (steps: seq<Step>)
    requires Stands(Run(w, before), o, Begun(Ticket(0, total)), operation, total) && total > 0
    ensures Awaits(Run(w, steps).rows, operation, total) && Extends(w, before, steps, o)
    ensures Get(Run(w, steps).observers, o) == Some(Aims(total, operation, Run(w, steps).rows))
  {
    var entered := FollowEnter(w, before, o, operation, total);
    var finished := FollowRead(w, entered, o, operation, total);
    var chosen := FollowChoice(w, finished, o, operation, total);
    var casting := FollowCas(w, chosen, o, operation, total);
    steps := FollowArm(w, casting, o, operation, total);
  }

  // The first dispatcher stands at `pc`, having claimed the publication, and no observer has arrived.
  ghost predicate Publishes(w: World, steps: seq<Step>, pc: Dispatcher) {
    var v := Run(w, steps);
    && Orderly(w, steps) && v.rows.publication.status == Publishing && v.rows.attempts == [FRESH]
    && Get(v.dispatchers, 0) == Some(pc) && v.observers == map[]
  }

  lemma FollowClaim(w: World, x: nat) returns (steps: seq<Step>)
    requires Untouched(w) && CanClaim(w.rows, x)
    ensures Publishes(w, steps, Claimed(0))
  {
    steps := Claims(w, [], x);
  }

  lemma FollowChecks(w: World, before: seq<Step>) returns (steps: seq<Step>)
    requires Publishes(w, before, Claimed(0))
    ensures Publishes(w, steps, Ready(0))
  {
    var verified := before + [Dispatches(0, Verify(true))];
    steps := verified + [Dispatches(0, VerifyAgain(true))];
    RunAppends(w, before, Dispatches(0, Verify(true)));
    assert Publishes(w, verified, Verified(0));
    RunAppends(w, verified, Dispatches(0, VerifyAgain(true)));
  }

  lemma FollowMutation(w: World, before: seq<Step>, outcome: Outcome) returns (steps: seq<Step>)
    requires Publishes(w, before, Ready(0))
    ensures Publishes(w, steps, Answered(0, outcome))
  {
    steps := before + [Dispatches(0, Mutate(outcome))];
    RunAppends(w, before, Dispatches(0, Mutate(outcome)));
  }

  lemma FollowResult(w: World, before: seq<Step>, operation: string) returns (steps: seq<Step>)
    requires Publishes(w, before, Answered(0, Posted(Pending, operation, None)))
    ensures Orderly(w, steps) && Awaits(Run(w, steps).rows, operation, 0) && Run(w, steps).observers == map[]
  {
    steps := before + [Dispatches(0, CommitResult(Acknowledged))];
    RunAppends(w, before, Dispatches(0, CommitResult(Acknowledged)));
  }

  // The dispatch of a publication whose mutation leaves a pending post.
  lemma DispatchesToUnknown(w: World, x: nat, operation: string) returns (steps: seq<Step>)
    requires Untouched(w) && CanClaim(w.rows, x)
    ensures Orderly(w, steps) && Awaits(Run(w, steps).rows, operation, 0) && Run(w, steps).observers == map[]
  {
    var claimed := FollowClaim(w, x);
    var ready := FollowChecks(w, claimed);
    var answered := FollowMutation(w, ready, Posted(Pending, operation, None));
    steps := FollowResult(w, answered, operation);
  }

  lemma SettlesPending(rows: Rows, pc: Observer, operation: string, total: nat)
    requires Awaits(rows, operation, total)
    requires pc.Armed? && pc.target == Target(0, operation) && pc.choice == PendingChoice(operation)
    requires R.WellFormed(pc.copy.document) && R.Kept(pc.copy.document) != []
    requires pc.ticket == Ticket(0, R.TotalOf(pc.copy.document))
    ensures Settle(rows, pc).Some?
    ensures R.TotalOf(DocumentOf(Settle(rows, pc).value)) == R.TotalOf(pc.copy.document)
  {
    R.UpdateTouchesOnlyItsReceipt(pc.copy.document, pc.ticket.sequence, SettleChange(pc.choice));
    SettleRestoresItsReading(rows, pc);
  }

  // The armed observer commits while another receipt is on file.
  lemma CommitLowers(v: World, o: nat, operation: string, total: nat, read: Rows)
    requires Awaits(v.rows, operation, total + 1) && total > 0 && Awaits(read, operation, total)
    requires Get(v.observers, o) == Some(Aims(total, operation, read))
    ensures var after := Next(v, Observes(o, CommitChoice(Acknowledged)));
      R.TotalOf(DocumentOf(v.rows)) == total + 1 && R.TotalOf(DocumentOf(after.rows)) == total
  {
    SettlesPending(v.rows, Aims(total, operation, read), operation, total + 1);
  }

  // The first observer is armed with one receipt on file, and then the second begins its own.
  lemma TwoReceipts(w: World, x: nat, operation: string) returns (before: seq<Step>, read: Rows)
    requires Untouched(w) && CanClaim(w.rows, x)
    ensures Orderly(w, before) && Awaits(Run(w, before).rows, operation, 2) && Awaits(read, operation, 1)
    ensures Get(Run(w, before).observers, 1) == Some(Aims(1, operation, read))
  {
    var posted := DispatchesToUnknown(w, x, operation);
    var begun := FollowBegins(w, posted, 1, operation, 0);
    var armed := FollowToArmed(w, begun, 1, operation, 1);
    read := Run(w, armed).rows;
    before := FollowBegins(w, armed, 2, operation, 1);
  }

  // Two receipts are begun, and the final write of the first observer brings the total back to one.
  lemma TotalFalls(w: World, x: nat, operation: string) returns (before: seq<Step>, last: Step)
    requires Untouched(w) && CanClaim(w.rows, x)
    ensures Orderly(w, before + [last])
    ensures R.TotalOf(DocumentOf(Run(w, before).rows)) == 2 && R.TotalOf(DocumentOf(Run(w, before + [last]).rows)) == 1
  {
    var read;
    before, read := TwoReceipts(w, x, operation);
    last := Observes(1, CommitChoice(Acknowledged));
    RunAppends(w, before, last);
    CommitLowers(Run(w, before), 1, operation, 1, read);
  }
}
