// What every committed state of one publication keeps while only this protocol writes its rows.
module DispatchAgreement {
  import opened Wrappers
  import opened Dispatch
  import R = Receipts

  // ---------- The invariant ----------

  ghost predicate GoodDocument(document: R.Document) { R.Blank(document) || R.WellFormed(document) }

  ghost predicate FailureAgrees(p: Publication, a: Attempt, events: seq<Event>, p0: Option<string>) {
    && p.status in {PublishFailed, Scheduled, Cancelled} && p.pin == p0 && a.pin == None
    && (events == [] || (p0 == None && events == [Event(0, PublishFailed, None)]))
  }

  ghost predicate SuccessAgrees(p: Publication, a: Attempt, events: seq<Event>, p0: Option<string>) {
    && p.status == Published && p.pin.Some? && a.pin == p.pin && (p0.Some? ==> p.pin == p0)
    && events == [Event(0, Published, p.pin)]
  }

  // The publication, its sole attempt and the audit events tell one story; `p0` is the pin known at the start.
  ghost predicate Agrees(p: Publication, a: Attempt, events: seq<Event>, p0: Option<string>) {
    && a.provider == Buffer && GoodDocument(a.document)
    && match a.status
       case Started => p == Publication(Publishing, p0) && a.pin == None && events == []
       case Unknown => p.status in {PublishUnknown, Cancelled} && p.pin == p0 && a.pin == None && events == []
       case Failed => FailureAgrees(p, a, events, p0)
       case Succeeded => SuccessAgrees(p, a, events, p0)
  }

  ghost predicate OneActive(activations: seq<Activation>) {
    forall i, j :: 0 <= i < j < |activations| ==> activations[i].status != Active || activations[j].status != Active
  }

  function Spent(activations: seq<Activation>): set<nat> {
    set i | 0 <= i < |activations| && activations[i] == Activation(Consumed, true)
  }

  // Every attempt has consumed exactly one activation of this publication.
  ghost predicate RowsAgree(rows: Rows, p0: Option<string>) {
    && OneActive(rows.activations)
    && |rows.attempts| <= 1 && |Spent(rows.activations)| == |rows.attempts|
    && (rows.attempts == [] ==>
          && rows.publication.status in {Approved, Scheduled, Cancelled} && rows.publication.pin == p0
          && rows.events == [])
    && (rows.attempts != [] ==> Agrees(rows.publication, rows.attempts[0], rows.events, p0))
  }

  // A dispatcher that saw no attempt holds an activation that is spent as soon as there is one.
  ghost predicate DispatcherAgrees(rows: Rows, pc: Dispatcher) {
    && (pc.SawActivation? || pc.Cleared? ==> pc.activation < |rows.activations| && rows.activations[pc.activation].own)
    && (pc.Cleared? && rows.attempts != [] ==> rows.activations[pc.activation].status != Active)
  }

  // The pin an observer is about to write never contradicts the one known at the start.
  ghost predicate ChoiceAgrees(choice: Choice, p0: Option<string>) {
    && (choice.pin.Some? <==> choice.seen.status == Sent)
    && (choice.pin.Some? && p0.Some? ==> choice.pin == p0)
    && (choice.seen.status == ProviderError ==> p0 == None)
  }

  ghost predicate ObserverAgrees(pc: Observer, p0: Option<string>) {
    && (pc.FallbackChosen? || pc.FallbackNoted? || pc.Chosen? || pc.Casting? || pc.Armed? ==>
          ChoiceAgrees(pc.choice, p0))
    && (pc.Armed? ==> pc.publicationPin == p0 && GoodDocument(pc.copy.document))
  }

  ghost predicate Inv(w: World, p0: Option<string>) {
    && RowsAgree(w.rows, p0)
    && (forall d :: d in w.dispatchers ==> DispatcherAgrees(w.rows, w.dispatchers[d]))
    && (forall o :: o in w.observers ==> ObserverAgrees(w.observers[o], p0))
    && (forall c :: c in w.clerks ==> CanMove(w.clerks[c].seen, w.clerks[c].cancels))
  }

  // ---------- Transactions of a dispatcher ----------

  // Rows change without taking from any dispatcher what it relies on.
  ghost predicate Carries(rows: Rows, rows': Rows) {
    forall pc: Dispatcher :: DispatcherAgrees(rows, pc) ==> DispatcherAgrees(rows', pc)
  }

  lemma ClaimKeeps(rows: Rows, x: nat, p0: Option<string>)
    requires RowsAgree(rows, p0) && CanClaim(rows, x) && DispatcherAgrees(rows, Cleared(x))
    ensures rows.attempts == []
    ensures RowsAgree(Claim(rows, x), p0) && Carries(rows, Claim(rows, x))
  {
    var rows' := Claim(rows, x);
    assert Spent(rows'.activations) == Spent(rows.activations) + {x};
    forall pc: Dispatcher | DispatcherAgrees(rows, pc) ensures DispatcherAgrees(rows', pc) {
      if pc.Cleared? && pc.activation != x {
        assert rows.activations[pc.activation].status != Active;
      }
    }
  }

  lemma PersistKeeps(rows: Rows, mine: nat, outcome: Option<Outcome>, recovery: bool, p0: Option<string>)
    requires RowsAgree(rows, p0) && CanPersist(rows, mine)
    ensures RowsAgree(Persist(rows, mine, outcome, recovery), p0)
    ensures Carries(rows, Persist(rows, mine, outcome, recovery))
  {
  }

  // An act leaves the rows in agreement, every dispatcher what it relies on, and this one where it may stand.
  ghost predicate MovesInAgreement(rows: Rows, moved: Dispatched, p0: Option<string>) {
    && RowsAgree(moved.rows, p0) && Carries(rows, moved.rows)
    && (moved.pc.Some? ==> DispatcherAgrees(moved.rows, moved.pc.value))
  }

  lemma ClaimedKeeps(rows: Rows, x: nat, fate: Fate, p0: Option<string>)
    requires RowsAgree(rows, p0) && DispatcherAgrees(rows, Cleared(x))
    ensures MovesInAgreement(rows, ClaimedBy(rows, x, fate), p0)
  {
    if CanClaim(rows, x) { ClaimKeeps(rows, x, p0); }
  }

  lemma ResultKeeps(rows: Rows, pc: Dispatcher, fate: Fate, p0: Option<string>)
    requires RowsAgree(rows, p0) && (pc.Answered? || pc.Failing? || pc.Recovering?)
    ensures MovesInAgreement(rows, ResultOf(rows, pc, fate), p0)
  {
    if CanPersist(rows, pc.mine) {
      PersistKeeps(rows, pc.mine, if pc.Failing? then None else Some(pc.outcome), pc.Recovering?, p0);
    }
  }

  lemma DispatcherKeeps(rows: Rows, pc: Option<Dispatcher>, act: DispatcherAct, p0: Option<string>)
    requires RowsAgree(rows, p0) && (pc.Some? ==> DispatcherAgrees(rows, pc.value))
    ensures MovesInAgreement(rows, DispatcherMove(rows, pc, act), p0)
  {
    if act.CommitClaim? {
      if pc.Some? && pc.value.Cleared? { ClaimedKeeps(rows, pc.value.activation, act.fate, p0); }
    } else if act.CommitResult? {
      if pc.Some? && (pc.value.Answered? || pc.value.Failing? || pc.value.Recovering?) {
        ResultKeeps(rows, pc.value, act.fate, p0);
      }
    }
  }

  // ---------- Transactions on activations ----------

  lemma ActivateKeeps(rows: Rows, own: bool, p0: Option<string>)
    requires RowsAgree(rows, p0)
    ensures RowsAgree(Activate(rows, own), p0) && Carries(rows, Activate(rows, own))
  {
    assert Spent(Activate(rows, own).activations) == Spent(rows.activations);
  }

  lemma RetireKeeps(rows: Rows, i: nat, consumed: bool, p0: Option<string>)
    requires RowsAgree(rows, p0)
    ensures RowsAgree(Retire(rows, i, consumed), p0) && Carries(rows, Retire(rows, i, consumed))
  {
    assert Spent(Retire(rows, i, consumed).activations) == Spent(rows.activations);
  }

  // ---------- Transactions of an observer ----------

  lemma WithDocumentKeeps(rows: Rows, i: nat, document: R.Document, p0: Option<string>)
    requires RowsAgree(rows, p0) && i < |rows.attempts| && GoodDocument(document)
    ensures RowsAgree(WithDocument(rows, i, document), p0) && Carries(rows, WithDocument(rows, i, document))
  {
  }

  lemma UpdateKeepsGood(document: R.Document, sequence: Option<int>, change: R.Change)
    requires GoodDocument(document) && R.WithReceipt(document, sequence, change).Ok?
    ensures R.WellFormed(document) && R.WellFormed(R.WithReceipt(document, sequence, change).value)
  {
    if R.WellFormed(document) {
      R.UpdateTouchesOnlyItsReceipt(document, sequence.value, change);
    }
  }

  lemma BeginKeepsGood(document: R.Document)
    requires GoodDocument(document)
    ensures R.WellFormed(R.Begin(document))
  {
    if R.Blank(document) {
      R.BeginFromBlank(document);
    } else {
      R.BeginKeepsWellFormed(document);
    }
  }

  lemma PhaseKeeps(rows: Rows, ticket: Ticket, change: R.Change, p0: Option<string>)
    requires RowsAgree(rows, p0) && Phase(rows, ticket, change).Some?
    ensures RowsAgree(Phase(rows, ticket, change).value, p0) && Carries(rows, Phase(rows, ticket, change).value)
  {
    if ticket.Ticket? {
      var document := rows.attempts[ticket.row].document;
      UpdateKeepsGood(document, Some(ticket.sequence), change);
      WithDocumentKeeps(rows, ticket.row, R.WithReceipt(document, Some(ticket.sequence), change).value, p0);
    }
  }

  lemma SettleKeeps(rows: Rows, o: Observer, p0: Option<string>)
    requires RowsAgree(rows, p0) && o.Armed? && ObserverAgrees(o, p0) && Settle(rows, o).Some?
    ensures RowsAgree(Settle(rows, o).value, p0) && Carries(rows, Settle(rows, o).value)
  {
    UpdateKeepsGood(o.copy.document, TicketSequence(o.ticket), SettleChange(o.choice));
  }

  lemma KnownCoversStart(rows: Rows, i: nat, historical: bool, p0: Option<string>)
    requires RowsAgree(rows, p0) && EntryPasses(rows, i, historical)
    ensures rows.publication.pin == p0 && OptionSet(p0) <= Known(rows, i, historical)
    ensures GoodDocument(rows.attempts[i].document)
  {
  }

  lemma DecideAgrees(rows: Rows, target: Target, seen: Observation, historical: bool, fallback: bool, taken: bool,
                     p0: Option<string>)
    requires RowsAgree(rows, p0) && Decide(rows, target, seen, historical, fallback, taken).Some?
    ensures ChoiceAgrees(Decide(rows, target, seen, historical, fallback, taken).value, p0)
  {
    KnownCoversStart(rows, target.attempt, historical, p0);
    if p0.Some? {
      assert p0.value in OptionSet(p0);
    }
  }

  lemma ChoosesAgrees(ticket: Ticket, target: Target, choice: Option<Choice>, p0: Option<string>)
    requires choice.Some? ==> ChoiceAgrees(choice.value, p0)
    ensures ObserverAgrees(Chooses(ticket, target, choice), p0)
  {
  }

  lemma ChoiceDecides(rows: Rows, pc: Observer, act: ObserverAct, p0: Option<string>)
    requires RowsAgree(rows, p0) && pc.ReadDone? && act.MakeChoice?
    ensures ObserverAgrees(Decision(rows, pc, act), p0)
  {
    var choice := Decide(rows, pc.target, pc.seen, act.historical, act.fallback, act.taken);
    if choice.Some? {
      DecideAgrees(rows, pc.target, pc.seen, act.historical, act.fallback, act.taken, p0);
    }
    ChoosesAgrees(pc.ticket, pc.target, choice, p0);
    assert Decision(rows, pc, act) == Chooses(pc.ticket, pc.target, choice);
  }

  lemma ArmDecides(rows: Rows, pc: Observer, act: ObserverAct, p0: Option<string>)
    requires RowsAgree(rows, p0) && pc.Casting? && act.Arm? && ObserverAgrees(pc, p0)
    ensures ObserverAgrees(Decision(rows, pc, act), p0)
  {
    if StillTargets(rows, pc.target, act.historical) {
      KnownCoversStart(rows, pc.target.attempt, act.historical, p0);
    }
  }

  lemma DecisionAgrees(rows: Rows, pc: Observer, act: ObserverAct, p0: Option<string>)
    requires RowsAgree(rows, p0) && !pc.SawUnknown? && ObserverAgrees(pc, p0)
    ensures ObserverAgrees(Decision(rows, pc, act), p0)
  {
    if act.MakeChoice? {
      if pc.ReadDone? { ChoiceDecides(rows, pc, act, p0); }
    } else if act.Arm? {
      if pc.Casting? { ArmDecides(rows, pc, act, p0); }
    }
  }

  lemma BegunKeeps(rows: Rows, p0: Option<string>)
    requires RowsAgree(rows, p0)
    ensures RowsAgree(BegunBy(rows).rows, p0) && Carries(rows, BegunBy(rows).rows)
    ensures ObserverAgrees(BegunBy(rows).pc.value, p0)
  {
    if HasBuffer(rows.attempts) {
      var i := FirstBuffer(rows.attempts);
      BeginKeepsGood(rows.attempts[i].document);
      WithDocumentKeeps(rows, i, R.Begin(rows.attempts[i].document), p0);
    }
  }

  lemma PhaseMoveKeeps(rows: Rows, pc: Observer, act: ObserverAct, p0: Option<string>)
    requires RowsAgree(rows, p0) && !pc.SawUnknown? && ObserverAgrees(pc, p0)
    ensures var moved := PhaseMove(rows, pc, PhasePlan(pc, act));
      && RowsAgree(moved.rows, p0) && Carries(rows, moved.rows)
      && (moved.pc.Some? ==> ObserverAgrees(moved.pc.value, p0))
  {
    var plan := PhasePlan(pc, act);
    if plan.Write? && Phase(rows, pc.ticket, plan.change).Some? {
      PhaseKeeps(rows, pc.ticket, plan.change, p0);
    }
  }

  lemma ObserverKeeps(rows: Rows, pc: Option<Observer>, act: ObserverAct, p0: Option<string>)
    requires RowsAgree(rows, p0) && (pc.Some? ==> ObserverAgrees(pc.value, p0))
    ensures var moved := ObserverMove(rows, pc, act);
      && RowsAgree(moved.rows, p0) && Carries(rows, moved.rows)
      && (moved.pc.Some? ==> ObserverAgrees(moved.pc.value, p0))
  {
    if pc.Some? {
      if pc.value.SawUnknown? {
        BegunKeeps(rows, p0);
      } else if act.CommitChoice? {
        if pc.value.Armed? && Settle(rows, pc.value).Some? { SettleKeeps(rows, pc.value, p0); }
      } else if act.NoteRefusal? {
        if pc.value.Refused? && Phase(rows, pc.value.ticket, act.change).Some? {
          PhaseKeeps(rows, pc.value.ticket, act.change, p0);
        }
      } else {
        PhaseMoveKeeps(rows, pc.value, act, p0);
        DecisionAgrees(rows, pc.value, act, p0);
      }
    }
  }

  // ---------- A clerk's write ----------

  // What a clerk may overwrite: a cancellation anything but PUBLISHING and PUBLISHED; a rescheduling leaves a status
  // alone that it read as SCHEDULED, and otherwise needs that no attempt exists or that it has failed.
  predicate Harmless(rows: Rows, clerk: Clerk) {
    if clerk.cancels then rows.publication.status !in {Publishing, Published}
    else clerk.seen == Scheduled || rows.attempts == [] || rows.attempts[0].status == Failed
  }

  function WithStatus(rows: Rows, status: PublicationStatus): Rows {
    rows.(publication := rows.publication.(status := status))
  }

  // The write keeps the agreement of the rows exactly when what it overwrites is harmless.
  lemma OverwriteKeepsIff(rows: Rows, clerk: Clerk, p0: Option<string>)
    requires RowsAgree(rows, p0)
    ensures RowsAgree(WithStatus(rows, Overwritten(rows.publication.status, clerk)), p0) <==> Harmless(rows, clerk)
  {
  }

  // A write that overwrites what was read is always harmless.
  lemma UnchangedIsHarmless(rows: Rows, clerk: Clerk, p0: Option<string>)
    requires RowsAgree(rows, p0) && CanMove(clerk.seen, clerk.cancels) && rows.publication.status == clerk.seen
    ensures Harmless(rows, clerk)
  {
  }

  // ---------- Steps ----------

  lemma DispatchesKeeps(w: World, d: nat, act: DispatcherAct, p0: Option<string>)
    requires Inv(w, p0)
    ensures Inv(Next(w, Dispatches(d, act)), p0)
  {
    DispatcherKeeps(w.rows, Get(w.dispatchers, d), act, p0);
  }

  lemma ObservesKeeps(w: World, o: nat, act: ObserverAct, p0: Option<string>)
    requires Inv(w, p0)
    ensures Inv(Next(w, Observes(o, act)), p0)
  {
    ObserverKeeps(w.rows, Get(w.observers, o), act, p0);
  }

  // A claim succeeds only before the first attempt, and spends the activation every other cleared dispatcher holds.
  lemma ClaimIsExclusive(w: World, d: nat, fate: Fate, p0: Option<string>)
    requires Inv(w, p0)
    ensures var w' := Next(w, Dispatches(d, CommitClaim(fate)));
      && Inv(w', p0)
      && (w'.rows != w.rows ==>
            && w.rows.attempts == [] && w'.rows.attempts == [FRESH]
            && forall e :: e in w'.dispatchers && w'.dispatchers[e].Cleared? ==>
                 w'.rows.activations[w'.dispatchers[e].activation].status != Active)
  {
    DispatchesKeeps(w, d, CommitClaim(fate), p0);
    var w' := Next(w, Dispatches(d, CommitClaim(fate)));
    if w'.rows != w.rows {
      ClaimKeeps(w.rows, w.dispatchers[d].activation, p0);
      forall e | e in w'.dispatchers && w'.dispatchers[e].Cleared?
        ensures w'.rows.activations[w'.dispatchers[e].activation].status != Active
      {
        assert DispatcherAgrees(w'.rows, w'.dispatchers[e]);
      }
    }
  }

  lemma CarriesDispatchers(w: World, rows': Rows, p0: Option<string>)
    requires Inv(w, p0) && Carries(w.rows, rows') && RowsAgree(rows', p0)
    ensures Inv(w.(rows := rows'), p0)
  {
  }

  lemma ActivationKeeps(w: World, s: Step, p0: Option<string>)
    requires Inv(w, p0) && (s.ActivateStep? || s.RetireStep?)
    ensures Inv(Next(w, s), p0)
  {
    if s.ActivateStep? {
      ActivateKeeps(w.rows, s.own, p0);
    } else {
      RetireKeeps(w.rows, s.activation, s.consumed, p0);
    }
    CarriesDispatchers(w, Next(w, s).rows, p0);
  }

  // A clerk's write keeps the agreement exactly when the status it overwrites, read by it or not, is harmless.
  lemma WriteKeepsIff(w: World, c: nat, p0: Option<string>)
    requires Inv(w, p0) && c in w.clerks
    ensures Inv(Next(w, WriteStatus(c)), p0) <==> Harmless(w.rows, w.clerks[c])
  {
    OverwriteKeepsIff(w.rows, w.clerks[c], p0);
    var rows' := WithStatus(w.rows, Overwritten(w.rows.publication.status, w.clerks[c]));
    assert Next(w, WriteStatus(c)).rows == rows';
    if RowsAgree(rows', p0) {
      CarriesDispatchers(w, rows', p0);
    }
  }

  // What the steps themselves do not ensure: a clerk overwrites only what is harmless.
  predicate Permitted(w: World, s: Step) {
    !s.Foreign? && (s.WriteStatus? && s.c in w.clerks ==> Harmless(w.rows, w.clerks[s.c]))
  }

  // Every step of a dispatcher, an observer or an activation keeps the agreement; a clerk's write exactly when it is
  // permitted.
  lemma StepKeepsInvIff(w: World, s: Step, p0: Option<string>)
    requires Inv(w, p0) && !s.Foreign?
    ensures Inv(Next(w, s), p0) <==> Permitted(w, s)
  {
    match s {
      case Dispatches(d, act) => DispatchesKeeps(w, d, act, p0);
      case Observes(o, act) => ObservesKeeps(w, o, act, p0);
      case ReadStatus(_, _) =>
      case WriteStatus(c) => if c in w.clerks { WriteKeepsIff(w, c, p0); }
      case ActivateStep(_) => ActivationKeeps(w, s, p0);
      case RetireStep(_, _) => ActivationKeeps(w, s, p0);
    }
  }

  // ---------- Runs ----------

  // A publication that dispatch has not touched.
  ghost predicate Untouched(w: World) {
    && w.rows.attempts == [] && w.rows.events == [] && w.rows.publication.status in {Approved, Scheduled, Cancelled}
    && OneActive(w.rows.activations) && Spent(w.rows.activations) == {}
    && w.dispatchers == map[] && w.observers == map[] && w.clerks == map[] && w.calls == 0
  }

  lemma UntouchedAgrees(w: World)
    requires Untouched(w)
    ensures Inv(w, w.rows.publication.pin)
  {
  }

  // No writer from outside the protocol, and every clerk's write over something harmless.
  predicate Orderly(w: World, steps: seq<Step>) {
    steps == [] || (Orderly(w, steps[..|steps| - 1]) && Permitted(Run(w, steps[..|steps| - 1]), steps[|steps| - 1]))
  }

  lemma {:induction false} RunKeepsInv(w: World, steps: seq<Step>, p0: Option<string>)
    requires Inv(w, p0) && Orderly(w, steps)
    ensures Inv(Run(w, steps), p0)
  {
    if steps != [] {
      RunKeepsInv(w, steps[..|steps| - 1], p0);
      StepKeepsInvIff(Run(w, steps[..|steps| - 1]), steps[|steps| - 1], p0);
    }
  }

  ghost predicate NoForeign(steps: seq<Step>) {
    forall i :: 0 <= i < |steps| ==> !steps[i].Foreign?
  }

  // Every clerk still finds the status that it read.
  predicate Attentive(w: World, steps: seq<Step>) {
    steps == [] ||
    var before, last := Run(w, steps[..|steps| - 1]), steps[|steps| - 1];
    && Attentive(w, steps[..|steps| - 1]) && !last.Foreign?
    && (last.WriteStatus? && last.c in before.clerks ==> before.rows.publication.status == before.clerks[last.c].seen)
  }

  // So a compare-and-set on the status read would be enough for the agreement.
  lemma {:induction false} AttentiveRunsAreOrderly(w: World, steps: seq<Step>, p0: Option<string>)
    requires Inv(w, p0) && Attentive(w, steps)
    ensures Orderly(w, steps)
  {
    if steps != [] {
      var before, last := Run(w, steps[..|steps| - 1]), steps[|steps| - 1];
      AttentiveRunsAreOrderly(w, steps[..|steps| - 1], p0);
      RunKeepsInv(w, steps[..|steps| - 1], p0);
      if last.WriteStatus? && last.c in before.clerks {
        UnchangedIsHarmless(before.rows, before.clerks[last.c], p0);
      }
    }
  }

  ghost predicate AlwaysAgrees(w: World, steps: seq<Step>, p0: Option<string>) {
    Inv(Run(w, steps), p0) && (steps != [] ==> AlwaysAgrees(w, steps[..|steps| - 1], p0))
  }

  // All states of a run without outside writers agree if and only if the run is orderly.
  lemma {:induction false} AgreementIffOrderly(w: World, steps: seq<Step>)
    requires Untouched(w) && NoForeign(steps)
    ensures AlwaysAgrees(w, steps, w.rows.publication.pin) <==> Orderly(w, steps)
  {
    UntouchedAgrees(w);
    if steps != [] {
      var most, last := steps[..|steps| - 1], steps[|steps| - 1];
      AgreementIffOrderly(w, most);
      if Inv(Run(w, most), w.rows.publication.pin) {
        StepKeepsInvIff(Run(w, most), last, w.rows.publication.pin);
      }
    }
  }

  lemma RunAppends(w: World, steps: seq<Step>, s: Step)
    ensures Run(w, steps + [s]) == Next(Run(w, steps), s)
    ensures Orderly(w, steps + [s]) <==> Orderly(w, steps) && Permitted(Run(w, steps), s)
  {
    assert (steps + [s])[..|steps|] == steps;
  }

  // The first dispatcher goes through its reads and its claim.
  lemma Claims(w: World, before: seq<Step>, x: nat) returns (steps: seq<Step>)
    requires var v := Run(w, before);
      CanClaim(v.rows, x) && v.rows.attempts == [] && v.dispatchers == map[]
    ensures var v := Run(w, before);
      Run(w, steps) == v.(rows := Claim(v.rows, x), dispatchers := map[0 := Claimed(0)])
    ensures NoForeign(before) ==> NoForeign(steps)
    ensures Orderly(w, steps) <==> Orderly(w, before)
  {
    var read := before + [Dispatches(0, ReadActivation(x))];
    var cleared := read + [Dispatches(0, ReadAttempts)];
    steps := cleared + [Dispatches(0, CommitClaim(Acknowledged))];
    RunAppends(w, before, Dispatches(0, ReadActivation(x)));
    assert Run(w, read).dispatchers == map[0 := SawActivation(x)];
    RunAppends(w, read, Dispatches(0, ReadAttempts));
    assert Run(w, cleared).dispatchers == map[0 := Cleared(x)];
    RunAppends(w, cleared, Dispatches(0, CommitClaim(Acknowledged)));
    assert Run(w, steps).dispatchers == map[0 := Claimed(0)];
  }

  // The failing run: a cancellation reads SCHEDULED, a claim commits, and the cancellation writes over it.
  lemma StaleCancelDisagrees(w: World, x: nat) returns (steps: seq<Step>)
    requires Untouched(w) && CanClaim(w.rows, x)
    ensures NoForeign(steps) && !Orderly(w, steps)
    ensures Run(w, steps).rows.publication.status == Cancelled && Run(w, steps).rows.attempts == [FRESH]
  {
    var read := [ReadStatus(0, true)];
    assert Run(w, []) == w && [] + read == read;
    RunAppends(w, [], ReadStatus(0, true));
    var claimed := Claims(w, read, x);
    steps := claimed + [WriteStatus(0)];
    RunAppends(w, claimed, WriteStatus(0));
  }

  // And its twin: two reschedulings read APPROVED, and the later write lands on the claim that the first enabled.
  lemma StaleScheduleDisagrees(w: World, x: nat) returns (steps: seq<Step>)
    requires Untouched(w) && w.rows.publication.status == Approved
    requires x < |w.rows.activations| && w.rows.activations[x] == Activation(Active, true)
    ensures NoForeign(steps) && !Orderly(w, steps)
    ensures Run(w, steps).rows.publication.status == Scheduled && Run(w, steps).rows.attempts == [FRESH]
  {
    var first := [ReadStatus(0, false)];
    var both := first + [ReadStatus(1, false)];
    var written := both + [WriteStatus(1)];
    assert Run(w, []) == w && [] + first == first;
    RunAppends(w, [], ReadStatus(0, false));
    RunAppends(w, first, ReadStatus(1, false));
    RunAppends(w, both, WriteStatus(1));
    var claimed := Claims(w, written, x);
    steps := claimed + [WriteStatus(0)];
    RunAppends(w, claimed, WriteStatus(0));
  }

  // Every committed state: at most one attempt, whose status and the publication's fix each other; a confirmed pin
  // is the same in the publication, the attempt and the only audit event; one activation is spent for each attempt.
  lemma CommittedStatesAgree(w: World, steps: seq<Step>)
    requires Untouched(w) && Orderly(w, steps)
    ensures var rows := Run(w, steps).rows;
      && |rows.attempts| <= 1 && |Spent(rows.activations)| == |rows.attempts| && OneActive(rows.activations)
      && |rows.events| <= 1
      && (rows.publication.status == Publishing <==> (rows.attempts != [] && rows.attempts[0].status == Started))
      && (rows.publication.status == Published <==> (rows.attempts != [] && rows.attempts[0].status == Succeeded))
      && (rows.publication.status == PublishUnknown ==> rows.attempts != [] && rows.attempts[0].status == Unknown)
      && (rows.publication.status == PublishFailed ==> rows.attempts != [] && rows.attempts[0].status == Failed)
      && (rows.publication.status == Published ==>
            rows.publication.pin.Some? && rows.attempts[0].pin == rows.publication.pin
            && rows.events == [Event(0, Published, rows.publication.pin)])
  {
    UntouchedAgrees(w);
    RunKeepsInv(w, steps, w.rows.publication.pin);
  }

  // ---------- What only grows ----------

  function Stage(rows: Rows): nat {
    if rows.attempts == [] then 0
    else match rows.attempts[0].status
      case Started => 1
      case Unknown => 2
      case _ => 3
  }

  // One committed change erases and changes no known pin, moves the attempt only forward, and enters PUBLISH_UNKNOWN
  // only with a started attempt.
  ghost predicate Grows(rows: Rows, rows': Rows) {
    && (rows.publication.pin.Some? ==> rows'.publication.pin == rows.publication.pin)
    && (rows.attempts != [] && rows.attempts[0].pin.Some? ==>
          rows'.attempts != [] && rows'.attempts[0].pin == rows.attempts[0].pin)
    && Stage(rows) <= Stage(rows')
    && (rows'.publication.status == PublishUnknown && rows.publication.status != PublishUnknown ==>
          Stage(rows) == 1 && Stage(rows') == 2)
  }

  lemma PhaseGrows(rows: Rows, ticket: Ticket, change: R.Change)
    requires Phase(rows, ticket, change).Some?
    ensures Grows(rows, Phase(rows, ticket, change).value)
  {
  }

  lemma SettleGrows(rows: Rows, o: Observer, p0: Option<string>)
    requires RowsAgree(rows, p0) && o.Armed? && ObserverAgrees(o, p0) && Settle(rows, o).Some?
    ensures Grows(rows, Settle(rows, o).value)
  {
  }

  lemma DispatcherGrows(rows: Rows, pc: Option<Dispatcher>, act: DispatcherAct, p0: Option<string>)
    requires RowsAgree(rows, p0) && (pc.Some? ==> DispatcherAgrees(rows, pc.value))
    ensures Grows(rows, DispatcherMove(rows, pc, act).rows)
  {
  }

  lemma ObserverGrows(rows: Rows, pc: Option<Observer>, act: ObserverAct, p0: Option<string>)
    requires RowsAgree(rows, p0) && (pc.Some? ==> ObserverAgrees(pc.value, p0))
    ensures Grows(rows, ObserverMove(rows, pc, act).rows)
  {
    if pc.Some? && !pc.value.SawUnknown? {
      if act.CommitChoice? {
        if pc.value.Armed? && Settle(rows, pc.value).Some? { SettleGrows(rows, pc.value, p0); }
      } else if act.NoteRefusal? {
        if pc.value.Refused? && Phase(rows, pc.value.ticket, act.change).Some? {
          PhaseGrows(rows, pc.value.ticket, act.change);
        }
      } else {
        var plan := PhasePlan(pc.value, act);
        if plan.Write? && Phase(rows, pc.value.ticket, plan.change).Some? {
          PhaseGrows(rows, pc.value.ticket, plan.change);
        }
      }
    }
  }

  // No step erases or changes a known pin, and the attempt's status only moves forward.
  lemma PinsAndStagesOnlyGrow(w: World, s: Step, p0: Option<string>)
    requires Inv(w, p0) && !s.Foreign?
    ensures Grows(w.rows, Next(w, s).rows)
  {
    match s {
      case Dispatches(d, act) => DispatcherGrows(w.rows, Get(w.dispatchers, d), act, p0);
      case Observes(o, act) => ObserverGrows(w.rows, Get(w.observers, o), act, p0);
      case _ =>
    }
  }

  function UnknownEntries(w: World, steps: seq<Step>): nat {
    if steps == [] then 0
    else
      var before := Run(w, steps[..|steps| - 1]).rows.publication.status;
      UnknownEntries(w, steps[..|steps| - 1])
      + (if before != PublishUnknown && Run(w, steps).rows.publication.status == PublishUnknown then 1 else 0)
  }

  lemma {:induction false} UnknownEnteredAtMostOnce(w: World, steps: seq<Step>)
    requires Untouched(w) && Orderly(w, steps)
    ensures UnknownEntries(w, steps) <= 1 && (Stage(Run(w, steps).rows) < 2 ==> UnknownEntries(w, steps) == 0)
  {
    if steps != [] {
      var most := steps[..|steps| - 1];
      UnknownEnteredAtMostOnce(w, most);
      UntouchedAgrees(w);
      RunKeepsInv(w, most, w.rows.publication.pin);
      PinsAndStagesOnlyGrow(Run(w, most), steps[|steps| - 1], w.rows.publication.pin);
    }
  }

  // ---------- The audit event and its receipt ----------

  predicate CommitsChoice(w: World, s: Step) {
    s.Observes? && s.observerAct.CommitChoice? && s.o in w.observers && w.observers[s.o].Armed?
  }

  lemma OnlySettlingWritesEvents(w: World, s: Step)
    requires !s.Foreign? && Next(w, s).rows.events != w.rows.events
    ensures CommitsChoice(w, s) && Settle(w.rows, w.observers[s.o]) == Some(Next(w, s).rows)
    ensures w.observers[s.o].ticket.Ticket?
  {
  }

  lemma SettledReceipt(rows: Rows, o: Observer)
    requires |rows.attempts| <= 1 && o.Armed? && GoodDocument(o.copy.document) && o.ticket.Ticket?
    requires Settle(rows, o).Some?
    ensures var rows' := Settle(rows, o).value;
      && rows'.attempts != []
      && exists e: R.Entry :: e.phase == CAS_SUCCEEDED && R.Holds(rows'.attempts[0].document, o.ticket.sequence, e)
  {
    var document, change, sequence := o.copy.document, SettleChange(o.choice), o.ticket.sequence;
    R.UpdateTouchesOnlyItsReceipt(document, sequence, change);
    var i := R.Find(R.Kept(document), sequence);
    var after := R.WithReceipt(document, Some(sequence), change).value;
    var e := R.Changed(R.Kept(document)[i].entry, change);
    assert R.Kept(after)[i] == R.Receipt(sequence, e);
    assert R.Holds(after, sequence, e) && e.phase == CAS_SUCCEEDED;
    assert Settle(rows, o).value.attempts[0].document == after;
  }

  // An audit event appears only when an armed observer leaves PUBLISH_UNKNOWN for a terminal status, and the same
  // transaction leaves that observer's receipt, marked as succeeded, in the attempt.
  lemma EventCarriesItsReceipt(w: World, s: Step, p0: Option<string>)
    requires Inv(w, p0) && !s.Foreign? && Next(w, s).rows.events != w.rows.events
    ensures CommitsChoice(w, s) && w.observers[s.o].ticket.Ticket?
    ensures var o, rows' := w.observers[s.o], Next(w, s).rows;
      && w.rows.publication.status == PublishUnknown && rows'.publication.status in {Published, PublishFailed}
      && rows'.events == w.rows.events + [Event(0, rows'.publication.status, rows'.publication.pin)]
      && rows'.attempts != []
      && exists e: R.Entry :: e.phase == CAS_SUCCEEDED && R.Holds(rows'.attempts[0].document, o.ticket.sequence, e)
  {
    OnlySettlingWritesEvents(w, s);
    assert ObserverAgrees(w.observers[s.o], p0);
    SettledReceipt(w.rows, w.observers[s.o]);
  }

  // The compare-and-set puts the receipt total back to what the observer read, whatever was begun since.
  lemma SettleRestoresItsReading(rows: Rows, o: Observer)
    requires |rows.attempts| <= 1 && o.Armed? && GoodDocument(o.copy.document) && Settle(rows, o).Some?
    ensures var rows' := Settle(rows, o).value;
      rows'.attempts != [] && R.TotalOf(rows'.attempts[0].document) == R.TotalOf(o.copy.document)
  {
    var document, change := o.copy.document, SettleChange(o.choice);
    R.UpdateTouchesOnlyItsReceipt(document, o.ticket.sequence, change);
    assert Settle(rows, o).value.attempts[0].document == R.WithReceipt(document, Some(o.ticket.sequence), change).value;
  }
}
