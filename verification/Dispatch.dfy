// One publication's dispatch through Buffer and its reconciliation, as steps over committed rows:
// buffer_manual_publication_dispatch.py, manual_publication_dispatch.py (the claim), buffer_single_pin_pilot.py,
// buffer_pilot_activation.py, publication_scheduler.py and buffer_publication_reconciliation.py in
// backend/app/services.
module Dispatch {
  import opened Wrappers
  import R = Receipts

  datatype PublicationStatus =
    Approved | Scheduled | Publishing | Published | PublishFailed | PublishUnknown | Cancelled

  datatype AttemptStatus = Started | Unknown | Failed | Succeeded

  datatype Provider = Buffer | PinterestDirect

  datatype Publication = Publication(status: PublicationStatus, pin: Option<string>)

  // `link` is the pin that the stored external link names, if it is an exact pin link.
  datatype Attempt = Attempt(provider: Provider, status: AttemptStatus, operation: Option<string>, pin: Option<string>,
                             link: Option<string>, document: R.Document)

  datatype Event = Event(attempt: nat, newStatus: PublicationStatus, pin: Option<string>)

  datatype ActivationStatus = Active | Consumed | Revoked

  // `own` says that the activation names this publication.
  datatype Activation = Activation(status: ActivationStatus, own: bool)

  // The committed rows that concern one publication, in insertion order. Activations are those of every publication.
  datatype Rows = Rows(
    publication: Publication, attempts: seq<Attempt>, events: seq<Event>, activations: seq<Activation>)

  datatype ResultStatus = Sent | ProviderError | Pending

  datatype Outcome =
    | Rejected
    | Uncertain
    | Posted(status: ResultStatus, operation: string, link: Option<string>)

  // How a commit ends: acknowledged, lost with its changes, or applied while its acknowledgement is lost.
  datatype Fate = Acknowledged | Lost | Unacknowledged

  // Where a dispatcher stands; `mine` is the index of the attempt it inserted.
  datatype Dispatcher =
    | SawActivation(activation: nat)
    | Cleared(activation: nat)
    | Claimed(mine: nat)
    | Verified(mine: nat)
    | Ready(mine: nat)
    | Failing(mine: nat)
    | Answered(mine: nat, outcome: Outcome)
    | Recovering(mine: nat, outcome: Outcome)

  // What a provider read returns. `matches` says that every immutable snapshot field agrees.
  datatype Observation = Observation(operation: string, status: ResultStatus, pin: Option<string>, matches: bool)

  // Which receipt an invocation writes to, if it could begin one.
  datatype Ticket = NoTicket | Ticket(row: nat, sequence: int)

  // The exact post that an invocation reads: the attempt it belongs to and the operation id.
  datatype Target = Target(attempt: nat, operation: string)

  // What an invocation has decided to write: the confirmed pin, and whether the stored link is retained.
  datatype Choice = Choice(seen: Observation, pin: Option<string>, retained: bool)

  // Where an observer stands.
  datatype Observer =
    | SawUnknown
    | Begun(ticket: Ticket)
    | Entered(ticket: Ticket, target: Target)
    | Reading(ticket: Ticket, target: Target)
    | ReadDone(ticket: Ticket, target: Target, seen: Observation)
    | FallbackChosen(ticket: Ticket, target: Target, choice: Choice)
    | FallbackNoted(ticket: Ticket, target: Target, choice: Choice)
    | Chosen(ticket: Ticket, target: Target, choice: Choice)
    | Casting(ticket: Ticket, target: Target, choice: Choice)
    | Armed(ticket: Ticket, target: Target, choice: Choice, publicationPin: Option<string>, copy: Attempt)
    | Refused(ticket: Ticket)

  // A cancellation or rescheduling between its read of the status and its write.
  datatype Clerk = Clerk(seen: PublicationStatus, cancels: bool)

  datatype World = World(
    rows: Rows, calls: nat, dispatchers: map<nat, Dispatcher>, observers: map<nat, Observer>, clerks: map<nat, Clerk>)

  // ---------- Activation ----------

  predicate NoActive(activations: seq<Activation>) {
    forall i :: 0 <= i < |activations| ==> activations[i].status != Active
  }

  // The unique index admits one ACTIVE row; the eligibility checks of activate only refuse more.
  function Activate(rows: Rows, own: bool): Rows {
    if NoActive(rows.activations) then rows.(activations := rows.activations + [Activation(Active, own)]) else rows
  }

  // Revocation, or consumption by the claim of another publication: both are compare-and-sets on ACTIVE.
  function Retire(rows: Rows, i: nat, consumed: bool): Rows {
    if i < |rows.activations| && rows.activations[i].status == Active && !(consumed && rows.activations[i].own) then
      var retired := rows.activations[i].(status := if consumed then Consumed else Revoked);
      rows.(activations := rows.activations[i := retired])
    else rows
  }

  // ---------- The dispatcher's transactions ----------

  const FRESH := Attempt(Buffer, Started, None, None, None, R.Document(R.NotAList, None))

  predicate CanClaim(rows: Rows, activation: nat) {
    && rows.publication.status == Scheduled
    && activation < |rows.activations|
    && rows.activations[activation] == Activation(Active, true)
  }

  function Claim(rows: Rows, activation: nat): Rows
    requires CanClaim(rows, activation)
  {
    Rows(rows.publication.(status := Publishing), rows.attempts + [FRESH], rows.events,
      rows.activations[activation := Activation(Consumed, true)])
  }

  // The gate before the mutation: this attempt is the publication's only one.
  predicate SoleAttempt(rows: Rows, mine: nat) {
    && |rows.attempts| == 1 && mine == 0
    && rows.attempts[0].status == Started && rows.attempts[0].provider == Buffer
    && rows.publication.status == Publishing
  }

  predicate CanPersist(rows: Rows, mine: nat) {
    && rows.publication.status == Publishing
    && mine < |rows.attempts| && rows.attempts[mine].provider == Buffer && rows.attempts[mine].status == Started
  }

  // None stands for a failed validation; recovery always records an unknown outcome.
  predicate RecordsFailure(outcome: Option<Outcome>, recovery: bool) {
    && !recovery
    && (outcome.None? || outcome.value.Rejected? || (outcome.value.Posted? && outcome.value.status == ProviderError))
  }

  function Persist(rows: Rows, mine: nat, outcome: Option<Outcome>, recovery: bool): Rows
    requires CanPersist(rows, mine)
  {
    var failure := RecordsFailure(outcome, recovery);
    var attempt := rows.attempts[mine].(
      status := if failure then Failed else Unknown, document := R.Document(R.NotAList, None));
    var recorded := if outcome.Some? && outcome.value.Posted?
      then attempt.(operation := Some(outcome.value.operation), link := outcome.value.link) else attempt;
    rows.(publication := rows.publication.(status := if failure then PublishFailed else PublishUnknown),
      attempts := rows.attempts[mine := recorded])
  }

  // ---------- The observer's transactions ----------

  function BufferAttempts(attempts: seq<Attempt>): set<nat> {
    set i | 0 <= i < |attempts| && attempts[i].provider == Buffer
  }

  function Operations(attempts: seq<Attempt>): set<string> {
    set i | 0 <= i < |attempts| && attempts[i].operation.Some? :: attempts[i].operation.value
  }

  function OptionSet(o: Option<string>): set<string> {
    if o.Some? then {o.value} else {}
  }

  // The known pins; the historical destination mode adds the pin that the stored link names.
  function Known(rows: Rows, i: nat, historical: bool): set<string>
    requires i < |rows.attempts|
  {
    (set k | 0 <= k < |rows.attempts| && rows.attempts[k].pin.Some? :: rows.attempts[k].pin.value)
    + OptionSet(rows.publication.pin) + (if historical then OptionSet(rows.attempts[i].link) else {})
  }

  // The guards of _entry on the rows that the protocol moves; historical mode needs a stored pin link.
  predicate EntryPasses(rows: Rows, i: nat, historical: bool) {
    && rows.publication.status == PublishUnknown
    && |Operations(rows.attempts)| == 1
    && i < |rows.attempts| && BufferAttempts(rows.attempts) == {i}
    && rows.attempts[i].operation.Some? && rows.attempts[i].status == Unknown
    && (historical ==> rows.attempts[i].link.Some?)
    && |Known(rows, i, historical)| <= 1
  }

  predicate StillTargets(rows: Rows, target: Target, historical: bool) {
    EntryPasses(rows, target.attempt, historical) && rows.attempts[target.attempt].operation == Some(target.operation)
  }

  // The decision after the read. `fallback` says that the mode is still historical when the link is missing, and
  // `taken` that another publication holds the pin.
  function Decide(rows: Rows, target: Target, seen: Observation, historical: bool, fallback: bool, taken: bool)
    : Option<Choice>
  {
    if !StillTargets(rows, target, historical) || seen.operation != target.operation || !seen.matches then None
    else
      var known, link := Known(rows, target.attempt, historical), rows.attempts[target.attempt].link;
      if seen.status == Sent && seen.pin.None? then
        if fallback && link.Some? && known == {link.value} then Some(Choice(seen, link, true)) else None
      else if seen.status == Sent then
        if (known == {} || known == {seen.pin.value}) && !taken then Some(Choice(seen, seen.pin, false)) else None
      else if seen.status == ProviderError && known != {} then None
      else Some(Choice(seen, None, false))
  }

  // The checks repeated after the fallback's own receipt.
  predicate ConfirmsFallback(rows: Rows, target: Target, choice: Choice, historical: bool, taken: bool) {
    && StillTargets(rows, target, historical) && !taken
    && (var known := Known(rows, target.attempt, historical); known == {} || known == OptionSet(choice.pin))
  }

  function StatusName(s: ResultStatus): string {
    match s case Sent => "sent" case ProviderError => "error" case Pending => "pending"
  }

  // The values of a phase update once the provider read has started; only those given are written.
  function Progress(phase: string, seen: Option<Observation>, code: Option<string>): R.Change {
    R.Change(Some(phase), Some(true), if seen.Some? then Some(true) else None,
      if seen.Some? then Some(StatusName(seen.value.status)) else None, None, code, None, None)
  }

  const CAS_SUCCEEDED := "CAS_SUCCEEDED"

  function SettleCode(choice: Choice): Option<string> {
    if choice.pin.Some? then None
    else if choice.seen.status == Pending then Some("BUFFER_FINAL_OUTCOME_PENDING")
    else Some("BUFFER_PROVIDER_FAILED_CONFIRMED")
  }

  function SettleChange(choice: Choice): R.Change {
    Progress(CAS_SUCCEEDED, Some(choice.seen), SettleCode(choice)).(fallbackSelected := Some(choice.retained))
  }

  function TicketSequence(ticket: Ticket): Option<int> {
    if ticket.Ticket? then Some(ticket.sequence) else None
  }

  // The last transaction: both compare-and-sets and the audit event, with the document that was read before it.
  // None when any of them fails, which rolls back all.
  function Settle(rows: Rows, o: Observer): Option<Rows>
    requires o.Armed?
  {
    var i, pin, terminal := o.target.attempt, o.choice.pin, o.choice.seen.status != Pending;
    var updated := R.WithReceipt(o.copy.document, TicketSequence(o.ticket), SettleChange(o.choice));
    if rows.publication.status != PublishUnknown || updated.Err?
      || i >= |rows.attempts| || rows.attempts[i].status != Unknown
      || rows.attempts[i].operation != Some(o.target.operation)
    then None
    else
      var observed := rows.attempts[i].(
        link := if o.choice.retained then o.copy.link else o.choice.seen.pin, document := updated.value);
      var status := if pin.Some? then Published else if terminal then PublishFailed else PublishUnknown;
      var publication := Publication(status, if terminal then pin else o.publicationPin);
      if !terminal then
        Some(rows.(publication := publication, attempts := rows.attempts[i := observed]))
      else
        Some(rows.(publication := publication,
          attempts := rows.attempts[i := observed.(status := if pin.Some? then Succeeded else Failed, pin := pin)],
          events := rows.events + [Event(i, status, pin)]))
  }

  function WithDocument(rows: Rows, i: nat, document: R.Document): Rows
    requires i < |rows.attempts|
  {
    rows.(attempts := rows.attempts[i := rows.attempts[i].(document := document)])
  }

  // One committed phase update; None when the receipt is missing. Without a ticket there is nothing to write.
  function Phase(rows: Rows, ticket: Ticket, change: R.Change): Option<Rows> {
    if ticket.NoTicket? then Some(rows)
    else if ticket.row >= |rows.attempts| then None
    else
      var updated := R.WithReceipt(rows.attempts[ticket.row].document, Some(ticket.sequence), change);
      if updated.Err? then None else Some(WithDocument(rows, ticket.row, updated.value))
  }

  // ---------- What one dispatcher does ----------

  datatype DispatcherAct =
    | ReadActivation(activation: nat)
    | ReadAttempts
    | CommitClaim(fate: Fate)
    | Verify(elsewhereValid: bool)
    | VerifyAgain(elsewhereValid: bool)
    | Mutate(outcome: Outcome)
    | CommitResult(fate: Fate)
    | Crash

  // The rows after an act, where the dispatcher then stands (None when it is gone), and whether it called the provider.
  datatype Dispatched = Dispatched(rows: Rows, pc: Option<Dispatcher>, called: bool)

  function CheckedAs(rows: Rows, mine: nat, valid: bool, next: Dispatcher): Dispatched {
    Dispatched(rows, Some(if valid && SoleAttempt(rows, mine) then next else Failing(mine)), false)
  }

  function ClaimedBy(rows: Rows, activation: nat, fate: Fate): Dispatched {
    if !CanClaim(rows, activation) || fate == Lost then Dispatched(rows, None, false)
    else
      Dispatched(Claim(rows, activation), if fate == Acknowledged then Some(Claimed(|rows.attempts|)) else None, false)
  }

  function ResultOf(rows: Rows, pc: Dispatcher, fate: Fate): Dispatched
    requires pc.Answered? || pc.Failing? || pc.Recovering?
  {
    var outcome := if pc.Failing? then None else Some(pc.outcome);
    var applies := CanPersist(rows, pc.mine) && fate != Lost;
    var recovers := !(applies && fate == Acknowledged) && pc.Answered? && pc.outcome.Posted?;
    Dispatched(if applies then Persist(rows, pc.mine, outcome, pc.Recovering?) else rows,
      if recovers then Some(Recovering(pc.mine, pc.outcome)) else None, false)
  }

  // An act that does not fit where the dispatcher stands does nothing.
  function DispatcherMove(rows: Rows, pc: Option<Dispatcher>, act: DispatcherAct): Dispatched {
    var stays := Dispatched(rows, pc, false);
    match act
    case ReadActivation(x) =>
      if pc.None? && x < |rows.activations| && rows.activations[x] == Activation(Active, true)
      then Dispatched(rows, Some(SawActivation(x)), false) else stays
    case ReadAttempts =>
      if pc.Some? && pc.value.SawActivation?
      then Dispatched(rows, if rows.attempts == [] then Some(Cleared(pc.value.activation)) else None, false) else stays
    case CommitClaim(fate) =>
      if pc.Some? && pc.value.Cleared? then ClaimedBy(rows, pc.value.activation, fate) else stays
    case Verify(valid) =>
      if pc.Some? && pc.value.Claimed? then CheckedAs(rows, pc.value.mine, valid, Verified(pc.value.mine)) else stays
    case VerifyAgain(valid) =>
      if pc.Some? && pc.value.Verified? then CheckedAs(rows, pc.value.mine, valid, Ready(pc.value.mine)) else stays
    case Mutate(outcome) =>
      if pc.Some? && pc.value.Ready? then Dispatched(rows, Some(Answered(pc.value.mine, outcome)), true) else stays
    case CommitResult(fate) =>
      if pc.Some? && (pc.value.Answered? || pc.value.Failing? || pc.value.Recovering?)
      then ResultOf(rows, pc.value, fate) else stays
    case Crash => Dispatched(rows, None, false)
  }

  // ---------- What one observer does ----------

  datatype ObserverAct =
    | Arrive
    | BeginReceipt
    | Enter(attempt: nat, historical: bool)
    | StartRead
    | FinishRead(seen: Observation)
    | MakeChoice(historical: bool, fallback: bool, taken: bool)
    | NoteFallback
    | ConfirmFallback(historical: bool, taken: bool)
    | StartCas
    | Arm(historical: bool)
    | CommitChoice(fate: Fate)
    | Reject
    | NoteRefusal(change: R.Change)
    | Leave

  datatype Observed = Observed(rows: Rows, pc: Option<Observer>)

  predicate HasBuffer(attempts: seq<Attempt>) {
    exists j | 0 <= j < |attempts| :: attempts[j].provider == Buffer
  }

  function FirstBuffer(attempts: seq<Attempt>): (i: nat)
    requires HasBuffer(attempts)
    ensures i < |attempts| && attempts[i].provider == Buffer
  {
    if attempts[0].provider == Buffer then 0
    else
      assert HasBuffer(attempts[1..]) by {
        var j :| 0 <= j < |attempts| && attempts[j].provider == Buffer;
        assert attempts[1..][j - 1].provider == Buffer;
      }
      1 + FirstBuffer(attempts[1..])
  }

  // A receipt is begun only when the Buffer attempt is the only one.
  function BegunBy(rows: Rows): Observed {
    if |BufferAttempts(rows.attempts)| != 1 || !HasBuffer(rows.attempts) then Observed(rows, Some(Begun(NoTicket)))
    else
      var i := FirstBuffer(rows.attempts);
      var document := R.Begin(rows.attempts[i].document);
      Observed(WithDocument(rows, i, document), Some(Begun(Ticket(i, R.TotalOf(document)))))
  }

  datatype Plan = Nothing | Write(change: R.Change, next: Observer)

  // Which phase update an act commits, and where it leads. An act that does not fit plans nothing.
  function PhasePlan(pc: Observer, act: ObserverAct): Plan {
    match act
    case StartRead =>
      if pc.Entered?
      then Write(Progress("PROVIDER_READ_STARTED", None, None), Reading(pc.ticket, pc.target)) else Nothing
    case FinishRead(seen) =>
      if pc.Reading?
      then Write(Progress("PROVIDER_READ_COMPLETED", Some(seen), None), ReadDone(pc.ticket, pc.target, seen))
      else Nothing
    case NoteFallback =>
      if pc.FallbackChosen?
      then Write(Progress("FALLBACK_SELECTED", Some(pc.choice.seen), None).(fallbackSelected := Some(true)),
                 FallbackNoted(pc.ticket, pc.target, pc.choice)) else Nothing
    case StartCas =>
      if pc.Chosen?
      then Write(Progress("CAS_STARTED", Some(pc.choice.seen), None).(fallbackSelected := Some(pc.choice.retained)),
                 Casting(pc.ticket, pc.target, pc.choice)) else Nothing
    case _ => Nothing
  }

  // The observer moves on after committing a phase, or stops when its receipt is missing.
  function PhaseMove(rows: Rows, pc: Observer, plan: Plan): Observed
    requires !pc.SawUnknown?
  {
    if plan.Nothing? then Observed(rows, Some(pc))
    else
      var noted := Phase(rows, pc.ticket, plan.change);
      if noted.None? then Observed(rows, None) else Observed(noted.value, Some(plan.next))
  }

  function Chooses(ticket: Ticket, target: Target, choice: Option<Choice>): Observer {
    if choice.None? then Refused(ticket)
    else if choice.value.retained then FallbackChosen(ticket, target, choice.value)
    else Chosen(ticket, target, choice.value)
  }

  // Where a guard over the rows leads; a guard that fails refuses.
  function Decision(rows: Rows, pc: Observer, act: ObserverAct): Observer
    requires !pc.SawUnknown?
  {
    match act
    case Enter(i, historical) =>
      if !pc.Begun? then pc
      else if EntryPasses(rows, i, historical) then Entered(pc.ticket, Target(i, rows.attempts[i].operation.value))
      else Refused(pc.ticket)
    case MakeChoice(historical, fallback, taken) =>
      if !pc.ReadDone? then pc
      else Chooses(pc.ticket, pc.target, Decide(rows, pc.target, pc.seen, historical, fallback, taken))
    case ConfirmFallback(historical, taken) =>
      if !pc.FallbackNoted? then pc
      else if ConfirmsFallback(rows, pc.target, pc.choice, historical, taken)
      then Chosen(pc.ticket, pc.target, pc.choice)
      else Refused(pc.ticket)
    case Arm(historical) =>
      if !pc.Casting? then pc
      else if StillTargets(rows, pc.target, historical)
      then Armed(pc.ticket, pc.target, pc.choice, rows.publication.pin, rows.attempts[pc.target.attempt])
      else Refused(pc.ticket)
    case Reject => Refused(pc.ticket)
    case _ => pc
  }

  // A lost or failed commit leaves the observer to note its refusal.
  function SettledBy(rows: Rows, pc: Observer, fate: Fate): Observed
    requires pc.Armed?
  {
    var settled := Settle(rows, pc);
    Observed(if settled.Some? && fate != Lost then settled.value else rows,
      if settled.Some? && fate == Acknowledged then None else Some(Refused(pc.ticket)))
  }

  function RefusalNoted(rows: Rows, pc: Observer, change: R.Change): Observed
    requires pc.Refused?
  {
    var noted := Phase(rows, pc.ticket, change);
    Observed(if noted.Some? then noted.value else rows, None)
  }

  function ObserverMove(rows: Rows, pc: Option<Observer>, act: ObserverAct): Observed {
    if act.Leave? then Observed(rows, None)
    else if pc.None? then
      Observed(rows, if !act.Arrive? then None
                     else if rows.publication.status == PublishUnknown then Some(SawUnknown) else Some(Begun(NoTicket)))
    else if pc.value.SawUnknown? then if act.BeginReceipt? then BegunBy(rows) else Observed(rows, pc)
    else if act.CommitChoice? then
      if pc.value.Armed? then SettledBy(rows, pc.value, act.fate) else Observed(rows, pc)
    else if act.NoteRefusal? then
      if pc.value.Refused? then RefusalNoted(rows, pc.value, act.change) else Observed(rows, pc)
    else if PhasePlan(pc.value, act).Write? then PhaseMove(rows, pc.value, PhasePlan(pc.value, act))
    else Observed(rows, Some(Decision(rows, pc.value, act)))
  }

  // ---------- What a clerk does ----------

  predicate CanMove(from: PublicationStatus, cancels: bool) {
    if cancels then from in {Approved, Scheduled, PublishFailed, PublishUnknown}
    else from in {Scheduled, Approved, PublishFailed}
  }

  // The write is keyed by the publication's id alone, and leaves out a column that keeps the value it was read with.
  function Overwritten(status: PublicationStatus, clerk: Clerk): PublicationStatus {
    if clerk.cancels then Cancelled else if clerk.seen == Scheduled then status else Scheduled
  }

  // ---------- Steps ----------

  datatype Step =
    | Dispatches(d: nat, dispatcherAct: DispatcherAct)
    | Observes(o: nat, observerAct: ObserverAct)
    | ReadStatus(c: nat, cancels: bool)
    | WriteStatus(c: nat)
    | ActivateStep(own: bool)
    | RetireStep(activation: nat, consumed: bool)
    | Foreign(rows: Rows)

  function Get<T>(m: map<nat, T>, k: nat): Option<T> {
    if k in m then Some(m[k]) else None
  }

  function Put<T>(m: map<nat, T>, k: nat, v: Option<T>): map<nat, T> {
    if v.Some? then m[k := v.value] else m - {k}
  }

  function Next(w: World, s: Step): World {
    match s
    case Dispatches(d, act) =>
      var moved := DispatcherMove(w.rows, Get(w.dispatchers, d), act);
      w.(rows := moved.rows, calls := if moved.called then w.calls + 1 else w.calls,
        dispatchers := Put(w.dispatchers, d, moved.pc))
    case Observes(o, act) =>
      var moved := ObserverMove(w.rows, Get(w.observers, o), act);
      w.(rows := moved.rows, observers := Put(w.observers, o, moved.pc))
    case ReadStatus(c, cancels) =>
      if c !in w.clerks && CanMove(w.rows.publication.status, cancels)
      then w.(clerks := w.clerks[c := Clerk(w.rows.publication.status, cancels)]) else w
    case WriteStatus(c) =>
      if c in w.clerks then
        var status := Overwritten(w.rows.publication.status, w.clerks[c]);
        w.(rows := w.rows.(publication := w.rows.publication.(status := status)), clerks := w.clerks - {c})
      else w
    case ActivateStep(own) => w.(rows := Activate(w.rows, own))
    case RetireStep(i, consumed) => w.(rows := Retire(w.rows, i, consumed))
    case Foreign(rows) =>
      // Anything else that writes these rows. Attempts are never deleted; everything else may change.
      if |rows.attempts| >= |w.rows.attempts| then w.(rows := rows) else w
  }

  function Run(w: World, steps: seq<Step>): World {
    if steps == [] then w else Next(Run(w, steps[..|steps| - 1]), steps[|steps| - 1])
  }
}
