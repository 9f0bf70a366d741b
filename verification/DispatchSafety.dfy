// Safety of every interleaving of the steps in Dispatch: dispatchers, observers, activation, scheduling, crashes.
module DispatchSafety {
  import opened Wrappers
  import opened Dispatch
  import R = Receipts

  // ---------- At most one provider mutation ----------

  function Mine(pc: Dispatcher): Option<nat> {
    match pc
    case SawActivation(_) => None
    case Cleared(_) => None
    case _ => Some(pc.mine)
  }

  predicate Owns(pc: Option<Dispatcher>) { pc.Some? && Mine(pc.value).Some? }

  predicate BeforeMutation(pc: Dispatcher) { pc.Claimed? || pc.Verified? || pc.Ready? || pc.Failing? }

  ghost predicate Owned(dispatchers: map<nat, Dispatcher>, attempts: nat) {
    && (forall d :: d in dispatchers && Mine(dispatchers[d]).Some? ==> Mine(dispatchers[d]).value < attempts)
    && (forall d, e :: d in dispatchers && e in dispatchers && d != e && Mine(dispatchers[d]).Some? ==>
          Mine(dispatchers[d]) != Mine(dispatchers[e]))
    && (forall d :: d in dispatchers && dispatchers[d].Ready? ==> dispatchers[d].mine == 0)
  }

  // Distinct dispatchers own distinct attempts; only the owner of the first can be about to mutate, and after the
  // one call it no longer is.
  ghost predicate OneCall(w: World) {
    && Owned(w.dispatchers, |w.rows.attempts|)
    && w.calls <= 1
    && (w.calls == 1 ==> w.rows.attempts != [])
    && (w.calls == 1 ==>
          forall d :: d in w.dispatchers && BeforeMutation(w.dispatchers[d]) ==> w.dispatchers[d].mine != 0)
  }

  // What one act of a dispatcher can do to its own attempt and to the provider.
  ghost predicate MovesFairly(rows: Rows, pc: Option<Dispatcher>, moved: Dispatched) {
    && |moved.rows.attempts| >= |rows.attempts|
    && (moved.called ==>
          && pc.Some? && pc.value.Ready? && moved.pc.Some? && moved.pc.value.Answered?
          && moved.pc.value.mine == pc.value.mine)
    && (Owns(moved.pc) && !Owns(pc) ==>
          moved.pc.value == Claimed(|rows.attempts|) && |moved.rows.attempts| == |rows.attempts| + 1)
    && (Owns(moved.pc) && Owns(pc) ==>
          && Mine(moved.pc.value) == Mine(pc.value)
          && (BeforeMutation(moved.pc.value) ==> BeforeMutation(pc.value))
          && (moved.pc.value.Ready? ==> pc.value.Ready? || moved.pc.value.mine == 0))
  }

  lemma MoveFacts(rows: Rows, pc: Option<Dispatcher>, act: DispatcherAct)
    ensures MovesFairly(rows, pc, DispatcherMove(rows, pc, act))
  {
  }

  lemma PhaseKeepsAttempts(rows: Rows, ticket: Ticket, change: R.Change)
    requires Phase(rows, ticket, change).Some?
    ensures |Phase(rows, ticket, change).value.attempts| == |rows.attempts|
  {
  }

  lemma SettleKeepsAttempts(rows: Rows, o: Observer)
    requires o.Armed? && Settle(rows, o).Some?
    ensures |Settle(rows, o).value.attempts| == |rows.attempts|
  {
  }

  lemma ObserversKeepAttempts(rows: Rows, pc: Option<Observer>, act: ObserverAct)
    ensures |ObserverMove(rows, pc, act).rows.attempts| == |rows.attempts|
  {
    var moved := ObserverMove(rows, pc, act).rows;
    if moved != rows && pc.Some? && !pc.value.SawUnknown? {
      if pc.value.Armed? && Settle(rows, pc.value).Some? {
        SettleKeepsAttempts(rows, pc.value);
      }
      if act.NoteRefusal? && Phase(rows, pc.value.ticket, act.change).Some? {
        PhaseKeepsAttempts(rows, pc.value.ticket, act.change);
      }
      var plan := PhasePlan(pc.value, act);
      if plan.Write? && Phase(rows, pc.value.ticket, plan.change).Some? {
        PhaseKeepsAttempts(rows, pc.value.ticket, plan.change);
      }
    }
  }

  lemma StepKeepsOwned(w: World, d: nat, act: DispatcherAct)
    requires OneCall(w)
    ensures var moved := DispatcherMove(w.rows, Get(w.dispatchers, d), act);
      Owned(Put(w.dispatchers, d, moved.pc), |moved.rows.attempts|)
  {
    MoveFacts(w.rows, Get(w.dispatchers, d), act);
  }

  lemma DispatcherKeepsOneCall(w: World, d: nat, act: DispatcherAct)
    requires OneCall(w)
    ensures OneCall(Next(w, Dispatches(d, act)))
  {
    MoveFacts(w.rows, Get(w.dispatchers, d), act);
    StepKeepsOwned(w, d, act);
  }

  lemma StepKeepsOneCall(w: World, s: Step)
    requires OneCall(w)
    ensures OneCall(Next(w, s))
  {
    match s
    case Dispatches(d, act) => DispatcherKeepsOneCall(w, d, act);
    case Observes(o, act) => ObserversKeepAttempts(w.rows, Get(w.observers, o), act);
    case _ =>
  }

  // Over every run of any number of dispatchers, with crashes and lost commits anywhere, and with every other
  // writer free to change anything but delete an attempt, the provider mutation is called at most once.
  lemma {:induction false} MutatedAtMostOnce(w: World, steps: seq<Step>)
    requires w.dispatchers == map[] && w.calls == 0
    ensures OneCall(Run(w, steps)) && Run(w, steps).calls <= 1
  {
    if steps != [] {
      MutatedAtMostOnce(w, steps[..|steps| - 1]);
      StepKeepsOneCall(Run(w, steps[..|steps| - 1]), steps[|steps| - 1]);
    }
  }
}
