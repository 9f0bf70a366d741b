// What every run of Dispatch has to show for a provider call, a recorded failure, and an audit event.
module DispatchEvidence {
  import opened Wrappers
  import opened Dispatch
  import opened DispatchActs
  import opened DispatchAgreement
  import opened DispatchSafety
  import R = Receipts

  // ---------- Behind a provider call ----------

  // At this act of the dispatcher its attempt was the sole one, started under a publishing row.
  ghost predicate CheckedAt(w: World, steps: seq<Step>, d: nat, mine: nat, act: DispatcherAct, i: nat) {
    i < |steps| && steps[i] == Dispatches(d, act) && Alone(Run(w, steps[..i]).rows, mine)
  }

  ghost predicate Checked(w: World, steps: seq<Step>, d: nat, mine: nat, act: DispatcherAct) {
    exists i: nat :: CheckedAt(w, steps, d, mine, act, i)
  }

  ghost predicate CheckedTwice(w: World, steps: seq<Step>, d: nat, mine: nat) {
    Checked(w, steps, d, mine, Verify(true)) && Checked(w, steps, d, mine, VerifyAgain(true))
  }

  // What must have happened before a dispatcher stands where it stands.
  ghost predicate Earned(w: World, steps: seq<Step>, d: nat, pc: Dispatcher) {
    && (pc.Verified? ==> Checked(w, steps, d, pc.mine, Verify(true)))
    && (pc.Ready? || pc.Answered? || pc.Recovering? ==> CheckedTwice(w, steps, d, pc.mine))
    && (pc.Answered? || pc.Recovering? ==> Dispatches(d, Mutate(pc.outcome)) in steps)
  }

  lemma PrefixStays(steps: seq<Step>, s: Step, i: nat)
    requires i <= |steps|
    ensures (steps + [s])[..i] == steps[..i]
  {
  }

  lemma CheckedStays(w: World, steps: seq<Step>, s: Step, d: nat, mine: nat, act: DispatcherAct)
    requires Checked(w, steps, d, mine, act)
    ensures Checked(w, steps + [s], d, mine, act)
  {
    var i: nat :| CheckedAt(w, steps, d, mine, act, i);
    PrefixStays(steps, s, i);
    assert CheckedAt(w, steps + [s], d, mine, act, i);
  }

  lemma EarnedStays(w: World, steps: seq<Step>, s: Step, d: nat, pc: Dispatcher)
    requires Earned(w, steps, d, pc)
    ensures Earned(w, steps + [s], d, pc)
  {
    if pc.Verified? || pc.Ready? || pc.Answered? || pc.Recovering? {
      CheckedStays(w, steps, s, d, pc.mine, Verify(true));
    }
    if pc.Ready? || pc.Answered? || pc.Recovering? {
      CheckedStays(w, steps, s, d, pc.mine, VerifyAgain(true));
    }
  }

  lemma CheckedNow(w: World, steps: seq<Step>, d: nat, mine: nat, act: DispatcherAct)
    requires Alone(Run(w, steps).rows, mine)
    ensures Checked(w, steps + [Dispatches(d, act)], d, mine, act)
  {
    assert (steps + [Dispatches(d, act)])[..|steps|] == steps;
    assert CheckedAt(w, steps + [Dispatches(d, act)], d, mine, act, |steps|);
  }

  // One act of a dispatcher that has earned its place.
  lemma ActEarns(w: World, steps: seq<Step>, d: nat, pc: Option<Dispatcher>, act: DispatcherAct)
    requires pc.Some? ==> Earned(w, steps, d, pc.value)
    ensures var moved := DispatcherMove(Run(w, steps).rows, pc, act);
      moved.pc.Some? ==> Earned(w, steps + [Dispatches(d, act)], d, moved.pc.value)
  {
    var rows, s := Run(w, steps).rows, Dispatches(d, act);
    if pc.Some? { EarnedStays(w, steps, s, d, pc.value); }
    if act.Verify? && pc.Some? && pc.value.Claimed? {
      ChecksExactly(rows, pc.value.mine, act.elsewhereValid);
      if act.elsewhereValid && Alone(rows, pc.value.mine) { CheckedNow(w, steps, d, pc.value.mine, act); }
    } else if act.VerifyAgain? && pc.Some? && pc.value.Verified? {
      ChecksExactly(rows, pc.value.mine, act.elsewhereValid);
      if act.elsewhereValid && Alone(rows, pc.value.mine) {
        CheckedNow(w, steps, d, pc.value.mine, act);
        CheckedStays(w, steps, s, d, pc.value.mine, Verify(true));
      }
    }
  }

  // Over every run: a dispatcher that is about to call, or has called, passed both checks, and the answer it reports
  // is the one that its own call was given.
  lemma {:induction false} RunEarns(w: World, steps: seq<Step>, d: nat)
    requires w.dispatchers == map[]
    ensures d in Run(w, steps).dispatchers ==> Earned(w, steps, d, Run(w, steps).dispatchers[d])
  {
    if steps != [] {
      var most, last := steps[..|steps| - 1], steps[|steps| - 1];
      assert steps == most + [last];
      RunEarns(w, most, d);
      if last.Dispatches? && last.d == d {
        ActEarns(w, most, d, Get(Run(w, most).dispatchers, d), last.dispatcherAct);
      } else if d in Run(w, most).dispatchers {
        EarnedStays(w, most, last, d, Run(w, most).dispatchers[d]);
      }
    }
  }

  // Over every run, with any other writers: the provider was called only by a dispatcher that passed both checks.
  lemma {:induction false} CallsWereChecked(w: World, steps: seq<Step>)
    requires w.dispatchers == map[] && w.calls == 0
    ensures Run(w, steps).calls > 0 ==>
      exists d, mine, outcome :: CheckedTwice(w, steps, d, mine) && Dispatches(d, Mutate(outcome)) in steps
  {
    if steps != [] {
      var most, last := steps[..|steps| - 1], steps[|steps| - 1];
      assert steps == most + [last];
      CallsWereChecked(w, most);
      if Run(w, most).calls > 0 {
        var d, mine, outcome :| CheckedTwice(w, most, d, mine) && Dispatches(d, Mutate(outcome)) in most;
        CheckedStays(w, most, last, d, mine, Verify(true));
        CheckedStays(w, most, last, d, mine, VerifyAgain(true));
        assert CheckedTwice(w, steps, d, mine) && Dispatches(d, Mutate(outcome)) in steps;
      } else if last.Dispatches? {
        var pc := Get(Run(w, most).dispatchers, last.d);
        CallsExactly(Run(w, most).rows, pc, last.dispatcherAct);
        RunEarns(w, most, last.d);
        if Run(w, steps).calls > 0 {
          EarnedStays(w, most, last, last.d, pc.value);
          assert CheckedTwice(w, steps, last.d, pc.value.mine) && last in steps;
        }
      }
    }
  }

  // ---------- Behind a recorded failure ----------

  // Over every orderly run: a dispatcher turns the publication to PUBLISH_FAILED only with a definitive answer; that is
  // a check that failed before any call, or the provider's own answer to its call, refused or posted as an error.
  lemma FailureIsDefinitive(w: World, steps: seq<Step>, d: nat, act: DispatcherAct)
    requires Untouched(w) && Orderly(w, steps)
    requires var v, v' := Run(w, steps), Next(Run(w, steps), Dispatches(d, act));
      v.rows.publication.status != PublishFailed && v'.rows.publication.status == PublishFailed
    ensures act.CommitResult? && d in Run(w, steps).dispatchers
    ensures var v, pc := Run(w, steps), Run(w, steps).dispatchers[d];
      || (pc.Failing? && v.calls == 0)
      || (pc.Answered? && pc.outcome.Rejected? && Dispatches(d, Mutate(pc.outcome)) in steps)
      || (pc.Answered? && pc.outcome.Posted? && pc.outcome.status == ProviderError
          && Dispatches(d, Mutate(pc.outcome)) in steps)
  {
    var v, pc := Run(w, steps), Get(Run(w, steps).dispatchers, d);
    FailureIsReported(v.rows, pc, act);
    RecordsExactly(v.rows, pc.value, act.fate);
    RunEarns(w, steps, d);
    UntouchedAgrees(w);
    RunKeepsInv(w, steps, w.rows.publication.pin);
    MutatedAtMostOnce(w, steps);
  }

  lemma FailureIsReported(rows: Rows, pc: Option<Dispatcher>, act: DispatcherAct)
    requires rows.publication.status != PublishFailed
    requires DispatcherMove(rows, pc, act).rows.publication.status == PublishFailed
    ensures act.CommitResult? && pc.Some? && Reports(pc.value)
  {
  }

  // ---------- Behind an audit event ----------

  // The attempt's stored link named this pin at some point of the run.
  ghost predicate LinkWas(w: World, steps: seq<Step>, i: nat, pin: Option<string>, k: nat) {
    && k <= |steps| && i < |Run(w, steps[..k]).rows.attempts|
    && Run(w, steps[..k]).rows.attempts[i].link == pin
  }

  // Where the pin of a choice comes from: a sent post's own pin, which no other publication had; without one, the
  // stored link; and none for a post that was not sent.
  ghost predicate PinSource(w: World, steps: seq<Step>, o: nat, target: Target, choice: Choice) {
    if choice.seen.status != Sent then choice.pin == None && !choice.retained
    else if choice.seen.pin.Some? then
      && choice.pin == choice.seen.pin && !choice.retained
      && exists h, f :: Observes(o, MakeChoice(h, f, false)) in steps
    else choice.pin.Some? && choice.retained && exists k: nat :: LinkWas(w, steps, target.attempt, choice.pin, k)
  }

  // The invocation itself read a snapshot of the target's operation that matches in every immutable field.
  ghost predicate Evidence(w: World, steps: seq<Step>, o: nat, target: Target, choice: Choice) {
    && Observes(o, FinishRead(choice.seen)) in steps
    && choice.seen.matches && choice.seen.operation == target.operation
    && PinSource(w, steps, o, target, choice)
  }

  ghost predicate Confirmed(steps: seq<Step>, o: nat) { exists h :: Observes(o, ConfirmFallback(h, false)) in steps }

  predicate HasChoice(pc: Observer) { pc.FallbackChosen? || pc.FallbackNoted? || Settling(pc) }

  predicate Settling(pc: Observer) { pc.Chosen? || pc.Casting? || pc.Armed? }

  ghost predicate Backed(w: World, steps: seq<Step>, o: nat, pc: Observer) {
    && (pc.ReadDone? ==> Observes(o, FinishRead(pc.seen)) in steps)
    && (HasChoice(pc) ==> Evidence(w, steps, o, pc.target, pc.choice))
    && (Settling(pc) && pc.choice.retained ==> Confirmed(steps, o))
  }

  lemma BackedStays(w: World, steps: seq<Step>, s: Step, o: nat, pc: Observer)
    requires Backed(w, steps, o, pc)
    ensures Backed(w, steps + [s], o, pc)
  {
    if HasChoice(pc) {
      if k: nat :| LinkWas(w, steps, pc.target.attempt, pc.choice.pin, k) {
        PrefixStays(steps, s, k);
        assert LinkWas(w, steps + [s], pc.target.attempt, pc.choice.pin, k);
      }
    }
  }

  lemma ChoiceLeads(rows: Rows, pc: Observer, act: ObserverAct)
    requires pc.ReadDone? && act.MakeChoice?
    ensures var moved := ObserverMove(rows, Some(pc), act).pc;
      moved.Some? && HasChoice(moved.value) ==>
        && moved.value.target == pc.target && (moved.value.choice.retained <==> moved.value.FallbackChosen?)
        && Leads(rows, pc.target, pc.seen, act.historical, act.fallback, act.taken, moved.value.choice)
  {
    var decided := Decide(rows, pc.target, pc.seen, act.historical, act.fallback, act.taken);
    if decided.Some? {
      DecidesExactly(rows, pc.target, pc.seen, act.historical, act.fallback, act.taken, decided.value);
    }
  }

  lemma ChoiceIsCarried(rows: Rows, pc: Observer, act: ObserverAct)
    requires !(pc.ReadDone? && act.MakeChoice?)
    ensures var moved := ObserverMove(rows, Some(pc), act).pc;
      moved.Some? && HasChoice(moved.value) ==>
        && HasChoice(pc) && moved.value.target == pc.target && moved.value.choice == pc.choice
        && (Settling(moved.value) && !Settling(pc) ==> pc.FallbackNoted? && act.ConfirmFallback? && !act.taken)
  {
  }

  lemma ReadingIsCarried(rows: Rows, pc: Observer, act: ObserverAct)
    ensures var moved := ObserverMove(rows, Some(pc), act).pc;
      moved.Some? && moved.value.ReadDone? ==> moved.value == pc || act == FinishRead(moved.value.seen)
  {
  }

  // One act: a choice is made from what was read, and otherwise only carried on.
  lemma ActKeepsChoice(rows: Rows, pc: Observer, act: ObserverAct)
    ensures var moved := ObserverMove(rows, Some(pc), act).pc;
      && (moved.Some? && moved.value.ReadDone? ==> moved.value == pc || act == FinishRead(moved.value.seen))
      && (moved.Some? && HasChoice(moved.value) ==>
            || (HasChoice(pc) && moved.value.target == pc.target && moved.value.choice == pc.choice
                && (Settling(moved.value) && !Settling(pc) && pc.FallbackNoted? ==>
                      act.ConfirmFallback? && !act.taken))
            || (pc.ReadDone? && act.MakeChoice? && moved.value.target == pc.target
                && Leads(rows, pc.target, pc.seen, act.historical, act.fallback, act.taken, moved.value.choice)
                && (moved.value.choice.retained <==> moved.value.FallbackChosen?)))
      && (moved.Some? && Settling(moved.value) ==> Settling(pc) || pc.FallbackNoted? || pc.ReadDone?)
  {
    ReadingIsCarried(rows, pc, act);
    if pc.ReadDone? && act.MakeChoice? {
      ChoiceLeads(rows, pc, act);
    } else {
      ChoiceIsCarried(rows, pc, act);
    }
  }

  lemma LeadsIsEvidence(w: World, steps: seq<Step>, o: nat, pc: Observer, act: ObserverAct, choice: Choice)
    requires pc.ReadDone? && act.MakeChoice? && Observes(o, FinishRead(pc.seen)) in steps
    requires Leads(Run(w, steps).rows, pc.target, pc.seen, act.historical, act.fallback, act.taken, choice)
    ensures Evidence(w, steps + [Observes(o, act)], o, pc.target, choice)
  {
    var longer := steps + [Observes(o, act)];
    assert longer[|steps|] == Observes(o, act);
    if choice.retained {
      assert longer[..|steps|] == steps;
      assert LinkWas(w, longer, pc.target.attempt, choice.pin, |steps|);
    } else if choice.seen.status == Sent {
      assert act == MakeChoice(act.historical, act.fallback, false);
    }
  }

  lemma ActBacks(w: World, steps: seq<Step>, o: nat, pc: Observer, act: ObserverAct)
    requires Backed(w, steps, o, pc)
    ensures var moved := ObserverMove(Run(w, steps).rows, Some(pc), act).pc;
      moved.Some? ==> Backed(w, steps + [Observes(o, act)], o, moved.value)
  {
    var rows, longer := Run(w, steps).rows, steps + [Observes(o, act)];
    var moved := ObserverMove(rows, Some(pc), act).pc;
    assert longer[|steps|] == Observes(o, act);
    ActKeepsChoice(rows, pc, act);
    BackedStays(w, steps, Observes(o, act), o, pc);
    if moved.Some? && HasChoice(moved.value) {
      if pc.ReadDone? {
        LeadsIsEvidence(w, steps, o, pc, act, moved.value.choice);
      } else if Settling(moved.value) && pc.FallbackNoted? {
        assert act == ConfirmFallback(act.historical, false);
      }
    }
  }

  lemma {:induction false} RunBacks(w: World, steps: seq<Step>, o: nat)
    requires w.observers == map[]
    ensures o in Run(w, steps).observers ==> Backed(w, steps, o, Run(w, steps).observers[o])
  {
    if steps != [] {
      var most, last := steps[..|steps| - 1], steps[|steps| - 1];
      assert steps == most + [last];
      RunBacks(w, most, o);
      var v := Run(w, most);
      if o in v.observers {
        if last.Observes? && last.o == o {
          ActBacks(w, most, o, v.observers[o], last.observerAct);
        } else {
          BackedStays(w, most, last, o, v.observers[o]);
        }
      }
    }
  }

  // The step that wrote an event, and what its invocation had to show.
  ghost predicate WroteEvent(w: World, steps: seq<Step>, e: Event, k: nat) {
    k < |steps| && CommitsChoice(Run(w, steps[..k]), steps[k]) &&
    var o, before := Run(w, steps[..k]).observers[steps[k].o], steps[..k];
    && Evidence(w, before, steps[k].o, o.target, o.choice)
    && (o.choice.retained ==> Confirmed(before, steps[k].o))
    && match o.choice.seen.status
       case Sent => e == Event(o.target.attempt, Published, o.choice.pin) && e.pin.Some?
       case ProviderError => e == Event(o.target.attempt, PublishFailed, None)
       case Pending => false
  }

  lemma WroteStays(w: World, steps: seq<Step>, s: Step, e: Event, k: nat)
    requires WroteEvent(w, steps, e, k)
    ensures WroteEvent(w, steps + [s], e, k)
  {
    assert (steps + [s])[..k] == steps[..k];
  }

  lemma LastWrote(w: World, steps: seq<Step>, s: Step)
    requires w.observers == map[] && !s.Foreign?
    requires Next(Run(w, steps), s).rows.events != Run(w, steps).rows.events
    ensures |Next(Run(w, steps), s).rows.events| == |Run(w, steps).rows.events| + 1
    ensures Run(w, steps).rows.events <= Next(Run(w, steps), s).rows.events
    ensures WroteEvent(w, steps + [s], Next(Run(w, steps), s).rows.events[|Run(w, steps).rows.events|], |steps|)
  {
    var v := Run(w, steps);
    OnlySettlingWritesEvents(v, s);
    assert (steps + [s])[..|steps|] == steps;
    RunBacks(w, steps, s.o);
    CommitsExactly(v.rows, v.observers[s.o], s.observerAct.fate);
  }

  // Over every run of the protocol, whatever clerks write: each audit event was written by an invocation that itself
  // read a matching snapshot of the attempt's operation, sent for PUBLISHED and an error for PUBLISH_FAILED, and its
  // pin is the snapshot's own or the stored link's.
  lemma {:induction false} EventsHaveEvidence(w: World, steps: seq<Step>, j: nat) returns (k: nat)
    requires w.observers == map[] && w.rows.events == [] && NoForeign(steps)
    requires j < |Run(w, steps).rows.events|
    ensures WroteEvent(w, steps, Run(w, steps).rows.events[j], k)
  {
    var most, last := steps[..|steps| - 1], steps[|steps| - 1];
    assert steps == most + [last];
    if Run(w, steps).rows.events == Run(w, most).rows.events {
      k := EventsHaveEvidence(w, most, j);
      WroteStays(w, most, last, Run(w, steps).rows.events[j], k);
    } else {
      LastWrote(w, most, last);
      if j < |Run(w, most).rows.events| {
        k := EventsHaveEvidence(w, most, j);
        WroteStays(w, most, last, Run(w, steps).rows.events[j], k);
      } else {
        k := |most|;
      }
    }
  }
}
