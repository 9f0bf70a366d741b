// The five-pin batch tables of backend/app/db/bounded_batch_schema_0034.py: CHECK and UNIQUE
// constraints plus the guard trigger, as a state machine of accepted row operations.
module BatchGuard {
  import opened Basics
  import opened Wrappers

  datatype BatchState = Open | Preparing | Ready | Running | Paused | Completed | Failed

  datatype Outcome = PublishedOutcome | FailedOutcome | UnknownOutcome

  datatype Batch = Batch(
    target: int, attempts: int, state: BatchState, admissionClosed: bool, manifest: Option<string>)

  // Columns every entry has from its insertion on.
  datatype Identity = Identity(
    item: string, product: string, board: string, externalBoard: string, itemFingerprint: string)

  // Columns bound while the batch is prepared.
  datatype Binding = Binding(
    publication: Option<string>, permit: Option<string>,
    publicationFingerprint: Option<string>, requestFingerprint: Option<string>)

  datatype Entry = Entry(
    identity: Identity, binding: Binding, reservedAt: Option<int>, attempt: Option<string>, outcome: Option<Outcome>)

  type Key = (string, int)

  datatype Tables = Tables(batches: map<string, Batch>, entries: map<Key, Entry>)

  datatype Operation =
    | InsertBatch(id: string, batch: Batch)
    | UpdateBatch(id: string, newId: string, batch: Batch)
    | InsertEntry(key: Key, entry: Entry)
    | UpdateEntry(key: Key, newKey: Key, entry: Entry)
    | DeleteOrTruncate

  // ---------- What the trigger counts ----------

  function ReservedKeys(entries: map<Key, Entry>, id: string): set<Key> {
    set key | key in entries && key.0 == id && entries[key].reservedAt.Some?
  }

  predicate FullyBound(binding: Binding) {
    && binding.publication.Some? && binding.permit.Some?
    && binding.publicationFingerprint.Some? && binding.requestFingerprint.Some?
  }

  function BoundKeys(entries: map<Key, Entry>, id: string): set<Key> {
    set key | key in entries && key.0 == id && FullyBound(entries[key].binding)
  }

  function PublishedKeys(entries: map<Key, Entry>, id: string): set<Key> {
    set key | key in entries && key.0 == id && entries[key].outcome == Some(PublishedOutcome)
  }

  // ---------- CHECK and UNIQUE constraints ----------

  predicate BatchChecks(b: Batch) {
    && b.target == 5
    && 0 <= b.attempts <= 5
    && (b.attempts < 5 || b.admissionClosed)
    && (b.state in {Ready, Running} || b.admissionClosed)
  }

  predicate EntryChecks(key: Key, e: Entry) {
    0 <= key.1 <= 4 && (e.attempt.None? || e.reservedAt.Some?)
  }

  // A unique column ignores NULL.
  predicate Clash(a: Option<string>, b: Option<string>) {
    a.Some? && a == b
  }

  predicate UniqueAgainst(entries: map<Key, Entry>, except: set<Key>, e: Entry) {
    forall key | key in entries && key !in except ::
      && entries[key].identity.item != e.identity.item
      && !Clash(entries[key].binding.publication, e.binding.publication)
      && !Clash(entries[key].binding.permit, e.binding.permit)
      && !Clash(entries[key].attempt, e.attempt)
  }

  // ---------- The guard trigger ----------

  predicate Transition(from: BatchState, to: BatchState) {
    match from
    case Open => to in {Preparing, Paused, Failed}
    case Preparing => to in {Ready, Paused, Failed}
    case Ready => to in {Running, Paused, Failed}
    case Running => to in {Paused, Failed, Completed}
    case Paused => to in {Failed, Completed}
    case _ => false
  }

  predicate BatchImmutable(before: Batch, after: Batch) {
    && after.target == before.target
    && before.attempts <= after.attempts <= before.attempts + 1
    && (before.manifest.Some? ==> after.manifest == before.manifest)
    && !(before.admissionClosed && before.state != Preparing && !after.admissionClosed)
  }

  predicate BatchTrigger(t: Tables, id: string, before: Batch, after: Batch) {
    && BatchImmutable(before, after)
    && (after.state != before.state ==> Transition(before.state, after.state))
    && after.attempts == |ReservedKeys(t.entries, id)|
    && (after.state in {Ready, Running, Completed} ==> after.manifest.Some? && |BoundKeys(t.entries, id)| == 5)
    && (after.state == Completed ==> after.attempts == 5 && |PublishedKeys(t.entries, id)| == 5)
  }

  predicate EntryImmutable(before: Entry, after: Entry) {
    && after.identity == before.identity
    && (before.binding.publication.Some? ==> after.binding == before.binding)
    && (before.reservedAt.Some? ==> after.reservedAt == before.reservedAt)
    && (before.attempt.Some? ==> after.attempt == before.attempt)
    && (before.outcome in {Some(PublishedOutcome), Some(FailedOutcome)} ==> after.outcome == before.outcome)
  }

  predicate EntryTrigger(t: Tables, id: string, before: Entry, after: Entry) {
    && EntryImmutable(before, after)
    && (before.binding.publication.None? && after.binding.publication.Some? ==>
        id in t.batches && t.batches[id].state == Preparing)
    && (before.reservedAt.None? && after.reservedAt.Some? ==>
        id in t.batches && t.batches[id].state == Running
        && !t.batches[id].admissionClosed && t.batches[id].attempts < 5)
  }

  predicate Accepts(t: Tables, op: Operation) {
    match op
    case InsertBatch(id, batch) => id !in t.batches && BatchChecks(batch)
    case UpdateBatch(id, newId, batch) =>
      id in t.batches && newId == id && BatchChecks(batch) && BatchTrigger(t, id, t.batches[id], batch)
    case InsertEntry(key, entry) =>
      && key !in t.entries && key.0 in t.batches && t.batches[key.0].state == Preparing
      && EntryChecks(key, entry) && UniqueAgainst(t.entries, {}, entry)
    case UpdateEntry(key, newKey, entry) =>
      && key in t.entries && newKey == key && EntryTrigger(t, key.0, t.entries[key], entry)
      && EntryChecks(key, entry) && UniqueAgainst(t.entries, {key}, entry)
    case DeleteOrTruncate => false
  }

  function Apply(t: Tables, op: Operation): Tables {
    match op
    case InsertBatch(id, batch) => t.(batches := t.batches[id := batch])
    case UpdateBatch(id, _, batch) => t.(batches := t.batches[id := batch])
    case InsertEntry(key, entry) => t.(entries := t.entries[key := entry])
    case UpdateEntry(key, _, entry) => t.(entries := t.entries[key := entry])
    case DeleteOrTruncate => t
  }

  // What the trigger does not ask of inserted rows: a batch starts unsealed and without attempts, as the column
  // defaults do, and an entry starts unreserved.
  predicate Sound(op: Operation) {
    && (op.InsertBatch? ==> op.batch.attempts == 0 && op.batch.state !in {Ready, Running, Completed})
    && (op.InsertEntry? ==> op.entry.reservedAt.None?)
  }

  // ---------- The tables, changed row by row ----------

  class Ledger {
    var batches: map<string, Batch>
    var entries: map<Key, Entry>

    function Rows(): Tables
      reads this
    {
      Tables(batches, entries)
    }

    constructor ()
      ensures Rows() == Tables(map[], map[])
    {
      batches, entries := map[], map[];
    }

    method CreateBatch(id: string, batch: Batch) returns (accepted: bool)
      modifies this
      ensures accepted <==> Accepts(old(Rows()), InsertBatch(id, batch))
      ensures Rows() == if accepted then Apply(old(Rows()), InsertBatch(id, batch)) else old(Rows())
    {
      accepted := id !in batches && BatchChecks(batch);
      if accepted { batches := batches[id := batch]; }
    }

    // BEFORE UPDATE on the batch table: the raises in the order of the function, then the constraints.
    method ChangeBatch(id: string, newId: string, batch: Batch) returns (accepted: bool)
      modifies this
      ensures accepted <==> Accepts(old(Rows()), UpdateBatch(id, newId, batch))
      ensures Rows() == if accepted then Apply(old(Rows()), UpdateBatch(id, newId, batch)) else old(Rows())
    {
      if id !in batches { return false; }
      var before := batches[id];
      if newId != id || !BatchImmutable(before, batch) { return false; }
      if batch.state != before.state && !Transition(before.state, batch.state) { return false; }
      if batch.attempts != |ReservedKeys(entries, newId)| { return false; }
      if batch.state in {Ready, Running, Completed} && (batch.manifest.None? || |BoundKeys(entries, newId)| != 5) {
        return false;
      }
      if batch.state == Completed && (batch.attempts != 5 || |PublishedKeys(entries, newId)| != 5) { return false; }
      if !BatchChecks(batch) { return false; }
      batches := batches[id := batch];
      return true;
    }

    method AddEntry(key: Key, entry: Entry) returns (accepted: bool)
      modifies this
      ensures accepted <==> Accepts(old(Rows()), InsertEntry(key, entry))
      ensures Rows() == if accepted then Apply(old(Rows()), InsertEntry(key, entry)) else old(Rows())
    {
      if key.0 !in batches || batches[key.0].state != Preparing { return false; }
      accepted := key !in entries && EntryChecks(key, entry) && UniqueAgainst(entries, {}, entry);
      if accepted { entries := entries[key := entry]; }
    }

    method ChangeEntry(key: Key, newKey: Key, entry: Entry) returns (accepted: bool)
      modifies this
      ensures accepted <==> Accepts(old(Rows()), UpdateEntry(key, newKey, entry))
      ensures Rows() == if accepted then Apply(old(Rows()), UpdateEntry(key, newKey, entry)) else old(Rows())
    {
      if key !in entries { return false; }
      var before := entries[key];
      if newKey != key || !EntryImmutable(before, entry) { return false; }
      if before.binding.publication.None? && entry.binding.publication.Some?
        && !(key.0 in batches && batches[key.0].state == Preparing) { return false; }
      if before.reservedAt.None? && entry.reservedAt.Some?
        && !(key.0 in batches && batches[key.0].state == Running
             && !batches[key.0].admissionClosed && batches[key.0].attempts < 5) { return false; }
      accepted := EntryChecks(key, entry) && UniqueAgainst(entries, {key}, entry);
      if accepted { entries := entries[key := entry]; }
    }
  }

  // ---------- The invariant ----------

  function Rank(s: BatchState): nat {
    match s
    case Open => 0
    case Preparing => 1
    case Ready => 2
    case Running => 3
    case Paused => 4
    case Completed => 5
    case Failed => 5
  }

  ghost function Slots(id: string): (slots: set<Key>)
    ensures forall key :: key in slots <==> key.0 == id && 0 <= key.1 <= 4
    ensures |slots| == 5
  {
    var slots := {(id, 0), (id, 1), (id, 2), (id, 3), (id, 4)};
    slots
  }

  // Exactly the five slots, each bound to a publication, a permit and both fingerprints.
  ghost predicate FiveBound(t: Tables, id: string) {
    && (forall slot :: 0 <= slot <= 4 ==> (id, slot) in t.entries && FullyBound(t.entries[(id, slot)].binding))
    && (forall key :: key in t.entries && key.0 == id ==> 0 <= key.1 <= 4)
  }

  ghost predicate FivePublished(t: Tables, id: string) {
    forall slot :: 0 <= slot <= 4 ==>
      && (id, slot) in t.entries
      && t.entries[(id, slot)].outcome == Some(PublishedOutcome)
      && t.entries[(id, slot)].reservedAt.Some?
  }

  ghost predicate EntriesValid(t: Tables) {
    forall key :: key in t.entries ==> key.0 in t.batches && EntryChecks(key, t.entries[key])
  }

  ghost predicate BatchValid(t: Tables, id: string)
    requires id in t.batches
  {
    var b := t.batches[id];
    && BatchChecks(b)
    && (b.state in {Ready, Running, Completed} ==> b.manifest.Some? && FiveBound(t, id))
    && (b.state == Completed ==> b.attempts == 5 && FivePublished(t, id))
    && b.attempts <= |ReservedKeys(t.entries, id)|
    && (b.state in {Open, Preparing, Ready} ==> ReservedKeys(t.entries, id) == {})
  }

  ghost predicate Valid(t: Tables) {
    EntriesValid(t) && forall id :: id in t.batches ==> BatchValid(t, id)
  }

  // A count of five over the entries of a batch covers all five slots.
  lemma FiveCoverSlots(t: Tables, id: string, keys: set<Key>)
    requires EntriesValid(t)
    requires forall key :: key in keys ==> key in t.entries && key.0 == id
    ensures |keys| <= 5
    ensures |keys| == 5 ==> forall slot :: 0 <= slot <= 4 ==> (id, slot) in keys
  {
    SubsetSize(keys, Slots(id));
  }

  lemma BatchUpdateKeepsValid(t: Tables, id: string, after: Batch)
    requires Valid(t) && Accepts(t, UpdateBatch(id, id, after))
    ensures Valid(Apply(t, UpdateBatch(id, id, after)))
  {
    var t' := Apply(t, UpdateBatch(id, id, after));
    FiveCoverSlots(t, id, BoundKeys(t.entries, id));
    FiveCoverSlots(t, id, PublishedKeys(t.entries, id));
    FiveCoverSlots(t, id, ReservedKeys(t.entries, id));
    forall other | other in t'.batches ensures BatchValid(t', other) {
      assert other != id ==> BatchValid(t, other);
      assert BatchValid(t, id);
    }
  }

  lemma EntryChangeKeepsOthers(t: Tables, key: Key, entry: Entry, id: string)
    requires key.0 != id
    ensures ReservedKeys(t.entries[key := entry], id) == ReservedKeys(t.entries, id)
  {
  }

  // Reservations only accumulate.
  lemma ReservationGrows(t: Tables, key: Key, entry: Entry)
    requires key in t.entries ==> (t.entries[key].reservedAt.Some? ==> entry.reservedAt.Some?)
    ensures ReservedKeys(t.entries, key.0) <= ReservedKeys(t.entries[key := entry], key.0)
    ensures |ReservedKeys(t.entries, key.0)| <= |ReservedKeys(t.entries[key := entry], key.0)|
    ensures entry.reservedAt.None? ==> ReservedKeys(t.entries, key.0) == ReservedKeys(t.entries[key := entry], key.0)
  {
    SubsetSize(ReservedKeys(t.entries, key.0), ReservedKeys(t.entries[key := entry], key.0));
  }

  lemma EntryStepKeepsValid(t: Tables, op: Operation)
    requires Valid(t) && Accepts(t, op) && Sound(op) && (op.InsertEntry? || op.UpdateEntry?)
    ensures Valid(Apply(t, op))
  {
    var t', key, entry := Apply(t, op), op.key, op.entry;
    ReservationGrows(t, key, entry);
    forall id | id in t'.batches ensures BatchValid(t', id) {
      assert BatchValid(t, id);
      if id != key.0 {
        EntryChangeKeepsOthers(t, key, entry, id);
      } else if entry.reservedAt.Some? && t.batches[id].state in {Open, Preparing, Ready} {
        assert op.UpdateEntry?;
        assert key !in ReservedKeys(t.entries, id);
        assert false;
      }
    }
  }

  lemma NewBatchIsEmpty(t: Tables, id: string)
    requires EntriesValid(t) && id !in t.batches
    ensures ReservedKeys(t.entries, id) == {}
    ensures forall key :: key in t.entries ==> key.0 != id
  {
  }

  lemma BatchInsertKeepsValidIff(t: Tables, id: string, batch: Batch)
    requires Valid(t) && Accepts(t, InsertBatch(id, batch))
    ensures Valid(Apply(t, InsertBatch(id, batch))) <==> Sound(InsertBatch(id, batch))
  {
    var t' := Apply(t, InsertBatch(id, batch));
    NewBatchIsEmpty(t, id);
    assert (id, 0) !in t'.entries && id in t'.batches;
    forall other | other in t'.batches && other != id ensures BatchValid(t', other) {
      assert BatchValid(t, other);
    }
  }

  lemma ReservedInsertBreaks(t: Tables, key: Key, entry: Entry)
    requires Valid(t) && Accepts(t, InsertEntry(key, entry)) && entry.reservedAt.Some?
    ensures !Valid(Apply(t, InsertEntry(key, entry)))
  {
    var t' := Apply(t, InsertEntry(key, entry));
    assert key in ReservedKeys(t'.entries, key.0) && key.0 in t'.batches && t'.batches[key.0].state == Preparing;
  }

  // An accepted operation keeps the invariant of both tables exactly when an inserted row is sound.
  lemma StepKeepsValidIff(t: Tables, op: Operation)
    requires Valid(t) && Accepts(t, op)
    ensures Valid(Apply(t, op)) <==> Sound(op)
  {
    match op
    case InsertBatch(id, batch) => BatchInsertKeepsValidIff(t, id, batch);
    case UpdateBatch(id, newId, batch) => BatchUpdateKeepsValid(t, id, batch);
    case InsertEntry(key, entry) =>
      if entry.reservedAt.Some? { ReservedInsertBreaks(t, key, entry); } else { EntryStepKeepsValid(t, op); }
    case _ => EntryStepKeepsValid(t, op);
  }

  // ---------- What no step undoes ----------

  ghost predicate BatchLater(t: Tables, t': Tables, id: string) {
    id in t.batches ==>
      && id in t'.batches
      && var b, b' := t.batches[id], t'.batches[id];
      && Rank(b.state) <= Rank(b'.state)
      && (Rank(b.state) == Rank(b'.state) ==> b.state == b'.state)
      && b'.target == b.target && b.attempts <= b'.attempts
      && (b.manifest.Some? ==> b'.manifest == b.manifest)
      && (b.admissionClosed && Rank(b.state) >= Rank(Ready) ==> b'.admissionClosed)
      && |ReservedKeys(t.entries, id)| <= |ReservedKeys(t'.entries, id)|
  }

  ghost predicate EntryLater(t: Tables, t': Tables, key: Key) {
    key in t.entries ==> key in t'.entries && EntryImmutable(t.entries[key], t'.entries[key])
  }

  // State changes strictly climb an acyclic rank, and nothing latched is undone.
  lemma StepIsLater(t: Tables, op: Operation, id: string, key: Key)
    requires Accepts(t, op)
    ensures BatchLater(t, Apply(t, op), id) && EntryLater(t, Apply(t, op), key)
    ensures id in t.batches && t.batches[id].state != Apply(t, op).batches[id].state ==>
      Rank(t.batches[id].state) < Rank(Apply(t, op).batches[id].state)
  {
    if op.InsertEntry? || op.UpdateEntry? {
      ReservationGrows(t, op.key, op.entry);
      if op.key.0 != id {
        EntryChangeKeepsOthers(t, op.key, op.entry, id);
      }
    }
  }

  // A new binding needs PREPARING; a new reservation needs RUNNING with open admission and a free slot.
  lemma StepRespectsWindows(t: Tables, op: Operation, key: Key)
    requires Accepts(t, op) && key in t.entries
    ensures t.entries[key].binding.publication.None? && Apply(t, op).entries[key].binding.publication.Some? ==>
      key.0 in t.batches && t.batches[key.0].state == Preparing
    ensures t.entries[key].reservedAt.None? && Apply(t, op).entries[key].reservedAt.Some? ==>
      && key.0 in t.batches && t.batches[key.0].state == Running
      && !t.batches[key.0].admissionClosed && t.batches[key.0].attempts < 5
  {
  }

  // The ledger equals the count after every accepted batch update, and a gap of two blocks them all.
  lemma UpdateSettlesLedger(t: Tables, id: string, newId: string, batch: Batch)
    requires Accepts(t, UpdateBatch(id, newId, batch))
    ensures var t' := Apply(t, UpdateBatch(id, newId, batch));
      t'.batches[id].attempts == |ReservedKeys(t'.entries, id)| <= t.batches[id].attempts + 1
  {
  }

  // ---------- Whole runs ----------

  ghost predicate Run(trace: seq<Tables>, ops: seq<Operation>) {
    && |trace| == |ops| + 1
    && trace[0] == Tables(map[], map[])
    && forall i :: 0 <= i < |ops| ==>
      Accepts(trace[i], ops[i]) && Sound(ops[i]) && trace[i + 1] == Apply(trace[i], ops[i])
  }

  lemma {:induction false} RunIsValid(trace: seq<Tables>, ops: seq<Operation>, i: nat)
    requires Run(trace, ops) && i < |trace|
    ensures Valid(trace[i])
    decreases i
  {
    if i > 0 {
      RunIsValid(trace, ops, i - 1);
      StepKeepsValidIff(trace[i - 1], ops[i - 1]);
    }
  }

  lemma LaterIsTransitive(a: Tables, b: Tables, c: Tables, id: string, key: Key)
    requires BatchLater(a, b, id) && EntryLater(a, b, key) && BatchLater(b, c, id) && EntryLater(b, c, key)
    ensures BatchLater(a, c, id) && EntryLater(a, c, key)
  {
  }

  ghost predicate LaterAt(trace: seq<Tables>, j: int, id: string, key: Key) {
    0 < j < |trace| && BatchLater(trace[j - 1], trace[j], id) && EntryLater(trace[j - 1], trace[j], key)
  }

  lemma NextIsLater(trace: seq<Tables>, ops: seq<Operation>, j: nat, id: string, key: Key)
    requires Run(trace, ops) && 0 < j < |trace|
    ensures LaterAt(trace, j, id, key)
  {
    StepIsLater(trace[j - 1], ops[j - 1], id, key);
  }

  lemma {:induction false} LaterAdds(trace: seq<Tables>, i: nat, j: nat, id: string, key: Key)
    requires i <= j < |trace| && forall k :: i < k <= j ==> LaterAt(trace, k, id, key)
    ensures BatchLater(trace[i], trace[j], id) && EntryLater(trace[i], trace[j], key)
    decreases j
  {
    if i < j {
      LaterAdds(trace, i, j - 1, id, key);
      assert LaterAt(trace, j, id, key);
      LaterIsTransitive(trace[i], trace[j - 1], trace[j], id, key);
    }
  }

  lemma RunIsLater(trace: seq<Tables>, ops: seq<Operation>, i: nat, j: nat, id: string, key: Key)
    requires Run(trace, ops) && i <= j < |trace|
    ensures BatchLater(trace[i], trace[j], id) && EntryLater(trace[i], trace[j], key)
  {
    forall k | i < k <= j ensures LaterAt(trace, k, id, key) {
      NextIsLater(trace, ops, k, id, key);
    }
    LaterAdds(trace, i, j, id, key);
  }

  ghost predicate InState(t: Tables, id: string, states: set<BatchState>) {
    id in t.batches && t.batches[id].state in states
  }

  // Ready, running or completed: exactly five entries, slots 0 to 4, bound and frozen for the rest of the run.
  lemma FiveFrozenIdentities(trace: seq<Tables>, ops: seq<Operation>, i: nat, j: nat, id: string)
    requires Run(trace, ops) && i <= j < |trace|
    requires InState(trace[i], id, {Ready, Running, Completed})
    ensures FiveBound(trace[i], id)
    ensures forall key: Key :: key.0 == id ==> (key in trace[j].entries <==> 0 <= key.1 <= 4)
    ensures forall slot :: 0 <= slot <= 4 ==>
      && trace[j].entries[(id, slot)].identity == trace[i].entries[(id, slot)].identity
      && trace[j].entries[(id, slot)].binding == trace[i].entries[(id, slot)].binding
  {
    RunIsValid(trace, ops, i);
    RunIsValid(trace, ops, j);
    assert BatchValid(trace[i], id);
    forall slot | 0 <= slot <= 4
      ensures (id, slot) in trace[j].entries
      ensures trace[j].entries[(id, slot)].identity == trace[i].entries[(id, slot)].identity
      ensures trace[j].entries[(id, slot)].binding == trace[i].entries[(id, slot)].binding
    {
      RunIsLater(trace, ops, i, j, id, (id, slot));
    }
    forall key | key in trace[j].entries && key.0 == id ensures 0 <= key.1 <= 4 {
      assert EntryChecks(key, trace[j].entries[key]);
    }
  }

  // A completed batch keeps five published outcomes and five attempts.
  lemma CompletedForever(trace: seq<Tables>, ops: seq<Operation>, i: nat, j: nat, id: string)
    requires Run(trace, ops) && i <= j < |trace| && InState(trace[i], id, {Completed})
    ensures InState(trace[j], id, {Completed}) && trace[j].batches[id].attempts == 5 && FivePublished(trace[j], id)
    ensures forall slot :: 0 <= slot <= 4 ==>
      && (id, slot) in trace[i].entries
      && trace[j].entries[(id, slot)].reservedAt == trace[i].entries[(id, slot)].reservedAt
  {
    RunIsValid(trace, ops, i);
    RunIsValid(trace, ops, j);
    assert BatchValid(trace[i], id);
    RunIsLater(trace, ops, i, j, id, (id, 0));
    RankFive(trace[j].batches[id].state);
    assert BatchValid(trace[j], id);
    forall slot | 0 <= slot <= 4
      ensures trace[j].entries[(id, slot)].reservedAt == trace[i].entries[(id, slot)].reservedAt
    {
      RunIsLater(trace, ops, i, j, id, (id, slot));
    }
  }

  lemma RankFive(s: BatchState)
    ensures Rank(s) <= 5
  {
  }

  // Step i of the run opens the admission of a batch.
  ghost predicate Opens(trace: seq<Tables>, i: nat, id: string)
    requires i + 1 < |trace|
  {
    && id in trace[i].batches && id in trace[i + 1].batches
    && trace[i].batches[id].admissionClosed && !trace[i + 1].batches[id].admissionClosed
  }

  lemma {:induction false} OpeningIsSealing(trace: seq<Tables>, ops: seq<Operation>, i: nat, id: string)
    requires Run(trace, ops) && i + 1 < |trace| && Opens(trace, i, id)
    ensures trace[i].batches[id].state == Preparing && trace[i + 1].batches[id].state == Ready
  {
    RunIsValid(trace, ops, i + 1);
    assert BatchValid(trace[i + 1], id);
  }

  lemma AdmissionOpensOnce(trace: seq<Tables>, ops: seq<Operation>, i: nat, j: nat, id: string)
    requires Run(trace, ops) && i < j && j + 1 < |trace|
    ensures !(Opens(trace, i, id) && Opens(trace, j, id))
  {
    if Opens(trace, i, id) && Opens(trace, j, id) {
      OpeningIsSealing(trace, ops, i, id);
      OpeningIsSealing(trace, ops, j, id);
      RunIsLater(trace, ops, i + 1, j, id, (id, 0));
      assert false;
    }
  }

  // An open admission was opened by one earlier step and has stayed open since.
  lemma {:induction false} OpenWasOpened(trace: seq<Tables>, ops: seq<Operation>, i: nat, id: string) returns (k: nat)
    requires Run(trace, ops) && i < |trace|
    requires id in trace[i].batches && !trace[i].batches[id].admissionClosed
    ensures k < i && Opens(trace, k, id)
    ensures forall m :: k < m <= i ==> id in trace[m].batches && !trace[m].batches[id].admissionClosed
    decreases i
  {
    assert i > 0 && Accepts(trace[i - 1], ops[i - 1]) && Sound(ops[i - 1]);
    if trace[i - 1].batches[id].admissionClosed {
      k := i - 1;
    } else {
      k := OpenWasOpened(trace, ops, i - 1, id);
    }
  }

  // Every reservation falls in the single admission window of its batch.
  lemma ReservationsFallInTheWindow(trace: seq<Tables>, ops: seq<Operation>, i: nat, key: Key) returns (k: nat)
    requires Run(trace, ops) && i + 1 < |trace|
    requires key in trace[i].entries && trace[i].entries[key].reservedAt.None?
    requires trace[i + 1].entries[key].reservedAt.Some?
    ensures k < i && Opens(trace, k, key.0)
    ensures forall m :: k < m <= i ==> key.0 in trace[m].batches && !trace[m].batches[key.0].admissionClosed
    ensures InState(trace[i], key.0, {Running}) && trace[i].batches[key.0].attempts < 5
  {
    StepRespectsWindows(trace[i], ops[i], key);
    k := OpenWasOpened(trace, ops, i, key.0);
  }

  // The state right after the last accepted write of a batch's own row.
  function Settled(ops: seq<Operation>, i: nat, id: string): (k: nat)
    requires i <= |ops|
    ensures k <= i
  {
    if i == 0 then 0
    else if (ops[i - 1].InsertBatch? || ops[i - 1].UpdateBatch?) && ops[i - 1].id == id then i
    else Settled(ops, i - 1, id)
  }

  // A write of the batch's own row settles the ledger; any other operation leaves the row alone.
  lemma OperationSettles(t: Tables, op: Operation, id: string)
    requires Valid(t) && Accepts(t, op) && Sound(op) && id in Apply(t, op).batches
    ensures if (op.InsertBatch? || op.UpdateBatch?) && op.id == id
            then Apply(t, op).batches[id].attempts == |ReservedKeys(Apply(t, op).entries, id)|
            else id in t.batches && Apply(t, op).batches[id] == t.batches[id]
  {
    if op.InsertBatch? && op.id == id {
      NewBatchIsEmpty(t, id);
    } else if op.UpdateBatch? && op.id == id {
      UpdateSettlesLedger(t, id, op.newId, op.batch);
    }
  }

  // Throughout a run the ledger is the number of entries that were reserved at the batch's last write, and so never
  // more than are reserved now.
  lemma {:induction false} LedgerIsLastSettlement(trace: seq<Tables>, ops: seq<Operation>, i: nat, id: string)
    requires Run(trace, ops) && i < |trace| && id in trace[i].batches
    ensures trace[i].batches[id].attempts == |ReservedKeys(trace[Settled(ops, i, id)].entries, id)|
    ensures trace[i].batches[id].attempts <= |ReservedKeys(trace[i].entries, id)|
    decreases i
  {
    RunIsValid(trace, ops, i);
    assert BatchValid(trace[i], id);
    assert i > 0;
    RunIsValid(trace, ops, i - 1);
    OperationSettles(trace[i - 1], ops[i - 1], id);
    if Settled(ops, i, id) != i {
      LedgerIsLastSettlement(trace, ops, i - 1, id);
    }
  }

  ghost predicate GapOfTwo(t: Tables, id: string) {
    id in t.batches && |ReservedKeys(t.entries, id)| >= t.batches[id].attempts + 2
  }

  lemma GapBlocksUpdate(t: Tables, id: string, newId: string, batch: Batch)
    requires GapOfTwo(t, id)
    ensures !Accepts(t, UpdateBatch(id, newId, batch))
  {
  }

  lemma GapStays(t: Tables, op: Operation, id: string)
    requires Accepts(t, op) && GapOfTwo(t, id)
    ensures GapOfTwo(Apply(t, op), id) && Apply(t, op).batches[id] == t.batches[id]
  {
    StepIsLater(t, op, id, (id, 0));
    if op.UpdateBatch? { GapBlocksUpdate(t, id, op.newId, op.batch); }
  }

  // Once the reservations are two ahead of the ledger, the batch row can never change again.
  lemma {:induction false} GapFreezesBatch(trace: seq<Tables>, ops: seq<Operation>, i: nat, j: nat, id: string)
    requires Run(trace, ops) && i <= j < |trace| && GapOfTwo(trace[i], id)
    ensures GapOfTwo(trace[j], id) && trace[j].batches[id] == trace[i].batches[id]
    ensures j < |ops| && ops[j].UpdateBatch? ==> ops[j].id != id
    decreases j
  {
    if i < j {
      GapFreezesBatch(trace, ops, i, j - 1, id);
      GapStays(trace[j - 1], ops[j - 1], id);
    }
    if j < |ops| && ops[j].UpdateBatch? {
      GapBlocksUpdate(trace[j], id, ops[j].newId, ops[j].batch);
      assert Accepts(trace[j], ops[j]);
    }
  }

  // ---------- A run that reaches the gap ----------

  lemma RunExtends(trace: seq<Tables>, ops: seq<Operation>, op: Operation, next: Tables)
    returns (trace': seq<Tables>, ops': seq<Operation>)
    requires Run(trace, ops) && Accepts(trace[|ops|], op) && Sound(op) && next == Apply(trace[|ops|], op)
    ensures Run(trace', ops') && trace'[|ops'|] == next
  {
    trace', ops' := trace + [next], ops + [op];
  }

  function BatchIn(state: BatchState): Batch {
    var sealed := state in {Ready, Running};
    Batch(5, 0, state, !sealed, if sealed then Some("") else None)
  }

  function EntryAt(slot: nat): Entry {
    Entry(Identity(Stars(slot), "", "", "", ""), Binding(Some(Stars(slot)), Some(Stars(slot)), Some(""), Some("")),
      None, None, None)
  }

  function Reserved(slot: nat): Entry { EntryAt(slot).(reservedAt := Some(0)) }

  function EntriesUpTo(id: string, n: nat): (entries: map<Key, Entry>)
    ensures forall key: Key :: key in entries <==> key.0 == id && 0 <= key.1 < n
    ensures forall slot: nat :: slot < n ==> entries[(id, slot)] == EntryAt(slot)
  {
    if n == 0 then map[] else EntriesUpTo(id, n - 1)[(id, n - 1) := EntryAt(n - 1)]
  }

  // A batch in this state, with its first entries unreserved.
  function Tabled(id: string, state: BatchState, n: nat): Tables {
    Tables(map[id := BatchIn(state)], EntriesUpTo(id, n))
  }

  lemma NamesDiffer(a: nat, b: nat)
    ensures a != b ==> EntryAt(a).identity.item != EntryAt(b).identity.item
    ensures a != b ==> EntryAt(a).binding.publication != EntryAt(b).binding.publication
    ensures a != b ==> EntryAt(a).binding.permit != EntryAt(b).binding.permit
  {
    assert |Stars(a)| == a && |Stars(b)| == b;
  }

  lemma NextEntryAccepted(id: string, n: nat)
    requires n < 5
    ensures Accepts(Tabled(id, Preparing, n), InsertEntry((id, n), EntryAt(n)))
    ensures Apply(Tabled(id, Preparing, n), InsertEntry((id, n), EntryAt(n))) == Tabled(id, Preparing, n + 1)
  {
    var entries := EntriesUpTo(id, n);
    forall key | key in entries
      ensures entries[key].identity.item != EntryAt(n).identity.item
      ensures !Clash(entries[key].binding.publication, EntryAt(n).binding.publication)
      ensures !Clash(entries[key].binding.permit, EntryAt(n).binding.permit)
    {
      NamesDiffer(key.1, n);
    }
  }

  lemma NoneReserved(id: string, n: nat)
    ensures ReservedKeys(EntriesUpTo(id, n), id) == {}
  {
    var entries := EntriesUpTo(id, n);
    forall key | key in entries ensures entries[key].reservedAt.None? {
      assert entries[key] == EntryAt(key.1);
    }
  }

  lemma {:induction false} Filling(id: string, n: nat) returns (trace: seq<Tables>, ops: seq<Operation>)
    requires n <= 5
    ensures Run(trace, ops) && trace[|ops|] == Tabled(id, Preparing, n)
  {
    if n == 0 {
      NoneReserved(id, 0);
      trace, ops := RunExtends([Tables(map[], map[])], [], InsertBatch(id, BatchIn(Open)), Tabled(id, Open, 0));
      trace, ops := RunExtends(trace, ops, UpdateBatch(id, id, BatchIn(Preparing)), Tabled(id, Preparing, 0));
    } else {
      trace, ops := Filling(id, n - 1);
      NextEntryAccepted(id, n - 1);
      trace, ops := RunExtends(trace, ops, InsertEntry((id, n - 1), EntryAt(n - 1)), Tabled(id, Preparing, n));
    }
  }

  lemma FiveAreBound(id: string)
    ensures |BoundKeys(EntriesUpTo(id, 5), id)| == 5
  {
    var entries := EntriesUpTo(id, 5);
    forall key | key in entries ensures FullyBound(entries[key].binding) {
      assert entries[key] == EntryAt(key.1);
    }
    assert BoundKeys(entries, id) == Slots(id);
  }

  // The full batch is sealed, and then it runs.
  lemma Starting(id: string) returns (trace: seq<Tables>, ops: seq<Operation>)
    ensures Run(trace, ops) && trace[|ops|] == Tabled(id, Running, 5)
  {
    trace, ops := Filling(id, 5);
    FiveAreBound(id);
    NoneReserved(id, 5);
    trace, ops := RunExtends(trace, ops, UpdateBatch(id, id, BatchIn(Ready)), Tabled(id, Ready, 5));
    trace, ops := RunExtends(trace, ops, UpdateBatch(id, id, BatchIn(Running)), Tabled(id, Running, 5));
  }

  // The running batch with its first entry reserved or not.
  ghost predicate Reserving(t: Tables, id: string) {
    && t.batches == map[id := BatchIn(Running)]
    && t.entries.Keys == EntriesUpTo(id, 5).Keys
    && forall key :: key in t.entries ==> t.entries[key] == EntryAt(key.1) || t.entries[key] == Reserved(key.1)
  }

  lemma ReservationAccepted(t: Tables, id: string, slot: nat)
    requires slot < 5 && Reserving(t, id) && t.entries[(id, slot)] == EntryAt(slot)
    ensures Accepts(t, UpdateEntry((id, slot), (id, slot), Reserved(slot)))
    ensures Reserving(Apply(t, UpdateEntry((id, slot), (id, slot), Reserved(slot))), id)
  {
    forall key | key in t.entries && key != (id, slot)
      ensures t.entries[key].identity.item != Reserved(slot).identity.item
      ensures !Clash(t.entries[key].binding.publication, Reserved(slot).binding.publication)
      ensures !Clash(t.entries[key].binding.permit, Reserved(slot).binding.permit)
      ensures t.entries[key].attempt.None?
    {
      NamesDiffer(key.1, slot);
    }
  }

  lemma TwoReservations(id: string, running: Tables, first: Operation, second: Operation)
    requires running == Tabled(id, Running, 5)
    requires first == UpdateEntry((id, 0), (id, 0), Reserved(0)) && second == UpdateEntry((id, 1), (id, 1), Reserved(1))
    ensures Accepts(running, first) && Accepts(Apply(running, first), second)
    ensures GapOfTwo(Apply(Apply(running, first), second), id)
  {
    ReservationAccepted(running, id, 0);
    ReservationAccepted(Apply(running, first), id, 1);
    SubsetSize({(id, 0), (id, 1)}, ReservedKeys(Apply(Apply(running, first), second).entries, id));
  }

  // Two reservations without a batch update between them: a run reaches the gap, for every batch.
  lemma GapIsReached(id: string) returns (trace: seq<Tables>, ops: seq<Operation>)
    ensures Run(trace, ops) && GapOfTwo(trace[|ops|], id)
  {
    trace, ops := Starting(id);
    var first, second := UpdateEntry((id, 0), (id, 0), Reserved(0)), UpdateEntry((id, 1), (id, 1), Reserved(1));
    var running := Tabled(id, Running, 5);
    TwoReservations(id, running, first, second);
    trace, ops := RunExtends(trace, ops, first, Apply(running, first));
    trace, ops := RunExtends(trace, ops, second, Apply(Apply(running, first), second));
  }

  // The premise on inserts is needed: the trigger would let an entry in that is already reserved.
  lemma ReservedInsertIsAccepted(t: Tables, key: Key, entry: Entry)
    requires Valid(t) && InState(t, key.0, {Preparing}) && key !in t.entries
    requires EntryChecks(key, entry) && UniqueAgainst(t.entries, {}, entry) && entry.reservedAt.Some?
    ensures Accepts(t, InsertEntry(key, entry)) && !Valid(Apply(t, InsertEntry(key, entry)))
  {
    assert key in ReservedKeys(Apply(t, InsertEntry(key, entry)).entries, key.0);
    assert InState(Apply(t, InsertEntry(key, entry)), key.0, {Preparing});
    assert key.0 in Apply(t, InsertEntry(key, entry)).batches;
  }

  // ---------- A run that completes ----------

  function PublishedAt(slot: nat): Entry { Reserved(slot).(outcome := Some(PublishedOutcome)) }

  function EntriesDone(id: string, n: nat): map<Key, Entry> {
    map key | key in EntriesUpTo(id, 5) :: if key.1 < n then PublishedAt(key.1) else EntryAt(key.1)
  }

  // The running batch after its first publications; the fifth closes admission.
  function Underway(id: string, n: nat): Tables {
    Tables(map[id := Batch(5, n, Running, n == 5, Some(""))], EntriesDone(id, n))
  }

  ghost function FirstKeys(id: string, n: nat): (keys: set<Key>)
    ensures |keys| == n && forall key: Key :: key in keys <==> key.0 == id && 0 <= key.1 < n
  {
    if n == 0 then {} else FirstKeys(id, n - 1) + {(id, n - 1)}
  }

  lemma KeysCount(id: string, n: nat)
    ensures |EntriesUpTo(id, n).Keys| == n
  {
    assert EntriesUpTo(id, n).Keys == FirstKeys(id, n);
  }

  lemma EntryDone(id: string, n: nat, key: Key)
    requires key in EntriesUpTo(id, 5)
    ensures var e := EntriesDone(id, n)[key];
      && FullyBound(e.binding)
      && (e.reservedAt.Some? <==> key.1 < n) && (e.outcome == Some(PublishedOutcome) <==> key.1 < n)
  {
    assert EntriesUpTo(id, 5)[key] == EntryAt(key.1);
  }

  lemma ReservedDone(id: string, n: nat)
    requires n <= 5
    ensures ReservedKeys(EntriesDone(id, n), id) == EntriesUpTo(id, n).Keys
  {
    forall key | key in EntriesUpTo(id, 5) ensures EntriesDone(id, n)[key].reservedAt.Some? <==> key.1 < n {
      EntryDone(id, n, key);
    }
  }

  lemma PublishedDone(id: string, n: nat)
    requires n <= 5
    ensures PublishedKeys(EntriesDone(id, n), id) == EntriesUpTo(id, n).Keys
  {
    forall key | key in EntriesUpTo(id, 5)
      ensures EntriesDone(id, n)[key].outcome == Some(PublishedOutcome) <==> key.1 < n
    {
      EntryDone(id, n, key);
    }
  }

  lemma BoundDone(id: string, n: nat)
    ensures BoundKeys(EntriesDone(id, n), id) == Slots(id)
  {
    forall key | key in EntriesUpTo(id, 5) ensures FullyBound(EntriesDone(id, n)[key].binding) {
      EntryDone(id, n, key);
    }
  }

  lemma DoneCounts(id: string, n: nat)
    requires n <= 5
    ensures |ReservedKeys(EntriesDone(id, n), id)| == n == |PublishedKeys(EntriesDone(id, n), id)|
    ensures |BoundKeys(EntriesDone(id, n), id)| == 5
  {
    ReservedDone(id, n);
    PublishedDone(id, n);
    BoundDone(id, n);
    KeysCount(id, n);
  }

  lemma PublicationAccepted(id: string, n: nat, t: Tables, op: Operation)
    requires n < 5 && t == Underway(id, n) && op == UpdateEntry((id, n), (id, n), PublishedAt(n))
    ensures Accepts(t, op) && Apply(t, op) == t.(entries := EntriesDone(id, n + 1))
  {
    forall key | key in t.entries && key != (id, n)
      ensures t.entries[key].identity.item != PublishedAt(n).identity.item
      ensures !Clash(t.entries[key].binding.publication, PublishedAt(n).binding.publication)
      ensures !Clash(t.entries[key].binding.permit, PublishedAt(n).binding.permit)
      ensures t.entries[key].attempt.None?
    {
      NamesDiffer(key.1, n);
    }
    assert Apply(t, op).entries == EntriesDone(id, n + 1);
  }

  // The batch update that follows each publication.
  lemma SettlementAccepted(id: string, n: nat, t: Tables)
    requires 1 <= n <= 5 && t == Underway(id, n - 1).(entries := EntriesDone(id, n))
    ensures Accepts(t, UpdateBatch(id, id, Underway(id, n).batches[id]))
    ensures Apply(t, UpdateBatch(id, id, Underway(id, n).batches[id])) == Underway(id, n)
  {
    DoneCounts(id, n);
  }

  lemma {:induction false} Publishing(id: string, n: nat) returns (trace: seq<Tables>, ops: seq<Operation>)
    requires n <= 5
    ensures Run(trace, ops) && trace[|ops|] == Underway(id, n)
  {
    if n == 0 {
      trace, ops := Starting(id);
      assert EntriesDone(id, 0) == EntriesUpTo(id, 5);
    } else {
      trace, ops := Publishing(id, n - 1);
      var t, op := Underway(id, n - 1), UpdateEntry((id, n - 1), (id, n - 1), PublishedAt(n - 1));
      PublicationAccepted(id, n - 1, t, op);
      trace, ops := RunExtends(trace, ops, op, t.(entries := EntriesDone(id, n)));
      SettlementAccepted(id, n, t.(entries := EntriesDone(id, n)));
      trace, ops := RunExtends(trace, ops, UpdateBatch(id, id, Underway(id, n).batches[id]), Underway(id, n));
    }
  }

  // Every batch can complete: a run from the empty tables that publishes all five and ends COMPLETED.
  lemma CompletionIsReached(id: string) returns (trace: seq<Tables>, ops: seq<Operation>)
    ensures Run(trace, ops) && InState(trace[|ops|], id, {Completed})
  {
    trace, ops := Publishing(id, 5);
    DoneCounts(id, 5);
    var done := Batch(5, 5, Completed, true, Some(""));
    trace, ops := RunExtends(trace, ops, UpdateBatch(id, id, done), Underway(id, 5).(batches := map[id := done]));
  }

  // ---------- What is accepted, column by column ----------

  const STATE_CHANGES: set<(BatchState, BatchState)> := {
    (Open, Preparing), (Open, Paused), (Open, Failed),
    (Preparing, Ready), (Preparing, Paused), (Preparing, Failed),
    (Ready, Running), (Ready, Paused), (Ready, Failed),
    (Running, Paused), (Running, Failed), (Running, Completed),
    (Paused, Failed), (Paused, Completed)}

  // An entry of the batch bound in all four columns.
  ghost predicate BoundAt(t: Tables, key: Key) {
    && key in t.entries
    && t.entries[key].binding.publication.Some? && t.entries[key].binding.permit.Some?
    && t.entries[key].binding.publicationFingerprint.Some? && t.entries[key].binding.requestFingerprint.Some?
  }

  ghost predicate PublishedIn(t: Tables, key: Key) {
    key in t.entries && t.entries[key].outcome == Some(PublishedOutcome)
  }

  // Exactly the five slots of a batch in valid tables.
  lemma FiveSlots(t: Tables, id: string, keys: set<Key>)
    requires EntriesValid(t) && forall key :: key in keys ==> key in t.entries && key.0 == id
    ensures |keys| == 5 <==> forall slot :: 0 <= slot <= 4 ==> (id, slot) in keys
  {
    FiveCoverSlots(t, id, keys);
    if forall slot :: 0 <= slot <= 4 ==> (id, slot) in keys {
      assert Slots(id) <= keys;
      SubsetSize(Slots(id), keys);
    }
  }

  // A batch update: the ledger advances by at most one and ends at the number of reservations; the manifest is set
  // once; admission opens only out of PREPARING; the state moves along the listed changes; a sealed state needs all
  // five slots bound, and COMPLETED five attempts and five published slots.
  lemma BatchUpdateAcceptedIff(t: Tables, id: string, newId: string, b: Batch)
    requires Valid(t) && id in t.batches
    ensures var was := t.batches[id];
      Accepts(t, UpdateBatch(id, newId, b)) <==>
      && newId == id && b.target == 5
      && was.attempts <= b.attempts <= was.attempts + 1 && b.attempts <= 5
      && b.attempts == |set key | key in t.entries && key.0 == id && t.entries[key].reservedAt.Some?|
      && (b.attempts == 5 || b.state !in {Ready, Running} ==> b.admissionClosed)
      && (was.admissionClosed && !b.admissionClosed ==> was.state == Preparing)
      && (was.manifest.Some? ==> b.manifest == was.manifest)
      && (b.state == was.state || (was.state, b.state) in STATE_CHANGES)
      && (b.state in {Ready, Running, Completed} ==>
            b.manifest.Some? && forall slot :: 0 <= slot <= 4 ==> BoundAt(t, (id, slot)))
      && (b.state == Completed ==>
            b.attempts == 5 && forall slot :: 0 <= slot <= 4 ==> PublishedIn(t, (id, slot)))
  {
    assert BatchValid(t, id);
    assert ReservedKeys(t.entries, id) == set key | key in t.entries && key.0 == id && t.entries[key].reservedAt.Some?;
    FiveSlots(t, id, BoundKeys(t.entries, id));
    FiveSlots(t, id, PublishedKeys(t.entries, id));
    TransitionsListed(t.batches[id].state, b.state);
  }

  lemma TransitionsListed(from: BatchState, to: BatchState)
    ensures Transition(from, to) <==> (from, to) in STATE_CHANGES
  {
  }

  // No two entries share an item, nor a publication, a permit or an attempt that is set.
  ghost predicate Shares(a: Entry, b: Entry) {
    || a.identity.item == b.identity.item
    || (a.binding.publication.Some? && a.binding.publication == b.binding.publication)
    || (a.binding.permit.Some? && a.binding.permit == b.binding.permit)
    || (a.attempt.Some? && a.attempt == b.attempt)
  }

  // An entry update: the identity never changes; a bound publication freezes the binding; a reservation, an attempt
  // and a PUBLISHED or FAILED outcome stay; binding needs PREPARING, reserving RUNNING with open admission.
  lemma EntryUpdateAcceptedIff(t: Tables, key: Key, newKey: Key, e: Entry)
    requires Valid(t) && key in t.entries
    ensures var was, b := t.entries[key], t.batches[key.0];
      Accepts(t, UpdateEntry(key, newKey, e)) <==>
      && newKey == key
      && e.identity.item == was.identity.item && e.identity.product == was.identity.product
      && e.identity.board == was.identity.board && e.identity.externalBoard == was.identity.externalBoard
      && e.identity.itemFingerprint == was.identity.itemFingerprint
      && (if was.binding.publication.Some? then e.binding == was.binding
          else e.binding.publication.Some? ==> b.state == Preparing)
      && (if was.reservedAt.Some? then e.reservedAt == was.reservedAt
          else e.reservedAt.Some? ==> b.state == Running && !b.admissionClosed && b.attempts < 5)
      && (if was.attempt.Some? then e.attempt == was.attempt else e.attempt.Some? ==> e.reservedAt.Some?)
      && (was.outcome in {Some(PublishedOutcome), Some(FailedOutcome)} ==> e.outcome == was.outcome)
      && forall other :: other in t.entries && other != key ==> !Shares(t.entries[other], e)
  {
  }

  // What is inserted: a batch under its checks; an entry into a PREPARING batch, in one of the five slots.
  lemma InsertsAcceptedIff(t: Tables, id: string, b: Batch, key: Key, e: Entry)
    ensures Accepts(t, InsertBatch(id, b)) <==>
      && id !in t.batches && b.target == 5 && 0 <= b.attempts <= 5
      && (b.attempts == 5 || b.state !in {Ready, Running} ==> b.admissionClosed)
    ensures Accepts(t, InsertEntry(key, e)) <==>
      && key !in t.entries && key.0 in t.batches && t.batches[key.0].state == Preparing
      && 0 <= key.1 <= 4 && (e.attempt.Some? ==> e.reservedAt.Some?)
      && forall other :: other in t.entries ==> !Shares(t.entries[other], e)
    ensures !Accepts(t, DeleteOrTruncate)
  {
  }

  // Over every run an entry keeps what it once had: its identity, a bound publication with its permit and
  // fingerprints, a reservation, an attempt, and an outcome that is PUBLISHED or FAILED.
  lemma EntriesKeepWhatTheyHave(trace: seq<Tables>, ops: seq<Operation>, i: nat, j: nat, key: Key)
    requires Run(trace, ops) && i <= j < |trace| && key in trace[i].entries
    ensures key in trace[j].entries && trace[j].entries[key].identity == trace[i].entries[key].identity
    ensures var a, z := trace[i].entries[key], trace[j].entries[key];
      && (a.binding.publication.Some? ==>
            && z.binding.publication == a.binding.publication && z.binding.permit == a.binding.permit
            && z.binding.publicationFingerprint == a.binding.publicationFingerprint
            && z.binding.requestFingerprint == a.binding.requestFingerprint)
      && (a.reservedAt.Some? ==> z.reservedAt == a.reservedAt)
      && (a.attempt.Some? ==> z.attempt == a.attempt)
      && (a.outcome == Some(PublishedOutcome) ==> z.outcome == Some(PublishedOutcome))
      && (a.outcome == Some(FailedOutcome) ==> z.outcome == Some(FailedOutcome))
  {
    RunIsLater(trace, ops, i, j, key.0, key);
  }
}
