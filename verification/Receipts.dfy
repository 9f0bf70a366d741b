// The bounded receipt ring that backend/app/services/buffer_publication_reconciliation.py keeps in an attempt's
// metadata document.
module Receipts {
  import opened Basics
  import opened Wrappers

  const HISTORY_LIMIT: nat := 8

  // One receipt's recorded values.
  datatype Entry = Entry(phase: string, readStarted: bool, readCompleted: bool, operationStatus: Option<string>,
                         fallbackSelected: bool, code: Option<string>, stage: Option<string>, field: Option<string>)

  // The values of one phase update; None leaves the recorded value alone.
  datatype Change = Change(phase: Option<string>, readStarted: Option<bool>, readCompleted: Option<bool>,
                           operationStatus: Option<string>, fallbackSelected: Option<bool>, code: Option<string>,
                           stage: Option<string>, field: Option<string>)

  // A list element: a receipt of the current version with an integer sequence, some other dictionary, or no dictionary.
  datatype Item = Receipt(sequence: int, entry: Entry) | OtherDict(tag: int) | NonDict(tag: int)

  datatype History = Listed(items: seq<Item>) | NotAList

  // `total` is None when the stored value is not an integer.
  datatype Document = Document(history: History, total: Option<int>)

  datatype Error = ReceiptMissing

  const ARRIVED := Entry("INVOCATION_RECEIVED", false, false, None, false, None, None, None)

  function Dicts(items: seq<Item>): (r: seq<Item>)
    ensures forall i :: 0 <= i < |r| ==> !r[i].NonDict?
    ensures (forall i :: 0 <= i < |items| ==> !items[i].NonDict?) ==> r == items
  {
    if items == [] then []
    else
      assert items == [items[0]] + items[1..];
      (if items[0].NonDict? then [] else [items[0]]) + Dicts(items[1..])
  }

  function Kept(doc: Document): seq<Item> {
    if doc.history.Listed? then Dicts(doc.history.items) else []
  }

  function TotalOf(doc: Document): int {
    if doc.total.Some? && doc.total.value >= 0 then doc.total.value else |Kept(doc)|
  }

  function LastOf(items: seq<Item>, n: nat): (r: seq<Item>)
    ensures |r| == if |items| < n then |items| else n
  {
    if |items| <= n then items else items[|items| - n..]
  }

  function Begin(doc: Document): Document {
    var sequence := TotalOf(doc) + 1;
    Document(Listed(LastOf(Kept(doc) + [Receipt(sequence, ARRIVED)], HISTORY_LIMIT)), Some(sequence))
  }

  // The first current-version receipt with this sequence, or the number of items.
  function Find(items: seq<Item>, sequence: int): (i: nat)
    ensures i <= |items|
    ensures i < |items| ==> items[i].Receipt? && items[i].sequence == sequence
    ensures forall k :: 0 <= k < i ==> !(items[k].Receipt? && items[k].sequence == sequence)
  {
    if items == [] || (items[0].Receipt? && items[0].sequence == sequence) then 0 else 1 + Find(items[1..], sequence)
  }

  function Over<T>(change: Option<T>, recorded: T): T {
    if change.Some? then change.value else recorded
  }

  function OverOption<T>(change: Option<T>, recorded: Option<T>): Option<T> {
    if change.Some? then change else recorded
  }

  function Changed(e: Entry, c: Change): Entry {
    Entry(Over(c.phase, e.phase), Over(c.readStarted, e.readStarted), Over(c.readCompleted, e.readCompleted),
      OverOption(c.operationStatus, e.operationStatus), Over(c.fallbackSelected, e.fallbackSelected),
      OverOption(c.code, e.code), OverOption(c.stage, e.stage), OverOption(c.field, e.field))
  }

  function WithReceipt(doc: Document, sequence: Option<int>, c: Change): Result<Document, Error> {
    if sequence.None? || Find(Kept(doc), sequence.value) == |Kept(doc)| then Err(ReceiptMissing)
    else
      var i := Find(Kept(doc), sequence.value);
      var updated := Kept(doc)[i].(entry := Changed(Kept(doc)[i].entry, c));
      Ok(doc.(history := Listed(LastOf(Kept(doc)[i := updated], HISTORY_LIMIT))))
  }

  // ---------- What a begin and an update are, on any stored document ----------

  // The kept items are the dictionaries of the list, in their order.
  lemma DictsOfCons(x: Item, rest: seq<Item>)
    ensures Dicts([x] + rest) == (if x.NonDict? then [] else [x]) + Dicts(rest) && Dicts([]) == []
  {
    assert ([x] + rest)[1..] == rest;
  }

  // The last eight of a list.
  ghost predicate LastEight(all: seq<Item>, kept: seq<Item>) {
    && |kept| == Min(8, |all|)
    && forall j :: 0 <= j < |kept| ==> kept[j] == all[|all| - |kept| + j]
  }

  // A begin reads a stored total that is a count, and otherwise counts the dictionaries; it adds an untouched receipt
  // with the next number, keeps the last eight, and stores that number.
  lemma BeginExactly(doc: Document)
    ensures var next := 1 + (if doc.total.Some? && doc.total.value >= 0 then doc.total.value else |Kept(doc)|);
      var arrived := Receipt(next, Entry("INVOCATION_RECEIVED", false, false, None, false, None, None, None));
      && Begin(doc).total == Some(next) && TotalOf(Begin(doc)) == next
      && Begin(doc).history.Listed? && LastEight(Kept(doc) + [arrived], Begin(doc).history.items)
  {
  }

  ghost predicate FirstAt(items: seq<Item>, sequence: int, i: int) {
    && 0 <= i < |items| && items[i].Receipt? && items[i].sequence == sequence
    && forall k :: 0 <= k < i ==> !(items[k].Receipt? && items[k].sequence == sequence)
  }

  // An update is refused when no receipt has its number.
  lemma UpdateRefusedIff(doc: Document, sequence: Option<int>, c: Change)
    ensures WithReceipt(doc, sequence, c).Err? <==>
            sequence.None? || forall x :: x in Kept(doc) ==> !(x.Receipt? && x.sequence == sequence.value)
  {
    if sequence.Some? {
      var i := Find(Kept(doc), sequence.value);
      assert i < |Kept(doc)| ==> Kept(doc)[i] in Kept(doc);
    }
  }

  // Otherwise it changes the first such receipt and nothing else.
  lemma UpdateExactly(doc: Document, sequence: int, c: Change, i: nat)
    requires FirstAt(Kept(doc), sequence, i)
    ensures WithReceipt(doc, Some(sequence), c).Ok?
    ensures var doc' := WithReceipt(doc, Some(sequence), c).value;
      && doc'.total == doc.total && doc'.history.Listed?
      && LastEight(Kept(doc)[i := Receipt(sequence, Changed(Kept(doc)[i].entry, c))], doc'.history.items)
  {
    var found := Find(Kept(doc), sequence);
    assert found == i;
  }

  // Every given value is recorded, and every other one is left as it was.
  lemma ChangeExactly(e: Entry, c: Change)
    ensures var e' := Changed(e, c);
      && (c.phase.Some? ==> e'.phase == c.phase.value) && (c.phase.None? ==> e'.phase == e.phase)
      && (c.readStarted.Some? ==> e'.readStarted == c.readStarted.value)
      && (c.readStarted.None? ==> e'.readStarted == e.readStarted)
      && (c.readCompleted.Some? ==> e'.readCompleted == c.readCompleted.value)
      && (c.readCompleted.None? ==> e'.readCompleted == e.readCompleted)
      && (c.operationStatus.Some? ==> e'.operationStatus == c.operationStatus)
      && (c.operationStatus.None? ==> e'.operationStatus == e.operationStatus)
      && (c.fallbackSelected.Some? ==> e'.fallbackSelected == c.fallbackSelected.value)
      && (c.fallbackSelected.None? ==> e'.fallbackSelected == e.fallbackSelected)
      && (c.code.Some? ==> e'.code == c.code) && (c.code.None? ==> e'.code == e.code)
      && (c.stage.Some? ==> e'.stage == c.stage) && (c.stage.None? ==> e'.stage == e.stage)
      && (c.field.Some? ==> e'.field == c.field) && (c.field.None? ==> e'.field == e.field)
  {
  }

  // ---------- Well-formed documents ----------

  // Receipts with consecutive sequences, the last of them `last`.
  ghost predicate Consecutive(items: seq<Item>, last: int) {
    forall i :: 0 <= i < |items| ==> items[i].Receipt? && items[i].sequence == last - |items| + 1 + i
  }

  ghost predicate WellFormed(doc: Document) {
    && doc.history.Listed? && doc.total.Some?
    && |doc.history.items| <= HISTORY_LIMIT && |doc.history.items| <= doc.total.value
    && Consecutive(doc.history.items, doc.total.value)
  }

  predicate AllDicts(items: seq<Item>) {
    forall i :: 0 <= i < |items| ==> !items[i].NonDict?
  }

  lemma LastOfDicts(items: seq<Item>, n: nat)
    requires AllDicts(items)
    ensures AllDicts(LastOf(items, n))
  {
    var last := LastOf(items, n);
    forall i | 0 <= i < |last| ensures !last[i].NonDict? {
      assert last[i] == items[|items| - |last| + i];
    }
  }

  lemma KeptOfBegin(doc: Document)
    ensures Kept(Begin(doc)) == LastOf(Kept(doc) + [Receipt(TotalOf(doc) + 1, ARRIVED)], HISTORY_LIMIT)
  {
    var longer := Kept(doc) + [Receipt(TotalOf(doc) + 1, ARRIVED)];
    assert AllDicts(Kept(doc));
    LastOfDicts(longer, HISTORY_LIMIT);
    assert AllDicts(Begin(doc).history.items);
  }

  // A document without any receipt yet, as dispatch writes it.
  predicate Blank(doc: Document) { doc.history == NotAList && doc.total == None }

  lemma BeginFromBlank(doc: Document)
    requires Blank(doc)
    ensures Begin(doc) == Document(Listed([Receipt(1, ARRIVED)]), Some(1)) && WellFormed(Begin(doc))
  {
    assert [] + [Receipt(1, ARRIVED)] == [Receipt(1, ARRIVED)];
  }

  // Beginning repairs a document exactly when its last seven dictionaries are already a run ending at its total.
  lemma BeginIsWellFormedIff(doc: Document)
    ensures var tail := LastOf(Kept(doc), HISTORY_LIMIT - 1);
      WellFormed(Begin(doc)) <==> (Consecutive(tail, TotalOf(doc)) && |tail| <= TotalOf(doc))
  {
    var tail, total := LastOf(Kept(doc), HISTORY_LIMIT - 1), TotalOf(doc);
    var added := Receipt(total + 1, ARRIVED);
    assert Begin(doc).history.items == tail + [added];
    if Consecutive(tail + [added], total + 1) {
      forall i | 0 <= i < |tail| ensures tail[i].Receipt? && tail[i].sequence == total - |tail| + 1 + i {
        assert (tail + [added])[i] == tail[i];
      }
    }
  }

  lemma BeginKeepsWellFormed(doc: Document)
    requires WellFormed(doc)
    ensures WellFormed(Begin(doc)) && TotalOf(Begin(doc)) == TotalOf(doc) + 1
    ensures |Kept(Begin(doc))| == if |Kept(doc)| < HISTORY_LIMIT then |Kept(doc)| + 1 else HISTORY_LIMIT
  {
    var items, total := doc.history.items, doc.total.value;
    assert Kept(doc) == items && TotalOf(doc) == total;
    var tail := LastOf(items, HISTORY_LIMIT - 1);
    forall i | 0 <= i < |tail| ensures tail[i].Receipt? && tail[i].sequence == total - |tail| + 1 + i {
      assert tail[i] == items[|items| - |tail| + i];
    }
    BeginIsWellFormedIff(doc);
  }

  // The receipts still on file are exactly the last ones begun; any other is reported missing, and an update
  // changes its own receipt and nothing else.
  lemma UpdateTouchesOnlyItsReceipt(doc: Document, sequence: int, c: Change)
    requires WellFormed(doc)
    ensures WithReceipt(doc, Some(sequence), c).Ok? <==> TotalOf(doc) - |Kept(doc)| < sequence <= TotalOf(doc)
    ensures WithReceipt(doc, Some(sequence), c).Ok? ==>
      var doc' := WithReceipt(doc, Some(sequence), c).value;
      && WellFormed(doc') && TotalOf(doc') == TotalOf(doc) && |Kept(doc')| == |Kept(doc)|
      && forall i :: 0 <= i < |Kept(doc)| ==>
           Kept(doc')[i] ==
           if Kept(doc)[i].sequence == sequence then Receipt(sequence, Changed(Kept(doc)[i].entry, c))
           else Kept(doc)[i]
  {
    var items, first := Kept(doc), TotalOf(doc) - |Kept(doc)| + 1;
    if first <= sequence <= TotalOf(doc) {
      assert items[sequence - first].sequence == sequence;
    }
  }

  // ---------- Runs of begins, phase updates and write-backs ----------

  // A write-back is an invocation's last write: the document it read earlier, with its own receipt changed.
  datatype Operation =
    | Begins
    | Phase(sequence: int, change: Change)
    | WriteBack(read: Document, receipt: Option<int>, change: Change)

  // A missing receipt rolls its transaction back.
  function Apply(doc: Document, op: Operation): Document {
    match op
    case Begins => Begin(doc)
    case Phase(sequence, change) =>
      var updated := WithReceipt(doc, Some(sequence), change);
      if updated.Ok? then updated.value else doc
    case WriteBack(read, receipt, change) =>
      var updated := WithReceipt(read, receipt, change);
      if updated.Ok? then updated.value else doc
  }

  function Run(doc: Document, ops: seq<Operation>): Document {
    if ops == [] then doc else Apply(Run(doc, ops[..|ops| - 1]), ops[|ops| - 1])
  }

  lemma RunAppends(doc: Document, ops: seq<Operation>, op: Operation)
    ensures Run(doc, ops + [op]) == Apply(Run(doc, ops), op)
  {
    assert (ops + [op])[..|ops|] == ops;
  }

  function BeginCount(ops: seq<Operation>): nat {
    if ops == [] then 0 else BeginCount(ops[..|ops| - 1]) + (if ops[|ops| - 1].Begins? then 1 else 0)
  }

  lemma BeginCountAppends(ops: seq<Operation>, op: Operation)
    ensures BeginCount(ops + [op]) == BeginCount(ops) + (if op.Begins? then 1 else 0)
  {
    assert (ops + [op])[..|ops|] == ops;
  }

  predicate Commits(op: Operation) {
    op.WriteBack? && WithReceipt(op.read, op.receipt, op.change).Ok?
  }

  // Only documents that were stored once are written back.
  ghost predicate ReadsWellFormed(ops: seq<Operation>) {
    forall i :: 0 <= i < |ops| && Commits(ops[i]) ==> WellFormed(ops[i].read)
  }

  predicate InPlace(ops: seq<Operation>) {
    forall i :: 0 <= i < |ops| ==> !Commits(ops[i])
  }

  lemma WriteBackRestores(op: Operation, doc: Document)
    requires Commits(op) && WellFormed(op.read)
    ensures WellFormed(Apply(doc, op)) && TotalOf(Apply(doc, op)) == TotalOf(op.read)
    ensures |Kept(Apply(doc, op))| == |Kept(op.read)|
  {
    UpdateTouchesOnlyItsReceipt(op.read, op.receipt.value, op.change);
  }

  lemma StepKeepsWellFormed(doc: Document, op: Operation)
    requires WellFormed(doc) && (Commits(op) ==> WellFormed(op.read))
    ensures WellFormed(Apply(doc, op))
    ensures op.Begins? ==> TotalOf(Apply(doc, op)) == TotalOf(doc) + 1
    ensures !op.Begins? && !Commits(op) ==>
      TotalOf(Apply(doc, op)) == TotalOf(doc) && |Kept(Apply(doc, op))| == |Kept(doc)|
    ensures Commits(op) ==> TotalOf(Apply(doc, op)) == TotalOf(op.read)
  {
    match op {
      case Begins => BeginKeepsWellFormed(doc);
      case Phase(sequence, change) => UpdateTouchesOnlyItsReceipt(doc, sequence, change);
      case WriteBack(_, _, _) => if Commits(op) { WriteBackRestores(op, doc); }
    }
  }

  function RingSize(kept: int, begins: int): int { Min(8, kept + begins) }

  lemma RingStep(doc: Document, op: Operation, kept: int, total: int, begins: nat)
    requires WellFormed(doc) && !Commits(op) && kept >= 0
    requires TotalOf(doc) == total + begins && |Kept(doc)| == RingSize(kept, begins)
    ensures var begins' := begins + (if op.Begins? then 1 else 0);
      && WellFormed(Apply(doc, op)) && TotalOf(Apply(doc, op)) == total + begins'
      && |Kept(Apply(doc, op))| == RingSize(kept, begins')
  {
    StepKeepsWellFormed(doc, op);
    if op.Begins? { BeginKeepsWellFormed(doc); }
  }

  // While documents are only changed in place, the ring is the last eight receipts begun.
  lemma {:induction false} RunKeepsRing(doc: Document, ops: seq<Operation>)
    requires WellFormed(doc) && InPlace(ops)
    ensures WellFormed(Run(doc, ops))
    ensures TotalOf(Run(doc, ops)) == TotalOf(doc) + BeginCount(ops)
    ensures |Kept(Run(doc, ops))| == RingSize(|Kept(doc)|, BeginCount(ops))
  {
    if ops != [] {
      var most, last := ops[..|ops| - 1], ops[|ops| - 1];
      RunKeepsRing(doc, most);
      RingStep(Run(doc, most), last, |Kept(doc)|, TotalOf(doc), BeginCount(most));
    }
  }

  // All the changes a run directs at one sequence, in order.
  function Story(e: Entry, sequence: int, ops: seq<Operation>): Entry {
    if ops == [] then e
    else
      var before := Story(e, sequence, ops[..|ops| - 1]);
      match ops[|ops| - 1]
      case Phase(s, change) => if s == sequence then Changed(before, change) else before
      case _ => before
  }

  ghost predicate Holds(doc: Document, sequence: int, e: Entry) {
    Receipt(sequence, e) in Kept(doc)
  }

  lemma PlaceOf(doc: Document, sequence: int, e: Entry) returns (i: nat)
    requires WellFormed(doc) && Holds(doc, sequence, e)
    ensures i < |Kept(doc)| && Kept(doc)[i] == Receipt(sequence, e) && sequence == TotalOf(doc) - |Kept(doc)| + 1 + i
  {
    i :| 0 <= i < |Kept(doc)| && Kept(doc)[i] == Receipt(sequence, e);
    assert doc.history.items[i].sequence == sequence;
  }

  lemma EvictedIsGone(doc: Document, sequence: int)
    requires WellFormed(doc) && TotalOf(doc) >= sequence + HISTORY_LIMIT
    ensures forall e :: !Holds(doc, sequence, e)
  {
    if e :| Holds(doc, sequence, e) {
      var i := PlaceOf(doc, sequence, e);
      assert false;
    }
  }

  lemma LastOfAt(items: seq<Item>, n: nat, i: nat)
    requires |items| - n <= i < |items|
    ensures items[i] in LastOf(items, n)
  {
    if |items| > n {
      assert items[|items| - n..][i - (|items| - n)] == items[i];
    }
  }

  lemma BeginKeepsReceipt(doc: Document, sequence: int, e: Entry)
    requires WellFormed(doc) && Holds(doc, sequence, e) && TotalOf(doc) + 1 - sequence < HISTORY_LIMIT
    ensures Holds(Begin(doc), sequence, e)
  {
    var i := PlaceOf(doc, sequence, e);
    KeptOfBegin(doc);
    LastOfAt(Kept(doc) + [Receipt(TotalOf(doc) + 1, ARRIVED)], HISTORY_LIMIT, i);
  }

  lemma PhaseKeepsReceipt(doc: Document, s: int, change: Change, sequence: int, e: Entry)
    requires WellFormed(doc) && Holds(doc, sequence, e)
    ensures Holds(Apply(doc, Phase(s, change)), sequence, if s == sequence then Changed(e, change) else e)
  {
    var i :| 0 <= i < |Kept(doc)| && Kept(doc)[i] == Receipt(sequence, e);
    UpdateTouchesOnlyItsReceipt(doc, s, change);
    assert Kept(Apply(doc, Phase(s, change)))[i] == Receipt(sequence, if s == sequence then Changed(e, change) else e);
  }

  lemma StepKeepsReceipt(doc: Document, op: Operation, sequence: int, e: Entry)
    requires WellFormed(doc) && Holds(doc, sequence, e) && !Commits(op)
    requires op.Begins? ==> TotalOf(doc) + 1 - sequence < HISTORY_LIMIT
    ensures Holds(Apply(doc, op), sequence, if op.Phase? && op.sequence == sequence then Changed(e, op.change) else e)
  {
    match op {
      case Begins => BeginKeepsReceipt(doc, sequence, e);
      case Phase(s, change) => PhaseKeepsReceipt(doc, s, change, sequence, e);
      case WriteBack(_, _, _) =>
    }
  }

  // What becomes of one receipt after some begins: it is on file with its story, or evicted.
  ghost predicate Tells(doc: Document, sequence: int, e: Entry, begins: nat) {
    && WellFormed(doc) && TotalOf(doc) == sequence + begins
    && (begins < HISTORY_LIMIT ==> Holds(doc, sequence, e))
  }

  lemma StepTells(doc: Document, op: Operation, sequence: int, e: Entry, begins: nat)
    requires Tells(doc, sequence, e, begins) && !Commits(op)
    ensures Tells(Apply(doc, op), sequence, if op.Phase? && op.sequence == sequence then Changed(e, op.change) else e,
                  begins + (if op.Begins? then 1 else 0))
  {
    StepKeepsWellFormed(doc, op);
    if begins + (if op.Begins? then 1 else 0) < HISTORY_LIMIT {
      StepKeepsReceipt(doc, op, sequence, e);
    }
  }

  lemma {:induction false} RunTells(doc: Document, ops: seq<Operation>)
    requires WellFormed(doc) && InPlace(ops)
    ensures Tells(Run(Begin(doc), ops), TotalOf(doc) + 1, Story(ARRIVED, TotalOf(doc) + 1, ops), BeginCount(ops))
  {
    if ops == [] {
      BeginKeepsWellFormed(doc);
      assert Kept(Begin(doc))[|Kept(Begin(doc))| - 1] == Receipt(TotalOf(doc) + 1, ARRIVED);
    } else {
      var most, last := ops[..|ops| - 1], ops[|ops| - 1];
      var sequence := TotalOf(doc) + 1;
      RunTells(doc, most);
      StepTells(Run(Begin(doc), most), last, sequence, Story(ARRIVED, sequence, most), BeginCount(most));
    }
  }

  // A receipt survives the next seven begins, holding exactly what its own updates wrote; the eighth evicts it.
  lemma ReceiptTellsItsStory(doc: Document, ops: seq<Operation>)
    requires WellFormed(doc) && InPlace(ops)
    ensures var run, sequence := Run(Begin(doc), ops), TotalOf(doc) + 1;
      if BeginCount(ops) < 8 then Holds(run, sequence, Story(ARRIVED, sequence, ops))
      else forall e :: !Holds(run, sequence, e)
  {
    RunTells(doc, ops);
    if BeginCount(ops) >= HISTORY_LIMIT {
      EvictedIsGone(Run(Begin(doc), ops), TotalOf(doc) + 1);
    }
  }

  // ---------- Writing back a document read earlier ----------

  // The place after the last committed write-back of a run, or its start.
  function LastBack(ops: seq<Operation>): (k: nat)
    ensures k <= |ops|
  {
    if ops == [] then 0 else if Commits(ops[|ops| - 1]) then |ops| else LastBack(ops[..|ops| - 1])
  }

  lemma {:induction false} LastBackCommits(ops: seq<Operation>)
    ensures LastBack(ops) > 0 ==> Commits(ops[LastBack(ops) - 1])
    ensures InPlace(ops) ==> LastBack(ops) == 0
  {
    if ops != [] && !Commits(ops[|ops| - 1]) {
      LastBackCommits(ops[..|ops| - 1]);
    }
  }

  // The total that the last write-back put back, or the one the run started from, and the begins after it.
  function Balance(total: int, ops: seq<Operation>): int {
    var k := LastBack(ops);
    (if k > 0 && Commits(ops[k - 1]) then TotalOf(ops[k - 1].read) else total) + BeginCount(ops[k..])
  }

  lemma LastBackStep(most: seq<Operation>, last: Operation)
    ensures LastBack(most + [last]) == if Commits(last) then |most| + 1 else LastBack(most)
  {
    assert (most + [last])[..|most|] == most;
  }

  lemma BalanceAfterBack(total: int, most: seq<Operation>, last: Operation)
    requires Commits(last)
    ensures Balance(total, most + [last]) == TotalOf(last.read)
  {
    LastBackStep(most, last);
    assert (most + [last])[|most| + 1..] == [];
  }

  lemma BalanceFrom(total: int, ops: seq<Operation>, k: nat, back: int)
    requires k == LastBack(ops) && back == if k > 0 && Commits(ops[k - 1]) then TotalOf(ops[k - 1].read) else total
    ensures Balance(total, ops) == back + BeginCount(ops[k..])
  {
  }

  lemma BalanceInPlace(total: int, most: seq<Operation>, last: Operation)
    requires !Commits(last)
    ensures Balance(total, most + [last]) == Balance(total, most) + (if last.Begins? then 1 else 0)
  {
    var k, ops := LastBack(most), most + [last];
    var back := if k > 0 && Commits(most[k - 1]) then TotalOf(most[k - 1].read) else total;
    LastBackStep(most, last);
    assert k > 0 ==> ops[k - 1] == most[k - 1];
    BalanceFrom(total, most, k, back);
    BalanceFrom(total, ops, k, back);
    assert ops[k..] == most[k..] + [last];
    BeginCountAppends(most[k..], last);
  }

  lemma BalanceStep(total: int, most: seq<Operation>, last: Operation)
    ensures Balance(total, most + [last]) ==
            if Commits(last) then TotalOf(last.read) else Balance(total, most) + (if last.Begins? then 1 else 0)
  {
    if Commits(last) {
      BalanceAfterBack(total, most, last);
    } else {
      BalanceInPlace(total, most, last);
    }
  }

  // Whatever was begun, updated and written back, the stored total is that balance.
  lemma {:induction false} TotalIsBalance(doc: Document, ops: seq<Operation>)
    requires WellFormed(doc) && ReadsWellFormed(ops)
    ensures WellFormed(Run(doc, ops)) && TotalOf(Run(doc, ops)) == Balance(TotalOf(doc), ops)
  {
    if ops != [] {
      var most, last := ops[..|ops| - 1], ops[|ops| - 1];
      assert ops == most + [last];
      TotalIsBalance(doc, most);
      RunAppends(doc, most, last);
      StepKeepsWellFormed(Run(doc, most), last);
      BalanceStep(TotalOf(doc), most, last);
    }
  }

  // An invocation that writes back what it read before a run puts the total back to what it read, and every later
  // sequence is missing from then on.
  lemma StaleWriteForgets(doc: Document, since: seq<Operation>, back: Operation, forgotten: int, c: Change)
    requires WellFormed(doc) && ReadsWellFormed(since) && Commits(back) && back.read == doc && TotalOf(doc) < forgotten
    ensures var stored, written := Run(doc, since), Run(doc, since + [back]);
      && WellFormed(written)
      && TotalOf(stored) - TotalOf(written) == Balance(TotalOf(doc), since) - TotalOf(doc)
      && WithReceipt(written, Some(forgotten), c) == Err(ReceiptMissing)
  {
    RunAppends(doc, since, back);
    TotalIsBalance(doc, since);
    WriteBackRestores(back, Run(doc, since));
    UpdateTouchesOnlyItsReceipt(Run(doc, since + [back]), forgotten, c);
  }

  // The total does not decrease at the write if and only if the balance of the run since the read is at most the
  // total that was read: a number its writer can compare with the stored one under the row lock.
  lemma TotalKeptIff(doc: Document, since: seq<Operation>, back: Operation)
    requires WellFormed(doc) && ReadsWellFormed(since) && Commits(back) && back.read == doc
    ensures TotalOf(Run(doc, since + [back])) >= TotalOf(Run(doc, since)) <==>
            Balance(TotalOf(doc), since) <= TotalOf(doc)
    ensures InPlace(since) ==>
      (TotalOf(Run(doc, since + [back])) >= TotalOf(Run(doc, since)) <==> BeginCount(since) == 0)
  {
    StaleWriteForgets(doc, since, back, TotalOf(doc) + 1, back.change);
    if InPlace(since) {
      LastBackCommits(since);
      assert since[0..] == since;
    }
  }

  // Neither half holds of the begins alone. Another write-back can lower the total without any begin since the read.
  lemma LoweredWithoutBegin(doc: Document, higher: Operation, back: Operation)
    requires Commits(higher) && WellFormed(higher.read) && TotalOf(higher.read) > TotalOf(doc)
    requires WellFormed(doc) && Commits(back) && back.read == doc
    ensures BeginCount([higher]) == 0 && TotalOf(Run(doc, [higher] + [back])) < TotalOf(Run(doc, [higher]))
  {
    RunAppends(doc, [], higher);
    assert [] + [higher] == [higher];
    RunAppends(doc, [higher], back);
    WriteBackRestores(higher, doc);
    WriteBackRestores(back, Run(doc, [higher]));
  }

  // And another write-back can make room for a begin.
  lemma KeptDespiteBegin(doc: Document, lower: Operation, back: Operation)
    requires Commits(lower) && WellFormed(lower.read) && TotalOf(lower.read) < TotalOf(doc)
    requires WellFormed(doc) && Commits(back) && back.read == doc
    ensures BeginCount([lower] + [Begins]) == 1
    ensures TotalOf(Run(doc, [lower] + [Begins] + [back])) >= TotalOf(Run(doc, [lower] + [Begins]))
  {
    RunAppends(doc, [], lower);
    assert [] + [lower] == [lower];
    RunAppends(doc, [lower], Begins);
    BeginCountAppends([lower], Begins);
    RunAppends(doc, [lower] + [Begins], back);
    WriteBackRestores(lower, doc);
    BeginKeepsWellFormed(Run(doc, [lower]));
    WriteBackRestores(back, Run(doc, [lower] + [Begins]));
  }

  // And a forgotten sequence is handed out again: the earlier invocation then writes into the later one's receipt.
  lemma ForgottenSequenceIsReused(doc: Document, sequence: int, c: Change, c': Change)
    requires WellFormed(doc) && WithReceipt(doc, Some(sequence), c).Ok?
    ensures var reused := TotalOf(Begin(doc));
      var again := Begin(WithReceipt(doc, Some(sequence), c).value);
      && TotalOf(again) == reused
      && WithReceipt(again, Some(reused), c').Ok?
      && Holds(WithReceipt(again, Some(reused), c').value, reused, Changed(ARRIVED, c'))
  {
    var written := WithReceipt(doc, Some(sequence), c).value;
    UpdateTouchesOnlyItsReceipt(doc, sequence, c);
    BeginKeepsWellFormed(doc);
    BeginKeepsWellFormed(written);
    var again, reused := Begin(written), TotalOf(Begin(doc));
    var last := |Kept(again)| - 1;
    assert Kept(again)[last] == Receipt(reused, ARRIVED);
    UpdateTouchesOnlyItsReceipt(again, reused, c');
    assert Kept(WithReceipt(again, Some(reused), c').value)[last] == Receipt(reused, Changed(ARRIVED, c'));
  }

  // ---------- The row ----------

  // The metadata column of one attempt, changed under its row lock.
  class AttemptMetadata {
    var document: Document

    method BeginReconciliationReceipt() returns (sequence: int)
      modifies this
      ensures document == Begin(old(document)) && sequence == TotalOf(document)
    {
      var history := if document.history.Listed? then Dicts(document.history.items) else [];
      var total := if document.total.Some? && document.total.value >= 0 then document.total.value else |history|;
      sequence := total + 1;
      assert history == Kept(document) && total == TotalOf(document);
      history := history + [Receipt(sequence, ARRIVED)];
      ghost var longer := history;
      if |history| > HISTORY_LIMIT {
        history := history[|history| - HISTORY_LIMIT..];
      }
      assert history == LastOf(longer, HISTORY_LIMIT);
      document := Document(Listed(history), Some(sequence));
    }

    method PersistReceiptPhase(sequence: int, change: Change) returns (missing: bool)
      modifies this
      ensures document == Apply(old(document), Phase(sequence, change))
      ensures missing <==> WithReceipt(old(document), Some(sequence), change).Err?
    {
      var history := if document.history.Listed? then Dicts(document.history.items) else [];
      var i := 0;
      while i < |history| && !(history[i].Receipt? && history[i].sequence == sequence)
        invariant 0 <= i <= |history|
        invariant forall k :: 0 <= k < i ==> !(history[k].Receipt? && history[k].sequence == sequence)
      {
        i := i + 1;
      }
      if i == |history| { return true; }
      history := history[i := history[i].(entry := Changed(history[i].entry, change))];
      if |history| > HISTORY_LIMIT {
        history := history[|history| - HISTORY_LIMIT..];
      }
      document := document.(history := Listed(history));
      missing := false;
    }
  }
}
