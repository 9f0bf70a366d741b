// The readiness ledger of migration 0032 and its split into two insert-only tables by migration 0033.
// SQL conditions are evaluated in three-valued logic (PostgreSQL 16 manual, sections 9.1 and 5.4.1).
module Readiness {
  import opened Wrappers

  // ---------- Three-valued logic ----------

  datatype Truth = True | False | Null

  function Of(b: bool): Truth { if b then True else False }

  function And(a: Truth, b: Truth): Truth {
    if a == False || b == False then False else if a == True && b == True then True else Null
  }

  function Or(a: Truth, b: Truth): Truth {
    if a == True || b == True then True else if a == False && b == False then False else Null
  }

  function Not(a: Truth): Truth {
    match a case True => False case False => True case Null => Null
  }

  function Equal<T(==)>(a: Option<T>, b: T): Truth {
    if a.None? then Null else Of(a.value == b)
  }

  // IS NOT DISTINCT FROM is two-valued.
  function SameAs<T(==)>(a: Option<T>, b: T): Truth { Of(a == Some(b)) }

  function IsNull<T>(a: Option<T>): Truth { Of(a.None?) }

  // Null stays null unless the other operand decides.
  lemma ThreeValuedTables(a: Truth, b: Truth)
    ensures And(a, b) == True <==> a == True && b == True
    ensures And(a, b) == False <==> a == False || b == False
    ensures Or(a, b) == True <==> a == True || b == True
    ensures Or(a, b) == False <==> a == False && b == False
    ensures (Not(a) == True <==> a == False) && (Not(a) == False <==> a == True)
  {
  }

  // A CHECK constraint passes unless its condition is false; IF acts only on true.
  predicate CheckPasses(t: Truth) { t != False }

  predicate Holds(t: Truth) { t == True }

  // ---------- Rows ----------

  // A jsonb value: an object, of which only final_status matters here, or something else.
  datatype Json = Object(finalStatus: Option<string>, rest: string) | Other(text: string)

  datatype Scope = Scope(operation: string, commit: string, tree: string)

  datatype Binding = Binding(descriptor: string, grant: string, actor: string, consumedAt: int)

  datatype Evidence = Evidence(outcome: string, exitCode: Option<int>, receipt: Option<Json>, finishedAt: Option<int>)

  datatype Row = Row(binding: Binding, evidence: Evidence)

  const ADMITTED := Evidence("ADMITTED", None, None, None)

  function TypeOf(j: Option<Json>): Option<string> {
    if j.None? then None else if j.value.Object? then Some("object") else Some("other")
  }

  // receipt ->> 'final_status'
  function StatusOf(j: Option<Json>): Option<string> {
    if j.Some? && j.value.Object? then j.value.finalStatus else None
  }

  // ---------- The conditions of 0032 ----------

  function CodeMatchesStatus(e: Evidence, code: int, status: string): Truth {
    And(Equal(e.exitCode, code), SameAs(StatusOf(e.receipt), status))
  }

  function FailedPair(e: Evidence): Truth {
    Or(CodeMatchesStatus(e, 1, "FAILED"), CodeMatchesStatus(e, 2, "BLOCKED"))
  }

  function AnyPair(e: Evidence): Truth {
    Or(Or(CodeMatchesStatus(e, 0, "PASS"), CodeMatchesStatus(e, 1, "FAILED")), CodeMatchesStatus(e, 2, "BLOCKED"))
  }

  function IsObject(e: Evidence): Truth { Equal(TypeOf(e.receipt), "object") }

  // ck_management_readiness_admissions_outcome_evidence
  function OldCheck(e: Evidence): Truth {
    var admitted := And(And(And(Of(e.outcome == "ADMITTED"), IsNull(e.exitCode)),
      IsNull(e.receipt)), IsNull(e.finishedAt));
    var pass := And(And(And(And(And(Of(e.outcome == "PASS"), Equal(e.exitCode, 0)), Not(IsNull(e.receipt))),
      IsObject(e)), SameAs(StatusOf(e.receipt), "PASS")), Not(IsNull(e.finishedAt)));
    var codes := Or(Equal(e.exitCode, 1), Equal(e.exitCode, 2));
    var failed := And(And(And(And(And(And(Of(e.outcome == "FAILED"), Not(IsNull(e.exitCode))), codes),
      Not(IsNull(e.receipt))), IsObject(e)), FailedPair(e)), Not(IsNull(e.finishedAt)));
    var unknown := And(And(Of(e.outcome == "UNKNOWN"), Not(IsNull(e.finishedAt))),
      Or(IsNull(e.receipt), And(And(IsObject(e), Not(IsNull(e.exitCode))), AnyPair(e))));
    Or(Or(Or(admitted, pass), failed), unknown)
  }

  predicate KnownOutcome(outcome: string) { outcome in {"ADMITTED", "PASS", "FAILED", "UNKNOWN"} }

  predicate Terminal(outcome: string) { outcome in {"PASS", "FAILED", "UNKNOWN"} }

  // The UPDATE branch of management_readiness_admission_guard, apart from the binding comparison.
  predicate TriggerAdmits(e: Evidence) {
    var distinctType := Of(TypeOf(e.receipt) != Some("object"));
    && Terminal(e.outcome) && e.finishedAt.Some?
    && !(e.outcome == "PASS" && Holds(
        Or(Or(Or(Of(e.exitCode != Some(0)), IsNull(e.receipt)), distinctType),
          Of(StatusOf(e.receipt) != Some("PASS")))))
    && !(e.outcome == "FAILED" && Holds(
        Or(Or(Or(IsNull(e.receipt), distinctType), IsNull(e.exitCode)), Not(FailedPair(e)))))
    && !(e.outcome == "UNKNOWN" && Holds(And(Not(IsNull(e.receipt)),
        Or(Or(distinctType, IsNull(e.exitCode)), Not(AnyPair(e))))))
  }

  // ---------- The condition of 0033 ----------

  // EVIDENCE, up to its final IS TRUE.
  function NewCondition(e: Evidence): Truth {
    var pass := And(And(And(And(Of(e.outcome == "PASS"), Equal(e.exitCode, 0)), Not(IsNull(e.receipt))),
      IsObject(e)), SameAs(StatusOf(e.receipt), "PASS"));
    var failed := And(And(And(And(Of(e.outcome == "FAILED"), Not(IsNull(e.exitCode))), Not(IsNull(e.receipt))),
      IsObject(e)), FailedPair(e));
    var unknown := And(Of(e.outcome == "UNKNOWN"),
      Or(IsNull(e.receipt), And(And(IsObject(e), Not(IsNull(e.exitCode))), AnyPair(e))));
    Or(Or(pass, failed), unknown)
  }

  predicate NewEvidence(e: Evidence) { NewCondition(e) == True }

  // Old trigger and new evidence agree on every terminal row with a finish time.
  lemma TriggerIsEvidence(e: Evidence)
    ensures TriggerAdmits(e) <==> Terminal(e.outcome) && e.finishedAt.Some? && NewEvidence(e)
  {
  }

  // The old CHECK alone is weaker: it also lets conditions through that are neither true nor false.
  lemma CheckAloneAlsoPassesNull(e: Evidence)
    requires Terminal(e.outcome) && e.finishedAt.Some?
    ensures NewEvidence(e) <==> OldCheck(e) == True
    ensures CheckPasses(OldCheck(e)) && !NewEvidence(e) <==> OldCheck(e) == Null
  {
  }

  // Exactly one family passes the old CHECK by NULL: a PASS without an exit code but with a PASS receipt.
  lemma NullFamily(e: Evidence)
    requires Terminal(e.outcome) && e.finishedAt.Some?
    ensures OldCheck(e) == Null <==>
      e.outcome == "PASS" && e.exitCode.None? && e.receipt.Some? && e.receipt.value.Object?
      && e.receipt.value.finalStatus == Some("PASS")
  {
  }

  // The receipt is an object with this status, beside this exit code.
  predicate Reports(e: Evidence, code: int, status: string) {
    && e.exitCode == Some(code)
    && e.receipt.Some? && e.receipt.value.Object? && e.receipt.value.finalStatus == Some(status)
  }

  // What each outcome needs, in columns.
  predicate Supported(e: Evidence) {
    || (e.outcome == "PASS" && Reports(e, 0, "PASS"))
    || (e.outcome == "FAILED" && (Reports(e, 1, "FAILED") || Reports(e, 2, "BLOCKED")))
    || (e.outcome == "UNKNOWN"
        && (e.receipt.None? || Reports(e, 0, "PASS") || Reports(e, 1, "FAILED") || Reports(e, 2, "BLOCKED")))
  }

  lemma NewEvidenceIs(e: Evidence)
    ensures NewEvidence(e) <==> Supported(e)
  {
  }

  // The old CHECK passes what has not started, what has finished with support, and its NULL family.
  lemma OldCheckIs(e: Evidence)
    ensures CheckPasses(OldCheck(e)) <==>
      || (e.outcome == "ADMITTED" && e.exitCode.None? && e.receipt.None? && e.finishedAt.None?)
      || (e.finishedAt.Some? && Supported(e))
      || (e.finishedAt.Some? && e.outcome == "PASS" && e.exitCode.None? && Reports(e.(exitCode := Some(0)), 0, "PASS"))
  {
  }

  // ---------- The two schemas as tables of accepted operations ----------

  predicate HexOfLength(text: string, length: nat) {
    |text| == length && forall i :: 0 <= i < |text| ==> '0' <= text[i] <= '9' || 'a' <= text[i] <= 'f'
  }

  const OPERATION := "object_storage_readiness_v1"

  predicate AdmissionChecks(scope: Scope, b: Binding) {
    scope.operation == OPERATION && HexOfLength(b.descriptor, 64) && HexOfLength(b.actor, 64)
  }

  type Ledger = map<Scope, Row>

  datatype Split = Split(admissions: map<Scope, Binding>, outcomes: map<Scope, Evidence>)

  datatype OldOperation =
    | Admit(scope: Scope, row: Row)
    | Finish(scope: Scope, newScope: Scope, row: Row)
    | Remove(scope: Scope)

  datatype NewOperation =
    | InsertAdmission(scope: Scope, binding: Binding)
    | InsertOutcome(scope: Scope, evidence: Evidence)

  predicate OldAccepts(t: Ledger, op: OldOperation) {
    match op
    case Admit(scope, row) =>
      && row.evidence == ADMITTED
      && scope !in t && (forall other | other in t :: t[other].binding.grant != row.binding.grant)
      && AdmissionChecks(scope, row.binding) && KnownOutcome(row.evidence.outcome)
      && CheckPasses(OldCheck(row.evidence))
    case Finish(scope, newScope, row) =>
      && scope in t && t[scope].evidence.outcome == "ADMITTED"
      && newScope == scope && row.binding == t[scope].binding
      && TriggerAdmits(row.evidence)
      && AdmissionChecks(scope, row.binding) && KnownOutcome(row.evidence.outcome)
      && CheckPasses(OldCheck(row.evidence))
    case Remove(_) => false
  }

  function OldApply(t: Ledger, op: OldOperation): Ledger {
    match op
    case Admit(scope, row) => t[scope := row]
    case Finish(scope, _, row) => t[scope := row]
    case Remove(_) => t
  }

  predicate NewAccepts(n: Split, op: NewOperation) {
    match op
    case InsertAdmission(scope, b) =>
      && scope !in n.admissions && (forall other | other in n.admissions :: n.admissions[other].grant != b.grant)
      && AdmissionChecks(scope, b)
    case InsertOutcome(scope, e) =>
      scope in n.admissions && scope !in n.outcomes && Terminal(e.outcome) && NewEvidence(e) && e.finishedAt.Some?
  }

  function NewApply(n: Split, op: NewOperation): Split {
    match op
    case InsertAdmission(scope, b) => n.(admissions := n.admissions[scope := b])
    case InsertOutcome(scope, e) => n.(outcomes := n.outcomes[scope := e])
  }

  ghost predicate OldValid(t: Ledger) {
    forall scope :: scope in t ==>
      && AdmissionChecks(scope, t[scope].binding)
      && (t[scope].evidence == ADMITTED || TriggerAdmits(t[scope].evidence))
  }

  ghost predicate NewValid(n: Split) {
    && (forall scope :: scope in n.admissions ==> AdmissionChecks(scope, n.admissions[scope]))
    && (forall scope :: scope in n.outcomes ==>
      && scope in n.admissions && Terminal(n.outcomes[scope].outcome)
      && NewEvidence(n.outcomes[scope]) && n.outcomes[scope].finishedAt.Some?)
  }

  // What the migration makes of the old table, and the join on the scope key that reads it back.
  function SplitOf(t: Ledger): Split {
    Split(map scope | scope in t :: t[scope].binding,
      map scope | scope in t && t[scope].evidence.outcome != "ADMITTED" :: t[scope].evidence)
  }

  function JoinOf(n: Split): Ledger {
    map scope | scope in n.admissions ::
      Row(n.admissions[scope], if scope in n.outcomes then n.outcomes[scope] else ADMITTED)
  }

  lemma SplitIsLossless(t: Ledger)
    requires OldValid(t)
    ensures NewValid(SplitOf(t)) && JoinOf(SplitOf(t)) == t
  {
    forall scope | scope in SplitOf(t).outcomes ensures NewEvidence(SplitOf(t).outcomes[scope]) {
      TriggerIsEvidence(t[scope].evidence);
    }
  }

  lemma JoinIsLossless(n: Split)
    requires NewValid(n)
    ensures OldValid(JoinOf(n)) && SplitOf(JoinOf(n)) == n
  {
    forall scope | scope in n.outcomes ensures TriggerAdmits(n.outcomes[scope]) {
      TriggerIsEvidence(n.outcomes[scope]);
    }
    assert SplitOf(JoinOf(n)).admissions == n.admissions;
    assert SplitOf(JoinOf(n)).outcomes == n.outcomes;
  }

  // ---------- The operations in columns ----------

  lemma HexDigit(c: char)
    ensures c in "0123456789abcdef" <==> '0' <= c <= '9' || 'a' <= c <= 'f'
  {
    var digits := "0123456789abcdef";
    if '0' <= c <= '9' {
      assert digits[c as int - '0' as int] == c;
    } else if 'a' <= c <= 'f' {
      assert digits[10 + c as int - 'a' as int] == c;
    }
  }

  lemma HexIs(text: string, length: nat)
    ensures HexOfLength(text, length) <==> |text| == length && forall c :: c in text ==> c in "0123456789abcdef"
  {
    forall c: char ensures c in "0123456789abcdef" <==> '0' <= c <= '9' || 'a' <= c <= 'f' {
      HexDigit(c);
    }
    if forall c :: c in text ==> c in "0123456789abcdef" {
      forall i | 0 <= i < |text| ensures '0' <= text[i] <= '9' || 'a' <= text[i] <= 'f' {
        assert text[i] in text;
      }
    }
  }

  predicate Bound(scope: Scope, b: Binding) {
    && scope.operation == "object_storage_readiness_v1"
    && HexOfLength(b.descriptor, 64) && HexOfLength(b.actor, 64)
  }

  // Old table: a row starts unfinished with a grant of its own.
  lemma AdmitAcceptedIff(t: Ledger, scope: Scope, row: Row)
    ensures OldAccepts(t, Admit(scope, row)) <==>
      && row.evidence == Evidence("ADMITTED", None, None, None) && Bound(scope, row.binding)
      && scope !in t && forall other :: other in t ==> t[other].binding.grant != row.binding.grant
  {
  }

  // It changes once, to a supported outcome with a finish time, and keeps its key and binding; it is never deleted.
  lemma FinishAcceptedIff(t: Ledger, scope: Scope, newScope: Scope, row: Row)
    ensures OldAccepts(t, Finish(scope, newScope, row)) <==>
      && scope in t && t[scope].evidence.outcome == "ADMITTED"
      && newScope == scope && row.binding == t[scope].binding && Bound(scope, row.binding)
      && Supported(row.evidence) && row.evidence.finishedAt.Some?
    ensures !OldAccepts(t, Remove(scope))
  {
    if scope in t {
      TriggerIsEvidence(row.evidence);
      NewEvidenceIs(row.evidence);
      OldCheckIs(row.evidence);
    }
  }

  // New tables: an admission with a grant of its own, and one supported outcome for it.
  lemma InsertAcceptedIff(n: Split, scope: Scope, b: Binding, e: Evidence)
    ensures NewAccepts(n, InsertAdmission(scope, b)) <==>
      && Bound(scope, b) && scope !in n.admissions
      && forall other :: other in n.admissions ==> n.admissions[other].grant != b.grant
    ensures NewAccepts(n, InsertOutcome(scope, e)) <==>
      scope in n.admissions && scope !in n.outcomes && Supported(e) && e.finishedAt.Some?
  {
    NewEvidenceIs(e);
  }

  // Both operations on the old table write one row, each insert one row of its own table.
  lemma WritesOneRow(t: Ledger, n: Split, scope: Scope, row: Row, other: Scope)
    ensures var t' := OldApply(t, Admit(scope, row));
      scope in t' && t'[scope] == row && (other != scope ==> SameAt(t, t', other))
    ensures OldApply(t, Finish(scope, scope, row)) == OldApply(t, Admit(scope, row))
    ensures var n' := NewApply(n, InsertAdmission(scope, row.binding));
      && scope in n'.admissions && n'.admissions[scope] == row.binding && n'.outcomes == n.outcomes
      && (other != scope ==> SameAt(n.admissions, n'.admissions, other))
    ensures var n' := NewApply(n, InsertOutcome(scope, row.evidence));
      && scope in n'.outcomes && n'.outcomes[scope] == row.evidence && n'.admissions == n.admissions
      && (other != scope ==> SameAt(n.outcomes, n'.outcomes, other))
  {
  }

  predicate SameAt<K(==), V(==)>(before: map<K, V>, after: map<K, V>, k: K) {
    (k in before <==> k in after) && (k in before ==> before[k] == after[k])
  }

  lemma SplitIs(t: Ledger, scope: Scope)
    ensures SameAt(SplitOf(t).admissions, map s | s in t :: t[s].binding, scope)
    ensures scope in SplitOf(t).outcomes <==> scope in t && t[scope].evidence.outcome != "ADMITTED"
    ensures scope in SplitOf(t).outcomes ==> SplitOf(t).outcomes[scope] == t[scope].evidence
  {
  }

  // No grant is spent twice.
  ghost predicate GrantsDiffer(t: Ledger) {
    forall a, b :: a in t && b in t && a != b ==> t[a].binding.grant != t[b].binding.grant
  }

  ghost predicate Later(t: Ledger, t': Ledger) {
    forall scope :: scope in t ==>
      && scope in t' && t'[scope].binding == t[scope].binding
      && (t[scope].evidence.outcome != "ADMITTED" ==> t'[scope] == t[scope])
  }

  lemma OldStepIsLater(t: Ledger, op: OldOperation)
    requires GrantsDiffer(t) && OldAccepts(t, op)
    ensures Later(t, OldApply(t, op)) && GrantsDiffer(OldApply(t, op))
  {
    match op
    case Admit(scope, row) => FinishAcceptedIff(t, scope, scope, row);
    case Finish(scope, newScope, row) => FinishAcceptedIff(t, scope, newScope, row);
    case Remove(scope) => assert false;
  }

  // Over every accepted run no row is lost, no binding changes, a finished row stays as it is, and no two rows
  // come to share a grant.
  lemma {:induction false} OldRunIsLater(t: Ledger, ops: seq<OldOperation>)
    requires GrantsDiffer(t) && OldRun(t, ops).Some?
    ensures Later(t, OldRun(t, ops).value) && GrantsDiffer(OldRun(t, ops).value)
    decreases |ops|
  {
    if ops != [] {
      var t' := OldApply(t, ops[0]);
      OldStepIsLater(t, ops[0]);
      OldRunIsLater(t', ops[1..]);
    }
  }

  ghost predicate Extends<K, V>(before: map<K, V>, after: map<K, V>) {
    forall k :: k in before ==> k in after && after[k] == before[k]
  }

  // Over every run of inserts both tables only grow.
  lemma {:induction false} NewRunOnlyInserts(n: Split, ops: seq<NewOperation>)
    requires NewRun(n, ops).Some?
    ensures Extends(n.admissions, NewRun(n, ops).value.admissions)
    ensures Extends(n.outcomes, NewRun(n, ops).value.outcomes)
    decreases |ops|
  {
    if ops != [] {
      NewRunOnlyInserts(NewApply(n, ops[0]), ops[1..]);
    }
  }

  // ---------- Simulation ----------

  function ToNew(op: OldOperation): NewOperation
    requires !op.Remove?
  {
    match op
    case Admit(scope, row) => InsertAdmission(scope, row.binding)
    case Finish(scope, _, row) => InsertOutcome(scope, row.evidence)
  }

  function ToOld(n: Split, op: NewOperation): OldOperation
    requires NewAccepts(n, op)
  {
    match op
    case InsertAdmission(scope, b) => Admit(scope, Row(b, ADMITTED))
    case InsertOutcome(scope, e) => Finish(scope, scope, Row(n.admissions[scope], e))
  }

  lemma AdmitSplits(t: Ledger, scope: Scope, row: Row)
    requires scope !in t && row.evidence == ADMITTED
    ensures SplitOf(t[scope := row]) == SplitOf(t).(admissions := SplitOf(t).admissions[scope := row.binding])
  {
    assert SplitOf(t[scope := row]).outcomes == SplitOf(t).outcomes;
  }

  lemma FinishSplits(t: Ledger, scope: Scope, row: Row)
    requires scope in t && row.binding == t[scope].binding && row.evidence.outcome != "ADMITTED"
    ensures SplitOf(t[scope := row]) == SplitOf(t).(outcomes := SplitOf(t).outcomes[scope := row.evidence])
  {
    assert SplitOf(t[scope := row]).admissions == SplitOf(t).admissions;
  }

  lemma OldStepSimulated(t: Ledger, op: OldOperation)
    requires OldValid(t) && OldAccepts(t, op)
    ensures OldValid(OldApply(t, op))
    ensures NewAccepts(SplitOf(t), ToNew(op)) && SplitOf(OldApply(t, op)) == NewApply(SplitOf(t), ToNew(op))
  {
    match op
    case Admit(scope, row) => AdmitSplits(t, scope, row);
    case Finish(scope, _, row) =>
      TriggerIsEvidence(row.evidence);
      FinishSplits(t, scope, row);
  }

  lemma AdmissionJoins(n: Split, scope: Scope, b: Binding)
    requires NewValid(n) && scope !in n.admissions
    ensures JoinOf(NewApply(n, InsertAdmission(scope, b))) == JoinOf(n)[scope := Row(b, ADMITTED)]
  {
    assert scope !in n.outcomes;
  }

  lemma AdmissionSimulated(n: Split, scope: Scope, b: Binding)
    requires NewValid(n) && NewAccepts(n, InsertAdmission(scope, b))
    ensures var n' := NewApply(n, InsertAdmission(scope, b));
      && NewValid(n') && OldAccepts(JoinOf(n), Admit(scope, Row(b, ADMITTED)))
      && JoinOf(n') == JoinOf(n)[scope := Row(b, ADMITTED)]
  {
    AdmissionJoins(n, scope, b);
  }

  lemma OutcomeAccepted(n: Split, scope: Scope, e: Evidence)
    requires NewValid(n) && NewAccepts(n, InsertOutcome(scope, e))
    ensures OldAccepts(JoinOf(n), Finish(scope, scope, Row(n.admissions[scope], e)))
  {
    TriggerIsEvidence(e);
    CheckAloneAlsoPassesNull(e);
  }

  lemma OutcomeJoins(n: Split, scope: Scope, e: Evidence)
    requires scope in n.admissions
    ensures JoinOf(NewApply(n, InsertOutcome(scope, e))) == JoinOf(n)[scope := Row(n.admissions[scope], e)]
  {
  }

  lemma OutcomeSimulated(n: Split, scope: Scope, e: Evidence)
    requires NewValid(n) && NewAccepts(n, InsertOutcome(scope, e))
    ensures var n' := NewApply(n, InsertOutcome(scope, e));
      && NewValid(n') && OldAccepts(JoinOf(n), Finish(scope, scope, Row(n.admissions[scope], e)))
      && JoinOf(n') == JoinOf(n)[scope := Row(n.admissions[scope], e)]
  {
    OutcomeAccepted(n, scope, e);
    OutcomeJoins(n, scope, e);
  }

  lemma NewStepSimulated(n: Split, op: NewOperation)
    requires NewValid(n) && NewAccepts(n, op)
    ensures NewValid(NewApply(n, op))
    ensures OldAccepts(JoinOf(n), ToOld(n, op)) && JoinOf(NewApply(n, op)) == OldApply(JoinOf(n), ToOld(n, op))
  {
    match op
    case InsertAdmission(scope, b) => AdmissionSimulated(n, scope, b);
    case InsertOutcome(scope, e) => OutcomeSimulated(n, scope, e);
  }

  ghost function OldRun(t: Ledger, ops: seq<OldOperation>): Option<Ledger>
    decreases |ops|
  {
    if ops == [] then Some(t)
    else if OldAccepts(t, ops[0]) then OldRun(OldApply(t, ops[0]), ops[1..]) else None
  }

  ghost function NewRun(n: Split, ops: seq<NewOperation>): Option<Split>
    decreases |ops|
  {
    if ops == [] then Some(n)
    else if NewAccepts(n, ops[0]) then NewRun(NewApply(n, ops[0]), ops[1..]) else None
  }

  // Every run over the old table is a run of inserts over the split tables, and ends in its split.
  lemma {:induction false} OldRunIsNewRun(t: Ledger, ops: seq<OldOperation>) returns (inserts: seq<NewOperation>)
    requires OldValid(t) && OldRun(t, ops).Some?
    ensures |inserts| == |ops| && NewRun(SplitOf(t), inserts) == Some(SplitOf(OldRun(t, ops).value))
    ensures OldValid(OldRun(t, ops).value) && JoinOf(SplitOf(OldRun(t, ops).value)) == OldRun(t, ops).value
    decreases |ops|
  {
    if ops == [] {
      inserts := [];
      SplitIsLossless(t);
    } else {
      OldStepSimulated(t, ops[0]);
      var rest := OldRunIsNewRun(OldApply(t, ops[0]), ops[1..]);
      inserts := [ToNew(ops[0])] + rest;
      assert inserts[1..] == rest;
    }
  }

  // Every run of inserts is a run over the old table, and ends in its join.
  lemma {:induction false} NewRunIsOldRun(n: Split, ops: seq<NewOperation>) returns (changes: seq<OldOperation>)
    requires NewValid(n) && NewRun(n, ops).Some?
    ensures |changes| == |ops| && OldRun(JoinOf(n), changes) == Some(JoinOf(NewRun(n, ops).value))
    ensures NewValid(NewRun(n, ops).value) && SplitOf(JoinOf(NewRun(n, ops).value)) == NewRun(n, ops).value
    decreases |ops|
  {
    if ops == [] {
      changes := [];
      JoinIsLossless(n);
    } else {
      NewStepSimulated(n, ops[0]);
      var rest := NewRunIsOldRun(NewApply(n, ops[0]), ops[1..]);
      changes := [ToOld(n, ops[0])] + rest;
      assert changes[1..] == rest;
    }
  }

  // ---------- The migration ----------

  // validate_receipt is a parameter: which receipts the coordinator itself would accept.
  type ReceiptCheck = (Json, Option<int>) -> bool

  predicate ValidConsumption(scope: Scope, b: Binding) {
    && scope.operation == OPERATION
    && (HexOfLength(scope.commit, 40) || HexOfLength(scope.commit, 64))
    && (HexOfLength(scope.tree, 40) || HexOfLength(scope.tree, 64))
    && HexOfLength(b.descriptor, 64) && HexOfLength(b.actor, 64)
    && 1 <= |b.grant| <= 255
  }

  predicate ValidTerminal(e: Evidence, valid: ReceiptCheck) {
    && Terminal(e.outcome)
    && (e.receipt.Some? ==> e.receipt.value.Object? && valid(e.receipt.value, e.exitCode))
    && (e.outcome == "PASS" ==> e.exitCode == Some(0) && StatusOf(e.receipt) == Some("PASS"))
    && (e.outcome == "FAILED" ==> StatusOf(e.receipt) in {Some("FAILED"), Some("BLOCKED")})
  }

  predicate RowValidates(scope: Scope, row: Row, valid: ReceiptCheck) {
    ValidConsumption(scope, row.binding) && (row.evidence.outcome != "ADMITTED" ==> ValidTerminal(row.evidence, valid))
  }

  predicate HexSha(text: string) { (|text| == 40 || |text| == 64) && HexOfLength(text, |text|) }

  // The validation of any row, whatever constraints it has passed.
  lemma RowValidatesExactly(scope: Scope, row: Row, valid: ReceiptCheck)
    ensures RowValidates(scope, row, valid) <==>
      && Bound(scope, row.binding) && HexSha(scope.commit) && HexSha(scope.tree)
      && |row.binding.grant| > 0 && |row.binding.grant| < 256
      && var e, status := row.evidence, StatusOf(row.evidence.receipt);
         || e.outcome == "ADMITTED"
         || (&& (e.receipt.None? || (e.receipt.value.Object? && valid(e.receipt.value, e.exitCode)))
             && (|| (e.outcome == "PASS" && Reports(e, 0, "PASS"))
                 || (e.outcome == "FAILED" && (status == Some("FAILED") || status == Some("BLOCKED")))
                 || e.outcome == "UNKNOWN"))
  {
  }

  // What the constraints leave to the validation of a row: both object names, the grant's length, and the
  // receipt's own validator.
  lemma RowValidatesIff(t: Ledger, scope: Scope, valid: ReceiptCheck)
    requires OldValid(t) && scope in t
    ensures RowValidates(scope, t[scope], valid) <==>
      && HexSha(scope.commit) && HexSha(scope.tree) && 1 <= |t[scope].binding.grant| <= 255
      && (t[scope].evidence.outcome != "ADMITTED" && t[scope].evidence.receipt.Some? ==>
            valid(t[scope].evidence.receipt.value, t[scope].evidence.exitCode))
  {
    TriggerIsEvidence(t[scope].evidence);
    NewEvidenceIs(t[scope].evidence);
  }

  lemma OutcomeInsertable(t: Ledger, scope: Scope)
    requires OldValid(t) && scope in t && t[scope].evidence.outcome != "ADMITTED"
    ensures var e := t[scope].evidence; Terminal(e.outcome) && NewEvidence(e) && e.finishedAt.Some?
  {
    TriggerIsEvidence(t[scope].evidence);
  }

  class Database {
    var ledger: Ledger
    var admissions: map<Scope, Binding>
    var outcomes: map<Scope, Evidence>
    var revision: string

    // Inserts one outcome row for every terminal row; the new constraints refuse none of them.
    method CopyOutcomes(original: Ledger) returns (created: map<Scope, Evidence>)
      requires OldValid(original)
      ensures created == SplitOf(original).outcomes
    {
      created := map[];
      var rest := original.Keys;
      while rest != {}
        invariant rest <= original.Keys
        invariant created.Keys ==
                  set scope | scope in original && scope !in rest && original[scope].evidence.outcome != "ADMITTED"
        invariant forall scope :: scope in created ==> created[scope] == original[scope].evidence
        decreases rest
      {
        var scope :| scope in rest;
        rest := rest - {scope};
        var e := original[scope].evidence;
        if e.outcome != "ADMITTED" {
          OutcomeInsertable(original, scope);
          if scope in created || !Terminal(e.outcome) || !NewEvidence(e) || e.finishedAt.None? {
            assert false;
          }
          created := created[scope := e];
        }
      }
    }

    // Validate every row, create and fill the outcome table, compare, drop the four columns.
    // Outside development only an empty ledger is upgraded. A refusal rolls everything back.
    method Upgrade(valid: ReceiptCheck, development: bool) returns (done: bool)
      requires revision == "0032" && OldValid(ledger)
      modifies this
      ensures done <==>
        && (development || old(ledger) == map[])
        && forall scope :: scope in old(ledger) ==> RowValidates(scope, old(ledger)[scope], valid)
      ensures done ==> revision == "0033" && Split(admissions, outcomes) == SplitOf(old(ledger))
      ensures !done ==> unchanged(this)
    {
      var original := ledger;
      if !development && |original| != 0 { return false; }
      if exists scope | scope in original :: !RowValidates(scope, original[scope], valid) {
        return false;
      }
      var created := CopyOutcomes(original);
      outcomes := created;
      admissions := map scope | scope in original :: original[scope].binding;
      ledger := map[];
      revision := "0033";
      return true;
    }
  }
}
