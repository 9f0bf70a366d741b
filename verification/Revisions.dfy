// Revision lineage of backend/app/services/ai_regeneration.py, with the revisions that
// ai_creative_generation.py appends through the same helpers.
module Revisions {
  import opened Basics
  import opened Wrappers

  datatype Kind = Copy | Creative | ImageBackground | Content | VideoSpec

  datatype Status = Review | Rejected

  datatype DraftStatus = ReadyForReview | DraftRejected | Approved

  datatype Revision = Revision(
    id: string, draft: string, parent: Option<string>, version: nat, kind: Kind, status: Status)

  // Revisions in insertion order; at most one selection a draft.
  datatype State = State(revisions: seq<Revision>, selections: map<string, string>, drafts: map<string, DraftStatus>)

  datatype Operation =
    | Append(draft: string, id: string, kind: Kind, completes: bool)
    | SelectOriginal(draft: string)
    | Select(draft: string, id: string)
    | RejectBackground(draft: string, id: string)
    | SetDraft(draft: string, draftStatus: DraftStatus)

  // max(version) over the draft's revisions, 0 standing for no row: both fall back to 1.
  function MaxVersion(revisions: seq<Revision>, draft: string): nat {
    if revisions == [] then 0
    else
      var last := revisions[|revisions| - 1];
      Max(MaxVersion(revisions[..|revisions| - 1], draft), if last.draft == draft then last.version else 0)
  }

  function NextVersion(revisions: seq<Revision>, draft: string): nat {
    var current := MaxVersion(revisions, draft);
    (if current == 0 then 1 else current) + 1
  }

  function ParentOf(s: State, draft: string): Option<string> {
    if draft in s.selections then Some(s.selections[draft]) else None
  }

  predicate HasId(revisions: seq<Revision>, id: string) {
    exists i | 0 <= i < |revisions| :: revisions[i].id == id
  }

  function IndexOf(revisions: seq<Revision>, id: string): (i: nat)
    requires HasId(revisions, id)
    ensures i < |revisions| && revisions[i].id == id
  {
    if revisions[0].id == id then 0
    else
      assert HasId(revisions[1..], id) by {
        var i :| 0 <= i < |revisions| && revisions[i].id == id;
        assert revisions[1..][i - 1].id == id;
      }
      1 + IndexOf(revisions[1..], id)
  }

  predicate DraftIs(s: State, draft: string, allowed: set<DraftStatus>) {
    draft in s.drafts && s.drafts[draft] in allowed
  }

  // One service call; a call that raises rolls back and changes nothing.
  function Step(s: State, op: Operation): State {
    match op
    case Append(draft, id, kind, completes) =>
      if DraftIs(s, draft, {ReadyForReview}) && completes && !HasId(s.revisions, id) then
        s.(revisions := s.revisions +
            [Revision(id, draft, ParentOf(s, draft), NextVersion(s.revisions, draft), kind, Review)])
      else s
    case SelectOriginal(draft) =>
      if DraftIs(s, draft, {ReadyForReview}) then s.(selections := s.selections - {draft}) else s
    case Select(draft, id) =>
      if DraftIs(s, draft, {ReadyForReview}) && HasId(s.revisions, id)
        && s.revisions[IndexOf(s.revisions, id)].draft == draft
        && s.revisions[IndexOf(s.revisions, id)].status == Review
      then s.(selections := s.selections[draft := id]) else s
    case RejectBackground(draft, id) =>
      if DraftIs(s, draft, {ReadyForReview, DraftRejected}) && HasId(s.revisions, id) then
        var i := IndexOf(s.revisions, id);
        if s.revisions[i].draft == draft && s.revisions[i].kind == ImageBackground && s.revisions[i].status == Review
        then
          State(s.revisions[i := s.revisions[i].(status := Rejected)],
            if ParentOf(s, draft) == Some(id) then s.selections - {draft} else s.selections, s.drafts)
        else s
      else s
    case SetDraft(draft, status) => s.(drafts := s.drafts[draft := status])
  }

  // ---------- The invariant ----------

  function Count(revisions: seq<Revision>, draft: string): nat {
    if revisions == [] then 0
    else Count(revisions[..|revisions| - 1], draft) + (if revisions[|revisions| - 1].draft == draft then 1 else 0)
  }

  ghost predicate Numbered(revisions: seq<Revision>) {
    forall i :: 0 <= i < |revisions| ==> revisions[i].version == 2 + Count(revisions[..i], revisions[i].draft)
  }

  ghost predicate UniqueIds(revisions: seq<Revision>) {
    forall i, j :: 0 <= i < j < |revisions| ==> revisions[i].id != revisions[j].id
  }

  // Revision j has this id and is an earlier version of the same draft as revision i.
  ghost predicate ParentAt(revisions: seq<Revision>, id: string, j: int, i: int) {
    && 0 <= j < i < |revisions| && revisions[j].id == id
    && revisions[j].draft == revisions[i].draft && revisions[j].version < revisions[i].version
  }

  ghost predicate Lineage(revisions: seq<Revision>) {
    forall i :: 0 <= i < |revisions| && revisions[i].parent.Some? ==>
      exists j :: ParentAt(revisions, revisions[i].parent.value, j, i)
  }

  ghost predicate ReviewAt(revisions: seq<Revision>, draft: string, id: string, i: int) {
    0 <= i < |revisions| && revisions[i].id == id && revisions[i].draft == draft && revisions[i].status == Review
  }

  // Every active selection is a REVIEW revision of its draft.
  ghost predicate SelectionsValid(s: State) {
    forall draft :: draft in s.selections ==> exists i :: ReviewAt(s.revisions, draft, s.selections[draft], i)
  }

  ghost predicate Valid(s: State) {
    Numbered(s.revisions) && UniqueIds(s.revisions) && Lineage(s.revisions) && SelectionsValid(s)
  }

  // ---------- Numbering ----------

  lemma {:induction false} MaxIsCount(revisions: seq<Revision>, draft: string)
    requires Numbered(revisions)
    ensures MaxVersion(revisions, draft) == if Count(revisions, draft) == 0 then 0 else Count(revisions, draft) + 1
  {
    if revisions != [] {
      NumberedPrefix(revisions, |revisions| - 1);
      MaxIsCount(revisions[..|revisions| - 1], draft);
    }
  }

  lemma NumberedPrefix(revisions: seq<Revision>, n: nat)
    requires Numbered(revisions) && n <= |revisions|
    ensures Numbered(revisions[..n])
  {
    forall i | 0 <= i < n ensures revisions[..n][i].version == 2 + Count(revisions[..n][..i], revisions[i].draft) {
      assert revisions[..n][..i] == revisions[..i];
    }
  }

  lemma {:induction false} CountGrows(revisions: seq<Revision>, draft: string, i: nat, j: nat)
    requires i <= j <= |revisions|
    ensures Count(revisions[..i], draft) <= Count(revisions[..j], draft)
    ensures i < j && revisions[i].draft == draft ==> Count(revisions[..i], draft) < Count(revisions[..j], draft)
    decreases j
  {
    if i < j {
      CountGrows(revisions, draft, i, j - 1);
      assert revisions[..j][..j - 1] == revisions[..j - 1];
    }
  }

  lemma {:induction false} VersionIsTaken(revisions: seq<Revision>, draft: string, v: nat) returns (i: nat)
    requires Numbered(revisions) && 2 <= v <= Count(revisions, draft) + 1
    ensures i < |revisions| && revisions[i].draft == draft && revisions[i].version == v
  {
    var n := |revisions| - 1;
    if revisions[n].draft == draft && v == Count(revisions, draft) + 1 {
      i := n;
    } else {
      NumberedPrefix(revisions, n);
      i := VersionIsTaken(revisions[..n], draft, v);
    }
  }

  ghost function VersionsOf(revisions: seq<Revision>, draft: string): set<nat> {
    set i | 0 <= i < |revisions| && revisions[i].draft == draft :: revisions[i].version
  }

  // The versions of a draft with n revisions are exactly 2 to n+1, in insertion order.
  lemma VersionsAreExactly(s: State, draft: string)
    requires Valid(s)
    ensures forall v: nat :: v in VersionsOf(s.revisions, draft) <==> 2 <= v <= Count(s.revisions, draft) + 1
    ensures forall i, j ::
      0 <= i < j < |s.revisions| && s.revisions[i].draft == draft && s.revisions[j].draft == draft ==>
        s.revisions[i].version < s.revisions[j].version
  {
    var r := s.revisions;
    forall v: nat ensures v in VersionsOf(r, draft) <==> 2 <= v <= Count(r, draft) + 1 {
      if 2 <= v <= Count(r, draft) + 1 {
        var i := VersionIsTaken(r, draft, v);
      }
      if v in VersionsOf(r, draft) {
        var i :| 0 <= i < |r| && r[i].draft == draft && r[i].version == v;
        CountGrows(r, draft, i, |r|);
        assert r[..|r|] == r;
      }
    }
    forall i, j | 0 <= i < j < |r| && r[i].draft == draft && r[j].draft == draft
      ensures r[i].version < r[j].version
    {
      CountGrows(r, draft, i, j);
    }
  }

  // ---------- Preservation ----------

  lemma AppendNumbered(r: seq<Revision>, added: Revision)
    requires Numbered(r) && added.version == NextVersion(r, added.draft)
    ensures Numbered(r + [added])
  {
    MaxIsCount(r, added.draft);
    forall i | 0 <= i < |r + [added]|
      ensures (r + [added])[i].version == 2 + Count((r + [added])[..i], (r + [added])[i].draft)
    {
      assert (r + [added])[..i] == r[..i];
      assert r[..|r|] == r;
    }
  }

  lemma AppendLineage(r: seq<Revision>, added: Revision, j: nat)
    requires Numbered(r) && Lineage(r) && added.version == NextVersion(r, added.draft)
    requires added.parent.Some? ==> j < |r| && r[j].id == added.parent.value && r[j].draft == added.draft
    ensures Lineage(r + [added])
  {
    var r' := r + [added];
    forall i | 0 <= i < |r'| && r'[i].parent.Some? ensures exists k :: ParentAt(r', r'[i].parent.value, k, i) {
      if i < |r| {
        var k :| ParentAt(r, r[i].parent.value, k, i);
        assert ParentAt(r', r'[i].parent.value, k, i);
      } else {
        MaxIsCount(r, added.draft);
        CountGrows(r, added.draft, j, |r|);
        assert r[..|r|] == r;
        assert ParentAt(r', added.parent.value, j, i);
      }
    }
  }

  lemma AppendSelections(s: State, added: Revision)
    requires SelectionsValid(s)
    ensures SelectionsValid(s.(revisions := s.revisions + [added]))
  {
    forall draft | draft in s.selections
      ensures exists i :: ReviewAt(s.revisions + [added], draft, s.selections[draft], i)
    {
      var i :| ReviewAt(s.revisions, draft, s.selections[draft], i);
      assert ReviewAt(s.revisions + [added], draft, s.selections[draft], i);
    }
  }

  lemma AppendKeepsValid(s: State, op: Operation)
    requires Valid(s) && op.Append? && Step(s, op) != s
    ensures Valid(Step(s, op))
  {
    var added := Revision(op.id, op.draft, ParentOf(s, op.draft), NextVersion(s.revisions, op.draft), op.kind, Review);
    AppendNumbered(s.revisions, added);
    AppendSelections(s, added);
    if op.draft in s.selections {
      var j :| ReviewAt(s.revisions, op.draft, s.selections[op.draft], j);
      AppendLineage(s.revisions, added, j);
    } else {
      AppendLineage(s.revisions, added, 0);
    }
  }

  // Changing one status changes no number, no id and no parent.
  lemma StatusChangeKeepsHistory(r: seq<Revision>, i: nat, status: Status)
    requires i < |r| && Numbered(r) && UniqueIds(r) && Lineage(r)
    ensures var r' := r[i := r[i].(status := status)]; Numbered(r') && UniqueIds(r') && Lineage(r')
  {
    var r' := r[i := r[i].(status := status)];
    forall k | 0 <= k < |r'| ensures r'[k].version == 2 + Count(r'[..k], r'[k].draft) {
      SameDraftsSameCount(r[..k], r'[..k], r[k].draft);
    }
    forall k | 0 <= k < |r'| && r'[k].parent.Some? ensures exists j :: ParentAt(r', r'[k].parent.value, j, k) {
      var j :| ParentAt(r, r[k].parent.value, j, k);
      assert ParentAt(r', r'[k].parent.value, j, k);
    }
  }

  lemma RejectKeepsValid(s: State, op: Operation)
    requires Valid(s) && op.RejectBackground? && Step(s, op) != s
    ensures Valid(Step(s, op))
  {
    var s', rejected := Step(s, op), IndexOf(s.revisions, op.id);
    StatusChangeKeepsHistory(s.revisions, rejected, Rejected);
    forall draft | draft in s'.selections ensures exists i :: ReviewAt(s'.revisions, draft, s'.selections[draft], i) {
      var i :| ReviewAt(s.revisions, draft, s.selections[draft], i);
      assert ReviewAt(s'.revisions, draft, s'.selections[draft], i);
    }
  }

  lemma SelectKeepsValid(s: State, op: Operation)
    requires Valid(s) && op.Select? && Step(s, op) != s
    ensures Valid(Step(s, op))
  {
    var s' := Step(s, op);
    assert ReviewAt(s.revisions, op.draft, op.id, IndexOf(s.revisions, op.id));
    forall draft | draft in s'.selections ensures exists i :: ReviewAt(s'.revisions, draft, s'.selections[draft], i) {
      if draft != op.draft {
        assert draft in s.selections;
      }
    }
  }

  lemma {:induction false} SameDraftsSameCount(a: seq<Revision>, b: seq<Revision>, draft: string)
    requires |a| == |b| && forall i :: 0 <= i < |a| ==> a[i].draft == b[i].draft
    ensures Count(a, draft) == Count(b, draft)
  {
    if a != [] {
      SameDraftsSameCount(a[..|a| - 1], b[..|b| - 1], draft);
    }
  }

  lemma StepKeepsValid(s: State, op: Operation)
    requires Valid(s)
    ensures Valid(Step(s, op))
  {
    if Step(s, op) != s {
      match op
      case Append(_, _, _, _) => AppendKeepsValid(s, op);
      case RejectBackground(_, _) => RejectKeepsValid(s, op);
      case Select(_, _) => SelectKeepsValid(s, op);
      case _ =>
    }
  }

  // ---------- Whole serial runs ----------

  function Run(s: State, ops: seq<Operation>): State
    decreases |ops|
  {
    if ops == [] then s else Run(Step(s, ops[0]), ops[1..])
  }

  lemma {:induction false} RunKeepsValid(s: State, ops: seq<Operation>)
    requires Valid(s)
    ensures Valid(Run(s, ops))
    decreases |ops|
  {
    if ops != [] {
      StepKeepsValid(s, ops[0]);
      RunKeepsValid(Step(s, ops[0]), ops[1..]);
    }
  }

  // Lineage is acyclic: a chain of parents strictly climbs down the versions of one draft.
  lemma {:induction false} ParentChainsClimbDown(s: State, chain: seq<nat>)
    requires Valid(s) && |chain| > 0
    requires forall k :: 0 <= k < |chain| ==> chain[k] < |s.revisions|
    requires forall k :: 0 < k < |chain| ==> s.revisions[chain[k - 1]].parent == Some(s.revisions[chain[k]].id)
    ensures forall k :: 0 < k < |chain| ==>
      && s.revisions[chain[k]].draft == s.revisions[chain[0]].draft
      && s.revisions[chain[k]].version < s.revisions[chain[0]].version && chain[k] < chain[0]
  {
    var r := s.revisions;
    if |chain| > 1 {
      assert r[chain[0]].parent == Some(r[chain[1]].id);
      var j :| ParentAt(r, r[chain[0]].parent.value, j, chain[0]);
      assert j == chain[1];
      var rest := chain[1..];
      forall k | 0 < k < |rest| ensures r[rest[k - 1]].parent == Some(r[rest[k]].id) {
        assert rest[k - 1] == chain[k] && rest[k] == chain[k + 1];
      }
      ParentChainsClimbDown(s, rest);
      forall k | 0 < k < |chain|
        ensures r[chain[k]].draft == r[chain[0]].draft && r[chain[k]].version < r[chain[0]].version
        ensures chain[k] < chain[0]
      {
        assert chain[k] == rest[k - 1];
      }
    }
  }

  // ---------- The operations in columns ----------

  lemma {:induction false} MaxVersionIs(revisions: seq<Revision>, draft: string)
    ensures var v := MaxVersion(revisions, draft);
      && (forall i :: 0 <= i < |revisions| && revisions[i].draft == draft ==> revisions[i].version <= v)
      && (v == 0 || exists i :: 0 <= i < |revisions| && revisions[i].draft == draft && revisions[i].version == v)
  {
    if revisions != [] {
      var front, last := revisions[..|revisions| - 1], |revisions| - 1;
      MaxVersionIs(front, draft);
      if i :| 0 <= i < |front| && front[i].draft == draft && front[i].version == MaxVersion(front, draft) {
        assert revisions[i] == front[i];
      }
    }
  }

  // One more than every version of the draft, and two if there is none.
  ghost predicate NextAfter(revisions: seq<Revision>, draft: string, version: nat) {
    && version >= 2
    && (forall i :: 0 <= i < |revisions| && revisions[i].draft == draft ==> revisions[i].version < version)
    && (version == 2
        || exists i :: 0 <= i < |revisions| && revisions[i].draft == draft && revisions[i].version + 1 == version)
  }

  lemma NextVersionIs(revisions: seq<Revision>, draft: string)
    ensures NextAfter(revisions, draft, NextVersion(revisions, draft))
  {
    MaxVersionIs(revisions, draft);
  }

  // What one append leaves: a REVIEW revision under the selected one, or under none, with the next version.
  ghost predicate Appended(s: State, s': State, draft: string, id: string, kind: Kind) {
    && s'.selections == s.selections && s'.drafts == s.drafts
    && |s'.revisions| == |s.revisions| + 1 && s'.revisions[..|s.revisions|] == s.revisions
    && var added := s'.revisions[|s.revisions|];
      && added.id == id && added.draft == draft && added.kind == kind && added.status == Review
      && (added.parent.Some? <==> draft in s.selections)
      && (draft in s.selections ==> added.parent == Some(s.selections[draft]))
      && NextAfter(s.revisions, draft, added.version)
  }

  lemma AppendExactly(s: State, draft: string, id: string, kind: Kind, completes: bool)
    ensures var s' := Step(s, Append(draft, id, kind, completes));
      if draft in s.drafts && s.drafts[draft] == ReadyForReview && completes
         && forall i :: 0 <= i < |s.revisions| ==> s.revisions[i].id != id
      then Appended(s, s', draft, id, kind) else s' == s
  {
    NextVersionIs(s.revisions, draft);
  }

  predicate SameElsewhere(before: map<string, string>, after: map<string, string>, draft: string) {
    forall d | d in before.Keys + after.Keys :: d != draft ==> d in before && d in after && after[d] == before[d]
  }

  // Selecting goes through exactly for a REVIEW revision of a draft that is ready for review.
  lemma SelectExactly(s: State, draft: string, id: string)
    requires UniqueIds(s.revisions)
    ensures var s' := Step(s, Select(draft, id));
      if draft in s.drafts && s.drafts[draft] == ReadyForReview && exists i :: ReviewAt(s.revisions, draft, id, i)
      then
        && s'.revisions == s.revisions && s'.drafts == s.drafts && SameElsewhere(s.selections, s'.selections, draft)
        && draft in s'.selections && s'.selections[draft] == id
      else s' == s
    ensures var s' := Step(s, SelectOriginal(draft));
      if draft in s.drafts && s.drafts[draft] == ReadyForReview
      then
        && s'.revisions == s.revisions && s'.drafts == s.drafts && SameElsewhere(s.selections, s'.selections, draft)
        && draft !in s'.selections
      else s' == s
  {
    if i :| ReviewAt(s.revisions, draft, id, i) {
      assert IndexOf(s.revisions, id) == i;
    } else if HasId(s.revisions, id) {
      assert !ReviewAt(s.revisions, draft, id, IndexOf(s.revisions, id));
    }
  }

  ghost predicate BackgroundAt(revisions: seq<Revision>, draft: string, id: string, i: int) {
    ReviewAt(revisions, draft, id, i) && revisions[i].kind == ImageBackground
  }

  // Rejection marks that one revision, and drops the selection of its draft only where it pointed there.
  ghost predicate Marked(s: State, s': State, draft: string, id: string) {
    && s'.drafts == s.drafts && |s'.revisions| == |s.revisions| && SameElsewhere(s.selections, s'.selections, draft)
    && (forall i :: 0 <= i < |s.revisions| ==>
          s'.revisions[i] == if s.revisions[i].id == id then s.revisions[i].(status := Rejected) else s.revisions[i])
    && (draft in s'.selections <==> draft in s.selections && s.selections[draft] != id)
    && (draft in s'.selections ==> s'.selections[draft] == s.selections[draft])
  }

  lemma RejectExactly(s: State, draft: string, id: string)
    requires UniqueIds(s.revisions)
    ensures var s' := Step(s, RejectBackground(draft, id));
      if draft in s.drafts && s.drafts[draft] in {ReadyForReview, DraftRejected}
         && exists i :: BackgroundAt(s.revisions, draft, id, i)
      then Marked(s, s', draft, id) else s' == s
  {
    if i :| BackgroundAt(s.revisions, draft, id, i) {
      assert IndexOf(s.revisions, id) == i;
    }
    if HasId(s.revisions, id) && s.revisions[IndexOf(s.revisions, id)].kind == ImageBackground {
      assert BackgroundAt(s.revisions, draft, id, IndexOf(s.revisions, id)) <==>
        s.revisions[IndexOf(s.revisions, id)].draft == draft && s.revisions[IndexOf(s.revisions, id)].status == Review;
    }
  }

  // ---------- What a revision keeps ----------

  ghost predicate Kept(before: seq<Revision>, after: seq<Revision>) {
    && |before| <= |after|
    && forall i :: 0 <= i < |before| ==>
      && after[i].(status := before[i].status) == before[i]
      && (before[i].status == Rejected ==> after[i].status == Rejected)
  }

  // Over every run no revision is lost, nothing of it changes but its status, and a rejected one stays rejected.
  lemma {:induction false} RunKeepsRevisions(s: State, ops: seq<Operation>)
    ensures Kept(s.revisions, Run(s, ops).revisions)
    decreases |ops|
  {
    if ops != [] {
      RunKeepsRevisions(Step(s, ops[0]), ops[1..]);
    }
  }

  // Every revision that a run adds was appended by one of its calls, under the revision selected at that moment.
  lemma {:induction false} ParentWasSelected(s: State, ops: seq<Operation>, i: nat) returns (k: nat)
    requires |s.revisions| <= i < |Run(s, ops).revisions|
    ensures k < |ops| && ops[k].Append? && |Run(s, ops[..k]).revisions| == i
    ensures var base, added := Run(s, ops[..k]), Run(s, ops).revisions[i];
      && added.draft == ops[k].draft && added.id == ops[k].id && added.kind == ops[k].kind
      && added.parent == (if added.draft in base.selections then Some(base.selections[added.draft]) else None)
      && NextAfter(base.revisions, added.draft, added.version)
    decreases |ops|
  {
    var s' := Step(s, ops[0]);
    if i < |s'.revisions| {
      k := 0;
      assert ops[..0] == [];
      AppendExactly(s, ops[0].draft, ops[0].id, ops[0].kind, ops[0].completes);
      RunKeepsRevisions(s', ops[1..]);
    } else {
      var later := ParentWasSelected(s', ops[1..], i);
      k := later + 1;
      assert ops[..k][0] == ops[0] && ops[..k][1..] == ops[1..][..later];
    }
  }

  // ---------- The services ----------

  class RevisionStore {
    var revisions: seq<Revision>
    var selections: map<string, string>
    var drafts: map<string, DraftStatus>

    function Rows(): State
      reads this
    {
      State(revisions, selections, drafts)
    }

    method Regenerate(draft: string, id: string, kind: Kind, completes: bool)
      modifies this
      ensures Rows() == Step(old(Rows()), Append(draft, id, kind, completes))
    {
      if draft in drafts && drafts[draft] == ReadyForReview && !HasId(revisions, id) {
        var version := NextVersion(revisions, draft);
        var parent := if draft in selections then Some(selections[draft]) else None;
        if completes {
          revisions := revisions + [Revision(id, draft, parent, version, kind, Review)];
        }
      }
    }

    method SelectVersion(draft: string, version: Option<string>)
      modifies this
      ensures Rows() == Step(old(Rows()), if version.None? then SelectOriginal(draft) else Select(draft, version.value))
    {
      if draft !in drafts || drafts[draft] != ReadyForReview { return; }
      if version.None? {
        selections := selections - {draft};
        return;
      }
      if !HasId(revisions, version.value) { return; }
      var revision := revisions[IndexOf(revisions, version.value)];
      if revision.draft == draft && revision.status == Review {
        selections := selections[draft := revision.id];
      }
    }

    method RejectImageBackgroundRevision(draft: string, id: string)
      modifies this
      ensures Rows() == Step(old(Rows()), RejectBackground(draft, id))
    {
      if draft !in drafts || drafts[draft] !in {ReadyForReview, DraftRejected} || !HasId(revisions, id) { return; }
      var i := IndexOf(revisions, id);
      if revisions[i].draft != draft || revisions[i].kind != ImageBackground || revisions[i].status != Review {
        return;
      }
      if draft in selections && selections[draft] == id {
        selections := selections - {draft};
      }
      revisions := revisions[i := revisions[i].(status := Rejected)];
    }
  }
}
