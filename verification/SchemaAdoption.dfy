// Exactly which starting catalogs the adoption and repair chain accepts, and what it leaves.
module SchemaAdoption {
  import opened Wrappers
  import opened SchemaCatalog

  lemma EveryTableIsBundled(c: Catalog)
    ensures c.Keys <= BUNDLE
  {
    forall t | t in c ensures t in BUNDLE {
      match t case Plans => case Items => case SeoBriefs => case GenerationRuns => case Snapshots =>
      case IngestionRuns => case Learning => case Optimizer => case ExecutionRuns => case DestinationRuns =>
    }
  }

  predicate Fits(s: State) { s.revision >= 27 ==> !s.bundleMarker && !s.devMarker }

  ghost predicate Reaches(s: State) { Acceptable(s) && MarkersAllow(s) }

  // One migration accepts exactly the states from which the rest of the chain goes through, and keeps every row.
  ghost predicate StepExact(s: State)
    requires 19 <= s.revision < 29
  {
    && (Reaches(s) <==> Upgrade(s).Some? && Reaches(Upgrade(s).value))
    && (Upgrade(s).Some? ==> Canonicalized(Upgrade(s).value.catalog) == Canonicalized(s.catalog))
  }

  lemma FillParents(c: Catalog, r: nat)
    requires 21 <= r <= 27 && CanonicalUpTo(c, r - 1)
    ensures ParentsPresent(c, Owned(r))
  {
    forall t, p | t in Owned(r) && p in Parents(t) ensures p in Owned(r) || p in c {
      assert RevisionOf(t) == r && RevisionOf(p) <= r;
      assert RevisionOf(p) == r ==> p in Owned(r);
    }
  }

  lemma FillCanonical(c: Catalog, r: nat)
    requires 21 <= r <= 27
    ensures CanonicalUpTo(c + Fresh(Owned(r)), r) <==> CanonicalUpTo(c, r - 1)
  {
    var c' := c + Fresh(Owned(r));
    forall t ensures RevisionOf(t) == r ==> t in c' && c'[t].fingerprint == Frozen
      ensures RevisionOf(t) != r ==> (t in c' <==> t in c) && (t in c ==> c'[t] == c[t])
    {
      assert t in Owned(RevisionOf(t));
    }
  }

  lemma OwnedDisjoint(q: nat, r: nat)
    requires q != r
    ensures Owned(q) !! Owned(r)
  {
  }

  lemma FillBlank(c: Catalog, r: nat, q: nat)
    requires q != r
    ensures Blank(c + Fresh(Owned(r)), Owned(q)) <==> Blank(c, Owned(q))
  {
    OwnedDisjoint(q, r);
    var c' := c + Fresh(Owned(r));
    assert forall t :: t in Owned(q) ==> (t in c' <==> t in c) && (t in c ==> c'[t] == c[t]);
  }

  lemma FillBlankFrom(c: Catalog, r: nat, last: nat)
    ensures BlankFrom(c + Fresh(Owned(r)), r + 1, last) <==> BlankFrom(c, r + 1, last)
  {
    forall q: nat | r + 1 <= q <= last ensures Blank(c + Fresh(Owned(r)), Owned(q)) <==> Blank(c, Owned(q)) {
      FillBlank(c, r, q);
    }
    if BlankFrom(c + Fresh(Owned(r)), r + 1, last) {
      forall q: nat | r + 1 <= q <= last ensures Blank(c, Owned(q)) { assert Blank(c + Fresh(Owned(r)), Owned(q)); }
    }
  }

  lemma FillKeepsRows(c: Catalog, ts: set<Table>)
    requires Blank(c, ts)
    ensures Canonicalized(c + Fresh(ts)) == Canonicalized(c)
    ensures (forall t :: t in c + Fresh(ts) ==> (c + Fresh(ts))[t].rows == 0) <==>
            (forall t :: t in c ==> c[t].rows == 0)
  {
    var c' := c + Fresh(ts);
    forall t | t in BUNDLE ensures Canonicalized(c')[t] == Canonicalized(c)[t] {
    }
    if forall t :: t in c' ==> c'[t].rows == 0 {
      forall t | t in c ensures c[t].rows == 0 { assert t in c'; }
    }
  }

  function Filled(s: State): State {
    s.(catalog := s.catalog + Fresh(Owned(s.revision + 1)), revision := s.revision + 1)
  }

  lemma BlankFromSplits(c: Catalog, r: nat, last: nat)
    requires r <= last
    ensures BlankFrom(c, r, last) <==> Blank(c, Owned(r)) && BlankFrom(c, r + 1, last)
  {
    if BlankFrom(c, r, last) {
      assert forall q: nat :: r + 1 <= q <= last ==> Blank(c, Owned(q));
    }
  }

  lemma LateUnmoved(c: Catalog, r: nat)
    requires r < 23
    ensures Blank(c + Fresh(Owned(r)), DRIFTING - ANALYTICS) <==> Blank(c, DRIFTING - ANALYTICS)
  {
    var c', late := c + Fresh(Owned(r)), DRIFTING - ANALYTICS;
    assert forall t :: t in late ==> (t in c' <==> t in c) && (t in c ==> c'[t] == c[t]);
  }

  lemma EarlyFillAcceptable(s: State)
    requires s.revision in {20, 21}
    ensures Acceptable(s) <==> Blank(s.catalog, Owned(s.revision + 1)) && Acceptable(Filled(s))
  {
    var c, r := s.catalog, s.revision + 1;
    FillCanonical(c, r);
    FillBlankFrom(c, r, 23);
    BlankFromSplits(c, r, 23);
    LateUnmoved(c, r);
  }

  lemma LateFillAcceptable(s: State)
    requires s.revision in {24, 25}
    ensures Acceptable(s) <==> Blank(s.catalog, Owned(s.revision + 1)) && Acceptable(Filled(s))
  {
    var c, r := s.catalog, s.revision + 1;
    FillCanonical(c, r);
    FillBlankFrom(c, r, 27);
    BlankFromSplits(c, r, 27);
  }

  // A migration that only fills its own tables is exact when acceptance carries over.
  lemma FillComposes(s: State)
    requires 20 <= s.revision < 26 && Upgrade(s) == Fill(s, Owned(s.revision + 1))
    requires Acceptable(s) <==> Blank(s.catalog, Owned(s.revision + 1)) && Acceptable(Filled(s))
    requires Acceptable(s) ==> ParentsPresent(s.catalog, Owned(s.revision + 1))
    ensures StepExact(s)
  {
    var ts := Owned(s.revision + 1);
    if Blank(s.catalog, ts) {
      FillKeepsRows(s.catalog, ts);
      FillMarkers(s);
      if Upgrade(s).Some? { assert Upgrade(s).value == Filled(s); }
    }
  }

  lemma FillMarkers(s: State)
    requires s.revision < 26 && Blank(s.catalog, Owned(s.revision + 1))
    ensures MarkersAllow(Filled(s)) <==> MarkersAllow(s)
  {
    FillKeepsRows(s.catalog, Owned(s.revision + 1));
  }

  // 0021, 0022, 0025 and 0026: adopt or create one revision's tables.
  lemma FillExact(s: State)
    requires s.revision in {20, 21, 24, 25}
    ensures StepExact(s)
  {
    if s.revision < 23 { EarlyFillAcceptable(s); } else { LateFillAcceptable(s); }
    if Acceptable(s) {
      assert CanonicalUpTo(s.catalog, s.revision);
      FillParents(s.catalog, s.revision + 1);
    }
    FillComposes(s);
  }

  // CanonicalUpTo in terms of the named table sets.
  lemma CanonicalSets(c: Catalog)
    ensures CanonicalUpTo(c, 22) <==> Canonical(c, PRESERVED)
    ensures CanonicalUpTo(c, 24) <==> Canonical(c, PRESERVED) && Canonical(c, ANALYTICS) && Canonical(c, {Learning})
    ensures CanonicalUpTo(c, 26) <==> Canonical(c, PRESERVED) && Canonical(c, DRIFTING - {DestinationRuns})
  {
    assert forall t :: RevisionOf(t) <= 22 <==> t in PRESERVED;
    assert forall t :: RevisionOf(t) <= 24 <==> t in PRESERVED || t in ANALYTICS || t in {Learning};
    assert forall t :: RevisionOf(t) <= 26 <==> t in PRESERVED || t in DRIFTING - {DestinationRuns};
  }

  // ---------- Rebuilding a set of tables ----------

  lemma RebuildOutside(c: Catalog, ts: set<Table>, us: set<Table>)
    requires ts !! us
    ensures Canonical(c + Fresh(ts), us) <==> Canonical(c, us)
    ensures Empty(c + Fresh(ts), us) <==> Empty(c, us)
    ensures (c + Fresh(ts)).Keys * us == c.Keys * us
  {
    var c' := c + Fresh(ts);
    assert forall t :: t in us ==> (t in c' <==> t in c) && (t in c ==> c'[t] == c[t]);
  }

  lemma RebuildInside(c: Catalog, ts: set<Table>)
    ensures Canonical(c + Fresh(ts), ts) && Empty(c + Fresh(ts), ts) && (c + Fresh(ts)).Keys == c.Keys + ts
  {
  }

  lemma CanonicalUnion(c: Catalog, a: set<Table>, b: set<Table>, whole: set<Table>)
    requires whole == a + b
    ensures Canonical(c, whole) <==> Canonical(c, a) && Canonical(c, b)
  {
    forall t | t in whole && Canonical(c, a) && Canonical(c, b)
      ensures t in c && c[t].fingerprint == FrozenContract(t)
    {
    }
  }

  lemma RebuildKeepsRows(c: Catalog, ts: set<Table>)
    requires Empty(c, ts)
    ensures Canonicalized(c + Fresh(ts)) == Canonicalized(c)
  {
    var c' := c + Fresh(ts);
    forall t | t in BUNDLE ensures Canonicalized(c')[t] == Canonicalized(c)[t] {
    }
  }

  const LATE: set<Table> := {Learning, Optimizer, ExecutionRuns, DestinationRuns}

  lemma DriftingSplits()
    ensures DRIFTING == ANALYTICS + LATE && DRIFTING - ANALYTICS == LATE
    ensures ANALYTICS !! LATE && BUNDLE == PRESERVED + DRIFTING
  {
  }

  // 0023: the analytics pair.
  lemma AnalyticsNext(s: State)
    requires s.revision == 23 && Canonical(s.catalog, ANALYTICS) && Empty(s.catalog, ANALYTICS)
    ensures Acceptable(s) <==> Canonical(s.catalog, PRESERVED) && Blank(s.catalog, LATE)
  {
    var c := s.catalog;
    DriftingSplits();
    CanonicalUnion(c, ANALYTICS, LATE, DRIFTING);
    assert Snapshots in c && c[Snapshots].fingerprint == Frozen && !DevDrift(s) by {
      assert Snapshots in ANALYTICS && Snapshots in DRIFTING;
    }
    if c.Keys * DRIFTING == ANALYTICS {
      assert c.Keys !! LATE;
    }
    if c.Keys !! LATE {
      assert c.Keys * DRIFTING == ANALYTICS;
      assert Learning !in c && Learning in LATE;
    }
  }

  lemma AnalyticsAcceptable(s: State)
    requires s.revision == 22
    ensures Acceptable(s) <==> Blank(s.catalog, ANALYTICS) && Acceptable(Filled(s))
  {
    var c, c' := s.catalog, Filled(s).catalog;
    CanonicalSets(c);
    BlankFromSplits(c, 23, 23);
    DriftingSplits();
    RebuildInside(c, ANALYTICS);
    RebuildOutside(c, ANALYTICS, PRESERVED);
    RebuildOutside(c, ANALYTICS, LATE);
    assert Owned(23) == ANALYTICS;
    AnalyticsNext(Filled(s));
    assert c'.Keys !! LATE <==> c.Keys !! LATE;
  }

  lemma AnalyticsExact(s: State)
    requires s.revision == 22
    ensures StepExact(s)
  {
    AnalyticsAcceptable(s);
    assert ParentsPresent(s.catalog, ANALYTICS);
    FillComposes(s);
  }

  // 0028 and 0029.
  lemma PublishCanonical(s: State)
    requires s.revision == 27 && Upgrade0028(s).Some?
    ensures Canonical(Upgrade0028(s).value.catalog, BUNDLE)
    ensures Canonicalized(Upgrade0028(s).value.catalog) == Canonicalized(s.catalog)
  {
    var c := s.catalog;
    DriftingSplits();
    if !Canonical(c, DRIFTING) {
      RebuildInside(c, DRIFTING);
      RebuildOutside(c, DRIFTING, PRESERVED);
      RebuildKeepsRows(c, DRIFTING);
    }
    CanonicalUnion(Upgrade0028(s).value.catalog, PRESERVED, DRIFTING, BUNDLE);
  }

  lemma PublishOutcome(s: State)
    requires s.revision == 27
    ensures Upgrade0028(s) ==
      if !Canonical(s.catalog, PRESERVED) then None
      else if Canonical(s.catalog, DRIFTING) then Some(s.(revision := 28))
      else if PublishDrift(s) then Some(s.(catalog := s.catalog + Fresh(DRIFTING), revision := 28)) else None
    ensures PublishDrift(s) ==> DRIFTING <= s.catalog.Keys && Empty(s.catalog, BUNDLE) && s.dependents !! DRIFTING
  {
  }

  lemma FillUpgrade(s: State)
    requires s.revision in {20, 21, 22, 24, 25}
    ensures Upgrade(s) == Fill(s, Owned(s.revision + 1))
  {
  }

  lemma PublishExact(s: State)
    requires s.revision == 27 && Fits(s)
    ensures StepExact(s)
  {
    assert Upgrade(s) == Upgrade0028(s);
    if Upgrade0028(s).Some? {
      PublishCanonical(s);
      var c' := Upgrade0028(s).value.catalog;
      assert ExecutionRuns in BUNDLE && ExecutionRuns in c' && c'[ExecutionRuns].fingerprint == Frozen;
      CanonicalUnion(c', BUNDLE - {ExecutionRuns}, {ExecutionRuns}, BUNDLE);
    }
  }

  lemma HeadExact(s: State)
    requires s.revision == 28 && Fits(s)
    ensures Reaches(s) <==> Upgrade(s).Some? && Reaches(Upgrade(s).value)
    ensures Upgrade(s).Some? ==> Upgrade(s).value.catalog == Canonicalized(s.catalog)
  {
    var c := s.catalog;
    if Upgrade(s).Some? {
      var c' := Upgrade(s).value.catalog;
      EveryTableIsBundled(c');
      assert BUNDLE == (BUNDLE - {ExecutionRuns}) + {ExecutionRuns};
      assert c'.Keys == BUNDLE;
      forall t | t in BUNDLE ensures c'[t] == Canonicalized(c)[t] {
        assert t in BUNDLE - {ExecutionRuns} || t == ExecutionRuns;
      }
    }
  }

  // 0027: the destination table, where both markers are settled.
  lemma DestinationAcceptable(s: State)
    requires s.revision == 26
    ensures Acceptable(s) <==> Blank(s.catalog, {DestinationRuns}) && Canonical(Filled(s).catalog, BUNDLE)
    ensures Acceptable(Filled(s)) <==> Canonical(Filled(s).catalog, BUNDLE)
  {
    var c, c' := s.catalog, Filled(s).catalog;
    var rest := DRIFTING - {DestinationRuns};
    DriftingSplits();
    CanonicalSets(c);
    BlankFromSplits(c, 27, 27);
    assert BlankFrom(c, 28, 27) && Owned(27) == {DestinationRuns};
    RebuildInside(c, {DestinationRuns});
    RebuildOutside(c, {DestinationRuns}, PRESERVED);
    RebuildOutside(c, {DestinationRuns}, rest);
    CanonicalUnion(c', rest, {DestinationRuns}, DRIFTING);
    CanonicalUnion(c', PRESERVED, DRIFTING, BUNDLE);
    assert !PublishDrift(Filled(s)) by {
      assert DestinationRuns in DRIFTING && c'[DestinationRuns].fingerprint == Frozen;
    }
  }

  lemma DestinationExact(s: State)
    requires s.revision == 26
    ensures Reaches(s) <==> Upgrade(s).Some? && Reaches(Upgrade(s).value)
    ensures Upgrade(s).Some? ==>
      Canonicalized(Upgrade(s).value.catalog) == Canonicalized(s.catalog) && Fits(Upgrade(s).value)
  {
    var c, c' := s.catalog, Filled(s).catalog;
    DestinationAcceptable(s);
    assert Owned(27) == {DestinationRuns} && Upgrade(s) == Upgrade0027(s);
    if Blank(c, {DestinationRuns}) {
      FillKeepsRows(c, {DestinationRuns});
      if Acceptable(s) {
        assert CanonicalUpTo(c, 26);
        FillParents(c, 27);
      }
      if Canonical(c', BUNDLE) {
        EveryTableIsBundled(c');
        assert Empty(c', BUNDLE) <==> forall t :: t in c' ==> c'[t].rows == 0;
      }
    }
    if Upgrade(s).Some? && Reaches(Upgrade(s).value) {
      var next := Upgrade(s).value;
      assert next.catalog == c' && next.revision == 27 && next.dependents == s.dependents;
      assert Acceptable(next) <==> Acceptable(Filled(s));
    }
  }

  // 0024: the learning table, after the development drift is taken down and its analytics pair rebuilt.
  predicate LateBlank(c: Catalog) {
    Blank(c, {Optimizer}) && Blank(c, {ExecutionRuns}) && Blank(c, {DestinationRuns})
  }

  lemma LearningNext(s: State)
    requires s.revision == 24
    ensures var c := s.catalog;
      Acceptable(s) <==>
        (Canonical(c, PRESERVED) && Canonical(c, ANALYTICS) && Canonical(c, {Learning}) && LateBlank(c))
  {
    var c := s.catalog;
    CanonicalSets(c);
    BlankFromSplits(c, 25, 27);
    BlankFromSplits(c, 26, 27);
    BlankFromSplits(c, 27, 27);
  }

  lemma FillLearning(s: State)
    requires s.revision == 23
    ensures var c := s.catalog;
      Acceptable(Filled(s)) <==> (Canonical(c, PRESERVED) && Canonical(c, ANALYTICS) && LateBlank(c))
  {
    var c := s.catalog;
    assert Owned(24) == {Learning};
    LearningNext(Filled(s));
    RebuildInside(c, {Learning});
    RebuildOutside(c, {Learning}, PRESERVED);
    RebuildOutside(c, {Learning}, ANALYTICS);
    FillBlank(c, 24, 25);
    FillBlank(c, 24, 26);
    FillBlank(c, 24, 27);
  }

  // Only the analytics pair is there yet.
  lemma LearningAbsent(s: State)
    requires s.revision == 23 && Canonical(s.catalog, PRESERVED)
    requires s.catalog.Keys * DRIFTING == ANALYTICS && Canonical(s.catalog, ANALYTICS)
    ensures Acceptable(s) && Blank(s.catalog, {Learning}) && Acceptable(Filled(s))
  {
    var c := s.catalog;
    FillLearning(s);
    assert forall t :: t in LATE ==> t !in ANALYTICS && t in DRIFTING;
    assert forall t :: t in LATE ==> t !in c.Keys * DRIFTING;
  }

  // All six are there and canonical.
  lemma LearningPresent(s: State)
    requires s.revision == 23 && Canonical(s.catalog, PRESERVED) && Canonical(s.catalog, DRIFTING)
    ensures Acceptable(s) <==> Blank(s.catalog, {Learning}) && Acceptable(Filled(s))
    ensures s.catalog.Keys * DRIFTING != ANALYTICS && !DevDrift(s)
  {
    var c := s.catalog;
    FillLearning(s);
    DriftingSplits();
    CanonicalUnion(c, ANALYTICS, LATE, DRIFTING);
    assert Learning in DRIFTING && Learning in c.Keys * DRIFTING && Learning !in ANALYTICS;
    assert Snapshots in DRIFTING && c[Snapshots].fingerprint == Frozen && DevContract(Snapshots) == PostPublish;
    LatePresent(c);
  }

  lemma LatePresent(c: Catalog)
    requires Canonical(c, LATE)
    ensures Empty(c, LATE) <==> Blank(c, {Learning}) && LateBlank(c)
  {
    assert Learning in LATE && Optimizer in LATE && ExecutionRuns in LATE && DestinationRuns in LATE;
    assert Blank(c, {Learning}) <==> c[Learning].rows == 0;
    assert Blank(c, {Optimizer}) <==> c[Optimizer].rows == 0;
    assert Blank(c, {ExecutionRuns}) <==> c[ExecutionRuns].rows == 0;
    assert Blank(c, {DestinationRuns}) <==> c[DestinationRuns].rows == 0;
  }

  lemma DevDriftIsNotCanonical(s: State)
    requires DevDrift(s)
    ensures !Canonical(s.catalog, DRIFTING) && s.catalog.Keys * DRIFTING != ANALYTICS
  {
    assert Snapshots in DRIFTING && s.catalog[Snapshots].fingerprint == DevContract(Snapshots);
    assert Learning in DRIFTING && Learning in s.catalog.Keys * DRIFTING && Learning !in ANALYTICS;
  }

  function TakenDown(c: Catalog): Catalog { (c - DRIFTING) + Fresh(ANALYTICS) + Fresh({Learning}) }

  ghost predicate IsTakenDown(c: Catalog, c': Catalog) {
    && Canonical(c', PRESERVED) && Canonical(c', ANALYTICS) && Canonical(c', {Learning}) && LateBlank(c')
    && (forall t :: t in c' ==> c'[t].rows == 0)
    && Canonicalized(c') == Canonicalized(c)
  }

  lemma TakenDownIs(c: Catalog)
    requires Empty(c, BUNDLE) && Canonical(c, PRESERVED)
    ensures IsTakenDown(c, TakenDown(c))
  {
    TakenDownEntries(c);
    TakenDownRows(c);
  }

  lemma TakenDownEntries(c: Catalog)
    requires Canonical(c, PRESERVED)
    ensures var c' := TakenDown(c);
      Canonical(c', PRESERVED) && Canonical(c', ANALYTICS) && Canonical(c', {Learning}) && LateBlank(c')
  {
    var left := c - DRIFTING;
    var rebuilt := left + Fresh(ANALYTICS);
    assert Canonical(left, PRESERVED) by {
      assert forall t :: t in PRESERVED ==> t !in DRIFTING;
    }
    RebuildOutside(left, ANALYTICS, PRESERVED);
    RebuildInside(left, ANALYTICS);
    RebuildOutside(rebuilt, {Learning}, PRESERVED);
    RebuildOutside(rebuilt, {Learning}, ANALYTICS);
    RebuildInside(rebuilt, {Learning});
    assert Optimizer !in left && ExecutionRuns !in left && DestinationRuns !in left;
  }

  lemma TakenDownRows(c: Catalog)
    requires Empty(c, BUNDLE)
    ensures var c' := TakenDown(c); (forall t :: t in c' ==> c'[t].rows == 0) && Canonicalized(c') == Canonicalized(c)
  {
    var c' := TakenDown(c);
    EveryTableIsBundled(c);
    assert forall t :: t in c' ==> t in Fresh(ANALYTICS) || t in Fresh({Learning}) || (t in c && c'[t] == c[t]);
    forall t | t in BUNDLE ensures Canonicalized(c')[t] == Canonicalized(c)[t] {
    }
  }

  lemma DriftAccepted(s: State)
    requires s.revision == 23 && Canonical(s.catalog, PRESERVED) && DevDrift(s)
    ensures Upgrade0024(s) == Some(s.(catalog := TakenDown(s.catalog), revision := 24, devMarker := true))
    ensures Acceptable(s)
  {
    DevDriftIsNotCanonical(s);
  }

  lemma BothReach(s: State, next: State)
    requires 19 <= s.revision < 26 && Upgrade(s) == Some(next)
    requires Acceptable(s) && MarkersAllow(s) && Acceptable(next) && MarkersAllow(next)
    requires Canonicalized(next.catalog) == Canonicalized(s.catalog)
    ensures StepExact(s)
  {
  }

  lemma DriftNext(s: State) returns (next: State)
    requires s.revision == 23 && Canonical(s.catalog, PRESERVED) && DevDrift(s)
    ensures Upgrade(s) == Some(next) && next.revision == 24
    ensures IsTakenDown(s.catalog, next.catalog)
  {
    DriftAccepted(s);
    TakenDownIs(s.catalog);
    next := Upgrade0024(s).value;
  }

  lemma LearningDrift(s: State)
    requires s.revision == 23 && Canonical(s.catalog, PRESERVED) && DevDrift(s)
    ensures StepExact(s)
  {
    DriftAccepted(s);
    DriftMarkers(s);
    var next := DriftNext(s);
    LearningNext(next);
    BothReach(s, next);
  }

  lemma LearningOrdinary(s: State)
    requires s.revision == 23 && Upgrade0024(s) == Fill(s, {Learning})
    requires Acceptable(s) <==> Blank(s.catalog, {Learning}) && Acceptable(Filled(s))
    ensures StepExact(s)
  {
    assert ParentsPresent(s.catalog, {Learning});
    FillComposes(s);
  }

  lemma AnalyticsAreNotAll(c: Catalog)
    requires c.Keys * DRIFTING == ANALYTICS
    ensures !Canonical(c, DRIFTING) && !Matches(c, DRIFTING, DevContract)
  {
    assert Learning in DRIFTING && Learning !in ANALYTICS && Learning !in c.Keys * DRIFTING;
  }

  lemma TakenDownLacksLearning(c: Catalog)
    ensures Learning !in (c - DRIFTING) + Fresh(ANALYTICS)
  {
    assert Learning in DRIFTING && Learning !in ANALYTICS;
  }

  lemma OrdinaryAccepted(s: State)
    requires s.revision == 23 && Canonical(s.catalog, PRESERVED)
    requires
      || (s.catalog.Keys * DRIFTING == ANALYTICS && Canonical(s.catalog, ANALYTICS))
      || Canonical(s.catalog, DRIFTING)
    ensures Upgrade0024(s) == Fill(s, {Learning})
  {
  }

  lemma LearningUpgradeRefused(s: State)
    requires s.revision == 23
    requires !Canonical(s.catalog, PRESERVED) || (!DevDrift(s) && !Canonical(s.catalog, DRIFTING)
      && !(s.catalog.Keys * DRIFTING == ANALYTICS && Canonical(s.catalog, ANALYTICS)))
    ensures Upgrade0024(s).None?
  {
  }

  lemma LearningRefused(s: State)
    requires s.revision == 23
    requires !Canonical(s.catalog, PRESERVED) || (!DevDrift(s) && !Canonical(s.catalog, DRIFTING)
      && !(s.catalog.Keys * DRIFTING == ANALYTICS && Canonical(s.catalog, ANALYTICS)))
    ensures StepExact(s)
  {
  }

  lemma DriftMarkers(s: State)
    requires DevDrift(s)
    ensures MarkersAllow(s)
  {
    EveryTableIsBundled(s.catalog);
  }

  lemma LearningExact(s: State)
    requires s.revision == 23
    ensures StepExact(s)
  {
    var c := s.catalog;
    if !Canonical(c, PRESERVED) {
      LearningRefused(s);
    } else if DevDrift(s) {
      LearningDrift(s);
    } else if Canonical(c, DRIFTING) {
      LearningPresent(s);
      LearningOrdinary(s);
    } else if c.Keys * DRIFTING == ANALYTICS && Canonical(c, ANALYTICS) {
      LearningAbsent(s);
      LearningOrdinary(s);
    } else {
      LearningRefused(s);
    }
  }

  // 0020: fresh, the known pair, or the known whole bundle.
  lemma PairNext(s: State)
    requires s.revision == 20 && Canonical(s.catalog, PAIR)
    ensures var c := s.catalog;
      Acceptable(s) <==> (Blank(c, {SeoBriefs}) && Blank(c, {GenerationRuns}) && Blank(c, ANALYTICS) && Blank(c, LATE))
  {
    var c := s.catalog;
    assert CanonicalUpTo(c, 20) by {
      assert forall t :: RevisionOf(t) <= 20 ==> t in PAIR;
    }
    BlankFromSplits(c, 21, 23);
    BlankFromSplits(c, 22, 23);
    BlankFromSplits(c, 23, 23);
    DriftingSplits();
  }

  lemma PairAlone(s: State)
    requires s.revision == 20 && Canonical(s.catalog, PAIR) && s.catalog.Keys == PAIR
    ensures Acceptable(s)
  {
    PairNext(s);
  }

  lemma WholeBundle(s: State)
    requires s.revision == 20 && Canonical(s.catalog, BUNDLE)
    ensures Acceptable(s) <==> Empty(s.catalog, BUNDLE - PAIR)
  {
    var c, rest := s.catalog, BUNDLE - PAIR;
    assert forall t :: t in PAIR ==> t in BUNDLE;
    PairNext(s);
    assert SeoBriefs in BUNDLE && GenerationRuns in BUNDLE && Snapshots in BUNDLE && Learning in BUNDLE;
    assert Blank(c, {SeoBriefs}) <==> Empty(c, {SeoBriefs});
    assert Blank(c, {GenerationRuns}) <==> Empty(c, {GenerationRuns});
    PresentBlank(c, ANALYTICS, Snapshots);
    PresentBlank(c, LATE, Learning);
    assert rest == {SeoBriefs} + {GenerationRuns} + ANALYTICS + LATE;
    assert Empty(c, rest) <==>
           Empty(c, {SeoBriefs}) && Empty(c, {GenerationRuns}) && Empty(c, ANALYTICS) && Empty(c, LATE) by {
      EmptyUnion(c, {SeoBriefs}, {GenerationRuns});
      EmptyUnion(c, {SeoBriefs} + {GenerationRuns}, ANALYTICS);
      EmptyUnion(c, {SeoBriefs} + {GenerationRuns} + ANALYTICS, LATE);
    }
  }

  lemma EmptyUnion(c: Catalog, a: set<Table>, b: set<Table>)
    ensures Empty(c, a + b) <==> Empty(c, a) && Empty(c, b)
  {
    assert forall t :: t in a || t in b ==> t in a + b;
  }

  lemma PresentBlank(c: Catalog, ts: set<Table>, t: Table)
    requires Canonical(c, BUNDLE) && ts <= BUNDLE && t in ts
    ensures Blank(c, ts) <==> Empty(c, ts)
  {
    assert t in c.Keys * ts;
  }

  lemma SetsDiffer()
    ensures PAIR != BUNDLE && PAIR != {} && BUNDLE != {}
  {
    assert Learning in BUNDLE && Learning !in PAIR && Plans in PAIR;
  }

  // The catalog ends 0020 with just a canonical pair: it was missing, or it was the known pair or bundle, all empty.
  lemma PairRebuilt(s: State)
    requires s.revision == 19 && !s.bundleMarker && !s.devMarker
    requires s.catalog.Keys == {} || (s.catalog.Keys == PAIR && Empty(s.catalog, PAIR))
      || (s.catalog.Keys == BUNDLE && Empty(s.catalog, BUNDLE))
    requires Upgrade0020(s).Some? && Upgrade0020(s).value.catalog == Fresh(PAIR)
    ensures Reaches(Upgrade0020(s).value) && MarkersAllow(s)
    ensures Canonicalized(Upgrade0020(s).value.catalog) == Canonicalized(s.catalog)
  {
    PairAlone(Upgrade0020(s).value);
    forall t | t in BUNDLE ensures Canonicalized(Fresh(PAIR))[t] == Canonicalized(s.catalog)[t] {
    }
  }

  lemma PairFromNothing(s: State)
    requires s.revision == 19 && !s.bundleMarker && !s.devMarker && s.catalog.Keys != BUNDLE
    ensures Acceptable(s) <==> Upgrade0020(s).Some?
    ensures Upgrade0020(s).Some? ==>
      Reaches(Upgrade0020(s).value) && Canonicalized(Upgrade0020(s).value.catalog) == Canonicalized(s.catalog)
  {
    SetsDiffer();
    if Upgrade0020(s).Some? {
      if s.catalog.Keys == PAIR && Canonical(s.catalog, PAIR) {
        PairAlone(Upgrade0020(s).value);
      } else {
        PairRebuilt(s);
      }
    }
  }

  lemma PairFromBundle(s: State)
    requires s.revision == 19 && !s.bundleMarker && !s.devMarker && s.catalog.Keys == BUNDLE
    ensures Acceptable(s) <==> Upgrade0020(s).Some? && Reaches(Upgrade0020(s).value)
    ensures Upgrade0020(s).Some? ==> Canonicalized(Upgrade0020(s).value.catalog) == Canonicalized(s.catalog)
  {
    var c := s.catalog;
    SetsDiffer();
    EmptyUnion(c, PAIR, BUNDLE - PAIR);
    assert PAIR + (BUNDLE - PAIR) == BUNDLE;
    if Canonical(c, BUNDLE) {
      WholeBundle(s.(revision := 20));
    } else if Upgrade0020(s).Some? {
      PairRebuilt(s);
    }
  }

  lemma PairExact(s: State)
    requires s.revision == 19 && !s.bundleMarker && !s.devMarker
    ensures StepExact(s)
  {
    assert Upgrade(s) == Upgrade0020(s);
    if s.catalog.Keys == BUNDLE { PairFromBundle(s); } else { PairFromNothing(s); }
  }

  lemma BundleHoldsPair(c: Catalog)
    ensures Canonical(c, BUNDLE) ==> Canonical(c, PAIR)
  {
    assert forall t :: t in PAIR ==> t in BUNDLE;
  }

  // The ways through 0020: left alone, a known pair or bundle taken down, or refused.
  predicate PairLeft(c: Catalog) {
    c.Keys == {} || (c.Keys == PAIR && Canonical(c, PAIR)) || (c.Keys == BUNDLE && Canonical(c, BUNDLE))
  }

  predicate PairDropped(s: State) {
    var c := s.catalog;
    && c.Keys == PAIR && !Canonical(c, PAIR)
    && Matches(c, PAIR, PreappliedContract) && Empty(c, PAIR) && s.dependents !! PAIR
  }

  predicate BundleDropped(s: State) {
    var c := s.catalog;
    && c.Keys == BUNDLE && !Canonical(c, BUNDLE)
    && Matches(c, BUNDLE, PreappliedContract) && Empty(c, BUNDLE) && s.dependents == {}
  }

  lemma PairLeftOutcome(s: State)
    requires s.revision == 19 && PairLeft(s.catalog)
    ensures Upgrade0020(s) ==
      if Blank(s.catalog, PAIR) then Some(s.(catalog := s.catalog + Fresh(PAIR), revision := 20)) else None
  {
    var c := s.catalog;
    SetsDiffer();
    BundleHoldsPair(c);
    if c.Keys == {} {
      assert c == map[] && c + Fresh(PAIR) == Fresh(PAIR);
    } else {
      assert Plans in PAIR && Plans in c && !(c.Keys !! PAIR);
      if Empty(c, PAIR) { PairRebuildIsSame(c); }
    }
  }

  lemma PairRebuildIsSame(c: Catalog)
    requires Canonical(c, PAIR) && Empty(c, PAIR)
    ensures c + Fresh(PAIR) == c
  {
    assert forall t :: t in PAIR ==> c[t] == Entry(Frozen, 0);
    assert (c + Fresh(PAIR)).Keys == c.Keys;
  }

  lemma PairDroppedOutcome(s: State)
    requires s.revision == 19 && (PairDropped(s) || BundleDropped(s))
    ensures Upgrade0020(s) ==
      Some(s.(catalog := map[] + Fresh(PAIR), revision := 20, bundleMarker := s.bundleMarker || BundleDropped(s)))
    ensures PairDropped(s) ==> s.catalog - PAIR == map[]
  {
    SetsDiffer();
    assert map[] + Fresh(PAIR) == Fresh(PAIR);
    if PairDropped(s) { assert (s.catalog - PAIR).Keys == {}; }
  }

  lemma PairRefusedOutcome(s: State)
    requires s.revision == 19 && !PairLeft(s.catalog) && !PairDropped(s) && !BundleDropped(s)
    ensures Upgrade0020(s).None?
  {
    SetsDiffer();
  }

  lemma RebuiltBundle(c: Catalog)
    requires Canonical(c, PRESERVED)
    ensures Canonical(c + Fresh(DRIFTING), BUNDLE)
    ensures Empty(c, BUNDLE) ==> Empty(c + Fresh(DRIFTING), BUNDLE)
  {
    DriftingSplits();
    RebuildInside(c, DRIFTING);
    RebuildOutside(c, DRIFTING, PRESERVED);
    CanonicalUnion(c + Fresh(DRIFTING), PRESERVED, DRIFTING, BUNDLE);
    EmptyUnion(c + Fresh(DRIFTING), PRESERVED, DRIFTING);
    EmptyUnion(c, PRESERVED, DRIFTING);
  }

  lemma RebuiltDrift(c: Catalog)
    requires Canonical(c, PRESERVED)
    ensures (c - DRIFTING) + Fresh(DRIFTING) == c + Fresh(DRIFTING)
    ensures (c - DRIFTING).Keys !! DRIFTING && ParentsPresent(c - DRIFTING, DRIFTING)
  {
    assert ((c - DRIFTING) + Fresh(DRIFTING)).Keys == (c + Fresh(DRIFTING)).Keys;
    forall t, p | t in DRIFTING && p in Parents(t) ensures p in DRIFTING || p in c - DRIFTING {
      assert p in DRIFTING || p in PRESERVED;
    }
  }

  // ---------- The whole chain ----------

  lemma UpgradeExact(s: State)
    requires 19 <= s.revision < 29 && Fits(s) && (s.revision == 19 ==> !s.bundleMarker && !s.devMarker)
    ensures Reaches(s) <==> Upgrade(s).Some? && Reaches(Upgrade(s).value)
    ensures Upgrade(s).Some? ==>
      Canonicalized(Upgrade(s).value.catalog) == Canonicalized(s.catalog) && Fits(Upgrade(s).value)
    ensures Upgrade(s).Some? && s.revision == 28 ==> Upgrade(s).value.catalog == Canonicalized(s.catalog)
  {
    if s.revision == 19 { PairExact(s); }
    else if s.revision == 22 { AnalyticsExact(s); }
    else if s.revision == 23 { LearningExact(s); }
    else if s.revision == 26 { DestinationExact(s); }
    else if s.revision == 27 { PublishExact(s); }
    else if s.revision == 28 { HeadExact(s); CanonicalizedTwice(s.catalog); }
    else { FillExact(s); }
  }

  lemma CanonicalizedTwice(c: Catalog)
    ensures Canonicalized(Canonicalized(c)) == Canonicalized(c)
  {
  }

  // From any revision 0019 to 0028 and any catalog: the chain succeeds exactly on the acceptable starts, and then
  // every table is at its frozen contract with the rows it started with, and both markers are cleared.
  lemma {:induction false} ChainIsExact(s: State)
    requires 19 <= s.revision < 29 && Fits(s) && (s.revision == 19 ==> !s.bundleMarker && !s.devMarker)
    ensures ToHead(s).Some? <==> Acceptable(s) && MarkersAllow(s)
    ensures ToHead(s).Some? ==> ToHead(s).value == State(Canonicalized(s.catalog), 29, false, false, s.dependents)
    decreases 29 - s.revision
  {
    UpgradeExact(s);
    if Upgrade(s).Some? {
      UpgradeAdvances(s);
      if s.revision < 28 {
        ChainIsExact(Upgrade(s).value);
      }
    }
  }

  // So no table that holds a row is ever dropped or rebuilt on the way.
  lemma RowsAreConserved(s: State, t: Table)
    requires 19 <= s.revision < 29 && Fits(s) && (s.revision == 19 ==> !s.bundleMarker && !s.devMarker)
    requires ToHead(s).Some? && t in s.catalog
    ensures t in ToHead(s).value.catalog && ToHead(s).value.catalog[t] == Entry(Frozen, s.catalog[t].rows)
    ensures s.catalog[t].fingerprint != Frozen ==> s.catalog[t].rows == 0
  {
    ChainIsExact(s);
    EveryTableIsBundled(s.catalog);
    if s.catalog[t].fingerprint != Frozen { DriftedIsEmpty(s, t); }
  }

  lemma DriftedIsEmpty(s: State, t: Table)
    requires 19 <= s.revision < 29 && Acceptable(s) && t in s.catalog && s.catalog[t].fingerprint != Frozen
    ensures s.catalog[t].rows == 0
  {
    EveryTableIsBundled(s.catalog);
    DriftingSplits();
    if 19 < s.revision < 23 || 23 < s.revision < 27 {
      BetweenRepairsIsFrozen(s, t);
    }
  }

  lemma BetweenRepairsIsFrozen(s: State, t: Table)
    requires (19 < s.revision < 23 || 23 < s.revision < 27) && Acceptable(s) && t in s.catalog
    ensures s.catalog[t].fingerprint == Frozen
  {
    var c := s.catalog;
    DriftingSplits();
    if RevisionOf(t) > s.revision {
      if s.revision >= 23 || RevisionOf(t) <= 23 {
        assert Blank(c, Owned(RevisionOf(t)));
      } else {
        assert t in LATE && Blank(c, LATE);
      }
    }
  }
}
