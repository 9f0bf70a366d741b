// The catalogs from which the chain of migrations 0020 to 0029 goes through, written out table by table.
module SchemaStarts {
  import opened SchemaCatalog
  import opened SchemaAdoption

  // A table as it is stored: its contract, with any rows or with none.
  predicate Has(c: Catalog, t: Table, contract: Fingerprint) { t in c && c[t].fingerprint == contract }

  predicate HasEmpty(c: Catalog, t: Table, contract: Fingerprint) { t in c && c[t] == Entry(contract, 0) }

  // The four tables that no repair touches.
  predicate PreservedFrozen(c: Catalog) {
    Has(c, Plans, Frozen) && Has(c, Items, Frozen) && Has(c, SeoBriefs, Frozen) && Has(c, GenerationRuns, Frozen)
  }

  predicate PreservedEmpty(c: Catalog) {
    && HasEmpty(c, Plans, Frozen) && HasEmpty(c, Items, Frozen)
    && HasEmpty(c, SeoBriefs, Frozen) && HasEmpty(c, GenerationRuns, Frozen)
  }

  // The six drifting tables, empty, where execution has the given contract and the learning and optimizer tables the
  // one that they have in every known drift.
  predicate SixDrifted(c: Catalog, execution: Fingerprint) {
    && HasEmpty(c, Snapshots, PostPublish) && HasEmpty(c, IngestionRuns, PostPublish)
    && HasEmpty(c, Learning, Preapplied) && HasEmpty(c, Optimizer, Preapplied)
    && HasEmpty(c, ExecutionRuns, execution) && HasEmpty(c, DestinationRuns, PostPublish)
  }

  // Nothing outside refers to any of the six.
  predicate NoneDepends(dependents: set<Table>) {
    && Snapshots !in dependents && IngestionRuns !in dependents && Learning !in dependents
    && Optimizer !in dependents && ExecutionRuns !in dependents && DestinationRuns !in dependents
  }

  predicate AllTen(c: Catalog, contract: Fingerprint) {
    && HasEmpty(c, Plans, contract) && HasEmpty(c, Items, contract) && HasEmpty(c, SeoBriefs, contract)
    && HasEmpty(c, GenerationRuns, contract) && HasEmpty(c, Snapshots, contract)
    && HasEmpty(c, IngestionRuns, contract) && HasEmpty(c, Learning, contract) && HasEmpty(c, Optimizer, contract)
    && HasEmpty(c, ExecutionRuns, contract) && HasEmpty(c, DestinationRuns, contract)
  }

  predicate OnlyPair(c: Catalog, contract: Fingerprint) {
    && HasEmpty(c, Plans, contract) && HasEmpty(c, Items, contract)
    && SeoBriefs !in c && GenerationRuns !in c && Snapshots !in c && IngestionRuns !in c
    && Learning !in c && Optimizer !in c && ExecutionRuns !in c && DestinationRuns !in c
  }

  lemma KeysOfPair(c: Catalog)
    ensures c.Keys == PAIR <==>
      && Plans in c && Items in c && SeoBriefs !in c && GenerationRuns !in c && Snapshots !in c && IngestionRuns !in c
      && Learning !in c && Optimizer !in c && ExecutionRuns !in c && DestinationRuns !in c
  {
    EveryTableIsBundled(c);
  }

  lemma KeysOfBundle(c: Catalog)
    ensures c.Keys == BUNDLE <==>
      && Plans in c && Items in c && SeoBriefs in c && GenerationRuns in c && Snapshots in c && IngestionRuns in c
      && Learning in c && Optimizer in c && ExecutionRuns in c && DestinationRuns in c
  {
    EveryTableIsBundled(c);
  }

  lemma AnalyticsAlone(c: Catalog)
    ensures c.Keys * DRIFTING == ANALYTICS <==>
      && Snapshots in c && IngestionRuns in c
      && Learning !in c && Optimizer !in c && ExecutionRuns !in c && DestinationRuns !in c
  {
    var present := c.Keys * DRIFTING;
    assert forall t :: t in DRIFTING ==> (t in present <==> t in c);
    if present == ANALYTICS {
      assert forall t :: t in DRIFTING ==> (t in c <==> t in ANALYTICS);
      assert Snapshots in DRIFTING && IngestionRuns in DRIFTING;
    }
  }

  lemma PreservedIs(c: Catalog)
    ensures Canonical(c, PRESERVED) <==> PreservedFrozen(c)
  {
  }

  lemma SixFrozen(c: Catalog)
    ensures Canonical(c, DRIFTING) <==>
      && Has(c, Snapshots, Frozen) && Has(c, IngestionRuns, Frozen) && Has(c, Learning, Frozen)
      && Has(c, Optimizer, Frozen) && Has(c, ExecutionRuns, Frozen) && Has(c, DestinationRuns, Frozen)
  {
  }

  lemma DevDriftIs(s: State)
    requires Canonical(s.catalog, PRESERVED)
    ensures DevDrift(s) <==>
            PreservedEmpty(s.catalog) && SixDrifted(s.catalog, DevExecution) && NoneDepends(s.dependents)
  {
  }

  lemma PublishDriftIs(s: State)
    requires Canonical(s.catalog, PRESERVED)
    ensures PublishDrift(s) <==>
            PreservedEmpty(s.catalog) && SixDrifted(s.catalog, PostPublish) && NoneDepends(s.dependents)
  {
  }

  // Before 0020: nothing, the empty pair, or the empty bundle, each at its frozen or its known pre-applied contract.
  lemma StartsOf0020(s: State)
    requires s.revision == 19
    ensures Acceptable(s) <==>
      || s.catalog == map[]
      || OnlyPair(s.catalog, Frozen)
      || (OnlyPair(s.catalog, Preapplied) && Plans !in s.dependents && Items !in s.dependents)
      || AllTen(s.catalog, Frozen)
      || (AllTen(s.catalog, Preapplied) && s.dependents == {})
  {
    KeysOfPair(s.catalog);
    KeysOfBundle(s.catalog);
  }

  // Before 0024: the four preserved tables, and either the analytics pair alone, or all six with the four late ones
  // empty, or the six in the development drift with everything empty.
  lemma StartsOf0024(s: State)
    requires s.revision == 23
    ensures var c := s.catalog;
      Acceptable(s) <==>
      && PreservedFrozen(c)
      && (|| (Has(c, Snapshots, Frozen) && Has(c, IngestionRuns, Frozen)
              && Learning !in c && Optimizer !in c && ExecutionRuns !in c && DestinationRuns !in c)
          || (Has(c, Snapshots, Frozen) && Has(c, IngestionRuns, Frozen)
              && HasEmpty(c, Learning, Frozen) && HasEmpty(c, Optimizer, Frozen)
              && HasEmpty(c, ExecutionRuns, Frozen) && HasEmpty(c, DestinationRuns, Frozen))
          || (PreservedEmpty(c) && SixDrifted(c, DevExecution) && NoneDepends(s.dependents)))
  {
    AnalyticsAlone(s.catalog);
    PreservedIs(s.catalog);
    SixFrozen(s.catalog);
    if Canonical(s.catalog, PRESERVED) { DevDriftIs(s); }
    assert DRIFTING - ANALYTICS == {Learning, Optimizer, ExecutionRuns, DestinationRuns};
  }

  // Before 0028: all ten frozen, or the six in the post-publish drift with everything empty.
  lemma StartsOf0028(s: State)
    requires s.revision == 27
    ensures var c := s.catalog;
      Acceptable(s) <==>
      && PreservedFrozen(c)
      && (|| (Has(c, Snapshots, Frozen) && Has(c, IngestionRuns, Frozen) && Has(c, Learning, Frozen)
              && Has(c, Optimizer, Frozen) && Has(c, ExecutionRuns, Frozen) && Has(c, DestinationRuns, Frozen))
          || (PreservedEmpty(c) && SixDrifted(c, PostPublish) && NoneDepends(s.dependents)))
  {
    PreservedIs(s.catalog);
    SixFrozen(s.catalog);
    if Canonical(s.catalog, PRESERVED) { PublishDriftIs(s); }
  }

  // Before 0029: nine frozen, and the execution runs frozen or empty in the known head drift.
  lemma StartsOf0029(s: State)
    requires s.revision == 28
    ensures var c := s.catalog;
      Acceptable(s) <==>
      && PreservedFrozen(c)
      && Has(c, Snapshots, Frozen) && Has(c, IngestionRuns, Frozen) && Has(c, Learning, Frozen)
      && Has(c, Optimizer, Frozen) && Has(c, DestinationRuns, Frozen)
      && (Has(c, ExecutionRuns, Frozen) || HasEmpty(c, ExecutionRuns, HeadDrift))
  {
  }

  // The markers: a bundle that 0020 takes down and a drift that 0024 takes down leave one each, which 0027 clears.
  lemma MarkersAreLeft(s: State)
    requires 19 <= s.revision < 29 && Upgrade(s).Some?
    ensures Upgrade(s).value.bundleMarker <==>
            s.revision != 26 && (s.bundleMarker || (s.revision == 19 && AllTen(s.catalog, Preapplied)))
    ensures Upgrade(s).value.devMarker <==>
            s.revision != 26 && (s.devMarker || (s.revision == 23 && SixDrifted(s.catalog, DevExecution)))
  {
    if s.revision == 19 {
      MarkerOf0020(s);
    } else if s.revision == 23 {
      MarkerOf0024(s);
    }
  }

  lemma MarkerOf0020(s: State)
    requires s.revision == 19 && Upgrade0020(s).Some?
    ensures Upgrade0020(s).value.bundleMarker <==> s.bundleMarker || AllTen(s.catalog, Preapplied)
    ensures Upgrade0020(s).value.devMarker == s.devMarker
  {
    KeysOfPair(s.catalog);
    KeysOfBundle(s.catalog);
    assert PAIR != BUNDLE && BUNDLE != {} by {
      assert SeoBriefs in BUNDLE && SeoBriefs !in PAIR;
    }
  }

  lemma MarkerOf0024(s: State)
    requires s.revision == 23 && Upgrade0024(s).Some?
    ensures Upgrade0024(s).value.devMarker <==> s.devMarker || SixDrifted(s.catalog, DevExecution)
    ensures Upgrade0024(s).value.bundleMarker == s.bundleMarker
  {
    AnalyticsAlone(s.catalog);
    SixFrozen(s.catalog);
    if SixDrifted(s.catalog, DevExecution) {
      assert s.catalog[Snapshots].fingerprint != Frozen;
    }
    DevDriftIs(s);
  }

  // The foreign keys between the ten tables: child and parent.
  const FOREIGN_KEYS: set<(Table, Table)> := {
    (Items, Plans), (SeoBriefs, Items), (GenerationRuns, Items), (GenerationRuns, SeoBriefs),
    (IngestionRuns, Snapshots), (Optimizer, Plans),
    (ExecutionRuns, Items), (ExecutionRuns, Plans), (ExecutionRuns, Optimizer), (ExecutionRuns, SeoBriefs),
    (ExecutionRuns, GenerationRuns),
    (DestinationRuns, Items), (DestinationRuns, Plans), (DestinationRuns, ExecutionRuns)}

  lemma ForeignKeysExactly(child: Table, parent: Table)
    ensures parent in Parents(child) <==> (child, parent) in FOREIGN_KEYS
  {
  }
}
