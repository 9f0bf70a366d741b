// The migrations 0020 to 0029 as they run: ordered DDL on one connection, refused or committed as a whole.
module SchemaMigrations {
  import opened Wrappers
  import opened SchemaCatalog
  import SchemaAdoption

  const BUNDLE_DROPS: seq<Table> := [DestinationRuns, ExecutionRuns, Optimizer, Learning, IngestionRuns, Snapshots,
                                     GenerationRuns, SeoBriefs, Items, Plans]
  const DRIFT_DROPS: seq<Table> := [DestinationRuns, ExecutionRuns, Optimizer, IngestionRuns, Snapshots, Learning]
  const DRIFT_CREATES: seq<Table> := [Snapshots, IngestionRuns, Learning, Optimizer, ExecutionRuns, DestinationRuns]

  ghost function Among(ts: seq<Table>): set<Table> { set t | t in ts }

  // Every table that refers to one in the list is missing or comes earlier in it, so nothing needs CASCADE.
  ghost predicate ChildrenFirst(order: seq<Table>, present: set<Table>) {
    forall i, child :: 0 <= i < |order| && child in present && order[i] in Parents(child) ==> child in order[..i]
  }

  ghost predicate Distinct(ts: seq<Table>) {
    forall i, j :: 0 <= i < j < |ts| ==> ts[i] != ts[j]
  }

  lemma BundleDropsChildrenFirst()
    ensures ChildrenFirst(BUNDLE_DROPS, BUNDLE) && Among(BUNDLE_DROPS) == BUNDLE && Distinct(BUNDLE_DROPS)
  {
    forall i, child | 0 <= i < |BUNDLE_DROPS| && child in BUNDLE && BUNDLE_DROPS[i] in Parents(child)
      ensures child in BUNDLE_DROPS[..i]
    {
      BundleChildEarlier(i, child);
    }
    BundleDropsAreBundle();
    BundleDropsDistinct();
  }

  lemma BundleDropsAreBundle()
    ensures Among(BUNDLE_DROPS) == BUNDLE
  {
    forall t ensures t in Among(BUNDLE_DROPS) && t in BUNDLE {
      BundleDropsAll(t);
    }
  }

  lemma BundleDropsDistinct()
    ensures Distinct(BUNDLE_DROPS)
  {
  }

  lemma BundleChildEarlier(i: nat, child: Table)
    requires i < |BUNDLE_DROPS| && BUNDLE_DROPS[i] in Parents(child)
    ensures child in BUNDLE_DROPS[..i]
  {
    match child
    case DestinationRuns => assert BUNDLE_DROPS[..i][0] == child;
    case ExecutionRuns => assert BUNDLE_DROPS[..i][1] == child;
    case Optimizer => assert BUNDLE_DROPS[..i][2] == child;
    case IngestionRuns => assert BUNDLE_DROPS[..i][4] == child;
    case GenerationRuns => assert BUNDLE_DROPS[..i][6] == child;
    case SeoBriefs => assert BUNDLE_DROPS[..i][7] == child;
    case Items => assert BUNDLE_DROPS[..i][8] == child;
    case _ =>
  }

  lemma BundleDropsAll(t: Table)
    ensures t in BUNDLE_DROPS && t in BUNDLE
  {
    match t
    case DestinationRuns => assert BUNDLE_DROPS[0] == t;
    case ExecutionRuns => assert BUNDLE_DROPS[1] == t;
    case Optimizer => assert BUNDLE_DROPS[2] == t;
    case Learning => assert BUNDLE_DROPS[3] == t;
    case IngestionRuns => assert BUNDLE_DROPS[4] == t;
    case Snapshots => assert BUNDLE_DROPS[5] == t;
    case GenerationRuns => assert BUNDLE_DROPS[6] == t;
    case SeoBriefs => assert BUNDLE_DROPS[7] == t;
    case Items => assert BUNDLE_DROPS[8] == t;
    case Plans => assert BUNDLE_DROPS[9] == t;
  }

  lemma DriftDropsChildrenFirst()
    ensures ChildrenFirst(DRIFT_DROPS, BUNDLE) && Among(DRIFT_DROPS) == DRIFTING && Distinct(DRIFT_DROPS)
  {
    forall i, child | 0 <= i < |DRIFT_DROPS| && child in BUNDLE && DRIFT_DROPS[i] in Parents(child)
      ensures child in DRIFT_DROPS[..i]
    {
      match child
      case DestinationRuns => assert DRIFT_DROPS[..i][0] == child;
      case ExecutionRuns => assert DRIFT_DROPS[..i][1] == child;
      case IngestionRuns => assert DRIFT_DROPS[..i][3] == child;
      case _ =>
    }
    assert DRIFT_DROPS[0] == DestinationRuns && DRIFT_DROPS[1] == ExecutionRuns && DRIFT_DROPS[2] == Optimizer
      && DRIFT_DROPS[3] == IngestionRuns && DRIFT_DROPS[4] == Snapshots && DRIFT_DROPS[5] == Learning;
  }

  // Every table comes after the tables it refers to, unless those are there already.
  ghost predicate ParentsFirst(order: seq<Table>) {
    forall i, parent :: 0 <= i < |order| && parent in Parents(order[i]) && parent in order ==> parent in order[..i]
  }

  lemma DriftCreatesParentsFirst()
    ensures ParentsFirst(DRIFT_CREATES) && Among(DRIFT_CREATES) == DRIFTING && Distinct(DRIFT_CREATES)
  {
    forall i, parent | 0 <= i < |DRIFT_CREATES| && parent in Parents(DRIFT_CREATES[i]) && parent in DRIFT_CREATES
      ensures parent in DRIFT_CREATES[..i]
    {
      if parent == Snapshots { assert DRIFT_CREATES[..i][0] == parent; }
      if parent == Optimizer { assert DRIFT_CREATES[..i][3] == parent; }
      if parent == ExecutionRuns { assert DRIFT_CREATES[..i][4] == parent; }
    }
    assert DRIFT_CREATES[0] == Snapshots && DRIFT_CREATES[1] == IngestionRuns && DRIFT_CREATES[2] == Learning
      && DRIFT_CREATES[3] == Optimizer && DRIFT_CREATES[4] == ExecutionRuns && DRIFT_CREATES[5] == DestinationRuns;
  }

  lemma RebuildOfBlank(c: Catalog, ts: set<Table>)
    requires Canonical(c, ts) && Empty(c, ts)
    ensures c + Fresh(ts) == c
  {
    var c' := c + Fresh(ts);
    assert forall t :: t in ts ==> c[t] == Entry(Frozen, 0);
    assert c'.Keys == c.Keys;
  }

  lemma FreshGrows(c: Catalog, ts: set<Table>, t: Table)
    ensures (c + Fresh(ts))[t := Entry(Frozen, 0)] == c + Fresh(ts + {t})
  {
  }

  // A table that cannot be created misses a parent that no later table of the list supplies.
  lemma MissingParent(c: Catalog, order: seq<Table>, i: nat)
    requires i < |order| && ParentsFirst(order) && !(Parents(order[i]) <= (c + Fresh(Among(order[..i]))).Keys)
    ensures !ParentsPresent(c, Among(order))
  {
    var p :| p in Parents(order[i]) && p !in (c + Fresh(Among(order[..i]))).Keys;
    assert p !in order[..i] && p !in c;
    assert order[i] in Among(order) && p !in Among(order);
  }

  lemma EverythingDropped(c: Catalog)
    ensures c - BUNDLE == map[]
  {
    SchemaAdoption.EveryTableIsBundled(c);
    assert (c - BUNDLE).Keys == {};
  }

  // Refused, or done with a yes-or-no answer.
  datatype Outcome = Refused | Done(answer: bool)

  class Connection {
    var catalog: Catalog
    var revision: nat
    var bundleMarker: bool
    var devMarker: bool
    const dependents: set<Table>

    function Now(): State
      reads this
    {
      State(catalog, revision, bundleMarker, devMarker, dependents)
    }

    // ---------- DDL ----------

    // Without CASCADE: anything that still refers to the table stops the statement.
    method DropTable(t: Table) returns (ok: bool)
      modifies this`catalog
      ensures ok <==>
        && t in old(catalog) && t !in dependents
        && !exists child :: child in old(catalog) && child != t && t in Parents(child)
      ensures catalog == if ok then old(catalog) - {t} else old(catalog)
    {
      if t !in catalog || t in dependents || exists child | child in catalog.Keys :: child != t && t in Parents(child) {
        return false;
      }
      catalog := catalog - {t};
      ok := true;
    }

    method CreateTable(t: Table) returns (ok: bool)
      modifies this`catalog
      ensures ok <==> t !in old(catalog) && Parents(t) <= old(catalog).Keys
      ensures catalog == if ok then old(catalog)[t := Entry(Frozen, 0)] else old(catalog)
    {
      ok := t !in catalog && Parents(t) <= catalog.Keys;
      if ok {
        catalog := catalog[t := Entry(Frozen, 0)];
      }
    }

    method DropAll(order: seq<Table>) returns (ok: bool)
      requires Distinct(order)
      modifies this`catalog
      ensures ok ==> catalog == old(catalog) - Among(order)
      ensures (Among(order) <= old(catalog).Keys && dependents !! Among(order)
               && ChildrenFirst(order, old(catalog).Keys)) ==> ok
    {
      ghost var before := catalog;
      for i := 0 to |order|
        invariant catalog == before - Among(order[..i])
      {
        assert order[i] in order && order[i] in Among(order);
        assert order[i] !in Among(order[..i]);
        assert Among(order[..i + 1]) == Among(order[..i]) + {order[i]};
        ok := DropTable(order[i]);
        if !ok { return; }
      }
      assert order[..|order|] == order;
      ok := true;
    }

    method CreateAll(order: seq<Table>) returns (ok: bool)
      requires Distinct(order) && ParentsFirst(order)
      modifies this`catalog
      ensures ok ==> catalog == old(catalog) + Fresh(Among(order)) && ParentsPresent(old(catalog), Among(order))
      ensures old(catalog).Keys !! Among(order) && ParentsPresent(old(catalog), Among(order)) ==> ok
    {
      ghost var before := catalog;
      for i := 0 to |order|
        invariant catalog == before + Fresh(Among(order[..i]))
        invariant forall t, p :: t in order[..i] && p in Parents(t) ==> p in order || p in before
      {
        var t := order[i];
        assert t in Among(order) && t !in Among(order[..i]);
        assert Among(order[..i + 1]) == Among(order[..i]) + {t};
        ok := CreateTable(t);
        if !ok {
          if !(Parents(t) <= catalog.Keys) { MissingParent(before, order, i); }
          return;
        }
        FreshGrows(before, Among(order[..i]), t);
      }
      assert order[..|order|] == order;
      ok := true;
    }

    // ---------- migration_adoption.py ----------

    method AdoptPreappliedRevision(owned: set<Table>) returns (r: Outcome)
      ensures r.Refused? <==> !Blank(catalog, owned)
      ensures r.Done? ==> (r.answer <==> !(catalog.Keys !! owned))
    {
      if catalog.Keys !! owned { return Done(false); }
      if catalog.Keys * owned != owned { return Refused; }
      if !Canonical(catalog, owned) || !Empty(catalog, owned) { return Refused; }
      r := Done(true);
    }

    method DropBundle()
      requires catalog.Keys == BUNDLE && dependents == {}
      modifies this`catalog
      ensures catalog == map[]
    {
      BundleDropsChildrenFirst();
      EverythingDropped(catalog);
      var dropped := DropAll(BUNDLE_DROPS);
      assert dropped;
    }

    method ReconcilePreappliedBundle() returns (r: Outcome)
      modifies this`catalog, this`bundleMarker
      ensures r == Done(false) <==>
        old(catalog).Keys == {} || old(catalog).Keys == PAIR
          || (old(catalog).Keys == BUNDLE && revision == 19 && Canonical(old(catalog), BUNDLE))
      ensures r == Done(true) <==>
        old(catalog).Keys == BUNDLE && revision == 19 && !Canonical(old(catalog), BUNDLE)
          && Matches(old(catalog), BUNDLE, PreappliedContract) && Empty(old(catalog), BUNDLE) && dependents == {}
      ensures r == Done(false) ==> catalog == old(catalog) && bundleMarker == old(bundleMarker)
      ensures r == Done(true) ==> catalog == map[] && bundleMarker
    {
      SchemaAdoption.EveryTableIsBundled(catalog);
      SchemaAdoption.SetsDiffer();
      if catalog.Keys == {} || catalog.Keys == PAIR { return Done(false); }
      if catalog.Keys != BUNDLE || revision != 19 { return Refused; }
      if Canonical(catalog, BUNDLE) { return Done(false); }
      if !Matches(catalog, BUNDLE, PreappliedContract) || !Empty(catalog, BUNDLE) || dependents != {} {
        return Refused;
      }
      DropBundle();
      bundleMarker := true;
      r := Done(true);
    }

    method RepairKnownLegacyRevision() returns (r: Outcome)
      modifies this`catalog
      ensures old(catalog).Keys == {} || (PAIR <= old(catalog).Keys && Canonical(old(catalog), PAIR)) ==>
        r == Done(false) && catalog == old(catalog)
      ensures old(catalog).Keys == PAIR && !Canonical(old(catalog), PAIR) ==>
        (r == Done(true) <==>
          Matches(old(catalog), PAIR, PreappliedContract) && Empty(old(catalog), PAIR) && dependents !! PAIR)
      ensures old(catalog).Keys == PAIR && !Canonical(old(catalog), PAIR) && r != Done(true) ==> r == Refused
      ensures r == Done(true) ==> catalog == old(catalog) - PAIR
    {
      assert Plans in PAIR;
      if catalog.Keys !! PAIR { return Done(false); }
      if !(PAIR <= catalog.Keys) { return Refused; }
      if Canonical(catalog, PAIR) { return Done(false); }
      if !Matches(catalog, PAIR, PreappliedContract) || !Empty(catalog, PAIR) { return Refused; }
      if exists child | child in catalog.Keys :: child !in PAIR && Parents(child) * PAIR != {} { return Refused; }
      var items := DropTable(Items);
      if !items { return Refused; }
      var plans := DropTable(Plans);
      if !plans { return Refused; }
      r := Done(true);
    }

    // The markers are only ever set by a reconciliation, and must end with everything canonical and empty.
    method VerifyReconciled(marked: bool) returns (ok: bool)
      ensures ok <==> (marked ==> Canonical(catalog, BUNDLE) && Empty(catalog, BUNDLE))
    {
      ok := !marked || (Canonical(catalog, BUNDLE) && Empty(catalog, BUNDLE));
    }

    // The two states that 0024 leaves to adoption or creation.
    static predicate OrdinaryLearning(c: Catalog) {
      && Canonical(c, PRESERVED)
      && ((c.Keys * DRIFTING == ANALYTICS && Canonical(c, ANALYTICS)) || Canonical(c, DRIFTING))
    }

    method ReconcileDevelopmentDrift() returns (r: Outcome)
      modifies this`catalog, this`devMarker
      ensures r == Done(false) <==> revision == 23 && OrdinaryLearning(old(catalog))
      ensures r == Done(true) <==> revision == 23 && Canonical(old(catalog), PRESERVED) && DevDrift(old(Now()))
      ensures r == Done(false) ==> catalog == old(catalog) && devMarker == old(devMarker)
      ensures r == Done(true) ==> catalog == old(catalog) - DRIFTING && devMarker
    {
      if revision != 23 || !Canonical(catalog, PRESERVED) { return Refused; }
      if DevDrift(Now()) { SchemaAdoption.DevDriftIsNotCanonical(Now()); }
      if catalog.Keys * DRIFTING == ANALYTICS {
        SchemaAdoption.AnalyticsAreNotAll(catalog);
        return if Canonical(catalog, ANALYTICS) then Done(false) else Refused;
      }
      if Canonical(catalog, DRIFTING) { return Done(false); }
      if !Matches(catalog, DRIFTING, DevContract) { return Refused; }
      if !Empty(catalog, BUNDLE) { return Refused; }
      if !(dependents !! DRIFTING) { return Refused; }
      DropDrift();
      devMarker := true;
      r := Done(true);
    }

    method DropDrift()
      requires DRIFTING <= catalog.Keys && dependents !! DRIFTING
      modifies this`catalog
      ensures catalog == old(catalog) - DRIFTING
    {
      DriftDropsChildrenFirst();
      SchemaAdoption.EveryTableIsBundled(catalog);
      var dropped := DropAll(DRIFT_DROPS);
      assert dropped;
    }

    method ReconcilePostPublishDrift() returns (r: Outcome)
      ensures r == Done(false) <==> revision == 27 && Canonical(catalog, PRESERVED) && Canonical(catalog, DRIFTING)
      ensures r == Done(true) <==>
        revision == 27 && Canonical(catalog, PRESERVED) && !Canonical(catalog, DRIFTING) && PublishDrift(Now())
    {
      if revision != 27 || !Canonical(catalog, PRESERVED) { return Refused; }
      if !(DRIFTING <= catalog.Keys) { return Refused; }
      if Canonical(catalog, DRIFTING) { return Done(false); }
      if !Matches(catalog, DRIFTING, PostPublishContract) { return Refused; }
      if !Empty(catalog, BUNDLE) || !(dependents !! DRIFTING) { return Refused; }
      r := Done(true);
    }

    // ---------- The migrations ----------

    // Adopt the revision's tables, or create them in the listed order.
    method AdoptOrCreate(creates: seq<Table>) returns (ok: bool)
      requires Distinct(creates) && ParentsFirst(creates)
      modifies this`catalog
      ensures ok <==> Fill(old(Now()), Among(creates)).Some?
      ensures ok ==> catalog == old(catalog) + Fresh(Among(creates))
    {
      var owned := set t | t in creates;
      assert owned == Among(creates);
      var adopted := AdoptPreappliedRevision(owned);
      if adopted.Refused? { return false; }
      if adopted.answer {
        RebuildOfBlank(catalog, owned);
        return true;
      }
      ok := CreateAll(creates);
    }

    method Upgrade0024() returns (ok: bool)
      requires revision == 23
      modifies this`catalog, this`devMarker
      ensures ok <==> SchemaCatalog.Upgrade0024(old(Now())).Some?
      ensures ok ==> SchemaCatalog.Upgrade0024(old(Now())) == Some(Now().(revision := 24))
    {
      ghost var before := Now();
      var reconciled := ReconcileDevelopmentDrift();
      if reconciled.Refused? {
        SchemaAdoption.LearningUpgradeRefused(before);
        return false;
      }
      if reconciled.answer {
        SchemaAdoption.DriftAccepted(before);
        RebuildAfterDrift(before.catalog);
        return true;
      }
      SchemaAdoption.OrdinaryAccepted(before);
      assert Among([Learning]) == {Learning};
      ok := AdoptOrCreate([Learning]);
    }

    method RebuildAfterDrift(ghost before: Catalog)
      requires catalog == before - DRIFTING
      modifies this`catalog
      ensures catalog == SchemaAdoption.TakenDown(before)
    {
      RebuildAnalytics();
      SchemaAdoption.TakenDownLacksLearning(before);
      CreateLearning();
    }

    method CreateLearning()
      requires Learning !in catalog
      modifies this`catalog
      ensures catalog == old(catalog) + Fresh({Learning})
    {
      assert Among([Learning]) == {Learning};
      var created := CreateAll([Learning]);
      assert created;
    }

    method RebuildAnalytics()
      requires catalog.Keys !! ANALYTICS
      modifies this`catalog
      ensures catalog == old(catalog) + Fresh(ANALYTICS)
    {
      var order := [Snapshots, IngestionRuns];
      assert order[..1] == [Snapshots];
      assert Among(order) == ANALYTICS;
      assert ParentsPresent(catalog, ANALYTICS);
      var created := CreateAll(order);
      assert created;
    }

    method Upgrade0020() returns (ok: bool)
      requires revision == 19
      modifies this`catalog, this`bundleMarker
      ensures ok <==> SchemaCatalog.Upgrade0020(old(Now())).Some?
      ensures ok ==> SchemaCatalog.Upgrade0020(old(Now())) == Some(Now().(revision := 20))
    {
      ghost var before := Now();
      var cleared, repaired := ClearForPair();
      if !cleared {
        SchemaAdoption.PairRefusedOutcome(before);
        return false;
      }
      if SchemaAdoption.PairLeft(before.catalog) {
        SchemaAdoption.PairLeftOutcome(before);
      } else {
        SchemaAdoption.PairDroppedOutcome(before);
      }
      ok := FillPair();
      if ok && repaired {
        var again := AdoptPreappliedRevision(PAIR);
        assert again == Done(true);
      }
    }

    // The reconciliation, then the legacy repair unless it took the bundle down.
    method ClearForPair() returns (cleared: bool, repaired: bool)
      requires revision == 19
      modifies this`catalog, this`bundleMarker
      ensures cleared <==>
        || SchemaAdoption.PairLeft(old(catalog)) || SchemaAdoption.PairDropped(old(Now()))
        || SchemaAdoption.BundleDropped(old(Now()))
      ensures cleared ==> catalog == if SchemaAdoption.PairLeft(old(catalog)) then old(catalog) else map[]
      ensures cleared ==> bundleMarker == (old(bundleMarker) || SchemaAdoption.BundleDropped(old(Now())))
    {
      ghost var before := Now();
      repaired := false;
      SchemaAdoption.SetsDiffer();
      SchemaAdoption.BundleHoldsPair(catalog);
      var reconciled := ReconcilePreappliedBundle();
      if reconciled.Refused? { return false, false; }
      if reconciled.answer { return true, false; }
      var repair := RepairKnownLegacyRevision();
      if repair.Refused? { return false, false; }
      if repair.answer { SchemaAdoption.PairDroppedOutcome(before); }
      return true, repair.answer;
    }

    method FillPair() returns (ok: bool)
      modifies this`catalog
      ensures ok <==> Blank(old(catalog), PAIR)
      ensures ok ==> catalog == old(catalog) + Fresh(PAIR)
    {
      var creates := [Plans, Items];
      assert Among(creates) == PAIR && creates[..1] == [Plans];
      assert ParentsPresent(catalog, PAIR);
      ok := AdoptOrCreate(creates);
    }

    method Upgrade0027() returns (ok: bool)
      requires revision == 26
      modifies this`catalog, this`bundleMarker, this`devMarker
      ensures ok <==> SchemaCatalog.Upgrade0027(old(Now())).Some?
      ensures ok ==> SchemaCatalog.Upgrade0027(old(Now())) == Some(Now().(revision := 27))
    {
      assert Among([DestinationRuns]) == {DestinationRuns};
      ok := AdoptOrCreate([DestinationRuns]);
      if !ok { return; }
      ok := VerifyReconciled(bundleMarker);
      if !ok { return; }
      bundleMarker := false;
      ok := VerifyReconciled(devMarker);
      if !ok { return; }
      devMarker := false;
    }

    method Upgrade0028() returns (ok: bool)
      requires revision == 27
      modifies this`catalog
      ensures ok <==> SchemaCatalog.Upgrade0028(old(Now())).Some?
      ensures ok ==> SchemaCatalog.Upgrade0028(old(Now())) == Some(Now().(revision := 28))
    {
      ghost var before := Now();
      SchemaAdoption.PublishOutcome(before);
      var drifted := ReconcilePostPublishDrift();
      if drifted.Refused? { return false; }
      if !drifted.answer { return true; }
      RebuildDrift();
      // verify_post_publish_repair
      ok := VerifyReconciled(true);
    }

    method RebuildDrift()
      requires Canonical(catalog, PRESERVED) && DRIFTING <= catalog.Keys && dependents !! DRIFTING
      modifies this`catalog
      ensures catalog == old(catalog) + Fresh(DRIFTING)
      ensures Canonical(catalog, BUNDLE) && (Empty(old(catalog), BUNDLE) ==> Empty(catalog, BUNDLE))
    {
      ghost var before := catalog;
      DropDrift();
      SchemaAdoption.RebuiltDrift(before);
      DriftCreatesParentsFirst();
      var created := CreateAll(DRIFT_CREATES);
      assert created;
      SchemaAdoption.RebuiltBundle(before);
    }

    method Upgrade0029() returns (ok: bool)
      requires revision == 28
      modifies this`catalog
      ensures ok <==> SchemaCatalog.Upgrade0029(old(Now())).Some?
      ensures ok ==> SchemaCatalog.Upgrade0029(old(Now())) == Some(Now().(revision := 29))
    {
      if !Canonical(catalog, BUNDLE - {ExecutionRuns}) || ExecutionRuns !in catalog { return false; }
      if catalog[ExecutionRuns].fingerprint == Frozen { return true; }
      if catalog[ExecutionRuns].fingerprint != HeadDrift || catalog[ExecutionRuns].rows != 0 { return false; }
      // Both CHECK constraints are dropped and created again, and the contract is verified afterwards.
      catalog := catalog[ExecutionRuns := catalog[ExecutionRuns].(fingerprint := Frozen)];
      ok := Canonical(catalog, {ExecutionRuns});
    }

    method UpgradeOnce() returns (ok: bool)
      requires 19 <= revision < 29
      modifies this
      ensures ok <==> Upgrade(old(Now())).Some?
      ensures ok ==> Upgrade(old(Now())) == Some(Now())
      ensures revision == old(revision) + 1
    {
      if revision == 19 { ok := Upgrade0020(); }
      else if revision == 23 { ok := Upgrade0024(); }
      else if revision == 26 { ok := Upgrade0027(); }
      else if revision == 27 { ok := Upgrade0028(); }
      else if revision == 28 { ok := Upgrade0029(); }
      else { ok := FillOnce(); }
      revision := revision + 1;
    }

    method FillOnce() returns (ok: bool)
      requires revision in {20, 21, 22, 24, 25}
      modifies this`catalog
      ensures ok <==> Upgrade(old(Now())).Some?
      ensures ok ==> Upgrade(old(Now())) == Some(Now().(revision := revision + 1))
    {
      SchemaAdoption.FillUpgrade(Now());
      var creates := if revision == 20 then [SeoBriefs] else if revision == 21 then [GenerationRuns]
        else if revision == 22 then [Snapshots, IngestionRuns]
        else if revision == 24 then [Optimizer] else [ExecutionRuns];
      CreatesAreOwned(revision, creates);
      ok := AdoptOrCreate(creates);
    }

    // One transaction on a new connection, whose markers are not set: the first refusal rolls all of it back. It
    // goes through exactly on the acceptable catalogs, and then leaves every table canonical with the rows it had.
    method UpgradeToHead() returns (ok: bool)
      requires 19 <= revision < 29 && !bundleMarker && !devMarker
      modifies this
      ensures ok <==> Acceptable(old(Now()))
      ensures ok ==> Now() == State(Canonicalized(old(catalog)), 29, false, false, dependents)
      ensures !ok ==> Now() == old(Now())
    {
      ghost var before := Now();
      SchemaAdoption.ChainIsExact(before);
      var catalog0, revision0 := catalog, revision;
      ok := true;
      while revision < 29 && ok
        invariant 19 <= revision <= 29
        invariant ok ==> ToHead(Now()) == ToHead(before)
        invariant !ok ==> ToHead(before).None?
        decreases 29 - revision, ok
      {
        ghost var here := Now();
        ok := UpgradeOnce();
        if ok { UpgradeAdvances(here); }
      }
      if ok {
        // The outer check of a reconciliation that stopped short of 0027.
        ok := VerifyReconciled(bundleMarker);
      }
      if !ok {
        catalog, revision, bundleMarker, devMarker := catalog0, revision0, false, false;
      }
    }
  }

  lemma CreatesAreOwned(revision: nat, creates: seq<Table>)
    requires revision in {20, 21, 22, 24, 25}
    requires creates == if revision == 20 then [SeoBriefs] else if revision == 21 then [GenerationRuns]
      else if revision == 22 then [Snapshots, IngestionRuns]
      else if revision == 24 then [Optimizer] else [ExecutionRuns]
    ensures Among(creates) == Owned(revision + 1) && Distinct(creates) && ParentsFirst(creates)
  {
    if revision == 22 { assert creates[..1] == [Snapshots]; }
  }
}
