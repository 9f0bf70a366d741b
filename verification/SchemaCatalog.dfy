// The ten bundle tables of backend/app/db/migration_adoption.py and what migrations 0020 to 0029 promise of them.
module SchemaCatalog {
  import opened Wrappers

  datatype Table =
    | Plans | Items | SeoBriefs | GenerationRuns | Snapshots | IngestionRuns
    | Learning | Optimizer | ExecutionRuns | DestinationRuns

  // Symbolic catalog contracts, equal only when the hashed contracts are. The learning and optimizer tables have
  // the same contract in all three known drifts, and the portfolio pair the same in the first two.
  datatype Fingerprint = Frozen | Preapplied | PostPublish | DevExecution | HeadDrift | Other(tag: int)

  datatype Entry = Entry(fingerprint: Fingerprint, rows: nat)

  type Catalog = map<Table, Entry>

  // `dependents`: bundle tables that something outside the bundle refers to. The two markers live on the connection.
  datatype State = State(catalog: Catalog, revision: nat, bundleMarker: bool, devMarker: bool, dependents: set<Table>)

  const BUNDLE: set<Table> := {Plans, Items, SeoBriefs, GenerationRuns, Snapshots, IngestionRuns,
                               Learning, Optimizer, ExecutionRuns, DestinationRuns}
  const PAIR: set<Table> := {Plans, Items}
  const PRESERVED: set<Table> := {Plans, Items, SeoBriefs, GenerationRuns}
  const ANALYTICS: set<Table> := {Snapshots, IngestionRuns}
  const DRIFTING: set<Table> := {Snapshots, IngestionRuns, Learning, Optimizer, ExecutionRuns, DestinationRuns}

  function Owned(revision: nat): set<Table> {
    match revision
    case 20 => PAIR
    case 21 => {SeoBriefs}
    case 22 => {GenerationRuns}
    case 23 => ANALYTICS
    case 24 => {Learning}
    case 25 => {Optimizer}
    case 26 => {ExecutionRuns}
    case 27 => {DestinationRuns}
    case _ => {}
  }

  function RevisionOf(t: Table): (r: nat)
    ensures 20 <= r <= 27 && t in Owned(r)
    ensures forall q :: q != r ==> t !in Owned(q)
  {
    match t
    case Plans => 20
    case Items => 20
    case SeoBriefs => 21
    case GenerationRuns => 22
    case Snapshots => 23
    case IngestionRuns => 23
    case Learning => 24
    case Optimizer => 25
    case ExecutionRuns => 26
    case DestinationRuns => 27
  }

  // The bundle tables that a table's foreign keys refer to.
  function Parents(t: Table): set<Table> {
    match t
    case Items => {Plans}
    case SeoBriefs => {Items}
    case GenerationRuns => {Items, SeoBriefs}
    case IngestionRuns => {Snapshots}
    case Optimizer => {Plans}
    case ExecutionRuns => {Items, Plans, Optimizer, SeoBriefs, GenerationRuns}
    case DestinationRuns => {Items, Plans, ExecutionRuns}
    case _ => {}
  }

  function PreappliedContract(t: Table): Fingerprint { Preapplied }

  function PostPublishContract(t: Table): Fingerprint {
    if t == Learning || t == Optimizer then Preapplied else PostPublish
  }

  function DevContract(t: Table): Fingerprint {
    if t == ExecutionRuns then DevExecution else PostPublishContract(t)
  }

  function FrozenContract(t: Table): Fingerprint { Frozen }

  predicate Matches(c: Catalog, ts: set<Table>, contract: Table -> Fingerprint) {
    forall t :: t in ts ==> t in c && c[t].fingerprint == contract(t)
  }

  predicate Canonical(c: Catalog, ts: set<Table>) { Matches(c, ts, FrozenContract) }

  predicate Empty(c: Catalog, ts: set<Table>) {
    forall t :: t in ts ==> t in c && c[t].rows == 0
  }

  function Fresh(ts: set<Table>): Catalog { map t | t in ts :: Entry(Frozen, 0) }

  // ---------- What each migration does: None when it refuses ----------

  predicate ParentsPresent(c: Catalog, ts: set<Table>) {
    forall t, p :: t in ts && p in Parents(t) ==> p in ts || p in c
  }

  // A revision's tables are all missing, or all there, canonical and empty.
  predicate Blank(c: Catalog, ts: set<Table>) {
    c.Keys !! ts || (Canonical(c, ts) && Empty(c, ts))
  }

  function Fill(s: State, ts: set<Table>): Option<State> {
    if Blank(s.catalog, ts) && (s.catalog.Keys !! ts ==> ParentsPresent(s.catalog, ts))
    then Some(s.(catalog := s.catalog + Fresh(ts), revision := s.revision + 1)) else None
  }

  function Upgrade0020(s: State): Option<State> {
    var c, next := s.catalog, s.(revision := 20);
    if c.Keys == {} then Some(next.(catalog := Fresh(PAIR)))
    else if c.Keys == PAIR then
      if Canonical(c, PAIR) then if Empty(c, PAIR) then Some(next) else None
      else if Matches(c, PAIR, PreappliedContract) && Empty(c, PAIR) && s.dependents !! PAIR
      then Some(next.(catalog := Fresh(PAIR))) else None
    else if c.Keys == BUNDLE then
      if Canonical(c, BUNDLE) then if Empty(c, PAIR) then Some(next) else None
      else if Matches(c, BUNDLE, PreappliedContract) && Empty(c, BUNDLE) && s.dependents == {}
      then Some(next.(catalog := Fresh(PAIR), bundleMarker := true)) else None
    else None
  }

  predicate DevDrift(s: State) {
    && Matches(s.catalog, DRIFTING, DevContract)
    && Empty(s.catalog, BUNDLE) && s.dependents !! DRIFTING
  }

  function Upgrade0024(s: State): Option<State> {
    var c := s.catalog;
    if !Canonical(c, PRESERVED) then None
    else if c.Keys * DRIFTING == ANALYTICS then
      if Canonical(c, ANALYTICS) then Fill(s, {Learning}) else None
    else if Canonical(c, DRIFTING) then Fill(s, {Learning})
    else if DevDrift(s) then
      Some(s.(catalog := (c - DRIFTING) + Fresh(ANALYTICS) + Fresh({Learning}), revision := 24, devMarker := true))
    else None
  }

  function Upgrade0027(s: State): Option<State> {
    var filled := Fill(s, {DestinationRuns});
    if filled.None? then None
    else
      var c := filled.value.catalog;
      if (s.bundleMarker || s.devMarker) && !(Canonical(c, BUNDLE) && Empty(c, BUNDLE)) then None
      else Some(filled.value.(bundleMarker := false, devMarker := false))
  }

  predicate PublishDrift(s: State) {
    && Matches(s.catalog, DRIFTING, PostPublishContract)
    && Empty(s.catalog, BUNDLE) && s.dependents !! DRIFTING
  }

  function Upgrade0028(s: State): Option<State> {
    if !Canonical(s.catalog, PRESERVED) then None
    else if Canonical(s.catalog, DRIFTING) then Some(s.(revision := 28))
    else if PublishDrift(s) then Some(s.(catalog := s.catalog + Fresh(DRIFTING), revision := 28))
    else None
  }

  function Upgrade0029(s: State): Option<State> {
    var c := s.catalog;
    if !Canonical(c, BUNDLE - {ExecutionRuns}) || ExecutionRuns !in c then None
    else if c[ExecutionRuns].fingerprint == Frozen then Some(s.(revision := 29))
    else if c[ExecutionRuns] == Entry(HeadDrift, 0)
    then Some(s.(catalog := c[ExecutionRuns := Entry(Frozen, 0)], revision := 29))
    else None
  }

  function Upgrade(s: State): Option<State>
    requires 19 <= s.revision < 29
  {
    match s.revision
    case 19 => Upgrade0020(s)
    case 20 => Fill(s, Owned(21))
    case 21 => Fill(s, Owned(22))
    case 22 => Fill(s, Owned(23))
    case 23 => Upgrade0024(s)
    case 24 => Fill(s, Owned(25))
    case 25 => Fill(s, Owned(26))
    case 26 => Upgrade0027(s)
    case 27 => Upgrade0028(s)
    case _ => Upgrade0029(s)
  }

  // All migrations up to 0029 in one transaction.
  function ToHead(s: State): Option<State>
    requires 19 <= s.revision <= 29
    decreases 29 - s.revision
  {
    if s.revision == 29 then Some(s)
    else
      var next := Upgrade(s);
      if next.None? then None else (UpgradeAdvances(s); ToHead(next.value))
  }

  lemma UpgradeAdvances(s: State)
    requires 19 <= s.revision < 29 && Upgrade(s).Some?
    ensures Upgrade(s).value.revision == s.revision + 1 && Upgrade(s).value.dependents == s.dependents
  {
  }

  // ---------- Which catalogs reach 0029, and what is left then ----------

  ghost predicate BlankFrom(c: Catalog, first: nat, last: nat) {
    forall r: nat :: first <= r <= last ==> Blank(c, Owned(r))
  }

  ghost predicate CanonicalUpTo(c: Catalog, last: nat) {
    forall t :: RevisionOf(t) <= last ==> t in c && c[t].fingerprint == Frozen
  }

  ghost predicate Acceptable(s: State) {
    var c := s.catalog;
    match s.revision
    case 19 =>
      || c.Keys == {}
      || (c.Keys == PAIR && Empty(c, PAIR)
          && (Canonical(c, PAIR) || (Matches(c, PAIR, PreappliedContract) && s.dependents !! PAIR)))
      || (c.Keys == BUNDLE && Empty(c, BUNDLE)
          && (Canonical(c, BUNDLE) || (Matches(c, BUNDLE, PreappliedContract) && s.dependents == {})))
    case 23 =>
      && Canonical(c, PRESERVED)
      && ((c.Keys * DRIFTING == ANALYTICS && Canonical(c, ANALYTICS))
          || (Canonical(c, DRIFTING) && Empty(c, DRIFTING - ANALYTICS))
          || DevDrift(s))
    case 27 => Canonical(c, PRESERVED) && (Canonical(c, DRIFTING) || PublishDrift(s))
    case 28 => Canonical(c, BUNDLE - {ExecutionRuns}) && ExecutionRuns in c
      && (c[ExecutionRuns].fingerprint == Frozen || c[ExecutionRuns] == Entry(HeadDrift, 0))
    case 29 => true
    case r =>
      if r < 23 then CanonicalUpTo(c, r) && BlankFrom(c, r + 1, 23) && Blank(c, DRIFTING - ANALYTICS)
      else CanonicalUpTo(c, r) && BlankFrom(c, r + 1, 27)
  }

  // A rebuild in progress must end with every table empty.
  predicate MarkersAllow(s: State) {
    (s.bundleMarker || s.devMarker) && s.revision < 27 ==> forall t :: t in s.catalog ==> s.catalog[t].rows == 0
  }

  // Every table at its frozen contract, with the rows it had.
  function Canonicalized(c: Catalog): Catalog {
    map t | t in BUNDLE :: Entry(Frozen, if t in c then c[t].rows else 0)
  }
}
