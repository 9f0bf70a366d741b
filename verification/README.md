# Verified model of a Pinterest publishing backend

This project models the parts of the backend where a mistake is hardest to see and proves what they keep over every
input, run or interleaving.

| file | component |
|---|---|
| `Cutout.dfy` | removal of the studio background from a product image |
| `TextWrap.dfy` | the greedy word wrap and the descending font sizes |
| `BatchSelection.dfy` (with `Sorting.dfy`, `StringOrder.dfy`) | the weighted greedy batch picker |
| `Receipts.dfy` | the bounded receipt ring in an attempt's metadata |
| `Dispatch.dfy`, `DispatchSession.dfy` | dispatch and reconciliation of one publication: steps over committed rows, and the transactions as the services write them |
| `DispatchActs.dfy` | what each of those steps does, column by column |
| `DispatchSafety.dfy`, `DispatchAgreement.dfy`, `DispatchEvidence.dfy`, `DispatchReceipts.dfy` | what every interleaving of those steps keeps, what stands behind a call, a failure and an audit event, and where a total is not kept |
| `SchemaCatalog.dfy`, `SchemaAdoption.dfy`, `SchemaMigrations.dfy`, `SchemaStarts.dfy` | the adoption and repair chain of migrations 0020 to 0029 |
| `BatchGuard.dfy` | the five-pin batch trigger and constraints |
| `Readiness.dfy` | the readiness ledger before and after its split, in three-valued logic |
| `EventStream.dfy`, `SourceInventory.dfy` (with `SourceRules.dfy`) | the source watcher's parser and the inventory walk |
| `Revisions.dfy` | revision lineage and selection |
| `Budget.dfy` | the paid-request ledger |
| `Utm.dfy` | the tracking-URL builder against the payload comparison |
| `Basics.dfy`, `Wrappers.dfy` | notions shared by the others |

Where the source updates state, the model has classes and loops, and every method states its whole new state through a
specification function; the properties are lemmas about those functions. What an operation accepts and what it leaves is
also stated over the columns of its rows, without the functions it is computed by (the lemmas named `...Exactly`,
`...Iff` and `...Is`).

## What the proofs found

- `insufficient_confident_background` is never returned: every test after the substantial-foreground test follows
  from it (`Cutout.VerdictCollapses`).
- The last overflow test of the wrap can fire only when no line at all is allowed (`TextWrap.WrapLines`).
- A rationale without a template key is recorded as `None` but looked up as the empty string, so it stays novel until a
  row with the empty key is picked, and takes the place of rows that would cover a template. With K templates and M such
  rows, full coverage is guaranteed if and only if K or M is zero or the limit is at least K + M
  (`BatchSelection.CoversIffRoomForAll`, `BatchSelection.OneTemplateIsMissed`). For one set of rows and a limit up to K
  it holds if and only if the row that sorts first has a key (`BatchSelection.CoverageIffFirstHasKey`).
- The final compare-and-set of a reconciliation writes back metadata that it read without a lock, so the receipt total
  can decrease (`DispatchReceipts.TotalFalls`). After any run the stored total is the one that the last such write put
  back, or the one the run started from, plus the receipts begun after it (`Receipts.TotalIsBalance`). A final write
  lowers the total if and only if it applies and that balance, taken since its read, is above the total it read
  (`DispatchReceipts.CommitKeepsTotalIff`, `Receipts.TotalKeptIff`). Counting the receipts begun since is not enough,
  in either direction (`Receipts.LoweredWithoutBegin`, `Receipts.KeptDespiteBegin`). A forgotten sequence is handed
  out again (`Receipts.ForgottenSequenceIsReused`).
- A cancellation or rescheduling reads the status and then writes it by id alone. A cancellation keeps the rows in
  agreement exactly when it does not overwrite PUBLISHING or PUBLISHED; a rescheduling exactly when it leaves the status
  alone, because it read SCHEDULED, or when there is no attempt or a failed one (`DispatchAgreement.WriteKeepsIff`,
  `DispatchAgreement.AgreementIffOrderly`). Otherwise a claimed attempt can be left under CANCELLED or SCHEDULED
  (`DispatchAgreement.StaleCancelDisagrees`, `DispatchAgreement.StaleScheduleDisagrees`).
- A publication can get at most one Buffer attempt, because an activation seen before the attempts were read is spent
  by whichever claim comes first; the sole-attempt test before the mutation is a second, independent defence.
- A telemetry row is dated by the start of its transaction but admitted by the clock after the lock. The daily and
  the monthly limit, for either service, are safe exactly for requests that do not straddle the start of a period
  (`Budget.LimitIsKeptIffNotStraddled`).
- The two services take different locks, and background admission does not count copy calls. Together they can reach
  twice the limit, one after the other or side by side (`Budget.UnionReachesTwiceTheLimit`,
  `Budget.RaceReachesTwiceTheLimit`), and never more as long as no answer costs more than its estimate and no request
  straddles a period (`Budget.FreshRunKeepsLimits`). The union is always within the limit after an admitted copy exactly
  when nothing was spent between its sum and its row (`Budget.UnionKeptIffNothingBetween`), and after an admitted
  background or text request exactly when the copy calls of that period were free (`Budget.UnionKeptIffCopiesFree`). A
  call whose transaction is rolled back after the provider answered leaves no row at all
  (`Budget.LostCallsEscapeTheLimit`).
- The 0032 CHECK alone would admit rows that only the trigger stops: a PASS without an exit code
  (`Readiness.NullFamily`).
- Two reservations without a batch update between them freeze the batch for good (`BatchGuard.GapFreezesBatch`), and a
  run gets there (`BatchGuard.GapIsReached`).
- The batch trigger does not guard what is inserted: it would admit an entry that is already reserved
  (`BatchGuard.ReservedInsertIsAccepted`). Which inserted rows keep the invariant is stated exactly
  (`BatchGuard.StepKeepsValidIff`).
- The UTM builder drops repeated query keys, so the payload check refuses its result exactly when the destination
  repeats a non-utm key (`Utm.BuiltUrlAcceptedIffKeysDistinct`).

## Model

| member | source | states |
|---|---|---|
| Cutout.Flood | backend/app/services/creative_rendering.py:219-239 | the visited set is exactly the near-white pixels joined to the border by 4-neighbour near-white paths, for every image from 1 by 1 up, and the loop terminates |
| Cutout.Measure | backend/app/services/creative_rendering.py:255-262 | the count is the number of foreground pixels and the bounds are their tight box |
| Cutout.TouchesEdge | backend/app/services/creative_rendering.py:246-254 | true exactly when some foreground pixel lies on the border, although the second scan leaves out the first and the last row |
| Cutout.CoverageIsConfident | backend/app/services/creative_rendering.py:264-292 | a substantial foreground forces the removed share between 392/9801 and 90 percent, so both coverage limits and the retained limit pass |
| Cutout.VerdictCollapses | backend/app/services/creative_rendering.py:263-301 | the cutout is applied if and only if the foreground is substantial, where the margin, the bounds and the shares are written as products over the pixel counts, and each rejection reason is given exactly for its own cause |
| Cutout.InsideIsWithinMargin | backend/app/services/creative_rendering.py:269-276 | standing inside the margin, max(1, extent // 50), is the same as 1 <= x <= extent - 2 with 50(x + 1) > extent and 50(extent - x) > extent |
| Cutout.VerdictDescribes | backend/app/services/creative_rendering.py:264-301 | every reported ratio is the quotient it names, each span covers exactly the box, and the flags and the reason are those of the verdict |
| Cutout.Mask | backend/app/services/creative_rendering.py:219-318 | flood, measurement and verdict together: the exact set, the exact condition, and no third rejection reason |
| Cutout.WithCleared | backend/app/services/creative_rendering.py:321-327 | exactly the visited samples of the alpha channel become 0, every other RGBA sample is unchanged, and the source image is untouched |
| Cutout.Cutout | backend/app/services/creative_rendering.py:188-327 | the whole function with its metadata: applied only for trusted substantial sources; then alpha is 0 on the border-joined near-white pixels and all else is verbatim; otherwise a verbatim copy |
| Cutout.AppliedClearsBorder | backend/app/services/creative_rendering.py:269-276 | when applied, every border pixel belongs to the removed set |
| Cutout.TransparencyIsExact | backend/app/services/creative_rendering.py:324-326 | alpha is 0 exactly on the removed set if and only if the source had no fully transparent pixel |
| TextWrap.WrapLines | backend/app/services/creative_rendering.py:161-179 | succeeds if and only if some split into at most the allowed number of fitting lines exists; the lines re-join to the text and no split has fewer; the word error is raised exactly when a word after the first fits no line by itself and the words before it wrap with a line to spare; the overflow error means that no line was allowed |
| TextWrap.AheadAfterBreak | backend/app/services/creative_rendering.py:164-174 | greedy stays ahead: after each break no split with as many lines reaches further |
| TextWrap.LinesRejoin | backend/app/services/creative_rendering.py:162-179 | the lines of any full split join back to the normalised text |
| TextWrap.ResponsiveLines | backend/app/services/creative_rendering.py:351-360 | returns the largest size of the descending step-2 range at which the text wraps, with a best wrap, and fails only if none does |
| BatchSelection.SelectBatch | backend/app/services/creative_rendering.py:496-521 | the sort-and-pop loop returns a function of the set of rows, so the order of the input rows does not matter; each pick goes before every row that is left |
| BatchSelection.PicksSelect | backend/app/services/creative_rendering.py:500-521 | each pick is least among the rows left: a template not among the earlier picks before all else, then such a category, such an angle, such a product, and ties by template, category, angle, product and draft |
| BatchSelection.WeightsAreLexicographic | backend/app/services/creative_rendering.py:507-513 | the four weights order rows as those four questions do, one after the other |
| StringOrder.CompareIsLexicographic | scripts/release_source_guard.py:214 | text is ordered by its first difference, a proper prefix first |
| BatchSelection.PicksAreDistinct | backend/app/services/creative_rendering.py:500-516 | min(limit, n) rows are chosen, all from the input, none twice |
| BatchSelection.PicksGainAll | backend/app/services/creative_rendering.py:507-521 | the template weight beats all others together: where keyless rows and the empty key do not meet, the picks gain as many new template keys as the limit allows |
| BatchSelection.CoversTemplates | backend/app/services/creative_rendering.py:496-521 | when every rationale has its key, exactly min(limit, number of templates) templates are covered |
| BatchSelection.CoversIffRoomForAll | backend/app/services/creative_rendering.py:496-521 | over the whole range of limits: all sets of rows with K template keys and M missing keys are covered as far as the limit goes if and only if K = 0, M = 0 or the limit is at least K + M |
| BatchSelection.CoverageIffFirstHasKey | backend/app/services/creative_rendering.py:504-519 | for every set of rows, the empty key included, and every limit up to its number of templates: as many templates as the limit allows are covered if and only if the row that sorts first has a key |
| BatchSelection.CoverageFailsOnlyForKeyless | backend/app/services/creative_rendering.py:504-519 | so for such a limit, and where no key is the empty string, if and only if no rationale lacks its key |
| BatchSelection.OneTemplateIsMissed | backend/app/services/creative_rendering.py:496-521 | the failing input above the number of templates: one template, two rows without a key, limit two, and no template covered |
| BatchSelection.LargeLimitCoversTemplates | backend/app/services/creative_rendering.py:504-519 | a limit that leaves room for the keyless rows covers every template, the empty key included |
| Receipts.BeginIsWellFormedIff | backend/app/services/buffer_publication_reconciliation.py:412-453 | from any stored document, beginning yields a consecutive ring if and only if its last seven dictionaries already end at its total |
| Receipts.BeginExactly | backend/app/services/buffer_publication_reconciliation.py:412-453 | a begin keeps the last seven dictionaries of whatever is stored, appends a fresh receipt and makes its sequence the total |
| Receipts.UpdateExactly | backend/app/services/buffer_publication_reconciliation.py:381-410 | an update changes the first receipt with its sequence and nothing before or after it |
| Receipts.ChangeExactly | backend/app/services/buffer_publication_reconciliation.py:381-410 | each field takes its new value if one is given and otherwise keeps the old one |
| Receipts.UpdateTouchesOnlyItsReceipt | backend/app/services/buffer_publication_reconciliation.py:381-410 | an update succeeds if and only if its sequence is among the last ones begun, and changes that receipt and nothing else |
| Receipts.RunKeepsRing | backend/app/services/buffer_publication_reconciliation.py:381-485 | over any run of begins and phase updates the history is at most eight consecutive receipts ending at the total, which grows by one at each begin |
| Receipts.ReceiptTellsItsStory | backend/app/services/buffer_publication_reconciliation.py:381-485 | over any such run a receipt survives exactly seven later begins and holds exactly what its own updates wrote, in order |
| Receipts.TotalIsBalance | backend/app/services/buffer_publication_reconciliation.py:381-794 | over any run of begins, phase updates and final writes the total is the one the last final write put back, or the first one, plus the begins after it |
| Receipts.StaleWriteForgets | backend/app/services/buffer_publication_reconciliation.py:763-792 | a final write puts the total back to what was read before a run, and every later sequence is reported missing from then on |
| Receipts.TotalKeptIff | backend/app/services/buffer_publication_reconciliation.py:763-792 | the total does not decrease at a final write if and only if the balance since its read is at most the total read; without other final writes, if and only if nothing was begun |
| Receipts.LoweredWithoutBegin | backend/app/services/buffer_publication_reconciliation.py:735-792 | after another final write that put back a higher total, the total decreases although nothing was begun |
| Receipts.KeptDespiteBegin | backend/app/services/buffer_publication_reconciliation.py:735-792 | after another final write that put back a lower total, the total is kept although a receipt was begun |
| Receipts.ForgottenSequenceIsReused | backend/app/services/buffer_publication_reconciliation.py:412-453 | a forgotten sequence is given out again, and the earlier invocation then writes into the later one's receipt |
| Receipts.AttemptMetadata.BeginReconciliationReceipt | backend/app/services/buffer_publication_reconciliation.py:412-453 | one locked update appends the next receipt, keeps eight, and sets the total to its sequence |
| Receipts.AttemptMetadata.PersistReceiptPhase | backend/app/services/buffer_publication_reconciliation.py:455-485 | one locked update changes the matching receipt, or reports it missing and changes nothing |
| DispatchSafety.MutatedAtMostOnce | backend/app/services/buffer_single_pin_pilot.py:15-22 | over every run of any number of dispatchers, with crashes and lost commits anywhere and every other writer free to do anything but delete an attempt, the provider mutation is called at most once |
| DispatchSafety.StepKeepsOneCall | backend/app/services/buffer_manual_publication_dispatch.py:145-184 | the inductive reason: distinct dispatchers own distinct attempts, and only the owner of the first can reach the mutation, once |
| DispatchActs.ClaimsExactly | backend/app/services/manual_publication_dispatch.py:112-191 | a claim goes through exactly for a SCHEDULED publication with its own active activation, and changes these two statuses and adds one bare STARTED attempt |
| DispatchActs.ChecksExactly | backend/app/services/buffer_manual_publication_dispatch.py:145-177 | each of the two checks passes exactly when the attempt is the only one, a STARTED Buffer attempt under PUBLISHING, and everything else is valid; one that fails leads to the failure record |
| DispatchActs.CallsExactly | backend/app/services/buffer_manual_publication_dispatch.py:181-184 | the provider is called by a dispatcher past both checks, and by nothing else |
| DispatchActs.RecordsExactly | backend/app/services/buffer_manual_publication_dispatch.py:68-117 | a result is recorded as PUBLISH_FAILED with a FAILED attempt if and only if a check failed, the provider refused, or it posted an error; in every other case, recovery included, as PUBLISH_UNKNOWN with UNKNOWN |
| DispatchActs.RecoversExactly | backend/app/services/buffer_manual_publication_dispatch.py:109-117 | only a posted result whose record was not acknowledged is recovered, and once |
| DispatchActs.EntersExactly | backend/app/services/buffer_publication_reconciliation.py:330-378 | reconciliation enters exactly for PUBLISH_UNKNOWN with one Buffer attempt that is UNKNOWN, one operation over all attempts, and at most one known pin |
| DispatchActs.PhasesExactly | backend/app/services/buffer_publication_reconciliation.py:605-722 | the phases committed on the way, with every value that each writes into the receipt |
| DispatchActs.ChoosesExactly | backend/app/services/buffer_publication_reconciliation.py:637-698 | a choice is made if and only if the rows still hold the post that was entered and the snapshot is of its operation and matches in every immutable field: a sent post with a free pin that no known pin contradicts, one without a pin with the known stored link, an error without a known pin, or a pending post |
| DispatchActs.ConfirmsExactly | backend/app/services/buffer_publication_reconciliation.py:679-697 | the retained pin is checked again after its receipt: still the only known one, and free |
| DispatchActs.CommitsExactly | backend/app/services/buffer_publication_reconciliation.py:745-842 | the last transaction applies exactly on PUBLISH_UNKNOWN with the UNKNOWN attempt of that operation, and writes publication, attempt and event of the kind of the snapshot |
| DispatchActs.ClerksWriteExactly | backend/app/services/publication_scheduler.py:41-64 | a scheduling or cancelling write looks at nothing but the id |
| DispatchEvidence.CallsWereChecked | backend/app/services/buffer_manual_publication_dispatch.py:145-184 | over every run, whatever others write, a provider call comes after two checks of the same dispatcher at which its attempt was the only one, STARTED under PUBLISHING |
| DispatchEvidence.FailureIsDefinitive | backend/app/services/buffer_manual_publication_dispatch.py:178-193 | over every orderly run a dispatcher turns the publication to PUBLISH_FAILED only without any call, or with the refusal or the error that its own call was answered with |
| DispatchEvidence.EventsHaveEvidence | backend/app/services/buffer_publication_reconciliation.py:637-842 | over every run of the protocol each audit event was written by an invocation that itself read a matching snapshot of the attempt's operation, sent for PUBLISHED and an error for PUBLISH_FAILED; its pin is the snapshot's own, which no other publication had, or the stored link's |
| DispatchAgreement.CommittedStatesAgree | backend/app/services/buffer_publication_reconciliation.py:637-808 | in every committed state of an orderly run there is at most one Buffer attempt, one spent activation for it and one audit event; publication and attempt statuses fix each other; PUBLISHED carries one pin in all three rows |
| DispatchAgreement.StepKeepsInvIff | backend/app/services/buffer_manual_publication_dispatch.py:68-117 | every step of a dispatcher, observer, activation or revocation keeps that agreement, and a scheduling or cancelling write exactly when what it overwrites is harmless |
| DispatchAgreement.WriteKeepsIff | backend/app/services/publication_scheduler.py:41-64 | one write keyed by the id alone keeps the agreement exactly when a cancellation does not hit PUBLISHING or PUBLISHED, and a rescheduling read SCHEDULED or finds no attempt or a failed one |
| DispatchAgreement.AgreementIffOrderly | backend/app/services/publication_scheduler.py:41-64 | all states of a run of the protocol agree if and only if every such write in it meets that condition |
| DispatchAgreement.AttentiveRunsAreOrderly | backend/app/services/publication_scheduler.py:41-64 | runs in which every such write finds the status that it read meet it, so all their states agree |
| DispatchAgreement.StaleCancelDisagrees | backend/app/services/publication_scheduler.py:59-64 | the failing run: a cancellation reads SCHEDULED, a claim commits, and the write leaves the STARTED attempt under CANCELLED |
| DispatchAgreement.StaleScheduleDisagrees | backend/app/services/publication_scheduler.py:41-57 | its twin: a rescheduling read APPROVED and leaves the STARTED attempt under SCHEDULED |
| DispatchAgreement.ClaimIsExclusive | backend/app/services/manual_publication_dispatch.py:112-191 | a claim can succeed only before the first attempt, and spends the activation that every other cleared dispatcher holds |
| DispatchAgreement.DecideAgrees | backend/app/services/buffer_publication_reconciliation.py:637-698 | whatever snapshot the provider returns, the decision never contradicts a known pin, and a provider error is accepted only when no pin is known |
| DispatchAgreement.PinsAndStagesOnlyGrow | backend/app/services/buffer_publication_reconciliation.py:745-808 | no step erases or changes a known pin, the attempt's status only moves forward, and PUBLISH_UNKNOWN is entered only from a started attempt |
| DispatchAgreement.UnknownEnteredAtMostOnce | backend/app/services/publication_state.py:4-17 | over every orderly run PUBLISH_UNKNOWN is entered at most once |
| DispatchAgreement.EventCarriesItsReceipt | backend/app/services/buffer_publication_reconciliation.py:750-808 | an audit event appears only when reconciliation leaves PUBLISH_UNKNOWN, and the same transaction leaves that invocation's receipt marked as succeeded |
| DispatchAgreement.SettleRestoresItsReading | backend/app/services/buffer_publication_reconciliation.py:722-794 | the same transaction puts the receipt total back to what was read before it |
| DispatchReceipts.RunDocument | backend/app/services/buffer_publication_reconciliation.py:381-794 | once the outcome is unknown, the stored document after any run of the protocol is the one that the run's begins, phase updates and final writes lead to |
| DispatchReceipts.CommitKeepsTotalIff | backend/app/services/buffer_publication_reconciliation.py:722-794 | between an observer's last reading of the row and its final write anything may run: the write keeps the total if and only if it does not apply or the balance of that run is at most the total read |
| DispatchReceipts.TotalFalls | backend/app/services/buffer_publication_reconciliation.py:722-794 | from every untouched schedulable publication a run in which the total falls from two to one |
| DispatchSession.Database.AtomicAuthorizedClaim | backend/app/services/manual_publication_dispatch.py:112-191 | one transaction: publication to PUBLISHING, activation consumed, STARTED attempt inserted; or nothing |
| DispatchSession.Database.PersistResult | backend/app/services/buffer_manual_publication_dispatch.py:68-117 | the guarded result transaction and its single recovery, for every way either commit can end |
| DispatchSession.Database.SettleObservation | backend/app/services/buffer_publication_reconciliation.py:745-842 | both compare-and-sets and the event commit together or not at all |
| DispatchSession.OperationKeptUnlessBothLost | backend/app/services/buffer_manual_publication_dispatch.py:97-117 | a provider result keeps its operation id if and only if not both transactions are lost, and recovery never overwrites an applied outcome |
| DispatchSession.PersistedIsTwoSteps | backend/app/services/buffer_manual_publication_dispatch.py:97-117 | the recursion is the protocol's persist step followed, where it recovers, by one more |
| SchemaAdoption.ChainIsExact | backend/app/db/migration_adoption.py:415-503 | from revision 0019 to 0028 and any catalog the chain succeeds exactly on the acceptable starts; then all ten tables are at their frozen contract with the rows they had, both markers cleared |
| SchemaAdoption.UpgradeExact | backend/app/db/migration_adoption.py:600-837 | each migration accepts exactly the states from which the rest of the chain goes through, and keeps every row |
| SchemaAdoption.RowsAreConserved | backend/app/db/migration_adoption.py:327-333 | a table that holds a row is never dropped: it is canonical already and ends with the same rows |
| SchemaStarts.StartsOf0020 | backend/app/db/migration_adoption.py:40-105 | the acceptable starts at 0019, table by table: nothing, the empty pair, or the empty ten, each at its frozen or its pre-applied contract, the latter without dependents |
| SchemaStarts.StartsOf0024 | backend/app/db/migration_adoption.py:600-687 | those at 0023: four frozen tables with the analytics pair alone, with all six and the late four empty, or with the six in the development drift and everything empty |
| SchemaStarts.StartsOf0028 | backend/app/db/migration_adoption.py:725-789 | those at 0027: all ten frozen, or the six in the post-publish drift and everything empty |
| SchemaStarts.StartsOf0029 | backend/app/db/migration_adoption.py:792-838 | those at 0028: nine frozen, and the execution runs frozen or empty in the head drift |
| SchemaStarts.MarkersAreLeft | backend/app/db/migration_adoption.py:473-722 | a marker is left exactly by the takedown of the pre-applied ten and of the development drift, and both are cleared by 0027 |
| SchemaAdoption.PairExact | backend/alembic/versions/0020_pinterest_portfolio_planner.py:20-31 | 0020 goes through exactly for nothing, the empty known pair, or the empty known or canonical bundle |
| SchemaAdoption.LearningExact | backend/app/db/migration_adoption.py:600-687 | 0024 goes through exactly for the canonical analytics pair, the canonical six, or the empty development drift, which it rebuilds |
| SchemaAdoption.DestinationExact | backend/alembic/versions/0027_pinterest_autonomous_destination.py:22-28 | 0027 settles both markers: a reconciled bundle must end canonical and empty |
| SchemaAdoption.PublishExact | backend/app/db/migration_adoption.py:725-789 | 0028 accepts exactly the canonical six or the empty post-publish drift, and ends canonical |
| SchemaAdoption.HeadExact | backend/app/db/migration_adoption.py:792-838 | 0029 accepts exactly nine canonical tables with a canonical or empty drifted tenth, and ends with all ten canonical |
| SchemaMigrations.BundleDropsChildrenFirst | backend/app/db/migration_adoption.py:53-66 | the drop order lists every table once and every child before its parents |
| SchemaMigrations.DriftDropsChildrenFirst | backend/app/db/migration_adoption.py:123-130 | so does the drop order of the six drifting tables |
| SchemaMigrations.Connection.ReconcilePreappliedBundle | backend/app/db/migration_adoption.py:415-474 | which catalogs are left alone, which are taken down, and that teardown without CASCADE never stops half-way |
| SchemaMigrations.Connection.RepairKnownLegacyRevision | backend/app/db/migration_adoption.py:1841-1939 | drops the pair only in its known empty form without dependents |
| SchemaMigrations.Connection.ReconcileDevelopmentDrift | backend/app/db/migration_adoption.py:600-687 | the exact split into leave, take down and refuse at revision 0023 |
| SchemaMigrations.Connection.ReconcilePostPublishDrift | backend/app/db/migration_adoption.py:725-778 | the exact split into leave, rebuild and refuse at revision 0027 |
| SchemaMigrations.Connection.AdoptPreappliedRevision | backend/app/db/migration_adoption.py:1942-1990 | refuses exactly when a revision's tables are neither all missing nor all canonical and empty |
| SchemaMigrations.Connection.Upgrade0020 | backend/alembic/versions/0020_pinterest_portfolio_planner.py:20-31 | reconcile, repair, adopt or create in order amount to the migration's specification |
| SchemaMigrations.Connection.Upgrade0024 | backend/alembic/versions/0024_pinterest_learning_rankings.py:142-149 | takedown, rebuild of the 0023 tables and adoption amount to the specification |
| SchemaMigrations.Connection.Upgrade0027 | backend/alembic/versions/0027_pinterest_autonomous_destination.py:22-120 | both markers are verified and cleared on both paths |
| SchemaMigrations.Connection.Upgrade0028 | backend/alembic/versions/0028_post_publish_schema_canonicality.py:501-514 | the drop loop and the creates amount to the specification |
| SchemaMigrations.Connection.Upgrade0029 | backend/alembic/versions/0029_head_execution_check_canonicalization.py:20-46 | only the drifted empty table is changed, and it ends canonical |
| SchemaMigrations.Connection.UpgradeToHead | backend/alembic/env.py:41-53 | one transaction: success exactly on the acceptable catalogs with everything canonical and no row lost, otherwise everything as before |
| BatchGuard.Ledger.ChangeBatch | backend/app/db/bounded_batch_schema_0034.py:69-101 | a batch update is accepted exactly when checks and trigger allow it, and otherwise changes nothing |
| BatchGuard.Ledger.ChangeEntry | backend/app/db/bounded_batch_schema_0034.py:108-124 | an entry update is accepted exactly when constraints and trigger allow it |
| BatchGuard.BatchUpdateAcceptedIff | backend/app/db/bounded_batch_schema_0034.py:69-101 | in columns: which batch updates are accepted, with all fourteen state changes, COMPLETED from RUNNING and from PAUSED among them |
| BatchGuard.EntryUpdateAcceptedIff | backend/app/db/bounded_batch_schema_0034.py:108-124 | in columns: which entry updates are accepted; a bound publication freezes the binding, and a reservation, an attempt and a PUBLISHED or FAILED outcome stay |
| BatchGuard.InsertsAcceptedIff | backend/app/db/bounded_batch_schema_0034.py:19-107 | in columns: which inserts are accepted, and that nothing is deleted |
| BatchGuard.EntriesKeepWhatTheyHave | backend/app/db/bounded_batch_schema_0034.py:108-119 | over every run of accepted operations an entry keeps its identity, and once set its binding, its reservation, its attempt and its PUBLISHED or FAILED outcome |
| BatchGuard.CompletionIsReached | backend/app/db/bounded_batch_schema_0034.py:69-124 | a run from the empty tables, for every batch id, that publishes all five entries and ends COMPLETED |
| BatchGuard.StepKeepsValidIff | backend/app/db/bounded_batch_schema_0034.py:19-124 | an accepted operation keeps the invariant of both tables if and only if an inserted batch has no attempts and is not past sealing, and an inserted entry is not reserved |
| BatchGuard.StepIsLater | backend/app/db/bounded_batch_schema_0034.py:70-83 | a state change strictly climbs an acyclic rank, and no latch or count is ever undone |
| BatchGuard.FiveFrozenIdentities | backend/app/db/bounded_batch_schema_0034.py:88-94 | a READY, RUNNING or COMPLETED batch has exactly slots 0 to 4, all bound, and they stay as they are for the rest of the run |
| BatchGuard.CompletedForever | backend/app/db/bounded_batch_schema_0034.py:95-98 | a completed batch keeps five published outcomes and five attempts |
| BatchGuard.OpeningIsSealing | backend/app/db/bounded_batch_schema_0034.py:35-36 | admission opens only on the step from PREPARING to READY |
| BatchGuard.AdmissionOpensOnce | backend/app/db/bounded_batch_schema_0034.py:71-76 | admission opens at most once in a run |
| BatchGuard.ReservationsFallInTheWindow | backend/app/db/bounded_batch_schema_0034.py:120-123 | every reservation falls in that single window, in RUNNING, with a slot left |
| BatchGuard.LedgerIsLastSettlement | backend/app/db/bounded_batch_schema_0034.py:84-87 | throughout a run the ledger is the number of entries that were reserved at the last write of the batch, and never more than are reserved now |
| BatchGuard.GapFreezesBatch | backend/app/db/bounded_batch_schema_0034.py:72-87 | once reservations are two ahead of the ledger no batch update is ever accepted again |
| BatchGuard.GapIsReached | backend/app/db/bounded_batch_schema_0034.py:108-124 | a run from the empty tables, for every batch id, in which two reservations without a batch update between them reach that gap |
| BatchGuard.ReservedInsertIsAccepted | backend/app/db/bounded_batch_schema_0034.py:102-107 | the condition on inserts is not the trigger's: it accepts an entry that is already reserved, and the invariant breaks |
| Readiness.TriggerIsEvidence | backend/app/db/readiness_schema_0033.py:26-41 | a terminal row passes the 0032 trigger if and only if the 0033 evidence is true and it has a finish time |
| Readiness.CheckAloneAlsoPassesNull | backend/alembic/versions/0032_object_storage_readiness_management.py:97-128 | the 0032 CHECK alone is weaker by exactly the rows on which it is neither true nor false |
| Readiness.NullFamily | backend/alembic/versions/0032_object_storage_readiness_management.py:97-128 | those rows are exactly the PASS rows without an exit code but with a PASS receipt |
| Readiness.NewEvidenceIs | backend/app/db/readiness_schema_0033.py:26-41 | the evidence in columns: which exit code goes with which receipt status for PASS, FAILED and UNKNOWN |
| Readiness.OldCheckIs | backend/alembic/versions/0032_object_storage_readiness_management.py:97-128 | the old CHECK in columns, its NULL family included |
| Readiness.AdmitAcceptedIff | backend/alembic/versions/0032_object_storage_readiness_management.py:132-146 | in columns: an admission is accepted exactly when it starts unfinished under a new key with a grant of its own |
| Readiness.FinishAcceptedIff | backend/alembic/versions/0032_object_storage_readiness_management.py:147-215 | in columns: a row is changed exactly once, to a supported outcome with a finish time and the same key and binding, and never deleted |
| Readiness.InsertAcceptedIff | backend/app/db/readiness_schema_0033.py:44-89 | in columns: which inserts the two new tables accept |
| Readiness.OldRunIsLater | backend/alembic/versions/0032_object_storage_readiness_management.py:132-226 | over every accepted run no row is lost, no binding changes, a finished row stays, and no grant is spent twice |
| Readiness.NewRunOnlyInserts | backend/app/db/readiness_schema_0033.py:44-89 | over every run of inserts both tables only grow |
| Readiness.RowValidatesExactly | backend/app/db/readiness_schema_0033.py:92-124 | which rows the migration's validation passes |
| Readiness.RowValidatesIff | backend/app/db/readiness_schema_0033.py:92-124 | of a row that the old table accepted, the validation can still refuse only the two object names, the grant's length and the receipt |
| Readiness.SplitIsLossless | backend/alembic/versions/0033_append_only_readiness_coordinator.py:84-127 | splitting a valid ledger and joining on the scope key gives the ledger back |
| Readiness.JoinIsLossless | backend/app/db/readiness_schema_0033.py:44-89 | joining valid insert-only tables and splitting gives them back |
| Readiness.OldRunIsNewRun | backend/alembic/versions/0032_object_storage_readiness_management.py:132-226 | every run of the update-once ledger is a run of inserts that ends in its split |
| Readiness.NewRunIsOldRun | backend/app/db/readiness_schema_0033.py:44-89 | every run of inserts is a run of the update-once ledger that ends in its join |
| Readiness.Database.CopyOutcomes | backend/alembic/versions/0033_append_only_readiness_coordinator.py:94-106 | every terminal row is copied and the new constraints refuse none of them |
| Readiness.Database.Upgrade | backend/alembic/versions/0033_append_only_readiness_coordinator.py:76-130 | goes through exactly when the environment allows it and every row validates; then the tables are the split, otherwise nothing changes |
| EventStream.ParseOfSerialized | scripts/release_source_watch.py:67-79 | any serialised list of harmless events decodes back to itself |
| EventStream.AcceptedIsSerialized | scripts/release_source_watch.py:67-79 | what is accepted is such a serialisation, down to the last byte |
| EventStream.AcceptedIffAllExcluded | scripts/release_source_watch.py:67-79 | a buffer is accepted if and only if it is a concatenation of complete records with known watch, no overflow or lost bit, and an excluded path |
| EventStream.FirstErrorIsExact | scripts/release_source_watch.py:67-79 | a buffer is refused with an error if and only if the cause of that error, the first in the order of the checks, follows directly on complete excluded records |
| EventStream.RecordLayout | scripts/release_source_watch.py:70-74 | descriptor, mask, cookie and length stand little-endian at 0, 4, 8 and 12, the name from 16 |
| EventStream.NameEndsAtNul | scripts/release_source_watch.py:73 | a name is what stands before the first NUL |
| SourceRules.ExcludedPlaces | scripts/release_source_watch.py:20-23 | excluded are exactly five places with all below them, and three files |
| EventStream.SerializationIsInjective | scripts/release_source_watch.py:70-74 | no two harmless lists have the same bytes, so the decoded events are the only ones |
| EventStream.SourceWatch.CheckBuffer | scripts/release_source_watch.py:67-79 | the offset loop computes the parser's verdict, with the error of the first bad record, and never reads past the end |
| EventStream.SourceWatch.Check | scripts/release_source_watch.py:59-79 | passes exactly when active and every buffer read is non-empty and accepted |
| SourceInventory.WalkListsWanted | scripts/release_source_guard.py:191-214 | when the walk does not raise it lists exactly the physical leaves whose path the watcher does not exclude, each once |
| SourceInventory.WalkRaisesExactly | scripts/release_source_guard.py:199-208 | the walk raises if and only if something other than a directory stands at one of four places or something other than a regular file at one of three, and then with the error of such an entry |
| SourceInventory.Inventory.Visit | scripts/release_source_guard.py:195-212 | the recursive walk appends exactly that list, or stops with the first error |
| SourceInventory.Files | scripts/release_source_guard.py:191-214 | the sorted list of exactly those leaves, for every directory tree |
| SourceInventory.TrackedPathsAreVisible | scripts/release_source_guard.py:124-138 | a path that the tree listing admits is never one that the walk or the watcher excludes |
| SourceInventory.AdmittedIffVisibleAndPlain | scripts/release_source_guard.py:124-138 | the tree listing admits a blob exactly when it is not excluded and no part of its path is empty, ".", ".." or ".git" |
| Revisions.VersionsAreExactly | backend/app/services/ai_regeneration.py:959-962 | the versions of a draft with n revisions are exactly 2 to n+1, in insertion order |
| Revisions.RunKeepsValid | backend/app/services/ai_regeneration.py:964-1098 | every serial run keeps numbering, lineage within the draft, and selections that are REVIEW revisions of their draft |
| Revisions.ParentChainsClimbDown | backend/app/services/ai_regeneration.py:952-957 | lineage is acyclic: a chain of parents strictly climbs down the versions of one draft |
| Revisions.ParentWasSelected | backend/app/services/ai_regeneration.py:952-1010 | over every run each added revision was appended by one of its calls, under the revision that was selected at that moment, or none, with the next version |
| Revisions.RunKeepsRevisions | backend/app/services/ai_regeneration.py:964-1300 | over every run no revision is lost or changed but for its status, and a rejected one stays rejected |
| Revisions.AppendExactly | backend/app/services/ai_regeneration.py:964-1010 | in columns: an append goes through exactly for a draft ready for review, and what it leaves |
| Revisions.SelectExactly | backend/app/services/ai_regeneration.py:1232-1265 | in columns: a selection goes through exactly for a REVIEW revision of such a draft; selecting the original drops it |
| Revisions.RejectExactly | backend/app/services/ai_regeneration.py:1267-1300 | in columns: a rejection goes through exactly for a background in REVIEW, marks it alone, and drops the selection only where it pointed there |
| Revisions.RevisionStore.Regenerate | backend/app/services/ai_regeneration.py:964-1010 | one service call appends the next version under the selected parent, or nothing |
| Revisions.RevisionStore.SelectVersion | backend/app/services/ai_regeneration.py:1232-1265 | selects a REVIEW revision of the draft, or the original |
| Revisions.RevisionStore.RejectImageBackgroundRevision | backend/app/services/ai_regeneration.py:1267-1300 | rejects a reviewable background and drops the selection that pointed to it |
| Budget.AdmittedKeepsOwnLimit | backend/app/services/ai_creative_generation.py:276-307 | whatever is on file and whatever runs beside it, an admitted request leaves its day and month within the limits for its own service's calls when it does not straddle them, up to what it costs above its estimate |
| Budget.AloneIsStep | backend/app/services/ai_creative_generation.py:293-470 | a request that nothing interrupts takes its lock, reads both sums and records in one step |
| Budget.StepExactly | backend/app/services/ai_creative_generation.py:276-470 | in columns: a request is a call exactly when its price is known and within the ceiling and there is room in both periods, and which row it files, if any |
| Budget.HolderKeepsLock | backend/app/services/ai_creative_generation.py:271-274 | a lock stays with its request until that one finishes or is given up |
| Budget.RowsAppearAtTheEnd | backend/app/services/ai_creative_generation.py:385-435 | a row appears when its request finishes, or at once when the creative service refuses before its lock |
| Budget.SumsAreTested | backend/app/services/ai_creative_generation.py:301-307 | both sums are read one after the other from what is on file then, and the test is on those two |
| Budget.CallsKeepCeiling | backend/app/services/ai_creative_generation.py:294-300 | over every run no call is on file whose estimate was above the per-request ceiling or a whole limit, and no copy that was called on a zero budget |
| Budget.RunStaysWithin | backend/app/services/ai_creative_generation.py:385-435 | overshoot never adds up: over any interleaving of both services under their two locks, with crashes, the recorded calls of a service whose own requests do not straddle the period pass a day's or month's limit by at most one call's overshoot, whatever the other service does |
| Budget.FreshRunKeepsLimits | backend/app/services/ai_regeneration.py:792-817 | when no answer costs more than its estimate and no request straddles the period both services keep their own limits, and together twice the limits |
| Budget.CopySeesEarlierCalls | backend/app/services/ai_regeneration.py:677-689 | after an admitted copy both services' calls together are within the limit, up to that call's overshoot and the calls recorded between its sum and its row |
| Budget.UnionKeptIffNothingBetween | backend/app/services/ai_regeneration.py:792-817 | they are always within the limit if and only if the calls recorded in between cost nothing in that period |
| Budget.RaceReachesTwiceTheLimit | backend/app/services/ai_regeneration.py:792-817 | the failing run for every positive limit: a background is admitted, a copy sums and is admitted, and both are recorded |
| Budget.CreativeMissesCopyCalls | backend/app/services/ai_creative_generation.py:281-307 | in any interleaving, after an admitted creative request both services' calls together are within the limit, up to its overshoot and the copy calls of that period on file |
| Budget.UnionKeptIffCopiesFree | backend/app/services/ai_creative_generation.py:281-307 | they are always within the limit if and only if the copy calls of that period, recorded before its sums or after them, cost nothing |
| Budget.UnionReachesTwiceTheLimit | backend/app/services/ai_creative_generation.py:281-291 | the failing run: for every positive limit a copy and then a background, one after the other, are both admitted and reach twice it |
| Budget.LimitIsKeptIffNotStraddled | backend/app/services/ai_creative_generation.py:294-307 | for the day and the month, and for each service, an admitted request always keeps the period its row is dated in if and only if it began in the period that was tested |
| Budget.LedgerMissesExactlyLostCalls | backend/app/services/ai_creative_generation.py:385-470 | over any run the ledger misses exactly the calls rolled back after the provider answered |
| Budget.LostCallsEscapeTheLimit | backend/app/services/ai_creative_generation.py:385-470 | any number of such calls is admitted and leaves no row |
| Budget.TelemetryLedger.Generate | backend/app/services/ai_creative_generation.py:293-435 | the summed preflight and the append, uninterrupted, amount to one step of the ledger |
| Budget.TelemetryLedger.CopyFromProvider | backend/app/services/ai_regeneration.py:792-928 | the copy service's test and append, uninterrupted, amount to one step of the ledger |
| Utm.BuildPinterestUtmUrl | backend/app/services/utm.py:4-19 | the dictionary loop and updates build the tracked URL |
| Utm.BuiltUrlIs | backend/app/services/utm.py:11-19 | scheme, host, path and fragment stay; the query holds each key once, with the value given last and in the order of first appearance, of the destination's pairs followed by the four tags |
| Utm.DictLosesRepeatedKeys | backend/app/services/utm.py:12 | a dictionary keeps every pair, in order, if and only if the keys are pairwise distinct |
| Utm.BuiltUrlAcceptedIffKeysDistinct | backend/app/services/buffer_pinterest_adapter.py:12-21 | the built URL passes the payload comparison if and only if the destination's non-utm keys are pairwise distinct |
| Utm.PayloadAcceptsIff | backend/app/services/buffer_pinterest_adapter.py:12-21 | the comparison passes exactly when both URLs have the same parts and every pair with another key equally often |
| Utm.BuildingTwiceIsBuildingOnce | backend/app/services/utm.py:11-19 | building twice with the same arguments equals building once |

## Premises

- Over runs, inserted batches have no attempts and are not past sealing, and entries are inserted unreserved
  (`BatchGuard.Sound`): exactly what the invariant needs (`BatchGuard.StepKeepsValidIff`).
- A phrase is never narrower than a part of it (`TextWrap.Monotone`), and draft ids are unique.
- `BatchSelection.PicksGainAll` and `BatchSelection.CoverageFailsOnlyForKeyless` speak of rows whose template keys are
  not the empty string where a row without a key occurs; the other coverage results need no such premise.
- Catalog fingerprints are symbols that are equal only when the contracts are. Where the frozen maps share a hash the
  symbols are shared too, and every contract of a table has the foreign keys that its migration declares.
- A migration connection is new, so its markers are unset.
- Costs and limits are not negative, and the period limits do not change within a run.
- Statements read what is committed when they run, as under READ COMMITTED, and the two budget locks are the advisory
  locks that the services take on PostgreSQL.
- `DispatchSafety.MutatedAtMostOnce` needs no premise on other writers: they may change anything but the existence of
  attempts. The agreement results speak of runs in which only the protocol and the schedulers write.

## Left out

- Cutout.Verdict: ratios are exact rationals; the source's floats and its rounding of reported metadata to six places are not modelled.
- Cutout.ClearAlpha: the order in which the set of removed pixels is visited is arbitrary.
- TextWrap.WrapLines: the rendered width is an abstract monotone function; fonts and drawing are not modelled, and whitespace is already normalised into words.
- BatchSelection.SelectBatch: the database query, rendering of the chosen rows and the reported distributions.
- Receipts.WithReceipt: a dictionary of the current version whose sequence is not an integer counts as any other dictionary.
- Dispatch.SoleAttempt: configuration flags, fingerprints, authorization rows and destination reads are one free yes-or-no at each check, since they only refuse more.
- Dispatch.EntryPasses: the two reads of the guard are one step; the immutable content, fingerprint and destination guards are free refusals.
- Dispatch.Decide: pins of other publications are a free yes-or-no.
- Dispatch.Activate: the eligibility checks before the insert are dropped, since they only refuse more.
- Error codes, timestamps and the log lines of dispatch, and the error-code update after a failed immediate reconciliation.
- The direct Pinterest provider and the routine dispatcher appear only as arbitrary other writers.
- SchemaCatalog.Parents: foreign keys to tables outside the bundle only refuse more and are left out, as are table locks and the repeated checks under them.
- SchemaMigrations.Connection.Upgrade0029: the two CHECK constraints are one rendering of the table's contract.
- Databases other than PostgreSQL, downgrades, and the migrations after 0029 other than 0032 to 0034.
- BatchGuard.BatchTrigger: owner, lease, reason and creation time are not guarded and left out, as are foreign keys to other tables.
- Readiness.Database.Upgrade: the receipt validator is a parameter, and the catalog verifications around the split are left out.
- EventStream.NameOf: file-system decoding is one character a byte, which is a bijection as in the source.
- SourceInventory.Walk: only names, kinds and nesting of directory entries; digests, modes and links are left out.
- Revisions.Step: texts, templates and rendering of a revision are left out; calls are serial.
- Budget.Settled: amounts are exact; rounding to the column's eight decimals is left out.
- Budget.Next: rows for a disabled or missing provider carry no cost and are left out; a request that crashes while it holds its lock records nothing.
- Utm.BuildPinterestUtmUrl: percent-encoding is left to section 5 of the URL Standard and the model works on ordered pairs; URL validation before the comparison is equality of scheme, host and path.
- Authentication, tokens, signatures, provider traffic, the web interface and process supervision.
