# Race catalogue: verified model

This project models the state machines of a Brazilian race calendar and proves what they promise: how
results are collected through restarts, how editions of the same race are recognised and unified, how the
catalogue is crawled, scanned and scheduled. It checks with `dafny verify dfyconfig.toml` (Dafny 4.11).

Each database transaction is one atomic step. A crash is a step that never commits, and a run is any
sequence of steps by workers, coordinators, administrators and the task queue. Where the code updates rows
in place there is a class whose methods run its statements, each proved equal to the step of the state
machine; the theorems are then about every run of those steps.

* **Result checkpoints** (`ResultPages`, `ResultCheckpoint`, `…Proofs`, `…Theorems`, `…Conditions`, `…Store`). Pages of race
  results are staged per group, sealed and swapped into the published set, through crashes, replays, lease
  losses, retries and edition merges. What is sealed and published is one uninterrupted read.
* **Editions** (`EditionEvidence`, `EditionIdentities`, `EditionCatalog`, `EditionMerging`, `EditionGroups`,
  `EditionHistory`, `EditionHistoryProofs`, `EditionConditions`, `EditionStore`, `EditionPreviews`). Merging moves references, rows, audits and aliases. The alias table
  is union-find in one hop, merges keep compatibility, and reviewed values survive everything automatic.
* **Reconciliation scan** (`GroupSearch`, `CatalogScan`, `…Proofs`, `…Theorems`, `…Conditions`, `…Store`). A cursor over a
  snapshot that shrinks while it is scanned, a capped graph search per event, and tasks taking turns.
* **National crawls** (`CrawlLedger`, `CorridasCrawl`, `TicketSportsCrawl` and their `…Proofs` and `…Worker`,
  `CorridasReceipts`, `CrawlConditions`). A link search per state and a growing prefix per partition, resumable after any
  transaction.
* **Continuation** (`CatalogContinuation`, `…Proofs`, `…Conditions`, `…Store`). Everyone who may enqueue, hold, halt or cancel
  the one discovery task of a synchronisation.
* **Weekly schedule** (`WeeklyClock`, `WeeklySchedule`, `WeeklyConditions`). A recurrence clock through zone transitions,
  coalescing of missed weeks, and historical sweeps.

The modules named `…Conditions` say, of the stored rows alone, exactly when each transaction commits and what it
leaves.

`Wrappers` holds the option and result types, `Sequences` repetition-free sequences, `Reachability` paths
in a graph.

## What the model assumes

* A claim gives a fresh token; heartbeat and finish succeed only with the live token; enqueueing is idempotent
  per owner and key (`packages/database/src/tasks.ts` and the queue's SQL functions).
* Hashes are injective: derived ids, checkpoint hashes, revisions and page digests stand for what they hash.
* Staged rows are unique per checkpoint on record key and dedupe key; a new group starts at offset 0.
* For the results about a whole read, the paged source answers the same at the same offset throughout. Within
  one crawl the link graph and the listings do not change, a page lists distinct ids and reports the address
  it was asked for.
* The time zone is any function from whole minutes to whole-minute offsets of at most 14 hours with at most
  one transition in any 80 hours, gaps of at most 180 minutes inside one local day, and a local date that
  never runs backwards.
* Accents, case and spacing of places are folded by an arbitrary function.
* Merged ids stay reserved, and events leave the catalogue only by being merged.
* Source evidence between two editions, other editions bearing the same links, running tasks, capacity and
  local resources are arbitrary answers given to each transaction.

## Where the code does not keep a promise as stated

Each of these has a concrete run, and the exact condition for every run.

* A completed scan may leave a recognised event of the snapshot without a decision
  (`CatalogScanTheorems.ArrivalsStayUndecided`). An event has a settled decision if and only if it was live and
  recognised when the cursor passed it (`DecidedIffRecognisedInTime`), so one that is recognised throughout is
  never missed (`RecognisedFromStartIsDecided`), and one the cursor has passed undecided never gets a decision
  (`PassedStaysUndecided`).
* A CorridasBR receipt's raw count may exceed the number of listings (`CorridasReceipts.RawCountCanBeWrong`). It is
  exact if and only if no worker died between storing a page that offers nothing new but lists something and
  advancing, so that the page was discovered again (`RawCountIsExactIff`). Nothing else changes then
  (`RediscoveryOnlyRecounts`).
* A paused synchronisation may have a running task (`CatalogContinuationProofs.PausedRunsGetWorkers`, two runs). The
  step that pauses it leaves work about if and only if it is the coordinator honouring a pause request and a task
  came back to the queue unheld meanwhile (`HaltLeavesWorkIff`). Afterwards work comes about if and only if a task
  held for another reason before the pause is freed, by an administrator or by the return of capacity or of the
  source (`HaltedRowGetsWorkIff`). Such a worker finds the row not ready and writes nothing
  (`HaltedCheckpointIsFrozen`).
* A discovery task may be enqueued under a pending pause request (`RetriedUnderPause`): if and only if it is the
  retry of a failed or partial task while the row is still ready and idle (`EnqueuedUnderPauseIff`).
* Resuming a paused campaign may leave a synchronisation ready with its only task held (`ResumedTaskIsHeld`). This
  happens if and only if the resume had to enqueue the task, which the insertion guard then holds for the pause
  that is only lifted afterwards (`ResumedTaskIsHeldIff`).

## Model

| member | source | states |
|---|---|---|
| ResultPages.ParseResultPage | apps/openresults-worker/app/services/result_pages.py:54-83 | an accepted page advances by exactly its own rows, never claims more without advancing, and expects exactly what the announced totals say; a missing end and total is an error |
| ResultCheckpointProofs.RunKeepsInv | apps/openresults-worker/result_checkpoints.py:140-209 | in every reachable state each group's receipts form one simple path of offsets from 0, record and page counts equal the receipts and the staged rows, totals are never exceeded and are met once completed, and every published set counts its rows |
| ResultCheckpointProofs.SavedPageInv | apps/openresults-worker/result_checkpoints.py:175-202 | an accepted new page extends the path at its end and keeps staged rows, receipts, counters and unique keys in agreement |
| ResultCheckpointTheorems.RunKeepsSource | apps/openresults-worker/result_checkpoints.py:168-202 | whatever interleaving of crashes, replays and hand-overs, every receipt holds exactly what the source answered at that offset |
| ResultCheckpointTheorems.ReadContinues | apps/openresults-worker/result_checkpoints.py:175-202 | the first pages of a group followed by reading from where they stop is the read from the start |
| ResultCheckpointTheorems.ResumeContinuesRead | apps/api/src/operations.ts:344-377 | a group left collecting resumes the uninterrupted read exactly where it stopped |
| ResultCheckpointTheorems.CompletedGroupIsFullRead | apps/openresults-worker/result_checkpoints.py:199-202 | a completed group holds the whole uninterrupted read of its source |
| ResultCheckpointTheorems.SealedIsUninterruptedRead | apps/openresults-worker/result_checkpoints.py:235-246 | a sealed checkpoint has staged, for each group and in order, exactly the records of one uninterrupted read |
| ResultCheckpointTheorems.SealedRunsAgree | apps/openresults-worker/result_checkpoints.py:235-246 | two runs of any shape against sources that answer alike seal the same rows per group and the same keyed rows overall |
| ResultCheckpointTheorems.CountChecksNeverFire | apps/openresults-worker/result_checkpoints.py:243-244 | the row-count checks before sealing and before publishing can never fail in a reachable checkpoint |
| ResultCheckpointTheorems.PublicationIsExact | apps/openresults-worker/result_checkpoints.py:258-326 | publishing replaces the set by exactly the staged rows with their count, on the checkpoint's edition, completes the task and empties the staging, all at once |
| ResultCheckpointTheorems.PublishedIsUninterruptedRead | apps/openresults-worker/result_checkpoints.py:284-316 | a record is published if and only if the uninterrupted read of one of the manifest's groups contains it |
| ResultCheckpointTheorems.StatusMovesForward | apps/openresults-worker/result_checkpoints.py:245-256 | a checkpoint only moves collecting, ready, published, or off to invalid or expired |
| ResultCheckpointTheorems.PublishedAtMostOnce | apps/openresults-worker/result_checkpoints.py:263-264 | no run publishes the same checkpoint twice |
| ResultCheckpointTheorems.PublishedSetIsOneExtraction | apps/openresults-worker/result_checkpoints.py:258-326 | in every run each published set is exactly the records of the last publication under its external id, keyed without loss, and no later action of the run published there |
| ResultCheckpointTheorems.ClosedForGood | apps/openresults-worker/result_checkpoints.py:248-264 | a checkpoint once invalid, expired or published is never written, reopened or published again, in any continuation |
| ResultCheckpointTheorems.CheckpointFollowsEdition | apps/openresults-worker/result_checkpoints.py:86-90 | in every run a checkpoint is on the edition that the id its task was created with resolves to, and so for every task of it: no merge makes it incompatible with its tasks |
| ResultCheckpointTheorems.DeadLeaseChangesNothing | apps/openresults-worker/worker.py:66-71 | an action of a worker without a live lease leaves every table as it was |
| ResultCheckpointTheorems.LapsedWorkerIsHarmless | apps/openresults-worker/worker.py:66-71 | a worker whose lease lapsed can change nothing in any later state, whatever happens in between |
| ResultCheckpointTheorems.OnlyHolderWrites | apps/openresults-worker/result_checkpoints.py:91-92 | groups change only under the live lease of the task that holds the checkpoint |
| ResultCheckpointTheorems.FormerHolderNeverWrites | apps/api/src/operations.ts:344-377 | once the checkpoint was handed to a retry, no action of the former task changes anything of it again, in any continuation |
| ResultCheckpointTheorems.HandOverKeepsStaging | apps/api/src/operations.ts:344-377 | a retry the checkpoint was handed to opens, once claimed, everything its predecessors staged |
| ResultCheckpointConditions.ChangesNeedTheHolder | apps/openresults-worker/result_checkpoints.py:79-96 | a worker that changes a checkpoint runs its holding task under a live lease, for the same source, edition and page size, before it expires; only closing it as invalid asks for less |
| ResultCheckpointConditions.LeaseIsTheWorkers | apps/openresults-worker/worker.py:66-71 | nobody but its worker ends a live lease: it lasts until time runs out |
| ResultCheckpointConditions.StartsIff | apps/openresults-worker/result_checkpoints.py:108-135 | a worker opens or reopens a checkpoint if and only if the manifest lists each group once and names the request's source, the reference stands, and a checkpoint that is there is its own with this very manifest |
| ResultCheckpointConditions.StartLeaves | apps/openresults-worker/result_checkpoints.py:133-147 | reopening changes nothing; opening leaves an empty checkpoint of the request, on its edition, with the manifest's groups and totals, for seven days |
| ResultCheckpointConditions.PageAcceptedIff | apps/openresults-worker/result_checkpoints.py:158-195 | a page is accepted if and only if it comes from the holder and either continues its group within page limit, totals and unique keys, or is to the letter the page saved at that offset |
| ResultCheckpointConditions.AcceptedPageLeaves | apps/openresults-worker/result_checkpoints.py:188-205 | a saved page again changes nothing; a new one adds its records, in order, its receipt and its counts to its group and nothing else |
| ResultCheckpointConditions.SavedPageIsFinal | apps/openresults-worker/result_checkpoints.py:166-174 | in every continuation a saved page's receipt stands, saving it again changes nothing, and anything else at its offset is refused |
| ResultCheckpointConditions.RequestIsFixed | apps/openresults-worker/result_checkpoints.py:130-135 | a checkpoint keeps its manifest, source, page size and expiry in every continuation, and no worker goes on with it under another manifest |
| ResultCheckpointConditions.SealsIff | apps/openresults-worker/result_checkpoints.py:211-246 | a checkpoint is sealed if and only if its holder asks and every group is completed with the announced number of rows; only the status changes |
| ResultCheckpointConditions.SealedIsComplete | apps/openresults-worker/result_checkpoints.py:211-246 | in every run a sealed checkpoint has exactly the manifest's groups, all complete, and as many rows as announced |
| ResultCheckpointConditions.PublishesIff | apps/openresults-worker/result_checkpoints.py:258-326 | a sealed checkpoint is published if and only if its holder asks, the reference stands, there is no problem and the set is of this edition or new; the set then holds exactly the staged rows on the checkpoint's edition |
| ResultCheckpointConditions.PublishesDirectlyIff | apps/openresults-worker/worker.py:74-119 | an extraction in memory is published if and only if it is whole, has no record key twice, the lease lives, the reference stands and the set is of the request's edition or new; the set then holds exactly its rows on that edition |
| ResultCheckpointConditions.PublishedSetFollowsEdition | apps/openresults-worker/result_checkpoints.py:271-305 | in every run, through every merge, a published set belongs to the edition that the id in its last publication's request leads to, never to an id merged away |
| ResultCheckpointConditions.ReferencesFollowEditions | packages/database/src/event-reconciliation.ts:323-338 | in every run the source references follow their editions through every merge and never stay on an id merged away |
| ResultCheckpointConditions.CleanupEmpties | apps/openresults-worker/result_checkpoints.py:24-35 | retention empties and expires exactly the chosen checkpoints past their time, not published and in no live hands |
| ResultCheckpointConditions.QueueLeaves | packages/database/prisma/migrations/20261013000200_campaign_task_acquisition/migration.sql:22-50 | a queued task is claimed under a token never issued before, and only a lapsed lease is taken back |
| ResultCheckpointStore.ResultCheckpoints.Start | apps/openresults-worker/result_checkpoints.py:108-148 | opening or reopening a checkpoint, statement by statement, is the Start transaction or leaves all tables alone |
| ResultCheckpointStore.ResultCheckpoints.SavePage | apps/openresults-worker/result_checkpoints.py:158-209 | saving a page, with its row-by-row insertion and replay check, is the SavePage transaction or leaves all tables alone |
| ResultCheckpointStore.ResultCheckpoints.InsertRows | apps/openresults-worker/result_checkpoints.py:189-195 | the insertion loop stages the page's rows in order exactly when no record or dedupe key is already staged or repeats |
| ResultCheckpointStore.ResultCheckpoints.Summary | apps/openresults-worker/result_checkpoints.py:213-233 | the summary loop accepts exactly complete groups with agreeing totals and returns their sum |
| ResultCheckpointStore.ResultCheckpoints.Finish | apps/openresults-worker/result_checkpoints.py:235-246 | sealing is the Finish transaction |
| ResultCheckpointStore.ResultCheckpoints.Invalidate | apps/openresults-worker/result_checkpoints.py:248-256 | exactly one checkpoint can change, only its status, and only if it is open and the live worker's task holds it |
| ResultCheckpointStore.ResultCheckpoints.Publish | apps/openresults-worker/result_checkpoints.py:258-326 | publication, with its copying loop, commits the publication that PublishesIff describes, or leaves all tables alone |
| ResultCheckpointStore.ResultCheckpoints.InsertResults | apps/openresults-worker/worker.py:108-115 | inserting result rows one by one gives all of them keyed, or fails if and only if two share a record key |
| ResultCheckpointStore.ResultCheckpoints.PublishDirect | apps/openresults-worker/worker.py:74-119 | publication without a checkpoint commits the replacement that PublishesDirectlyIff describes, or leaves all tables alone |
| ResultCheckpointStore.ResultCheckpoints.Cleanup | apps/openresults-worker/result_checkpoints.py:24-35 | retention empties exactly the expired, unpublished checkpoints among the chosen whose holder has no live lease |
| ResultCheckpointStore.ResultCheckpoints.HandOver | packages/database/src/result-checkpoints.ts:61-83 | succeeds if and only if the ended task failed or stayed partial and its checkpoint is open, unexpired, still of its edition and source and in nobody's hands; then only the holder changes and the retry asks for the same; otherwise nothing is written |
| EditionEvidence.NormalQueryKept | packages/database/src/edition-evidence.ts:53-55 | filtering tracking parameters and stable sorting is idempotent and keeps the values of the identity-bearing parameter |
| EditionEvidence.SameEdition | packages/database/src/edition-evidence.ts:19-62 | addresses that differ only in scheme, www., one trailing slash, order and tracking of the query or fragment have one identity |
| EditionEvidence.IdentityIsIdempotent | packages/database/src/edition-evidence.ts:52-59 | normalising a normalised address gives the same identity |
| EditionEvidence.EditionUrlVariants | packages/database/src/edition-evidence.ts:76-90 | the nested loops produce exactly the two given spellings and every protocol, www. and slash combination the source allows |
| EditionEvidence.VariantNormalisesBack | packages/database/src/edition-evidence.ts:76-90 | every generated variant normalises back to the identity it came from |
| EditionIdentities.IdentityIff | packages/database/src/edition-evidence.ts:19-62 | an address has an identity if and only if it is, spelled out, the page of an edition at one of the three sources, and then that source and number |
| EditionIdentities.NumbersAreEditions | packages/database/src/edition-evidence.ts:27-31 | two TicketSports addresses have one identity if and only if they bear the same number |
| EditionIdentities.NormalAddress | packages/database/src/edition-evidence.ts:52-59 | the normal address is the same page over https without www., trailing slash and fragment, with every parameter but tracking, values in order, sorted by name |
| EditionIdentities.VariantIff | packages/database/src/edition-evidence.ts:76-90 | the addresses looked up are the given one and every combination of scheme, www. and trailing slash the source allows |
| EditionEvidence.EditionLocationEvidence | packages/database/src/edition-evidence.ts:108-121 | no reason if and only if date, city, state and country are all known and agree; which reason is given in the other cases |
| EditionMerging.MergeConservesReferences | packages/database/src/event-reconciliation.ts:323-338 | a merge keeps every source reference, in place, and leaves none on the source edition |
| EditionMerging.MergeLeavesOnePrimary | packages/database/src/event-reconciliation.ts:275-338 | after a merge the target has exactly one primary reference, of the highest priority among both, and it names the event |
| EditionConditions.PrimaryBySource | packages/database/src/event-reconciliation.ts:275-278 | a TicketSports reference of either edition becomes the primary, failing that an official one, failing that a CorridasBR one; a reference of the source only if the target has none of that kind |
| EditionConditions.MergeKeepsWhatIsSaid | packages/database/src/event-reconciliation.ts:278-291 | an unreviewed field takes the value of the edition that owned the one primary reference if it says something, otherwise the other's; so no value either edition had is lost |
| EditionConditions.MergeKeepsReviewed | packages/database/src/event-reconciliation.ts:280-285 | a field reviewed on the target keeps its value, otherwise one reviewed on the source does |
| EditionConditions.MergedPublicationIs | packages/database/src/event-reconciliation.ts:292-298 | a decided publication stands, the target's first; otherwise the edition is published if and only if either was, and as the target if not |
| EditionMerging.ProtectionMoves | packages/database/src/event-reconciliation.ts:346 | the target is protected in a field afterwards if and only if either edition was |
| EditionMerging.MergeKeepsCompatible | packages/database/src/event-reconciliation.ts:134-150 | of three pairwise compatible editions, merging one into another leaves the third compatible with the result in location, restriction, source identity and manual fields |
| EditionMerging.OtherPairsKept | packages/database/src/event-reconciliation.ts:261-371 | two editions a merge does not touch are compatible afterwards if and only if they were before |
| EditionMerging.OtherEditionKept | packages/database/src/event-reconciliation.ts:261-371 | an edition a merge does not touch keeps its row, references, audits, aliases and owned rows as they were |
| EditionMerging.CompatibleSymmetric | packages/database/src/event-reconciliation.ts:134-150 | compatibility does not depend on which edition is the target |
| EditionConditions.CompatibleIff | packages/database/src/event-reconciliation.ts:134-150 | two editions may be merged if and only if both are live and referenced, day and place agree, none is hidden or rejected, no source names them differently, and no reviews or decisions of them disagree |
| EditionMerging.GroupMergesInAnyOrder | packages/database/src/event-reconciliation.ts:397-461 | a pairwise compatible group can be merged into its target in any order without any member ever being turned away |
| EditionGroups.ConnectedRows | packages/database/src/event-reconciliation.ts:416-429 | the passes compute exactly the members reachable from the oldest by strong evidence, so the size test holds if and only if all are connected |
| EditionGroups.GroupAfterChoice | packages/database/src/event-reconciliation.ts:433-443 | merging any chosen remaining member leaves the others pairwise compatible with the target |
| EditionGroups.GroupConservesReferences | packages/database/src/event-reconciliation.ts:397-464 | merging a whole group keeps every source reference |
| EditionGroups.GroupLeadsToTarget | packages/database/src/event-reconciliation.ts:397-464 | merging a group retires exactly its other members and leads each of their ids to the target |
| EditionStore.Editions.ProtectedFields | packages/database/src/event-reconciliation.ts:122-133 | the audit loop finds exactly the fields some review names and whether the publication was decided |
| EditionStore.Editions.Objections | packages/database/src/event-reconciliation.ts:134-150 | each reason, those of date and place included, is reported if and only if it holds, the first one found comes first, and there is none if and only if the editions are compatible |
| EditionStore.Editions.Inspect | packages/database/src/event-reconciliation.ts:104-192 | missing or equal editions are refused; otherwise the reasons are exactly those that hold, the automatic one is the first of them or else the missing evidence, and protected fields and revision mean what they say |
| EditionStore.Editions.ChosenFields | packages/database/src/event-reconciliation.ts:279-291 | every scalar field gets the protected, then preferred, then present value, as MergeKeepsWhatIsSaid and MergeKeepsReviewed describe |
| EditionStore.Editions.Unify | packages/database/src/event-reconciliation.ts:274-373 | the sequence of updates on events, references, rows, audits and aliases is the merge that MergeKeepsWhatIsSaid, MergedPublicationIs and MergeLeavesOnePrimary describe |
| EditionStore.Editions.ApplyReconciliation | packages/database/src/event-reconciliation.ts:238-396 | a request is carried out if and only if the preview is current, the editions are compatible and idle, confirmed and, when automatic, evident in both directions and unambiguous; it leaves the merge, otherwise nothing is written |
| EditionPreviews.PreviewDecides | packages/database/src/event-reconciliation.ts:186-191 | while the revision is the one previewed, whatever else changed, the two editions may be merged exactly as before and become the very same edition under the same primary |
| EditionStore.Editions.ReconcileCatalogGroup | packages/database/src/event-reconciliation.ts:397-464 | a group is merged entirely into its oldest member, or refused unchanged unless two or three live Brazilian, pairwise compatible, idle, strongly connected editions; once begun, only missing evidence or running tasks can stop it |
| EditionStore.Editions.ReconcileGroupOrNothing | packages/database/src/catalog-reconciliation.ts:217-240 | with its savepoint a refused group leaves no table changed |
| EditionStore.Editions.PreserveValidatedMetadata | packages/database/src/index.ts:690-732 | the loop leaves in each field what SaveLeaves describes: protected, missing and unreliable values never replace stored ones |
| EditionStore.Editions.SaveExtraction | packages/database/src/index.ts:292-331 | a later extraction of the same source is the save step, which SaveLeaves describes |
| EditionStore.Editions.MergeCrossSourceEvent | packages/database/src/index.ts:445-589 | linking another source is the link step, which PromotionLeaves and SupplementLeaves describe; a promotion demotes the edition's references |
| EditionConditions.SaveLeaves | packages/database/src/index.ts:690-732 | a save stores a present value in an unreviewed field, except a name reported missing or an unknown modality over a known one; otherwise the stored value stays; reviewed fields and a reviewed, hidden or rejected publication stay |
| EditionConditions.PromotionLeaves | packages/database/src/index.ts:456-589 | a promoted source does the same with its own values, or those read earlier where it has none, names the event and demotes exactly the edition's references |
| EditionConditions.SupplementLeaves | packages/database/src/index.ts:501-612 | a supplemental source never touches name, date, modality, status or reviewed fields, and offers the others only where the edition had no value when read |
| EditionConditions.SupplementFillsGaps | packages/database/src/index.ts:501-612 | so, with nothing changed since, it only fills gaps |
| EditionConditions.EnrichmentLeaves | apps/openresults-worker/edition_metadata.py:94-120 | OpenResults metadata writes one of ten fields if and only if it is unreviewed, the value present, and the source primary or the field missing (an unknown modality) |
| EditionConditions.ReferenceLeaves | packages/database/src/index.ts:648-687 | the identity's one reference ends on the event with the given address and role, and no other changes |
| EditionConditions.CrawlLeaves | apps/worker/src/corridas-catalog.ts:56-76 | a crawled identity with a reference changes nothing; otherwise it gets one supplemental reference on the event bearing it or on a new event under its own id |
| EditionHistoryProofs.PromotionLeavesOnePrimary | packages/database/src/index.ts:263-276 | a promoted source whose reference is then linked as primary leaves the edition with that one primary, which names the event |
| EditionStore.Editions.UpdateEdition | apps/openresults-worker/edition_metadata.py:67-126 | OpenResults metadata never touches reviewed fields, replaces present values only as primary source, and changes no edition when there is a problem |
| EditionStore.Editions.ReviewEvent | apps/api/src/operations.ts:219-295 | an audited review writes its changes and its audit on the edition the id leads to, or is refused without writing |
| EditionConditions.ReviewLeaves | apps/api/src/operations.ts:219-295 | a review sets exactly the fields and the publication it names, on the edition its id leads to, and is recorded there |
| EditionHistoryProofs.RunKeepsInv | packages/database/src/event-reconciliation.ts:261-371 | in every run of creating, crawling, saving, linking, enriching, merging and reviewing: live ids and alias ids are disjoint, aliases lead to live editions, identities and slugs are unique, rows follow their edition, and reviewed values are held |
| EditionHistoryProofs.AliasTableIsUnionFind | packages/database/src/event-reconciliation.ts:17-29 | one hop of the alias table decides exactly whether a chain of performed merges connects two ids, is idempotent and lands on a live edition |
| EditionHistoryProofs.RowsFollowTheirEdition | packages/database/src/event-reconciliation.ts:339-349 | every row stays on the live edition that the id it was created for resolves to |
| EditionHistoryProofs.SlugsFollowTheirEdition | packages/database/src/event-reconciliation.ts:30-37 | a slug leads to at most one edition, and a merged edition's slug leads where its id does |
| EditionHistoryProofs.CrawlIsNeverRefused | apps/worker/src/corridas-catalog.ts:56-76 | a crawl never meets a reserved or existing derived id, and a merged-away identity always takes the existing-reference branch |
| EditionHistoryProofs.MergedFieldIsReviewed | packages/database/src/event-reconciliation.ts:280-298 | a compatible merge gives a field reviewed on either edition exactly that reviewed value |
| EditionHistoryProofs.SaveHoldsReview | packages/database/src/index.ts:690-732 | a save leaves every reviewed field and decided publication as they are |
| EditionHistoryProofs.LinkHoldsReview | packages/database/src/index.ts:549-589 | so does linking another source, promoted or supplemental |
| EditionHistoryProofs.EnrichHoldsReview | apps/openresults-worker/edition_metadata.py:101-126 | so does OpenResults metadata |
| EditionHistoryProofs.ReviewedFieldSurvives | packages/database/src/index.ts:690-732 | a reviewed field, deliberate nulls included, keeps its value through every sequence of automatic actions, on whatever edition its own has become |
| EditionHistoryProofs.DecidedPublicationHolds | packages/database/src/event-reconciliation.ts:292-298 | an edition always shows the publication an administrator last decided for it |
| GroupSearch.FindMany | packages/database/src/catalog-reconciliation.ts:104-120 | the limited query returns at most four matches and, when fewer, all of them |
| GroupSearch.AddMatches | packages/database/src/catalog-reconciliation.ts:121-125 | the matches join the group and the worklist in order |
| GroupSearch.GroupFor | packages/database/src/catalog-reconciliation.ts:84-149 | the group is ambiguous if and only if more than three events are reachable through links within the snapshot; otherwise it is exactly the reachable set, the query limit losing nothing; an event without links gets its generic resemblances, all of them when fewer than four |
| CatalogScanProofs.RunKeepsInv | packages/database/src/catalog-reconciliation.ts:151-280 | in every run of steps, world changes, claims, failures, coordinator and controls: counters equal their decisions, everything behind the cursor is accounted for, one task is active and turns are consecutive |
| CatalogScanTheorems.CompletedScanCoversSnapshot | packages/database/src/catalog-reconciliation.ts:178-207 | at completion every live recognised event of the snapshot is decided, holds what decided events were merged into, or became recognised behind the cursor; the rest is there or merged away; the final status tells whether anything awaits review |
| CatalogScanTheorems.PassingSettles | packages/database/src/catalog-reconciliation.ts:196-266 | whatever step moves the cursor over a live recognised event of the snapshot settles it |
| CatalogScanTheorems.RecognisedIsNeverSkipped | packages/database/src/catalog-reconciliation.ts:151-281 | an event ahead of the cursor that stays recognised is, after any run, retired, still ahead, or settled |
| CatalogScanTheorems.DecidedIffRecognisedInTime | packages/database/src/catalog-reconciliation.ts:178-277 | at completion a live recognised event of the snapshot has a settled decision if and only if it was live and recognised when the cursor passed it |
| CatalogScanTheorems.RecognisedFromStartIsDecided | packages/database/src/catalog-reconciliation.ts:151-281 | an event recognised from start to completion is merged away or has a settled decision |
| CatalogScanTheorems.ArrivalsStayUndecided | packages/database/src/catalog-reconciliation.ts:178-196 | a concrete run in which an event recognised behind the cursor ends without a decision |
| CatalogScanTheorems.PassedStaysUndecided | packages/database/src/catalog-reconciliation.ts:178-196 | what the cursor has passed without a settled decision, even while waiting, never gets one in any continuation |
| CatalogScanTheorems.CountersMatchDecisions | packages/database/src/catalog-reconciliation.ts:256-277 | scanned, review, unmatched and foreign are the numbers of such decisions, scanned is their sum with the merged ones, and merged counts the editions this run retired |
| CatalogScanTheorems.CursorGrows | packages/database/src/catalog-reconciliation.ts:265-277 | a settling step moves the cursor strictly forward to the event it decided and shrinks what is ahead; nothing else moves it |
| CatalogScanTheorems.TurnsAreConsecutive | packages/database/src/catalog-reconciliation.ts:162-171 | steps of different tasks never interleave |
| CatalogScanTheorems.FormerTaskIsRefused | packages/database/src/catalog-reconciliation.ts:162-171 | once another task has stepped, an earlier one is refused as stale even with a live lease |
| CatalogScanTheorems.FormerTaskNeverReturns | packages/database/src/catalog-reconciliation.ts:162-171 | and it stays so: every step of an overtaken task, whatever the next event, is refused in every state the run ever comes to |
| CatalogScanTheorems.OneTaskAtATime | packages/database/src/catalog-reconciliation.ts:308-358 | at most one task of the run is queued or running |
| CatalogScanStore.CatalogReconciliations.FindNext | packages/database/src/catalog-reconciliation.ts:178-196 | the event found is the first eligible one after the cursor in creation order, or there is none |
| CatalogScanStore.CatalogReconciliations.JudgeEvent | packages/database/src/catalog-reconciliation.ts:208-250 | which verdict an event gets: foreign, merged, waiting or unmatched each if and only if its condition holds, with the members and target it records |
| CatalogScanStore.CatalogReconciliations.Step | packages/database/src/catalog-reconciliation.ts:151-281 | one transaction, on the next event its own search finds, is the scan step that RefusedIff, StepHonoursPause, WorkingStepDecides and DecisionLeaves describe |
| CatalogScanConditions.RefusedIff | packages/database/src/catalog-reconciliation.ts:156-171 | a task is refused if and only if its lease is dead or it is not its turn |
| CatalogScanConditions.StepHonoursPause | packages/database/src/catalog-reconciliation.ts:172-177 | a step of a run being paused only sets it paused, by the task whose turn it is; a paused, blocked or finished run is left as it is |
| CatalogScanConditions.StoppedScanDecidesNothing | packages/database/src/catalog-reconciliation.ts:172-177 | in every continuation without a resume a stopped run decides, merges, counts and passes nothing |
| CatalogScanConditions.PauseStops | packages/database/src/catalog-reconciliation.ts:360-437 | an accepted pause stops the run whatever is running on it |
| CatalogScanConditions.WorkingStepDecides | packages/database/src/catalog-reconciliation.ts:178-281 | otherwise the step of the task whose turn it is decides exactly the next event, or ends the run with or without reviews |
| CatalogScanConditions.DecisionLeaves | packages/database/src/catalog-reconciliation.ts:208-280 | the verdict is the one whose condition holds; only a settled one moves the cursor and counts, a waiting one is due in thirty seconds, and only a merge takes events away, exactly the other members |
| CatalogScanStore.CatalogReconciliations.Coordinate | packages/database/src/catalog-reconciliation.ts:319-357 | one task, of the current sequence, is enqueued if and only if the run is due, idle, not being paused and its last task completed; the run is otherwise closed as paused or blocked in the stated cases; decisions and events stay |
| CatalogScanTheorems.ContinuationIsCurrent | packages/database/src/catalog-reconciliation.ts:162-171 | the task the coordinator enqueues is never stale: once claimed, its first step goes through |
| CatalogScanStore.CatalogReconciliations.ControlRun | packages/database/src/catalog-reconciliation.ts:360-437 | which requests are refused and leave everything as it was; after a cancel nothing is active, after a pause nothing queued is free, after a resume nothing is left held by the pause and a task is active unless the key named one before |
| CatalogScanConditions.ControlLeaves | packages/database/src/catalog-reconciliation.ts:360-437 | a control withdraws, holds or frees exactly the tasks it should, leaving other holds, and a resume enqueues one task if and only if none is queued or running |
| CatalogScanConditions.RunningTaskIsTheWorkers | packages/database/src/catalog-reconciliation.ts:360-437 | no step, control or coordinator takes a running task from its worker while the lease lives |
| CrawlLedger.OfferedKeeps | apps/worker/src/corridas-catalog.ts:30-49 | offering a page's unseen ids keeps: discovered is processed plus waiting, each seen id is handled once or waits once |
| CrawlLedger.TakenKeeps | apps/worker/src/corridas-catalog.ts:54-80 | one candidate's transaction keeps the ledger |
| CrawlLedger.NothingWaiting | apps/worker/src/corridas-catalog.ts:81-98 | with nothing waiting, discovered, processed and the ids seen agree in number and each was handled and enriched exactly once |
| CorridasCrawlProofs.RunKeepsInv | apps/worker/src/corridas-catalog.ts:13-103 | every run with crashes anywhere keeps the search's frontier, the states done and the ledger |
| CorridasCrawlProofs.CompletedCrawlIsExact | apps/worker/src/corridas-catalog.ts:30-98 | a completed crawl handled and enriched, once each, exactly the eligible events on pages reachable from some state's start page |
| CorridasCrawlProofs.SearchComplete | apps/worker/src/corridas-catalog.ts:82-93 | with no page left to visit the visited pages are exactly the reachable ones |
| CorridasCrawlProofs.CountersAgree | apps/worker/src/corridas-catalog.ts:44-80 | the ledger's equalities hold in every state of every run |
| CorridasReceipts.ReceiptsAreExact | apps/worker/src/corridas-catalog.ts:84-88 | one receipt per state, counting exactly the reachable pages and the distinct ids they list, in all, without a country and of another country, whatever crashes happened |
| CorridasReceipts.RediscoveryOnlyRecounts | apps/worker/src/corridas-catalog.ts:30-51 | in every run a page discovered again after a crash leaves the whole row as it was but the raw count, which grows by the page's listings |
| CorridasReceipts.RawCountIsExactIff | apps/worker/src/corridas-catalog.ts:30-51 | a receipt's raw count is the listings of its state's reachable pages, each once, plus those of every page discovered again; so it is exact if and only if no transaction of the run discovered again a visited page that lists anything |
| CorridasReceipts.RawCountCanBeWrong | apps/worker/src/corridas-catalog.ts:30-98 | a concrete run ends with a receipt that counts two listings where there is one |
| CrawlConditions.WantedIff | apps/worker/src/corridas-catalog.ts:35-38 | an id is wanted if and only if a reachable page lists an event of it that is Brazilian or of no country, and of no day or one within the period |
| CrawlConditions.CountryIff | apps/worker/src/corridas-catalog.ts:41-42 | what the receipts count as without a country and as of another one |
| CrawlConditions.AllowedIff | apps/worker/src/corridas-catalog.ts:30-32 | a page is stored only when nothing waits and every event on it is of the state asked for; candidates are taken while one waits; a page is left when none does |
| CrawlConditions.OnlyPagesInRegion | apps/worker/src/corridas-catalog.ts:32 | in every run every page visited lists events of its state only |
| CrawlConditions.OfferedInOrder | apps/worker/src/corridas-catalog.ts:37 | unseen ids are offered in the order listed |
| CrawlConditions.CountersTellNewFromKnown | apps/worker/src/corridas-catalog.ts:63-79 | in every run the counter of created editions counts the candidates that were new and the other one those that were known |
| CorridasCrawlProofs.TransactionsProgress | apps/worker/src/corridas-catalog.ts:44-98 | every transaction but such a rediscovery goes down the measure of states left, pages unvisited, pages queued and candidates waiting |
| CorridasCrawlProofs.CommittedBatchProgresses | apps/worker/src/corridas-catalog.ts:44-98 | over a finite link graph every uncrashed invocation goes strictly down the measure |
| CorridasCrawlWorker.CorridasCatalog.SyncNational | apps/worker/src/corridas-catalog.ts:13-103 | an invocation dying after any number of transactions commits allowed transactions only; uncrashed it ends with an enrichment or an advance |
| TicketSportsCrawl.NextPrefix | packages/sources/src/catalog-discovery.ts:99-111 | ready means a strictly longer prefix within the ceiling; every other outcome keeps the quantity |
| CrawlConditions.PrefixIff | packages/sources/src/catalog-discovery.ts:99-111 | which pages block, complete, limit or expand the listing, and that it expands by 25 up to the ceiling while pages bring anything new |
| TicketSportsCrawlProofs.RepeatedOutcome | packages/sources/src/catalog-discovery.ts:99-111 | a request repeated after it ended the partition ends it the same way |
| TicketSportsCrawlProofs.DiscoveryExpands | apps/worker/src/national-catalog.ts:38-65 | a discovery, repeated after a crash or not, makes the request an uninterrupted expansion makes next |
| TicketSportsCrawlProofs.RunKeepsInv | apps/worker/src/national-catalog.ts:31-126 | every run with crashes anywhere keeps the expansion, the partitions done, what their receipts tell and the ledger |
| TicketSportsCrawlProofs.FinishedCrawlIsExact | apps/worker/src/national-catalog.ts:38-124 | a finished crawl handled and enriched, once each over all partitions, exactly the eligible ids of the uninterrupted expansions; each receipt tells status, quantity, rows and distinct ids at the last request of its partition's expansion; limited if and only if some expansion ends as limited |
| TicketSportsCrawlProofs.CountersAgree | apps/worker/src/national-catalog.ts:59-101 | the ledger's equalities hold in every state of every run |
| TicketSportsCrawlProofs.TransactionsProgress | apps/worker/src/national-catalog.ts:59-122 | every transaction goes down the measure of partitions left, headroom and work, except two that lose nothing |
| TicketSportsCrawlProofs.CommittedBatchProgresses | apps/worker/src/national-catalog.ts:31-126 | every uncrashed invocation goes strictly down the measure |
| CrawlConditions.OfferedIff | apps/worker/src/national-catalog.ts:47-50 | a request offers an id if and only if its page lists an event of it of no state or of an asked one |
| CrawlConditions.DiscoveryAllowedIff | apps/worker/src/national-catalog.ts:38-45 | a page is stored if and only if nothing waits, it has no invalid or surplus rows and, of a state, lists no event of another |
| CrawlConditions.TicketCountersTellNewFromKnown | apps/worker/src/national-catalog.ts:67-101 | created and existing count new and known candidates in every run |
| TicketSportsCrawlWorker.TicketSportsCatalog.SyncNational | apps/worker/src/national-catalog.ts:31-126 | an invocation dying after any number of transactions commits allowed transactions only and keeps the invariant |
| CatalogContinuationProofs.RunKeepsInv | packages/database/src/catalog-continuation.ts:14-157 | over create, continue, retry, pause, resume, coordinator, campaign and weekly control, claims, deferrals, recoveries, and holds put on and taken off by anyone: one active task, and no worker that found the row ready while it is halted |
| CatalogContinuationProofs.OneDiscoveryTask | packages/database/src/catalog-continuation.ts:46-47 | a synchronisation never has two discovery tasks queued or running |
| CatalogContinuationProofs.NeverHaltedUnderAWorker | packages/database/src/catalog-campaign.ts:223-252 | it is never set paused or cancelled while a discovery task of it is running |
| CatalogContinuationProofs.HaltedCheckpointIsFrozen | packages/database/src/catalog-continuation.ts:29-157 | while paused or cancelled its page, cursor and snapshot never change |
| CatalogContinuationProofs.OnlyTheReadyWorkerWrites | apps/worker/src/corridas-catalog.ts:14 | only the live lease holder of the one active task, having found the row ready, moves the checkpoint |
| CatalogContinuationProofs.CoordinatorStepsForward | packages/database/src/catalog-continuation.ts:48-86 | at most one coordinator task per checkpoint, only after a completed task from another checkpoint; otherwise it stops as not advancing |
| CatalogContinuationProofs.CancelledForGoodInEveryRun | packages/database/src/catalog-campaign.ts:179-252 | a cancelled campaign's synchronisation stays cancelled, unchanged and with no task active, in every continuation |
| CatalogContinuationProofs.PauseHoldsTheQueue | packages/database/src/catalog-continuation.ts:115-155 | after a pause no queued task can be claimed, and the row is paused at once if and only if nothing runs |
| CatalogContinuationProofs.HaltLeavesWorkIff | packages/database/src/catalog-continuation.ts:36-41 | the step that halts the row leaves a running or an unheld queued task about if and only if it is the coordinator honouring a pause request while such a task is there |
| CatalogContinuationProofs.HaltedRowGetsWorkIff | packages/database/src/capacity.ts:118-127 | while the row is halted such a task comes about if and only if a held task is freed |
| CatalogContinuationProofs.PausedRunsGetWorkers | packages/database/src/catalog-continuation.ts:36-41 | two concrete runs end with a paused row and a running task: one whose task failed after the pause request, one whose task was deferred before it |
| CatalogContinuationProofs.EnqueuedUnderPauseIff | apps/api/src/operations.ts:312-377 | while a pause request stays pending a step enqueues a task if and only if it retries a failed or partial task of a row that is ready and idle |
| CatalogContinuationProofs.RetriedUnderPause | apps/api/src/operations.ts:312-377 | a concrete run: such a retry is queued with nothing holding it |
| CatalogContinuationProofs.ResumedTaskIsHeldIff | packages/database/src/catalog-campaign.ts:217-278 | a campaign's resume that has to enqueue a task leaves it held by the pause being lifted if and only if the campaign was paused; the coordinator does not free it |
| CatalogContinuationProofs.ResumedTaskIsHeld | packages/database/src/catalog-campaign.ts:217-278 | a concrete run of it |
| CatalogContinuationProofs.ResumeUndoesPause | packages/database/src/catalog-continuation.ts:121-155 | resuming after a pause restores the row and the tasks, or enqueues the one task that continues the checkpoint |
| CatalogContinuationStore.CatalogSync.UpdateHolds | packages/database/src/catalog-continuation.ts:117-126 | the update of holds writes exactly the queued tasks bearing the hold |
| CatalogContinuationStore.CatalogSync.CoordinateSync | packages/database/src/catalog-continuation.ts:29-88 | one task for the checkpoint is enqueued if and only if the row goes on by itself and its last task completed elsewhere; the row is set paused, limited or blocked each if and only if its condition holds; nothing else changes |
| CatalogContinuationStore.CatalogSync.ControlSync | packages/database/src/catalog-continuation.ts:92-157 | pause and resume are their transactions, refusals included |
| CatalogContinuationStore.CatalogSync.ContinueSync | apps/api/src/operations.ts:484-527 | refused if and only if the key is new and the row is being paused, not ready or has a task active; otherwise one task for the current checkpoint, or the one the key named before |
| CatalogContinuationStore.CatalogSync.CancelWeekly | packages/database/src/catalog-weekly.ts:491-519 | cancelling the weekly occurrence is the WeeklyCancel transaction |
| CatalogContinuationStore.CatalogSync.ControlCampaign | packages/database/src/catalog-campaign.ts:174-278 | a campaign's pause, resume and cancel of one synchronisation are the transactions that CampaignPauseLeaves, CampaignResumeLeaves and CampaignCancelLeaves describe |
| CatalogContinuationConditions.CampaignPauseLeaves | packages/database/src/catalog-campaign.ts:174-252 | a campaign's pause leaves no queued task free, even while one runs, and pauses an unfinished row at once if none does |
| CatalogContinuationConditions.CampaignResumeLeaves | packages/database/src/catalog-campaign.ts:174-278 | a campaign's resume frees exactly the queued tasks its pause held, leaves other holds, makes every free queued task claimable, and enqueues one task only for an unfinished row with none queued or running |
| CatalogContinuationConditions.CampaignResumeUndoesPause | packages/database/src/catalog-campaign.ts:174-278 | pausing and resuming a campaign leaves every task as it was and an unfinished row ready |
| CatalogContinuationConditions.CampaignCancelLeaves | packages/database/src/catalog-campaign.ts:174-252 | a campaign's cancel is refused while a task runs; afterwards none is queued or running and the row is cancelled |
| CatalogContinuationConditions.WeeklyCancelLeaves | packages/database/src/catalog-weekly.ts:491-519 | the weekly cancel likewise; a row whose scope had ended keeps its status |
| CatalogContinuationConditions.PauseLeaves | packages/database/src/catalog-continuation.ts:92-126 | when an administrator's pause is refused, and that an accepted one leaves no queued task free |
| CatalogContinuationConditions.ResumeLeaves | packages/database/src/catalog-continuation.ts:92-157 | when a resume is refused, that it frees exactly what the pause held, and when it enqueues a task |
| CatalogContinuationConditions.RetryLeaves | apps/api/src/operations.ts:312-377 | when a retry is refused, and that a new one goes on from the checkpoint of the retried task |
| CatalogContinuationConditions.ClaimLeaves | packages/database/prisma/migrations/20261013000200_campaign_task_acquisition/migration.sql:35-50 | a task is claimed if and only if it is queued, free and its campaign neither paused nor over, under a token of its own |
| CatalogContinuationConditions.BeginReadsTheRow | apps/worker/src/corridas-catalog.ts:14 | a worker may write only if it found the row ready |
| CatalogContinuationConditions.QueueLeaves | packages/database/prisma/migrations/20261013000200_campaign_task_acquisition/migration.sql:22-50 | a task that leaves its worker, or is held, freed or withdrawn, is written as said and as the last one; nothing else changes |
| CatalogContinuationConditions.RunningTaskIsTheWorkers | packages/database/src/catalog-campaign.ts:186-252 | neither pause, cancellation nor queue takes a running task from its worker while the lease lives |
| WeeklyClock.OffsetSampled | packages/database/src/catalog-weekly-clock.ts:65-69 | under the zone assumptions the sampled offsets include every offset in force near the slot |
| WeeklyClock.SlotReached | packages/database/src/catalog-weekly-clock.ts:70-79 | some existing minute of the same local day is shown within 180 minutes of the slot |
| WeeklyClock.EarliestCandidate | packages/database/src/catalog-weekly-clock.ts:74-78 | the candidate is the earliest sampled instant that shows the wall time |
| WeeklyClock.ResolveOccurrence | packages/database/src/catalog-weekly-clock.ts:63-81 | the occurrence is the earliest instant showing the first existing minute at or after the slot on that day, and always exists |
| WeeklyClock.OccurrenceUnique | packages/database/src/catalog-weekly-clock.ts:61-62 | that instant is unique, folds and gaps included |
| WeeklyClock.OccurrencesOrdered | packages/database/src/catalog-weekly-clock.ts:61-81 | occurrences of later days are later instants |
| WeeklyClock.WeeklyOccurrenceAtOrBefore | packages/database/src/catalog-weekly-clock.ts:82-95 | the result is the latest occurrence not after now among all weeks |
| WeeklyClock.WeeklyOccurrenceAfter | packages/database/src/catalog-weekly-clock.ts:96-99 | the result is the first occurrence strictly after now; it fails exactly before the first supported week |
| WeeklyClock.DueDatesUpTo | packages/database/src/catalog-weekly-clock.ts:109 | stepping week by week from the stored date gives weeks + 1 due dates, the last being the latest |
| WeeklyClock.CoalesceWeeklyOccurrences | packages/database/src/catalog-weekly-clock.ts:102-117 | coalescing equals stepping week by week: nothing if none is due, otherwise the latest due occurrence, their number less one, and a next one after now |
| WeeklyClock.SkippedMinuteIsShifted | packages/database/src/catalog-weekly-clock.ts:61-62 | a concrete gap: a slot inside it moves to the first existing minute |
| WeeklyConditions.OccurrenceShowsSlot | packages/database/src/catalog-weekly-clock.ts:61-81 | an occurrence is at the earliest instant whose clock shows the slot's hour and minute on that day or, if the clocks skip it, at the first minute shown after it on that day |
| WeeklyConditions.AroundNow | packages/database/src/catalog-weekly-clock.ts:82-99 | the latest occurrence is at or before now to the millisecond and the first after is later, with none between |
| WeeklyConditions.DueIff | packages/database/src/catalog-weekly-clock.ts:102-109 | the due dates are the stored one and every seventh day after it whose occurrence is at or before now |
| WeeklySchedule.HistoricalHoldsMultiple | packages/database/src/catalog-weekly.ts:179-185 | an occurrence is historical if and only if its interval holds a week divisible by historicalEveryWeeks |
| WeeklySchedule.EachWeekInOneOccurrence | packages/database/src/catalog-weekly.ts:373-445 | within a revision the occurrences' intervals cover every week between them exactly once |
| WeeklySchedule.EachDateInOneOccurrence | packages/database/src/catalog-weekly.ts:373-445 | and every weekly date exactly once, with no gap or overlap |
| WeeklySchedule.HistoricalWeekSweptOnce | packages/database/src/catalog-weekly.ts:179-195 | so every historical week is swept by exactly one occurrence, despite offline gaps |
| WeeklyConditions.OccurrenceLooksBack | packages/database/src/catalog-weekly.ts:179-195 | an occurrence is historical if and only if one of its weeks, from the Monday of 1970-01-05, is a multiple of the period; the others look back from their date over the recent days |
| WeeklySchedule.CatalogWeekly.Configure | packages/database/src/catalog-weekly.ts:130-178 | a configuration takes effect if and only if it is valid, of the expected revision and within capacity; the next date is the first occurrence after now |
| WeeklySchedule.CatalogWeekly.Coordinate | packages/database/src/catalog-weekly.ts:338-463 | one poll observes the active occurrence, or creates exactly one for all due dates under the stated conditions, and keeps the intervals tiled |
| WeeklySchedule.CatalogWeekly.Cancel | packages/database/src/catalog-weekly.ts:465-546 | cancelling succeeds if and only if the occurrence is unfinished and nothing runs, and changes only its status |

## Left out

- Idempotent replays of administrative requests that return a stored response, except where the replay is a step of the protocol: they change nothing.
- Progress counters, timestamps shown to users, coverage texts and error codes that no later step reads.
- Capacity, request budgets, local resources and queue order: a transaction is allowed or deferred by an arbitrary answer.
- The parser and manifest versions a checkpoint is compared with, beyond equality of the manifest.
- The external-id renames of OpenResults references from an address to a number, which would need the scraper's behaviour.
- Child collections of an event (distances, prices, kits, schedule, rules, images), fingerprints, confidence and warnings when editions are saved or merged.
- The evidence inside crossSourceEditionReason beyond location: links and validated observations are an arbitrary function of the two editions.
- The identity checks of OpenResults metadata: their outcome is a parameter of the update.
- EditionHistoryProofs.RunKeepsInv: a review may name any field here, while the route accepts only name, date, city, state, country and modality.
- EditionEvidence.NormalQueryKept: parameter names are compared by code point, while the URL Standard sorts by UTF-16 code unit, which differs only outside the Basic Multilingual Plane.
- ResultCheckpointStore.ResultCheckpoints.PublishDirect: the comparison of the extraction's own address and id with the request's is part of the problem it is answered, so it is refused with that problem's code.
- EditionStore.Editions.UpdateEdition: when there is a problem the code still commits the observation on the reference and then fails; observations are not part of this model, so here nothing is written. A missing or changed reference is refused before and is not modelled.
- WeeklyClock.ResolveOccurrence: offsets with seconds, as in São Paulo before 1914, are outside the zone assumptions.
- CatalogScanStore.CatalogReconciliations.Step: the loop over several steps in one task is a run of this transaction, since others may come between.
- CatalogContinuationProofs.NeverHaltedUnderAWorker: speaks of discovery tasks; campaign and weekly cancellation also wait for enrichment and reconciliation tasks, which the model does not hold.
- CorridasCrawlProofs.CompletedCrawlIsExact: says nothing of the created event's columns, which come from the listing as it is.
- TicketSportsCrawlProofs.FinishedCrawlIsExact: checkpoints written before ids were remembered across partitions are not modelled.
- The OpenResults catalogue crawl, whose ledger is elsewhere, and the bounded discovery mode.
- Fetching and parsing of pages, extraction of prices, kits and places, and the AI provider.
- HTTP routes, authentication, exports, storage, deployment, the static site and scripts.
- Mutual exclusion of campaigns and weekly occurrences: resuming a partial campaign looks only at other campaigns.
