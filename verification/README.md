# Datasets, indexes and blobs: a verified model

This project models the stateful cores of a dataset platform written in TypeScript and proves what they promise. One
Dafny module stands for one component or one of its theorems.

- **Lineage ledger** (`Lineage*.dfy`, `DatasetLineage.dfy`). An append-only ledger of six keyed collections under one
  counter, with snapshots, corrections, breadth-first traversal with cursor paging, archive export and import, and lossy
  projection with a loss receipt. `LineageLedger` states the checks and the invariant, `LineageArchive` the archive,
  `LineageTraversal` and `LineageQuery` the search and its pages. `LineageRules`, `LineageRoutes` and `LineageTransport`
  say what appends, traversals, exports and imports mean without naming the functions that compute them; the other modules
  prove the theorems, and `DatasetLineage` holds the class whose methods update the collections in place.
- **Canonical text and keys** (`CanonicalJson.dfy`, `Utf8.dfy`, `DatasetRequest.dfy`, `DatasetContent.dfy`).
- **Ingest** (`IngestStore.dfy`, `DatasetIngest.dfy`, `IngestRules.dfy`, `IngestHistory.dfy`, `DatasetIngestExecutor.dfy`,
  `IngestBooks.dfy`, `IngestExamples.dfy`). The transactional store is a system of steps over which every interleaving of calls is a trace;
  the executor's operation runs in it. What an attempt cannot know beforehand (when the abort signal is seen, which hooks
  fail) is an argument of the attempt, so the theorems hold for every choice.
- **Chunked index** (`ChunkedSearch.dfy`, `SearchMeaning.dfy`, `ChunkedIndex.dfy`, `ChunkedRuntime.dfy`), with the one-edit
  name test (`EditDistance.dfy`) and the detail file names (`DetailId.dfy`).
- **Capability negotiation** (`SemanticVersion.dfy`, `CapabilityNegotiation.dfy`, `NegotiationMeaning.dfy`).
- **Graph neighbourhoods** (`Neighborhood.dfy`), **job queue** (`JobQueue.dfy`, `JobQueueStarvation.dfy`,
  `JobQueueMeaning.dfy`), **blob store** (`BlobStore.dfy`, `BlobStoreLaws.dfy`).

`dafny verify dfyconfig.toml` checks the whole project.

Conventions. Hashes are functions without collisions where a theorem says so, and arbitrary otherwise. `localeCompare` is
any strict total order on strings; JavaScript's `<` is the order of characters. Strings are sequences of Unicode scalar
values. A `Map` whose order matters is a sequence of entries, or a map with its keys in insertion order. Policies,
validators and loaders are functions of their arguments. Errors are values.

Results that differ from what one might expect of the code:

- The ledger accepts histories whose archives it cannot import. `RoundTrip` says for every snapshot of every valid ledger
  when an import succeeds; besides missing replacements and corrections that wait for each other, what decides is the
  order in which the loop takes the corrections, which `ImportOrder` computes from keys alone. `CrossedExactly` is a
  history whose import hangs on how two ids collate, `CorrectedOrder` and `DisciplineRoundTrip` give plain disciplines
  under which the order is no obstacle and under which the import always succeeds.
- Import numbers corrections anew in the order of their ids, so a revision corrected twice may change its status
  (`StatusAfterImport` says exactly when, `StatusChanges` is a history in which it does).
- Keys of the form `id@revision` can collide when an id contains `@`. A projection can then drop a correction and still
  call itself lossless (`LosslessDropsCorrection`); `LosslessIff` states the condition under which it cannot.
- After an idempotency conflict, resolving the ambiguous commit returns the receipt of the other request
  (`ConflictExactly`). The key covers the digest the plan states but not its rejection policy, so retrying a committed
  batch under another rejection limit conflicts (`OtherLimitConflicts`, `RetryConflicts`).
- A chunked discovery query does not retry with relaxed overlap as the whole-index query does (`ChunkedIsWhole`).
- The index builder accepts a detail template without a placeholder, under which all details share one file
  (`HrefsDistinct`, `DetailsResolve`).
- Ten pending jobs that cannot run starve a job they sort before, for as long as the worker polls (`TitleStarves`).
  `StarvesExactly` has the exact conditions for a job to be certain to be selected and to be never selected; the SELECT
  leaves ties open, and between the two conditions how they fall decides.
- The adapter-backed blob store ignores the algorithm prefix of live checksums (`ReportsAgree`).

## Model

| member | source | states |
|---|---|---|
| `LineageLedger.AppendKeepsValid` | packages/core/src/dataset-lineage.ts:280-379 | Every accepted append keeps the ledger invariant: keys unique, the numbers 1 to the counter each held by exactly one entry of one collection, and every entry admissible against exactly what was appended before it. |
| `LineageLedger.ReplayValid` | packages/core/src/dataset-lineage.ts:280-379 | The invariant holds after any run of appends, accepted or rejected. |
| `LineageLedger.PrefixValid` | packages/core/src/dataset-lineage.ts:545-557 | Every snapshot of a valid ledger is itself a valid ledger. |
| `LineageRules.EntityVerdict` | packages/core/src/dataset-lineage.ts:225-239 | An entity is accepted exactly when its id, schema id and schema version are identities (not empty, no white space at either end), its kind is known, its creation time has the timestamp shape and parses, and its id is new; otherwise the code is that of the first demand not met. |
| `LineageRules.EvidenceVerdict` | packages/core/src/dataset-lineage.ts:308-319 | An evidence revision is accepted exactly when id, revision and locator are identities, its capture time is a timestamp, a payload it carries has the stated digest and its `id@revision` is new; else the code of the first demand not met. |
| `LineageRules.AssertionVerdict` | packages/core/src/dataset-lineage.ts:321-362 | An assertion is accepted exactly when its texts and time are in order, both ends are entities there of the kinds its relationship allows, its issuer is an agent there, its activity is there, each evidence reference finds an item of the same digest and, if it gives one, locator, an observed one has an activity and evidence, its key is new, and a further revision is permitted by a `correct` naming it; else the code of the first demand not met. |
| `LineageRules.CorrectionVerdict` | packages/core/src/dataset-lineage.ts:364-379 | A correction is accepted exactly when its texts and time are in order, its target is the key of an assertion there, its issuer an agent there, its activity one there of kind `correction`, a retraction names no replacement, the other actions name one in full and a supersession another assertion, and its id is new; else the code of the first demand not met. |
| `LineageRules.AppendExactly` | packages/core/src/dataset-lineage.ts:280-379 | For all six kinds of record: an append succeeds exactly when the record meets every demand, and then adds that very record under its key and the next number and changes nothing else; otherwise it fails with the code of the first demand not met. |
| `LineageRules.Closed` | packages/core/src/dataset-lineage.ts:241-379 | Referential closure: every record stored in a valid ledger met every demand against exactly what was appended before it, so its ends, issuer, agents, activity, evidence and target are earlier entries of the right kinds, digests and locators. |
| `LineageRules.SnapshotClosed` | packages/core/src/dataset-lineage.ts:545-557 | The same inside every snapshot: what its entries refer to is in it, before them. |
| `LineageLedger.ReplayKeepsSnapshots` | packages/core/src/dataset-lineage.ts:545-557 | No later run of appends changes what an earlier snapshot holds. |
| `LineageLedger.SnapshotCounts` | packages/core/src/dataset-lineage.ts:545-557 | A snapshot number is the number of entries the snapshot holds over all six collections. |
| `LineageLedger.VisiblePrefix` | packages/core/src/dataset-lineage.ts:555-557 | What is visible at a snapshot is a prefix of each collection in insertion order. |
| `LineageRebuild.LaterPermitted` | packages/core/src/dataset-lineage.ts:355-360 | A revision that is not its assertion's first was permitted by an earlier `correct` naming exactly that id and revision. |
| `LineageRebuild.BaseRebuilt` | packages/core/src/dataset-lineage.ts:472-482 | Before its pending loop, an import of the archive of any valid ledger succeeds: agents, entities, activities, evidence and the unnamed assertions all go in again in archive order. |
| `LineageRoundTrip.SameTurn` | packages/core/src/dataset-lineage.ts:485-486 | At every turn the loop picks the correction that the import order, computed from keys alone, has next. |
| `LineageRoundTrip.ImportOneIff` | packages/core/src/dataset-lineage.ts:487-495 | An eligible correction and what it names go in exactly when its replacement is in the snapshot and the turn is permitted: it meets no other revision of the named assertion's id, or is itself the `correct` naming that id and revision, or what it names is in already. |
| `LineageRoundTrip.BlockedByPending` | packages/core/src/dataset-lineage.ts:485-486 | A pending correction that is not eligible is blocked by corrections that are pending too. |
| `LineageRoundTrip.StuckIsDeadlock` | packages/core/src/dataset-lineage.ts:485-486 | If no pending correction is eligible, the pending ones contain a set that waits for itself. |
| `LineageRoundTrip.MissingStops` | packages/core/src/dataset-lineage.ts:489-494 | A correction whose named replacement is not in the archive makes the import fail. |
| `LineageRoundTrip.DeadlockStops` | packages/core/src/dataset-lineage.ts:485-486 | Corrections that wait for each other are never eligible, so the import fails. |
| `LineageRoundTrip.LoopIff` | packages/core/src/dataset-lineage.ts:484-497 | With every replacement there and no corrections waiting for each other, the pending loop ends well from any of its states exactly when every turn still to come is permitted. |
| `LineageRoundTrip.ImportSucceedsIff` | packages/core/src/dataset-lineage.ts:472-499 | The archive of any valid ledger imports exactly when every named replacement is there, no corrections wait for each other, and every turn of the import order is permitted. |
| `LineageRoundTrip.RoundTrip` | packages/core/src/dataset-lineage.ts:456-499 | At every snapshot of every valid ledger the import of the export succeeds on exactly those conditions, and then holds the same six collections (as multisets) under the same sequence number. |
| `LineageCorrected.CorrectedOrder` | packages/core/src/dataset-lineage.ts:563-565 | When later revisions are only named by `correct`s of their own assertion, every turn of the import order is permitted. |
| `LineageDiscipline.DisciplineRoundTrip` | packages/core/src/dataset-lineage.ts:456-499 | When each replacement is appended after the one correction that names it and each `correct` stays with its assertion, the import of the export never fails and holds the same six collections. |
| `LineageDiscipline.StatusesSurvive` | packages/core/src/dataset-lineage.ts:567-572 | When, besides, no revision is corrected twice, every assertion revision has the same status before export and after import. |
| `LineageOrder.StatusNewest` | packages/core/src/dataset-lineage.ts:567-572 | A revision is active without corrections in the snapshot, and otherwise has the status of its newest one. |
| `LineageOrder.StatusAfterImport` | packages/core/src/dataset-lineage.ts:472-499 | After an import a revision has the status of the correction that collates last by id; the status survives exactly when that correction and the newest one have the same action. |
| `LineageOrder.UncorrectedStaysActive` | packages/core/src/dataset-lineage.ts:567-572 | A revision without corrections is active before export and after import. |
| `LineageOrder.StatusStable` | packages/core/src/dataset-lineage.ts:567-572 | The status of a revision at a snapshot is the same after any further appends. |
| `LineageOrder.ExportStable` | packages/core/src/dataset-lineage.ts:456-470 | The archive of a snapshot is the same after any further appends. |
| `LineageTransport.ExportMeans` | packages/core/src/dataset-lineage.ts:456-470 | The archive of a snapshot holds exactly the visible records of each collection, as many as are visible, in the order of their keys, under the contract, version, snapshot number and digest; outside 0 to the counter there is none. |
| `LineageTransport.ImportDemands` | packages/core/src/dataset-lineage.ts:472-475 | An archive of another contract or of a version whose major is not 1 is refused as invalid, and a recognized one whose digest is not its content's with the digest error, whatever else it holds. |
| `LineageTransport.ImportGives` | packages/core/src/dataset-lineage.ts:472-499 | Whatever the archive, one that imports was recognized and intact, and leaves a valid ledger with exactly its entities, agents, activities, evidence and corrections, and with assertions of its own only, among them one under every archived key. |
| `LineageIdentity.NothingBetween` | packages/core/src/dataset-lineage.ts:563-565 | With each revision `correct`ed once, a correction leads to the very next revision of its assertion. |
| `LineageIdentity.ArchiveIdentity` | packages/core/src/dataset-lineage.ts:456-499 | When no revision is the target of two `correct`s, exporting the imported ledger gives the very archive that was imported, digest included. |
| `LineageExamples.PlainOrder` | packages/core/src/dataset-lineage.ts:484-497 | Corrections whose targets nothing names are imported in plain id order. |
| `LineageExamples.CrossedReached` | packages/core/src/dataset-lineage.ts:280-379 | A concrete run of accepted appends reaches a ledger of two crossed corrections. |
| `LineageExamples.CrossedExactly` | packages/core/src/dataset-lineage.ts:484-497 | That history is accepted, all its replacements are present and nothing waits, yet its archive can be imported exactly when the supersession's id does not collate before that of the correction that permits the revision. |
| `LineageExamples.RevisedReached` | packages/core/src/dataset-lineage.ts:280-379 | A concrete run of accepted appends retracts a revision and afterwards corrects it. |
| `LineageExamples.StatusChanges` | packages/core/src/dataset-lineage.ts:567-572 | In that history the revision reads as corrected before the export and as retracted after the import, which succeeds. |
| `LineageExamples.CollidedReached` | packages/core/src/dataset-lineage.ts:355-360 | A concrete run of accepted appends reaches a ledger whose correction names its assertion under another split of the same `id@revision` key. |
| `LineageExamples.LosslessDropsCorrection` | packages/core/src/dataset-lineage.ts:520-522 | Projecting that ledger with every capability drops its only correction under a receipt that says lossless. |
| `LineageTraversal.TurnProgresses` | packages/core/src/dataset-lineage.ts:406-431 | Each turn of the search lowers (unvisited entities, queue length), so the loop ends. |
| `LineageTraversal.TurnKeepsQueue` | packages/core/src/dataset-lineage.ts:407-429 | Queued ids are always entities of the snapshot and queue depths stay in order. |
| `LineageReach.HeadDistance` | packages/core/src/dataset-lineage.ts:407-410 | The depth at which an id leaves the queue unvisited is its true shortest distance from the starts. |
| `LineageReach.ExploreExact` | packages/core/src/dataset-lineage.ts:406-431 | Every turn keeps: each entity is expanded at most once, at its shortest distance, with a recorded walk of that length, and edges found are exactly those touching expanded entities short of the maximum depth. |
| `LineageTraversalExact.StoppedOver` | packages/core/src/dataset-lineage.ts:430-430 | The loop stops early only with more rows than the bound. |
| `LineageTraversalExact.RowsFound` | packages/core/src/dataset-lineage.ts:433-438 | The sorted rows are what the search found, each node and each edge once. |
| `LineageTraversalExact.TraversalExact` | packages/core/src/dataset-lineage.ts:381-454 | Every row is true of the readable graph and occurs once; when the rows fit the bound, nodes are exactly the readable entities within the maximum depth whose kind is asked for or that are starts, and edges exactly the matching assertions at entities of smaller depth. |
| `LineageRoutes.TraversalMeans` | packages/core/src/dataset-lineage.ts:386-438 | With nothing taken from the search: downstream an assertion leads from its source to its target, upstream from target to source, both ways for both. Each node of the rows is a visible entity at its shortest distance by routes of usable assertions in the direction asked for, its path a route of that length; each edge is a usable assertion leading on from an entity short of the maximum depth, with its status and readable evidence at the snapshot; each once; and when the rows fit the bound no such node or edge is missing. |
| `LineageRoutes.RowsOrdered` | packages/core/src/dataset-lineage.ts:433-438 | Rows come in the order of their keys: for a node `n:`, the depth padded to eight digits and the id, for an edge `e:`, source, target, relationship name and id. |
| `LineageRoutes.AssertionsOrdered` | packages/core/src/dataset-lineage.ts:386-395 | The search tries assertions in the order of source, target, relationship name and id. |
| `LineageRoutes.TraverseMeans` | packages/core/src/dataset-lineage.ts:381-454 | A request is refused with the first reason against it (no start, bounds exceeded, snapshot not there, a start not visible and readable) or else answered with the page of the rows from its cursor's offset on, marked truncated exactly when the rows exceed the bound, with a next cursor exactly when bounded rows remain. |
| `LineagePaging.CursorRoundTrip` | packages/core/src/dataset-lineage.ts:588-594 | A cursor is accepted exactly for the snapshot and fingerprint it was issued for, and gives back its offset. |
| `LineagePaging.CursorAccepted` | packages/core/src/dataset-lineage.ts:588-594 | Any text is accepted as a cursor exactly when it is the snapshot in digits, an offset in digits that is a safe integer, and the fingerprint, a digest text, with dots between; else the cursor is invalid. |
| `LineagePaging.StartOrderIsFree` | packages/core/src/dataset-lineage.ts:581-587 | Requests that list the same starts in another order or with repetitions have the same fingerprint. |
| `LineagePaging.ForeignCursorRefused` | packages/core/src/dataset-lineage.ts:581-594 | With a digest that has no collisions a cursor of another request or snapshot is refused. |
| `LineagePaging.PagesCoverOnce` | packages/core/src/dataset-lineage.ts:433-453 | With the snapshot pinned, following the cursors shows every row of the bounded result exactly once and in order, in ceil(n / pageSize) pages, whatever is appended or rejected between the requests. |
| `LineagePaging.TraversalStable` | packages/core/src/dataset-lineage.ts:381-385 | A traversal pinned to a snapshot answers the same after any further appends, with or without a cursor. |
| `LineagePrivacy.OnlyReadable` | packages/core/src/dataset-lineage.ts:386-400 | Every node, edge and evidence item of an answer is readable under the policy, and each edge joins entities that are visible at the snapshot and readable. |
| `LineagePrivacy.HiddenHasNoInfluence` | packages/core/src/dataset-lineage.ts:381-454 | Two ledgers that differ only in entities, assertions and evidence the policy hides give the same answer, pages, cursors and errors included. |
| `LineagePrivacy.HiddenIsFree` | packages/core/src/dataset-lineage.ts:381-454 | Said of the tables: with the same readable entities and evidence, the same corrections, and assertions that are the same place by place but where the policy shows neither, the answers are the same. |
| `LineageProjection.EntityAccounted` | packages/core/src/dataset-lineage.ts:504-508 | Each archived entity is kept exactly when its kind is supported; otherwise the receipt has exactly one item for it, with its path and digest. |
| `LineageProjection.AssertionAccounted` | packages/core/src/dataset-lineage.ts:509-516 | Each archived assertion is kept exactly when its kinds are supported and both endpoints are kept; otherwise the receipt has exactly one item for it, with the first reason that applies. |
| `LineageProjection.ProjectionMeans` | packages/core/src/dataset-lineage.ts:501-543 | What is kept: entities of supported kinds; assertions of supported kinds with both ends kept; where supported, evidence that some kept assertion refers to, and corrections of the id of some kept assertion. The collective items are there exactly when evidence referred to, or corrections, go unsupported; the receipt is lossless exactly without items and carries the archive's and the projection's digest. |
| `LineageProjection.ReceiptMeans` | packages/core/src/dataset-lineage.ts:504-516 | Every entity or assertion left out has an item with its collection, its place in decimal, its digest and, for an assertion, the first reason that applies. |
| `LineageProjection.LossesOrdered` | packages/core/src/dataset-lineage.ts:523-523 | The receipt's items come in the order of their paths and then of the names of their reasons. |
| `LineageProjection.LosslessIff` | packages/core/src/dataset-lineage.ts:501-543 | When all referenced evidence is archived: keeping all entities, assertions, corrections and referenced evidence makes the receipt lossless, and a lossless receipt keeps them all exactly when every correction's assertion id is that of an archived assertion. |
| `LineageProjection.ProjectionLossless` | packages/core/src/dataset-lineage.ts:501-543 | The same for the projection of any snapshot of a valid ledger, where the evidence condition always holds. |
| `LineageProjection.ProjectionStable` | packages/core/src/dataset-lineage.ts:501-543 | A projection of a snapshot, its receipt included, is the same after any further appends. |
| `DatasetLineage.DatasetLineageLedger.constructor` | packages/core/src/dataset-lineage.ts:272-276 | A new ledger is empty and valid, with the given limits. |
| `DatasetLineage.DatasetLineageLedger.AppendEntity` | packages/core/src/dataset-lineage.ts:280-288 | Rejects with the first failing check and no change, or records the entity under the next number. |
| `DatasetLineage.DatasetLineageLedger.AppendAgent` | packages/core/src/dataset-lineage.ts:290-295 | The same for agents. |
| `DatasetLineage.DatasetLineageLedger.AppendActivity` | packages/core/src/dataset-lineage.ts:297-306 | The same for activities. |
| `DatasetLineage.DatasetLineageLedger.AppendEvidence` | packages/core/src/dataset-lineage.ts:308-319 | The same for evidence revisions, payload digest check included. |
| `DatasetLineage.DatasetLineageLedger.AppendAssertion` | packages/core/src/dataset-lineage.ts:321-362 | The same for assertion revisions, with endpoint rules, references and the permission for further revisions. |
| `DatasetLineage.DatasetLineageLedger.AppendCorrection` | packages/core/src/dataset-lineage.ts:364-379 | The same for corrections. |
| `DatasetLineage.DatasetLineageLedger.Traverse` | packages/core/src/dataset-lineage.ts:381-454 | The queue loop over mutable maps answers the specification's traversal. |
| `DatasetLineage.DatasetLineageLedger.ExportArchive` | packages/core/src/dataset-lineage.ts:456-470 | The specification's archive of the snapshot, or the error for one that is not there. |
| `DatasetLineage.DatasetLineageLedger.Project` | packages/core/src/dataset-lineage.ts:501-543 | The specification's projection, losses pushed in loops. |
| `DatasetLineage.DatasetLineageLedger.ImportTurn` | packages/core/src/dataset-lineage.ts:485-496 | One turn of the pending loop: the correction, then the replacement if it is not in yet. |
| `DatasetLineage.ImportArchive` | packages/core/src/dataset-lineage.ts:472-499 | A fresh ledger holding the specification's import, or its error. |
| `CanonicalJson.ParseCanonical` | packages/core/src/dataset-lineage.ts:207-215 | A prefix parser for JSON text (RFC 8259, string escapes of its section 7) undoes the canonical text of every value, whatever follows it. |
| `CanonicalJson.MeaningFixesText` | packages/core/src/dataset-lineage.ts:207-215 | The text does not depend on the order in which members were written, at any depth. |
| `CanonicalJson.TextDeterminesValue` | packages/core/src/dataset-lineage.ts:207-219 | Two values have the same canonical text exactly when they are the same JSON value. |
| `Utf8.BytesRoundTrip` | packages/core/src/dataset-ingest.ts:231-233 | Decoding undoes UTF-8 encoding of every string of Unicode scalar values. |
| `Utf8.ComponentInjective` | packages/core/src/dataset-ingest.ts:235-237 | `encodeURIComponent` maps different strings to different strings. |
| `Utf8.ComponentHasNoSlash` | packages/core/src/dataset-ingest.ts:235-237 | An encoded component has no slash. |
| `Utf8.EscapesExactly` | packages/core/src/dataset-ingest.ts:235-237 | Letters, digits and `-_.!~*'()` stay as they are; every other character becomes one escape for each of its UTF-8 bytes. |
| `DatasetRequest.ScopeKeysAgree` | packages/core/src/dataset-ingest.ts:235-237 | Scope keys agree exactly on scopes that are equal once an absent partition is read as the empty one. |
| `DatasetRequest.DigestsAgree` | packages/core/src/dataset-ingest.ts:225-233 | Digests agree exactly on values that are the same JSON. |
| `DatasetRequest.RequestDigestsAgree` | packages/core/src/dataset-ingest.ts:315-315 | Request digests agree exactly on requests with the same canonical content. |
| `DatasetContent.SameRequestMeans` | packages/core/src/dataset-ingest.ts:315-315 | Requests have the same content exactly when plan and batch agree field by field, mutation values being the same JSON. |
| `DatasetContent.DigestMeans` | packages/core/src/dataset-ingest.ts:315-315 | With a hash without collisions, request digests agree on exactly those requests. |
| `DatasetContent.KeyMeans` | packages/core/src/dataset-ingest.ts:239-255 | The key is the caller's own when given and not empty; derived keys agree exactly on requests alike in the listed fields, among which policy, reconciliation, schema versions and enumeration are not. |
| `DatasetRequest.SameRequestSameSequence` | packages/core/src/dataset-ingest.ts:315-315 | Requests with the same content have the same batch sequence number. |
| `DatasetRequest.SameRequestSameDestination` | packages/core/src/dataset-ingest.ts:315-315 | Requests with the same content have the same destination. |
| `DatasetRequest.CheckpointTextsAgree` | packages/core/src/dataset-ingest.ts:331-333 | Comparing checkpoints by canonical text is comparing them. |
| `IngestStore.StepKeeps` | packages/core/src/dataset-ingest.ts:178-210 | Every step of the queue system (arrive, acquire, run a stretch, conclude, settle) keeps its invariant. |
| `IngestStore.OneHolder` | packages/core/src/dataset-ingest.ts:179-184 | At every moment of every interleaving at most one call of a scope is past its wait and not finished, even right after a queue entry was deleted. |
| `IngestStore.Serializable` | packages/core/src/dataset-ingest.ts:178-210 | At every moment of every interleaving each finished call has the outcome it has when the earlier calls of its scope run one after another before it, and the scope holds what its finished calls, the first ones in call order, leave when run serially. |
| `IngestStore.AbortLeavesNothing` | packages/core/src/dataset-ingest.ts:203-209 | A call whose operation throws leaves its scope as its predecessors left it. |
| `IngestStore.StepsWork` | packages/core/src/dataset-ingest.ts:178-210 | Every step but an arrival uses up work, so finitely many steps after the last arrival nothing is left to do. |
| `IngestStore.NeverStuck` | packages/core/src/dataset-ingest.ts:179-184 | The first unfinished call of a scope, or the predecessor it waits for, can always take a step. |
| `DatasetIngest.PassesExactly` | packages/core/src/dataset-ingest.ts:273-285 | A batch passes the checks exactly when it starts at the committed checkpoint, advances it by one, both checkpoints are of the contract, of a version of the first major and of the destination (absent partition read as empty), and its tombstones are allowed. |
| `IngestRules.ContractMeans` | packages/core/src/dataset-ingest.ts:264-271 | Plan and batch must be of the contract and then of versions of its first major; the code says which fails. |
| `IngestRules.RefusalMeans` | packages/core/src/dataset-ingest.ts:330-352 | The checks on a batch in order, with the code of the first that fails: the checkpoint it starts from is the destination's and the committed one; the one it ends at is the destination's, has the batch's number and is the next; tombstones need reconciliation, a complete enumeration, and approval beyond the threshold. |
| `IngestRules.ScreeningMeans` | packages/core/src/dataset-ingest.ts:354-373 | Screening goes through exactly when the signal is never seen raised and the policy tolerates what the validator refuses, with the others accepted in order and for each refused one a rejection without the record's value; else it stops at the first incident with its code. |
| `IngestRules.CommitsExactly` | packages/core/src/dataset-ingest.ts:324-406 | A batch commits exactly when its key is new to the scope, its checks pass, its refusals are tolerated, no check finds the signal raised and the before-commit hook succeeds. |
| `IngestRules.ReceiptMeans` | packages/core/src/dataset-ingest.ts:380-400 | A receipt records run, key, request digest, plan, source revision, destination, mode, effects, counts, rejections and both checkpoints of its request. |
| `IngestRules.AttemptMeans` | packages/core/src/dataset-ingest.ts:324-406 | What an attempt answers and leaves, case by case: replay, conflict, refusal, stop in screening, failed hook, late cancel, or the commit with its receipt, records and checkpoint. |
| `IngestBooks.BooksMean` | packages/core/src/dataset-ingest.ts:311-416 | After an attempt only its own scope's entries differ: the last attempt (committed, degraded, cancelled or failed, with its code), and on a commit the state and the last success; a failing after-commit hook fails a call whose commit stands. |
| `IngestBooks.OutputMeans` | packages/core/src/dataset-ingest.ts:379-397 | With a hash without collisions, output digests agree exactly on receipts with the same effects in the same order. |
| `DatasetIngest.ScreenExact` | packages/core/src/dataset-ingest.ts:354-372 | The screening loop goes through exactly when no check finds the signal raised and the policy tolerates the rejections; then it accepts exactly the mutations the validator passes, in order, and counts the others. |
| `DatasetIngest.LastWriteWins` | packages/core/src/dataset-ingest.ts:374-378 | After a batch a record with a mutation is that of its last one: same revision and digest, the value of an upsert, a tombstone for a tombstone. |
| `DatasetIngest.UntouchedStays` | packages/core/src/dataset-ingest.ts:374-378 | A record without a mutation in the batch is as before. |
| `DatasetIngest.ReceiptAccounts` | packages/core/src/dataset-ingest.ts:379-400 | A receipt counts every mutation once, as accepted or rejected, lists the accepted ones in order as its effects, and is degraded exactly when some were rejected. |
| `DatasetIngest.ReceiptsOf` | packages/core/src/dataset-ingest.ts:403-404 | A state's receipts are exactly those of its accepted batches, each under its own key. |
| `DatasetIngest.RunAlone` | packages/core/src/dataset-ingest.ts:324-406 | What one transaction leads to: a committed receipt is that of the very request and is stored under its key; an abort commits nothing. |
| `DatasetIngest.AttemptExtends` | packages/core/src/dataset-ingest.ts:324-406 | An attempt run on the state of a history leaves the state of that history, extended by this batch exactly when it commits. |
| `DatasetIngest.ExtendChain` | packages/core/src/dataset-ingest.ts:324-406 | A committing attempt adds an entry with the next sequence number, starting at the checkpoint where the last one ended, under a key not used before. |
| `DatasetIngest.ConflictExactly` | packages/core/src/dataset-ingest.ts:325-329 | An attempt ends in a conflict exactly when the scope resolves its key to a receipt of other content; `resolveAmbiguousCommit` then returns a receipt that is not the attempt's own. |
| `IngestExamples.LimitChangesDigestOnly` | packages/core/src/dataset-ingest.ts:239-255 | Another rejection limit under the same stated plan digest leaves the idempotency key of a request and changes its request digest. |
| `IngestExamples.OtherLimitConflicts` | packages/core/src/dataset-ingest.ts:325-329 | Once a request is committed, the same batch under a plan with another rejection limit conflicts with it, and resolving it returns the committed receipt. |
| `IngestExamples.RetryConflicts` | packages/core/src/dataset-ingest.ts:324-406 | A concrete first batch of a scope that commits, and its retry with room for one rejected record that conflicts. |
| `IngestHistory.SerialIsHistory` | packages/core/src/dataset-ingest.ts:324-406 | Running the calls of a scope serially leaves the state of the history of its accepted batches. |
| `IngestHistory.HistoryCommits` | packages/core/src/dataset-ingest.ts:324-406 | Every history leaves a state with exactly one receipt per sequence number 1..n, each starting where the one before ended, the last one ending at the checkpoint. |
| `IngestHistory.HistoryOwn` | packages/core/src/dataset-ingest.ts:279-285 | A history of a scope's requests leaves that scope's own state: every receipt's destination and closing checkpoint, and the scope's checkpoint, belong to the scope and are of the contract and its first major. |
| `IngestHistory.CommittedHistory` | packages/core/src/dataset-ingest.ts:178-210 | After any interleaving of attempts a scope holds the state of a history of accepted batches, with one receipt per number, all checkpoints the scope's own, and the records that the accepted mutations leave in that order. |
| `IngestHistory.ReceiptsStay` | packages/core/src/dataset-ingest.ts:324-406 | A receipt, once in a scope's state, stays as it is. |
| `IngestHistory.CommittedAnswers` | packages/core/src/dataset-ingest.ts:311-413 | In any interleaving a call that commits returns the receipt of its own request, and from then on the scope resolves the request to that receipt. |
| `IngestHistory.AtMostOnce` | packages/core/src/dataset-ingest.ts:324-406 | No two accepted batches of a history have the same content. |
| `IngestHistory.SameAnswer` | packages/core/src/dataset-ingest.ts:324-329 | All committing calls for the same content, however retried and interleaved, return the same receipt. |
| `IngestHistory.FailedCalls` | packages/core/src/dataset-ingest.ts:311-420 | A call that fails, before or after its commit, either left the scope as it found it or its request resolves, from then on, to the receipt it was committed under. |
| `DatasetIngestExecution.DatasetIngestExecutor.ScreenAll` | packages/core/src/dataset-ingest.ts:354-373 | The loop with its cancel checks returns the specification's screening. |
| `DatasetIngestExecution.DatasetIngestExecutor.WriteRecords` | packages/core/src/dataset-ingest.ts:374-378 | The loop leaves the records that the accepted mutations leave, applied in order. |
| `DatasetIngestExecution.DatasetIngestExecutor.BeginRun` | packages/core/src/dataset-ingest.ts:325-378 | The transaction up to its wait: replay, refusal, or a draft with the accepted mutations. |
| `DatasetIngestExecution.DatasetIngestExecutor.FinishRun` | packages/core/src/dataset-ingest.ts:379-405 | The commit, or the refusal of a failed hook or late cancel. |
| `DatasetIngestExecution.DatasetIngestExecutor.RunTransaction` | packages/core/src/dataset-ingest.ts:324-406 | The body on a draft has the outcome of the operation the store interleaves. |
| `DatasetIngestExecution.DatasetIngestExecutor.Transact` | packages/core/src/dataset-ingest.ts:186-209 | The draft replaces the scope's state exactly when the transaction commits. |
| `DatasetIngestExecution.DatasetIngestExecutor.ExecuteBatch` | packages/core/src/dataset-ingest.ts:311-416 | A contract refusal changes nothing; otherwise the store, the last attempt and the last success end as the attempt's outcome says, and a failing after-commit hook fails a call whose commit stands. |
| `DatasetIngestExecution.DatasetIngestExecutor.ResolveAmbiguousCommit` | packages/core/src/dataset-ingest.ts:418-420 | Returns the receipt stored under the request's key. |
| `ChunkedSearch.EntriesConcat` | packages/core/src/aiwg-index.ts:1899-1931 | Scanning records piece by piece, each at its own offset, finds what one scan finds. |
| `ChunkedSearch.EntriesPlaced` | packages/core/src/aiwg-index.ts:1899-1931 | Entries come in index order, each with the record at its place. |
| `SearchMeaning.ListedMeans` | packages/core/src/aiwg-index.ts:1899-1931 | A record has an entry exactly when it is picked: under the default profile a query that is not empty occurs in the lowered title, text, a tag, a concept or a search value (discovery asks its scorer); its type and classification are among those asked for; every wanted tag and concept is among its own and every wanted value among its facet of the name; and the relationship target asked for is one of its targets. |
| `ChunkedSearch.SortedRight` | packages/core/src/aiwg-index.ts:1933-1938 | A result's ranked list is the entries in strict order of rank and place. |
| `SearchMeaning.RankMeans` | packages/core/src/aiwg-index.ts:1863-1865 | Under the default profile a rank is the sum over title, text, tags, concepts and further search values of the field's weight for each that has the query, by the caller's weight or the default one. |
| `SearchMeaning.FacetsMean` | packages/core/src/aiwg-index.ts:1344-1359 | The facet counts count, for every name and value, the records of that type, classification, and each occurrence of a tag, concept and facet value. |
| `SearchMeaning.WholeMeans` | packages/core/src/aiwg-index.ts:1966-1977 | The whole-index query answers the picked records: their number, the page of them in order of rank (if asked for) and place, their facet counts; overlap is relaxed exactly when a discovery query picks nothing without. |
| `SearchMeaning.PlainMeans` | packages/core/src/aiwg-index.ts:1933-1965 | The same for a query without the retry. |
| `ChunkedIndex.BuildChunkedIndex` | packages/core/src/aiwg-index.ts:1570-1630 | The partition loop: part i holds the kept records, slimmed if there is a projection, from i times the size on, as many parts as needed and no more, with offsets, counts, names and total to match; the facet counts are those of the full records, and with a projection each kept record has its detail file. |
| `ChunkedIndex.KeptMeans` | packages/core/src/aiwg-index.ts:504-518 | Built in are exactly the records that are not private and hold no personal data, or those too where asked for, each as often as before. |
| `ChunkedIndex.HrefText` | packages/core/src/aiwg-index.ts:1592-1594 | Part names are `part-`, the number padded to four digits, `.json`. |
| `ChunkedIndex.BuiltIsWhole` | packages/core/src/aiwg-index.ts:1570-1630 | A built index, served from its files, has a valid manifest and distinct part keys and stands for exactly the kept records in order, as its parts carry them. |
| `ChunkedIndex.DetailsResolve` | packages/core/src/aiwg-index.ts:1327-1329 | With distinct ids, each kept record is in full in the detail file its id leads to exactly when the template has a placeholder or there is at most one record. |
| `ChunkedIndex.HrefInjective` | packages/core/src/aiwg-index.ts:1595-1599 | Part file names are all different. |
| `ChunkedIndex.PartKeyInjective` | packages/core/src/aiwg-index.ts:2140-2142 | A part cache key determines the part's offset and href. |
| `ChunkedRuntime.KeyDetermines` | packages/core/src/aiwg-index.ts:2159-2175 | Two queries with the same match-set key have the same entries on every index. |
| `ChunkedRuntime.EvictedRight` | packages/core/src/aiwg-index.ts:2177-2190 | What the match cache keeps is a run of its newest sets, unchanged, within the budget or a single one. |
| `ChunkedRuntime.EvictsNoMore` | packages/core/src/aiwg-index.ts:2177-2190 | Any run of the newest sets that fits the budget is kept. |
| `ChunkedRuntime.BrowsedRight` | packages/core/src/aiwg-index.ts:2205-2212 | Cutting the parts in range to the range yields that range of the whole. |
| `ChunkedRuntime.ChunkedRuntime.constructor` | packages/core/src/aiwg-index.ts:2539-2557 | A new runtime is valid with empty caches, its bounds 3 parts and 5000 entries where the given ones are not positive. |
| `ChunkedRuntime.ChunkedRuntime.Clear` | packages/core/src/aiwg-index.ts:2650-2656 | Empties both caches. |
| `ChunkedRuntime.ChunkedRuntime.LoadPart` | packages/core/src/aiwg-index.ts:2214-2234 | Returns the loader's part or the validation error; on success the part is the newest of the cached ones, the oldest ones dropped to the bound. |
| `ChunkedRuntime.ChunkedRuntime.CacheMatchEntries` | packages/core/src/aiwg-index.ts:2177-2190 | Leaves the cache with this set newest and the oldest ones evicted to the budget. |
| `ChunkedRuntime.ChunkedRuntime.Browse` | packages/core/src/aiwg-index.ts:2415-2437 | A direct browse succeeds exactly when every part that overlaps the page is valid; when all parts are, it answers the page of the whole content by place, with the manifest's own facet counts. |
| `ChunkedRuntime.ChunkedRuntime.Scan` | packages/core/src/aiwg-index.ts:2456-2466 | The part-by-part scan finds the entries of the whole content, or fails exactly when some part is invalid. |
| `ChunkedRuntime.ChunkedRuntime.Query` | packages/core/src/aiwg-index.ts:2406-2476 | Whatever was queried and evicted before, a query answers from the content alone: a mere page by place, anything else what the trimmed and lowered query picks; it fails exactly when a part it needs is invalid, scans no part on a cached set and all of them otherwise, and keeps both caches right. |
| `ChunkedRuntime.ChunkedMeans` | packages/core/src/aiwg-index.ts:2406-2476 | On a built index's content every chunked answer, direct browse included, is what the query picks of the records without any retry. |
| `ChunkedRuntime.ChunkedIsWhole` | packages/core/src/aiwg-index.ts:1966-1977 | On a built index's content the chunked answer is the whole-index answer, except exactly when a discovery query finds nothing strictly and something relaxed. |
| `ChunkedRuntime.BuildAndServe` | packages/core/src/aiwg-index.ts:2406-2476 | From build to answer: an index built without projection with any part size, served from its files under any cache bounds, answers every query of any series, with caches cleared anywhere in between, with what the query picks of the kept records; that is the whole-index answer exactly when the query needs no relaxed retry. |
| `EditDistance.SameLengthWithinOne` | packages/core/src/aiwg-index.ts:1702-1716 | For strings of equal length, the count and first difference decide one substitution or one swap of neighbours. |
| `EditDistance.GreedyWithinOne` | packages/core/src/aiwg-index.ts:1718-1733 | The greedy skip finds an insertion exactly when there is one. |
| `EditDistance.DamerauLevenshteinAtMostOne` | packages/core/src/aiwg-index.ts:1698-1734 | True exactly when the strings are equal or one substitution, insertion, deletion or swap of neighbours apart. |
| `DetailId.Base64UrlRoundTrip` | packages/core/src/aiwg-index.ts:1315-1322 | A decoder undoes the URL-safe base64 form (RFC 4648 section 5, padding removed) of every byte string. |
| `DetailId.Base64UrlIsSafe` | packages/core/src/aiwg-index.ts:1315-1322 | The form uses letters, digits, hyphen and underscore only. |
| `DetailId.DetailIdInjective` | packages/core/src/aiwg-index.ts:1315-1322 | Different ids have different encodings, in either encoding. |
| `DetailId.EncodingMeans` | packages/core/src/aiwg-index.ts:1315-1322 | The URI form reads back by removing percent escapes, the other by base64 decoding, each to the id's UTF-8 bytes. |
| `DetailId.FillsFirst` | packages/core/src/aiwg-index.ts:1327-1329 | The first placeholder of the template is replaced and nothing else; without one the template is the name. |
| `DetailId.HrefsDistinct` | packages/core/src/aiwg-index.ts:1327-1329 | Different ids get different file names exactly when the template has a placeholder, which the builder does not check. |
| `SemanticVersion.ParsesSpelled` | packages/core/src/dataset-execution-capabilities.ts:138-145 | Every text of the version pattern is read as it is spelled, within the length and safe-integer bounds. |
| `SemanticVersion.ParsedMatches` | packages/core/src/dataset-execution-capabilities.ts:138-145 | Whatever is accepted matches the pattern of the descriptor schema. |
| `SemanticVersion.MatchesAgree` | packages/core/src/dataset-execution-capabilities.ts:138-145 | The parser's checks are the grammar: three numerals without leading zeros, then identifiers after a hyphen, numerals among them without leading zeros, then identifiers after a plus. |
| `SemanticVersion.NumeralOrder` | packages/core/src/dataset-execution-capabilities.ts:168-173 | On numeric identifiers without leading zeros, length then ASCII is integer order. |
| `SemanticVersion.CompareVersionTexts` | packages/core/src/dataset-execution-capabilities.ts:152-176 | The two loops with their early returns compute the comparison. |
| `SemanticVersion.CompareAgrees` | packages/core/src/dataset-execution-capabilities.ts:152-176 | The comparison is the precedence of section 11 of Semantic Versioning 2.0.0; it is zero exactly on the same core and prerelease. |
| `SemanticVersion.LowerTransitive` | packages/core/src/dataset-execution-capabilities.ts:152-176 | That precedence is transitive. |
| `SemanticVersion.TotalPreorder` | packages/core/src/dataset-execution-capabilities.ts:152-176 | Defined exactly on two well-formed versions; total and transitive there. |
| `CapabilityNegotiation.ValidateDeclarations` | packages/core/src/dataset-execution-capabilities.ts:207-231 | The declaration loop reports the specification's diagnostics and registers the readable declarations. |
| `NegotiationMeaning.ValidExactly` | packages/core/src/dataset-execution-capabilities.ts:190-255 | A descriptor has no diagnostics exactly when it is sound: the contract, a schema version of major 1 and a runtime version; every declaration has a known id, a version, safe limits, evidence if offered, and names declared evidence only; ids are distinct; what an offered capability needs is offered; and guarantees and plane have what they stand on. |
| `NegotiationMeaning.DiagnosticsMean` | packages/core/src/dataset-execution-capabilities.ts:190-255 | Each diagnostic of a descriptor, by code and capability, has its cause there and each cause draws its diagnostic; of declarations with one id the last well-formed one counts. |
| `NegotiationMeaning.AssessMeans` | packages/core/src/dataset-execution-capabilities.ts:285-306 | On sound declarations nothing is missing exactly when some declaration offers the capability (supported or experimental), the minimum does not come after its version in section 11 of Semantic Versioning 2.0.0, and each requested limit is at most the declared one, which may be absent only under a negative request; otherwise the reason is the first of these that fails. |
| `CapabilityNegotiation.AssessRequirement` | packages/core/src/dataset-execution-capabilities.ts:285-306 | The early returns compute the specification's assessment. |
| `CapabilityNegotiation.NegotiateCapabilities` | packages/core/src/dataset-execution-capabilities.ts:309-351 | The two loops compute the specification's negotiation. |
| `NegotiationMeaning.NegotiableExactly` | packages/core/src/dataset-execution-capabilities.ts:309-320 | Where descriptor or request does not pass validation the answer is not accepted, holds diagnostics, and selects and degrades nothing. |
| `NegotiationMeaning.AcceptedExactly` | packages/core/src/dataset-execution-capabilities.ts:309-351 | A request is accepted exactly when both sides pass validation and every required capability is met in those terms. |
| `NegotiationMeaning.ReportedExactly` | packages/core/src/dataset-execution-capabilities.ts:321-325 | Exactly the required capabilities that fall short are reported, once each and in order, with the code of the reason. |
| `NegotiationMeaning.SelectedExactly` | packages/core/src/dataset-execution-capabilities.ts:321-347 | Selected, each once, are the ids of the met requirements and the first offered fallback of each unmet optional one; all are offered. |
| `NegotiationMeaning.DegradedExactly` | packages/core/src/dataset-execution-capabilities.ts:326-341 | Exactly the optional requirements that fall short are degraded, once each and in order, with the reason and the first offered fallback. |
| `NegotiationMeaning.GrowthKeepsAcceptance` | packages/core/src/dataset-execution-capabilities.ts:285-351 | When everything a sound descriptor offers stays offered in another sound one, at versions that do not precede and with limits that are no lower, an accepted request stays accepted and no met optional requirement becomes degraded. |
| `Neighborhood.BuildAdjacency` | packages/graph/src/neighborhood.ts:5-21 | The map has an entry for exactly the listed ids and edge endpoints, holding exactly their neighbours. |
| `Neighborhood.ReachIsWalk` | packages/graph/src/neighborhood.ts:57-69 | Being within k hops is having a walk of at most k edges from a start. |
| `Neighborhood.Hop` | packages/graph/src/neighborhood.ts:58-66 | One hop finds exactly the unseen neighbours of the frontier. |
| `Neighborhood.ReachStops` | packages/graph/src/neighborhood.ts:67-67 | Once a hop adds nothing, no later one does. |
| `Neighborhood.ExpandNeighborhood` | packages/graph/src/neighborhood.ts:39-75 | Exactly the ids to which a path of at most `depth` edges, taken either way, leads from a seed that is listed or at an edge's end (with depth 0 from any seed), less the seeds when they are not wanted. |
| `Neighborhood.FilterCommunityGraph` | packages/graph/src/filter.ts:30-65 | The node set built in place is exactly what communities or allow-list or nodes permit less what the predicate refuses, and the result is the subgraph it induces with the edges of the kinds asked for. |
| `Neighborhood.RestrictedIsInduced` | packages/graph/src/filter.ts:55-64 | The restricted graph is induced: the listed ids of the set and all edges between them whose kind, an absent one counting as empty, is asked for, each as often as before, with communities trimmed and not empty. |
| `Neighborhood.NeighborhoodSubgraph` | packages/graph/src/neighborhood.ts:90-96 | The induced subgraph on what is reached; when edges join listed nodes its nodes are exactly the reached ids. |
| `JobQueue.JobQueueWorker.BlockForCapability` | packages/core/src/job-queue-worker.ts:302-312 | The row of the job carries the blocking message, stays pending if it was and keeps its retry count and everything else; rows of other jobs do not change. |
| `JobQueue.JobQueueWorker.Retry` | packages/core/src/job-queue-worker.ts:276-295 | The row has one retry more than the selected job, the error text, and is failed exactly when the job's own limit, or the worker's when it names none, is reached, and otherwise pending; its other fields and the other rows do not change. |
| `JobQueue.JobQueueWorker.ProcessPendingJobs` | packages/core/src/job-queue-worker.ts:220-300 | The batch loop leaves the specification's table and counts the jobs that completed. |
| `JobQueue.BatchRuns` | packages/core/src/job-queue-worker.ts:239-297 | After a batch each selected row is as its own run left it and every other row as before. |
| `JobQueueMeaning.BatchMeans` | packages/core/src/job-queue-worker.ts:221-226 | The SELECT's batches, by columns: pending rows, each once, in ascending priority and then creation time, ten of them or all there are, and no pending row left out would come earlier. |
| `JobQueueMeaning.PassMeans` | packages/core/src/job-queue-worker.ts:239-297 | What a pass leaves: a selected row without a handler is as before; one whose required capability is not ready stays pending with the blocking message; otherwise success completes it without error, and failure adds one retry and the error, failed exactly when the job's limit, or the worker's if that is zero, is reached, else pending. All other rows are untouched. |
| `JobQueueMeaning.ProcessedMeans` | packages/core/src/job-queue-worker.ts:258-273 | The number a pass returns is that of the rows it turned from pending to completed. |
| `JobQueue.OthersStay` | packages/core/src/job-queue-worker.ts:220-300 | Rows a batch does not select stay as they are. |
| `JobQueue.BatchProgress` | packages/core/src/job-queue-worker.ts:220-300 | When every pending job can run, a batch lowers the attempts left by at least its length. |
| `JobQueue.Drains` | packages/core/src/job-queue-worker.ts:220-300 | Then a run of non-empty batches is no longer than the attempts there were, whatever the handlers do. |
| `JobQueue.EmptyMeansDone` | packages/core/src/job-queue-worker.ts:221-226 | A batch is empty exactly when nothing is pending. |
| `JobQueue.FinalStays` | packages/core/src/job-queue-worker.ts:220-300 | A job that is not pending stays exactly as it is over any run. |
| `JobQueue.RunsBounded` | packages/core/src/job-queue-worker.ts:276-295 | Over any run a job's handler runs plus the attempts it has left never exceed what it had. |
| `JobQueueMeaning.RunsExactly` | packages/core/src/job-queue-worker.ts:276-297 | Over any run of passes, a row that started pending has one retry more for every failed handler run; it is failed exactly when its last run reached the limit and none before did, and pending only below it. |
| `JobQueue.FreshJobRuns` | packages/core/src/job-queue-worker.ts:276-295 | A job with retry count 0 runs at most max(1, limit) times, the limit being its own or, if that is zero, the worker's. |
| `JobQueueStarvation.BatchHasRunnable` | packages/core/src/job-queue-worker.ts:221-226 | When fewer than ten stuck jobs (pending, not runnable) sort before a runnable one or tie with it, every batch has a runnable job. |
| `JobQueueStarvation.BatchExcludes` | packages/core/src/job-queue-worker.ts:221-226 | Ten stuck jobs that sort strictly before a pending job keep it out of every batch. |
| `JobQueueMeaning.StuckMeans` | packages/core/src/job-queue-worker.ts:221-248 | Which rows these are, by columns: pending, with no handler or a required capability that is not ready, before the row or not after it in priority and creation time. |
| `JobQueueStarvation.NeverSelected` | packages/core/src/job-queue-worker.ts:220-300 | Then it is never selected in any run of passes and nothing about its row changes. |
| `JobQueueStarvation.SelectedWithin` | packages/core/src/job-queue-worker.ts:220-300 | With fewer than ten stuck jobs before it or tied with it, a runnable job is selected in every run, within one pass more than the attempts that all pending jobs have left. |
| `JobQueueStarvation.PreferredIsBatch` | packages/core/src/job-queue-worker.ts:221-226 | The first ten rows of the order with ties decided for or against one job are a batch the SELECT may return. |
| `JobQueueStarvation.StarvesExactly` | packages/core/src/job-queue-worker.ts:220-300 | A runnable job is certain to be selected exactly when fewer than ten stuck jobs are before it or tied with it, and never selected exactly when at least ten are strictly before it; in between the order of ties decides. |
| `JobQueueStarvation.TitleStarves` | packages/core/src/job-queue-worker.ts:220-300 | A concrete table of ten embedding jobs without their capability and a runnable title job that is never selected. |
| `BlobStore.MemoryBlobStore.PutBytes` | packages/core/src/blob-store.ts:124-133 | Counts one more reference, or stores the bytes under their hash with one. |
| `BlobStore.MemoryBlobStore.Delete` | packages/core/src/blob-store.ts:143-145 | Removes the entry and says whether it was there. |
| `BlobStore.MemoryBlobStore.Reconcile` | packages/core/src/blob-store.ts:147-178 | Reference counts become the numbers of live references, unreferenced entries go if asked for, the report is right, and bytes before are bytes kept plus bytes freed. |
| `BlobStore.MemoryBlobStore.Gc` | packages/core/src/blob-store.ts:180-193 | Exactly the unreferenced entries old enough go; bytes before are bytes kept plus bytes freed. |
| `BlobStore.BytecaskBlobStore.Reconcile` | packages/core/src/blob-store.ts:264-322 | The same report from objects and index, sizes taken from the index where it has them and live hashes being what follows a checksum's first colon; the index holds one entry per object kept, with count 1 or 0 and its known age, and unreferenced objects go if asked for. |
| `BlobStore.ReportUnique` | packages/core/src/blob-store.ts:147-178 | Sizes and live checksums determine the report. |
| `BlobStoreLaws.NeverSwept` | packages/core/src/blob-store.ts:124-193 | Content counted as referenced stays with its bytes through any run of puts, collections and reconciliations that keep naming it. |
| `BlobStoreLaws.LiveStays` | packages/core/src/blob-store.ts:147-193 | Content present and live in the last reconciliation survives any puts and collections since. |
| `BlobStoreLaws.PutReadsBack` | packages/core/src/blob-store.ts:124-137 | What was put reads back as it was as long as later reconciliations name it. |
| `BlobStoreLaws.SweptExactly` | packages/core/src/blob-store.ts:147-193 | A collection right after a reconciliation keeps exactly what is live or too young. |
| `BlobStoreLaws.BytesConserved` | packages/core/src/blob-store.ts:124-193 | Over any run, bytes at the start plus bytes added are bytes at the end plus bytes freed. |
| `BlobStoreLaws.ReportsAgree` | packages/core/src/blob-store.ts:147-178 | On the same objects with consistent index sizes the two reconciliations report alike exactly when every live checksum has the canonical prefix, which the adapter-backed one strips unread. |
| `Sorting.SortStable` | packages/core/src/dataset-lineage.ts:433-438 | The library sort is stable: by the comparison, ties in original order. |

## Left out

- Cloning of stored values: records are values here, so aliasing between the caller's objects and stored ones does not arise.
- Cursor snapshots and offsets above 2^53, where `Number` rounds; canonical numbers are integers and strings have no unpaired surrogates, so texts of fractions and of such strings are not covered.
- Calendar validity of timestamps: the shape is checked as in the code, `Date.parse` is an argument.
- The texts of digests over ledger objects: a digest is a function of the object, with the canonical text's injectivity proved separately.
- The text `undefined` that the derived idempotency key's canonical text has in place of an absent starting checkpoint; the model leaves the member out there.
- The executor's `status`, `preview` and `connectionCheck`, and waits inside the operation other than the one for the before-commit hook.
- IngestHistory.CommittedHistory: speaks of calls that reach the transaction; a call refused before it (contract, first cancel check) changes no state, as ExecuteBatch states.
- Chunked queries that overlap in time, the detail cache and `getChunkRecord`; validation of a part's records beyond its offset and count.
- ChunkedRuntime.KeyDetermines: takes the match key as the tuple of its fields rather than as its JSON text, so weights that are not finite numbers are not covered.
- ChunkedRuntime.ChunkedRuntime.constructor: asks that parts with one cache key be the same part, which built manifests satisfy; the manifest check also lets through a part of count zero that shares offset and name with one that is not empty.
- ChunkedRuntime.BuildAndServe: is about indexes built without a projection; over slimmed records search sees less, and facet counts are still those of the full ones.
- CanonicalJson.ParseCanonical: covers integers and strings without unpaired surrogates; texts of fractions, `undefined` members and unpaired surrogates are not modelled.
- CanonicalJson.MeaningFixesText: covers the same values.
- CanonicalJson.TextDeterminesValue: covers the same values.
- The discovery scorer and the text of snippets are arguments of the query.
- Schema validation of descriptors and requests: negotiation starts from structurally valid values; messages and paths of diagnostics are not modelled.
- Graph layout, rendering, bounds and similarity scores.
- JobQueueStarvation.StarvesExactly: takes the registered handlers and the ready capabilities as fixed over a run; jobs enqueued and capabilities loaded between passes start a new run.
- Job rows are a table updated in place; SQL, polling, recovery of interrupted jobs, backoff delays, handlers that enqueue jobs and failure listeners that throw are not modelled.
- The blob facade's own collection, diagnostics and migration; `Date.now` is an argument.
- React components, workers, the remote backend, shards, capability loading and archive management, which would add only easy members.
