# efloud: verified model of the repository core

This project models the part of efloud that decides what the repository remembers: how a new upstream
listing is compared with the last recorded tree, how runs and operations are driven, how content is
written, collected and survives crashes, and how snapshots and datasets resolve and leave the repository.
It proves properties that hold over whole histories. `dafny verify dfyconfig.toml` checks all of it.

## How the model is built

- Tables are sequences or maps of rows, and a SQLite transaction is one step. Code that changes state is a
  class whose methods are proved equal to functions on the table values (`Repository.Repository`,
  `Collection.RecordingState`, `Lifecycle.GuardedCatalog`, `Maintenance.Disk`, `Export.Staging`,
  `Derivation.DerivedRecorder`, with the loop of `Executions.RunDerivedOperation` over it); the theorems are about those functions.
- Stable ids and SHA-256 are injective. In the store an id is the payload it digests; where text ids are
  compared with payloads (envelopes, detached manifests) the digest is a function parameter with the law
  it needs. JSON text and bytes are inverse function parameters. A floating-point number is the integer its 64
  bits spell, and `Instances.dfy` shows that these laws can be met.
- Times are integers. Two rows at one time are ordered by the digest of their ids, which is an arbitrary
  number: every theorem holds for any such ranking, passed as `rank`.
- Concurrency is a machine whose steps come in any order: tasks of a wave (`Scheduler`), executions with
  their surviving tasks (`Lifecycle`), processes that write, clean up or are killed (`CrashSafety`).

| file | what it holds |
|---|---|
| `Models.dfy`, `Ordering.dfy` | shared values; text order and stable sorting |
| `Reconciliation.dfy` | inventory against baseline: the algorithm and an independent definition |
| `Store.dfy`, `Rsync.dfy`, `Incomplete.dfy` | tables and recorders; one rsync reconciliation, and one transfer without a complete listing, as functions |
| `Resolver.dfy`, `Agreement.dfy` | every kind of step, snapshot resolution, the audit, frozen answers; recorder against resolver |
| `Reuse.dfy`, `Runs.dfy`, `SharedTrees.dfy` | when reuse of content is the same as reading every file, in one call and over a run, and why evidence must be honest across sources |
| `Histories.dfy`, `Index.dfy` | what one source's recordings leave behind in any history of the repository, and which paths are indexed |
| `Decisions.dfy`, `Repository.dfy` | the imperative writer, its rsync loops and its resolver |
| `Collection.dfy`, `CollectionSteps.dfy` | recording an enumerated collection, and the same as a history of steps |
| `Scheduler.dfy`, `Lifecycle.dfy` | waves of dependent operations; runs, operations, exceptions, cancellation, recovery |
| `Maintenance.dfy`, `CrashSafety.dfy` | the audit, cleanup with a crash at any step, reruns; many processes over one store |
| `Export.dfy`, `Detached.dfy`, `Handoff.dfy` | laying a dataset out on disk; detached manifests; their handoff over whole histories |
| `Datasets.dfy`, `Envelopes.dfy` | dataset resolution under constraints, versioned definitions |
| `Derivation.dfy`, `Executions.dfy` | derivation keys and derived content over whole histories; executions of derived tasks |
| `Instances.dfy` | a digest, a codec and a JSON form that meet the laws the theorems ask for |

## What the proofs show about the code

- A listing can record stale content. `Reuse.CallsAgreeExactly` gives the exact condition, which store and
  request decide before the call: it reaches a file whose evidence matches the stored baseline entry while
  that entry's content is not the mirrored file's. Evidence that is honest across all sources excludes this
  (`Reuse.ReuseRefinesIngest`); evidence that is honest only within each source does not, because trees are
  shared by an id that leaves metadata out and keep the metadata they were first stored with
  (`SharedTrees.PerSourceHonestyIsNotEnough`).
- The index of a path agrees with upstream at every moment of a history exactly when every step is steady
  (`Index.AgreementIsSteadiness`). Two steps are not: a listing that shows a file under another kind, after
  which the path stays indexed even when it disappears (`Index.FileTurnedDirectoryStaysIndexed`), and a
  transfer without a complete listing that ingests a path no listing has shown as a file
  (`Index.TransferredFileStaysIndexed`). With listings of the whole source only, steadiness for every path means
  that each listing drops cleanly what it drops (`Index.UnscopedSteadiness`); an ordinary history does, and its
  index is the last complete inventory (`Index.IndexIsLastInventory`).
- Derived reuse trusts a derivation key on any row, and the record that an execution leaves carries its task's
  key. An artifact has one content under a key exactly when every row with the key that is not a derived
  recorder's had the content then reusable (`Derivation.DerivationsAreDeterministic`). Two executions of one
  deterministic task break that for their records when their details differ
  (`Executions.RepeatedExecutionsDiffer`, with an input in `Executions.DifferentDetailsTwoContents`), and an
  output named `execution` is served the record of the previous execution in place of its own content
  (`Executions.OutputIsServedExecution`, with an input in `Executions.OutputNamedExecution`). All outputs whose
  names do not clash have one content for each derivation (`Executions.OutputsAreDeterministic`).
- A listing recorded twice in one run makes the second snapshot ambiguous for ever, and every later cleanup
  is refused by the audit (`Index.RepeatedListingBlocksCleanup`).
- A pinned dataset is not reproducible when its definition requires validations: one later result that is not
  a pass refuses it (`Datasets.LaterFailureRefuses`). That is the only way it can fail
  (`Datasets.PinnedDatasetIsReproducible`).
- A dataset definition that carries the envelope marker is read as an envelope: freezing then records the
  definitions inside it, or fails when they are malformed, and records the definition itself exactly when it
  carries no marker (`Envelopes.FreezingIsExact`). `DatasetDefinition.to_dict` never emits the marker, so only
  records built in another way are affected.
- An exception that passes both handlers of the executor, such as `KeyboardInterrupt`, leaves its run running
  until the process has gone and recovery is run (`Lifecycle.InterruptedWaitsForRecovery`).

## Model

| member | source | states |
|---|---|---|
| Reconciliation.ReconcileInventory | src/efloud/reconciliation.py:132-145 | fails exactly on duplicate baseline ids or a changed artifact key; otherwise every listed item has one decision and every omitted covered item is absent, ordered by id |
| Reconciliation.ReconciliationIsUnique | src/efloud/reconciliation.py:68-145 | an inventory and a baseline admit exactly one set of decisions, in one order |
| Reconciliation.CountsConserve | src/efloud/reconciliation.py:51-57 | the four counts sum to the decisions, and new, changed and unchanged to the listed items |
| Reconciliation.AbsentDecisions | src/efloud/reconciliation.py:106-129 | exactly the omitted items inside a complete coverage, each once |
| Reconciliation.ClassifyAll | src/efloud/reconciliation.py:68-103 | one decision for each listed item; unchanged only on equal strong evidence; fails only when an artifact key changed |
| Reuse.ReuseRefinesIngest | src/efloud/rsync_reconciliation.py:174-243 | after any history of the repository whose listings are honest, a call does what reading every file would do and records the mirrored bytes of every file |
| Runs.RunsAgree | src/efloud/rsync_reconciliation.py:349-415 | over any run of honest listings of any sources at increasing times, reusing content leaves the tables that reading every file in every call leaves, up to the marks of how content was obtained |
| Reuse.HonestIsNotStale | src/efloud/rsync_reconciliation.py:93-118 | the content that honest evidence matches is that of the mirrored file |
| Reuse.CallsAgreeExactly | src/efloud/rsync_reconciliation.py:203-243 | on any consistent store a call does what reading every file would do exactly when no file it reaches matches its baseline entry's evidence while that entry's content is not the mirror's |
| Reuse.UnmisledIsLocal | src/efloud/rsync_reconciliation.py:203-243 | a call that is not so misled records exactly the mirrored bytes |
| Reuse.ReadingReaches | src/efloud/rsync_reconciliation.py:322-346 | reading every file ends without an error exactly when no file repeats a row recorded before the call |
| SharedTrees.PerSourceHonestyIsNotEnough | src/efloud/sqlite_metadata.py:708-743 | three calls, honest within each source, the last of which is misled and records stale content because a shared tree kept its first metadata |
| Index.IndexIsExactly | src/efloud/operation_recording.py:317-350 | over any history of the repository, a source's path is indexed exactly when a listing showed it as a file or a transfer without a complete listing ingested it, and no later usable listing, finding a baseline with it as a file, omits it inside its scope |
| Index.AgreementIsSteadiness | src/efloud/rsync_reconciliation.py:261-280 | index and upstream agree on a path at every moment exactly when transfers ingest it only while upstream shows it as a file, and a covering listing that stops showing it as a file omits it from a baseline that had it |
| Index.IndexAgreesWithUpstream | src/efloud/rsync_reconciliation.py:349-415 | over a steady history a path is indexed exactly when the last usable listing that covers it shows it as a file |
| Index.UnscopedSteadiness | src/efloud/rsync_reconciliation.py:75-83 | listings of the whole source are steady for every path exactly when each file they drop from the last complete inventory is gone altogether and that inventory is at most 200 recordings ago |
| Index.IndexIsLastInventory | src/efloud/rsync_reconciliation.py:349-415 | with whole listings only, complete ones at most 200 recordings apart and no file turning into a directory or symlink, the indexed paths are exactly the files of the last complete inventory |
| Index.UnrelatedIsForeign | src/efloud/repository.py:659-759 | a step under other keys and for other sources adds nothing under the source's keys and no snapshot of it |
| Index.RecorderKeysAreNotOwned | src/efloud/collections.py:113-113 | with ids free of colons, the plain, item and execution keys of any source are no path keys |
| CollectionSteps.CollectionIsHistory | src/efloud/collection_recording.py:288-357 | a collection recording leaves the store that a history of stored bytes, observations, absences, one tree snapshot and one ingested execution record leaves |
| CollectionSteps.CollectionIsUnrelated | src/efloud/collection_recording.py:288-357 | with ids free of colons, every step of a collection recording is none of another source's business |
| Histories.ColonFreeStandApart | src/efloud/rsync_reconciliation.py:188-188 | sources whose ids contain no colon can never share an artifact key |
| Histories.BaselineFound | src/efloud/rsync_reconciliation.py:75-83 | after any recordings of the source a search in any scope finds the snapshot of the last usable listing, unscoped or of that scope, exactly when the newest 200 snapshots include it |
| Histories.BaselineIsLastUsable | src/efloud/rsync_reconciliation.py:75-83 | the recording a search finds is the last usable one within the limit, and there is none exactly when every usable one lies beyond it |
| Incomplete.IncompleteWrites | src/efloud/operation_recording.py:245-314 | a transfer without a complete listing writes a row for exactly the new files before the first one already recorded or repeated, and leaves its snapshot exactly when no file raised, no path it holds comes twice and that snapshot is not recorded yet, which it can be only when no file was ingested |
| Repository.Repository.RecordIncompleteRsync | src/efloud/operation_recording.py:245-314 | the loop over updated paths ends in the store, rows, snapshot and error of that recording |
| Index.IndexStep | src/efloud/catalog/memory.py:239-248 | one own recording makes a path indexed when it shows it as a file, not indexed when it takes it away, and leaves its latest state alone otherwise |
| Index.FileTurnedDirectoryStaysIndexed | src/efloud/reconciliation.py:106-129 | a file listed as a directory and then not at all is still indexed |
| Index.TransferredFileStaysIndexed | src/efloud/operation_recording.py:245-314 | a file known only from a transfer without a listing is still indexed when the next listing lacks it |
| Resolver.RecordedAnswerFrozen | src/efloud/dataset_selectors.py:17-63 | a snapshot recorded at any moment gives the same members or the same failure after any later recording, cleanup or recovery |
| Resolver.PerformKeeps | src/efloud/repository.py:659-759 | every kind of step keeps keys, tree identities, snapshot and content references, and only appends history |
| Resolver.AuditIsResolution | src/efloud/maintenance.py:174-217 | in a consistent store the audit refuses a cleanup exactly when some complete snapshot does not resolve |
| Agreement.RecorderAndResolverAgree | src/efloud/rsync_reconciliation.py:283-346 | a complete listing resolves to exactly the rows of its call, in key order, unless the run already held a row of the source with the path and the content of a file about to be recorded; then it is ambiguous |
| Agreement.RepeatBlocksCleanupForever | src/efloud/maintenance.py:247-254 | once a listing repeats its own run, the audit fails after any future and every cleanup leaves the store as it was |
| Index.RepeatedListingBlocksCleanup | src/efloud/maintenance.py:247-254 | any listing without change evidence, recorded twice in one run of a new source: both calls succeed, the second snapshot does not resolve, and no later cleanup is admitted |
| Decisions.BaselineIsDecidable | src/efloud/rsync_reconciliation.py:174-200 | comparing a valid listing with any recorded baseline never fails |
| Decisions.ListingIsWellFormed | src/efloud/transport/rsync_inventory.py:59-101 | a validated listing satisfies every check of the inventory constructor, although the two scope tests differ |
| Decisions.VanishedIsGone | src/efloud/rsync_reconciliation.py:261-280 | the absent decisions for files are the baseline's vanished files, in the same order |
| Rsync.ReconcileKeeps | src/efloud/rsync_reconciliation.py:349-415 | however a reconciliation ends, the store stays consistent and history only grows |
| Rsync.EntriesFrame | src/efloud/rsync_reconciliation.py:322-346 | recording entries appends one new row for each file and one tree entry for each listed entry, in order |
| Store.RecordTreeKeeps | src/efloud/sqlite_metadata.py:708-743 | storing a tree never changes a stored one; it raises exactly when a new tree repeats a path or names unknown content |
| Repository.Repository.ReconcileRsync | src/efloud/rsync_reconciliation.py:349-415 | the writer's loops end in the store, rows, absences, snapshot and error that the reconciliation function gives |
| Repository.Repository.Decide | src/efloud/rsync_reconciliation.py:372-384 | every entry gets the decision its evidence supports, and the absent files are those of the baseline the listing omits |
| Repository.Repository.RecordListed | src/efloud/rsync_reconciliation.py:322-346 | the entry loop: rows, tree entries and counters so far, stopping at the first storage error |
| Repository.Repository.RecordVanished | src/efloud/rsync_reconciliation.py:261-280 | the absence loop: one absence for each vanished file, stopping at the first storage error |
| Repository.Repository.BaselineSnapshot | src/efloud/rsync_reconciliation.py:75-83 | the first of the 200 newest snapshots that is reconciled, has a tree, and is complete or of the same scope |
| Repository.Repository.ResolveSnapshot | src/efloud/dataset_selectors.py:17-63 | the resolver's loops give the members, or the first failure, that the resolution function gives |
| Repository.Repository.SaveTreeSnapshot | src/efloud/repository.py:659-711 | the tree, then the snapshot with the ids of the run's observations of that source up to its time |
| Repository.Repository.ObserveContent | src/efloud/repository.py:351-400 | succeeds exactly when the content row, the blob and the source are there and the row is new; then exactly that row is appended; otherwise nothing changes and the error names what was missing |
| Collection.EveryItemIsAccountedFor | src/efloud/collection_recording.py:83-217 | each enumerated item leaves exactly one file, absent or unresolved entry, in order, with matching counters, rows and absences |
| Collection.CollectionAndResolverAgree | src/efloud/collection_recording.py:288-357 | a complete collection resolves to exactly the observations of its file items, or is ambiguous because the run already held a row with the path and content of one; an incomplete one does not resolve |
| Collection.RecordCollection | src/efloud/collection_recording.py:288-357 | refused exactly on an ambiguous baseline or a changed key; otherwise the unique decisions and the recording they lead to |
| Collection.RecordingState.RecordOne | src/efloud/collection_recording.py:153-217 | the effect of one item on the repository and on the accumulator |
| Scheduler.ExecuteOperations | src/efloud/executor.py:231-267 | for every interleaving: an unknown dependency or a cycle is reported exactly when there is one, with exactly the operations that depend on a cycle; otherwise every operation has the status of the recursive specification |
| Scheduler.LegalMeetsSpec | src/efloud/executor.py:246-266 | in every log that follows the protocol, each finished operation is blocked exactly when some transitive dependency does not succeed by itself |
| Scheduler.WorkFollowsSuccess | src/efloud/executor.py:249-256 | work is done only after every transitive dependency finished successfully, earlier in the log |
| Scheduler.LegalRunsOnce | src/efloud/executor.py:241-266 | no operation is started or finished twice, and it is started before it is finished |
| Scheduler.LegalIsBounded | src/efloud/executor.py:216-228 | never more operations are active than the concurrency limit |
| Scheduler.CyclesNeverStart | src/efloud/executor.py:240-248 | nothing on a cycle, or depending on one, is ever started |
| Scheduler.StuckIsEntangled | src/efloud/executor.py:240-248 | a pending set in which nothing is ready contains a cycle, reachable from each of its members |
| Scheduler.ExecuteWave | src/efloud/executor.py:216-228 | any interleaving under the semaphore finishes every operation of the wave with its own outcome |
| Lifecycle.LeavingIsClean | src/efloud/executor.py:321-342 | when an execution leaves by returning or through its handlers, the finish guard has not fired, its run is terminal and none of its operations runs, then and for ever |
| Lifecycle.InterruptedWaitsForRecovery | src/efloud/executor.py:321-341 | an exception that passes the handlers leaves the run running while the process lives; recovery then fails it and everything it still runs |
| Lifecycle.TerminalIsForEver | src/efloud/catalog/memory.py:64-155 | over any steps, crashes and recoveries, records stay, terminal statuses never change, and an ended run gains no operation |
| Lifecycle.EveryReachableStateIsSound | src/efloud/repository.py:178-256 | in every reachable state a terminal run has no running operation |
| Lifecycle.ReturnedStatusTellsOperations | src/efloud/executor.py:270-277 | a returning execution's run status says which of the run's operations succeeded and failed |
| Lifecycle.RecoveryIsComplete | src/efloud/maintenance.py:284-325 | recovery fails exactly what was running, changes nothing terminal, and leaves nothing for a second one |
| Lifecycle.GuardedCatalog.AbortRun | src/efloud/executor.py:321-341 | the exception handlers close every running operation and the run, and no guard fires |
| Lifecycle.GuardedCatalog.EndRun | src/efloud/repository.py:178-197 | a run ends exactly from running, with no running operation and a terminal status |
| Lifecycle.GuardedCatalog.BeginOperation | src/efloud/repository.py:199-233 | an operation starts exactly in a running run and under a new id |
| Lifecycle.GuardedCatalog.Recover | src/efloud/maintenance.py:284-325 | reports exactly the running records and, unless dry, fails them |
| Maintenance.Reachability | src/efloud/maintenance.py:69-84 | a content id is a root exactly when some row names it, directly or through an observation, under exactly those tables |
| Maintenance.Disk.Cleanup | src/efloud/maintenance.py:236-282 | refused exactly on bad times or when the audit of the store fails; killed after any step it has deleted rows before their files and only candidates; unhindered it removes all of them |
| Maintenance.Disk.BlockingIssues | src/efloud/maintenance.py:185-217 | something blocks a cleanup exactly when the rows are unsound or something they name lacks its row or its intact file |
| Maintenance.CleanupConverges | src/efloud/maintenance.py:247-279 | a cleanup killed anywhere does not block its rerun; run to its end no earlier the second leaves no file the first would have removed, at the same time exactly what the first would have left, and all reachable content |
| Maintenance.AttemptsConverge | src/efloud/maintenance.py:236-282 | once a cleanup is admitted so is every further one, however often they are killed; the first that ends leaves no file that was due, and reachable content is never touched |
| Maintenance.CleanupIsStoreStep | src/efloud/maintenance.py:236-282 | on the store's tables it is the cleanup step of the histories: refused whenever the store's audit fails, else removing exactly what it deleted |
| CrashSafety.EveryReachableStateIsSafe | src/efloud/repository.py:258-305 | over every interleaving of writers, cleanups, readers and crashes: rows have files, references have rows, joins resolve, one holder at a time |
| CrashSafety.ReachableContentIsNeverLost | src/efloud/maintenance.py:272-278 | content that a row refers to keeps its row and its very file in all later states |
| CrashSafety.NextIsSound | src/efloud/writer_coordination.py:17-36 | each single step of each process keeps the storage and lease invariants |
| CrashSafety.AuditFindsNothingMissing | src/efloud/maintenance.py:210-217 | in every reachable state the audit passes exactly when the rows are sound and no reachable file is damaged |
| Export.ValidatePaths | src/efloud/materialization.py:33-40 | accepts exactly safe paths whose folded forms conflict neither with each other nor with the reserved names |
| Export.FoldingSeparates | src/efloud/materialization.py:33-40 | paths that folding keeps apart never meet on a file system that folding refines |
| Export.Staging.PopulateCopies | src/efloud/materialization.py:148-175 | copying succeeds exactly when no two paths meet, and leaves the members' bytes and the directories above them |
| Export.Staging.PopulateLinks | src/efloud/materialization.py:148-159 | with room for every member it always succeeds, with one private copy for each content |
| Export.Staging.ExportTo | src/efloud/materialization.py:123-146 | an export succeeds exactly when its paths are accepted and its sizes true; then it verifies, also with the manifest written |
| Export.Staging.Verify | src/efloud/dataset_export.py:230-250 | true exactly when every member reads back as its content and size |
| Export.AcceptedIsRealisable | src/efloud/materialization.py:123-175 | accepted paths leave room for every member, the private directory and the manifest |
| Detached.DetachedRoundTrip | src/efloud/dataset_export.py:143-228 | reading the bytes of a valid manifest gives the manifest |
| Detached.ExportSucceeds | src/efloud/dataset_export.py:253-302 | a dataset over genuine recorded evidence exports to a manifest that validates |
| Handoff.ResolutionIsRecorded | src/efloud/datasets.py:211-287 | in every state reachable by registering, storing, observing, cleanup and damage, whatever resolves is over genuine recorded evidence |
| Handoff.StepsContinue | src/efloud/repository.py:136-159 | over any steps observations, the contents they name and the definitions they pin stay as they are |
| Handoff.DetachedHandoff | src/efloud/dataset_export.py:305-358 | a dataset resolved after any steps, exported after more, written, read and imported after yet more with intact blobs is the same dataset |
| Detached.GrownHistoriesFindTheSame | src/efloud/dataset_export.py:325-341 | a source history that only grew finds the same revision for an observation |
| Detached.ImportDataset | src/efloud/dataset_export.py:305-358 | the import loop accepts exactly what the import function accepts |
| Datasets.SelectionOrderIsIrrelevant | src/efloud/datasets.py:211-287 | permuted selections of any kind fail both ways or give the same members, ids, snapshots and constraint results |
| Datasets.MembersIncrease | src/efloud/datasets.py:228-245 | members are strictly increasing by artifact key |
| Datasets.PinnedDatasetIsReproducible | src/efloud/datasets.py:218-287 | the pinned form of a resolved dataset resolves in a later state exactly when every required validator's newest result on every member is a pass, and then to the same members, ids and snapshots |
| Datasets.LaterFailureRefuses | src/efloud/dataset_constraints.py:65-76 | one newer result that is not a pass, on a member that must be validated, refuses the pinned dataset |
| Datasets.CheckPasses | src/efloud/dataset_constraints.py:48-98 | the constraints pass exactly when run and time span do, every observation lies in a complete snapshot that resolves, and every required validation passes |
| Datasets.CheckConstraints | src/efloud/dataset_constraints.py:48-77 | the loops give the results of every constraint, observation by observation |
| Datasets.SelectSources | src/efloud/dataset_selectors.py:128-160 | the loop keeps the current states that pass the filter, or stops at the first whose definition is unknown |
| Datasets.ResolveDataset | src/efloud/datasets.py:211-287 | the resolution loops and checks give the manifest with its constraint results, or the first failure, of the resolution function |
| Datasets.CollectMembers | src/efloud/datasets.py:228-245 | one member for each picked observation, or refusal exactly when an artifact was picked twice |
| Envelopes.HistoryRoundTrip | src/efloud/metadata_envelopes.py:44-112 | decoding an encoded history gives the definition as current and all earlier ones |
| Envelopes.HistoryIsComplete | src/efloud/repository.py:136-146 | a source's revisions are exactly the definitions ever registered for it, the last one current, and registering never fails |
| Envelopes.PinnedRevisionsResolve | src/efloud/repository.py:148-159 | a revision id pinned at any moment finds its definition in every later state |
| Envelopes.FreezingRemembersAll | src/efloud/sqlite_metadata.py:836-924 | after any freezes each dataset lists exactly its definitions, stored and in memory alike, with unchanged members |
| Envelopes.SpecificationsAreOrderFree | src/efloud/metadata_store.py:119-150 | the same definitions in any order and number give the same specification list |
| Envelopes.StoreThenLoad | src/efloud/metadata_envelopes.py:126-188 | a stored record loads as the same record |
| Envelopes.FreezingIsExact | src/efloud/metadata_envelopes.py:126-163 | the first freeze records exactly the definitions its payload stands for, fails exactly on a malformed envelope, and records the payload itself exactly when it carries no marker |
| Envelopes.DecodingStandsFor | src/efloud/metadata_envelopes.py:126-163 | decoding lists exactly the payload, or the definitions inside a well-formed envelope, and fails otherwise |
| Envelopes.DecodeEntries | src/efloud/metadata_envelopes.py:144-162 | the decoding loop stops at the first malformed or misidentified entry |
| Derivation.KeyIgnoresOrderOnly | src/efloud/derivation.py:103-128 | two keys are equal exactly when task, version, parameters, semantics and the multisets of outputs and inputs are |
| Derivation.PermutedInputsSameKey | src/efloud/derivation.py:103-106 | permuting the inputs keeps the key |
| Derivation.DerivationsAreDeterministic | src/efloud/repository.py:402-502 | over any history of builds, derived and other recorders and cleanups no row loses its content, and an artifact has one content under a derivation key exactly when every row with the key that another recorder wrote had the content that would then have been reused |
| Derivation.LaterBuildsReuse | src/efloud/indexing.py:91-126 | in any such history, of two builds that return for one index and key the later reuses the newest row with the key, which has the earlier payload when the other recorders agreed until then |
| Derivation.RecordedKeysStayUsable | src/efloud/indexing.py:80-126 | after any such history a build of a recorded key reuses its newest row's content, and fails exactly when it would repeat a row or those bytes hold no object |
| Derivation.ReusableIsNewest | src/efloud/repository.py:402-412 | the lookup finds something exactly when the key was recorded for the artifact, and then the content of a row with the key that none is newer than |
| Derivation.ReusableIsRecorded | src/efloud/repository.py:402-412 | the key has one content exactly when what the lookup finds is the content of every row that carries it |
| Derivation.DerivedRecorder.Materialize | src/efloud/indexing.py:80-126 | the builder runs only when nothing is reusable; a failed build records nothing; reused bytes that hold no object fail after the row was written |
| Derivation.DerivedRecorder.ReusableContent | src/efloud/repository.py:402-412 | the newest observation with the key decides |
| Executions.RunDerivedOperation | src/efloud/operation_recording.py:430-500 | the loop over the outputs and the execution record end in the rows, cache and error of the execution function; undeclared names record nothing |
| Executions.ExecutionIsHistory | src/efloud/operation_recording.py:430-500 | an execution leaves what a history of derived recorders' calls and one plain row under an execution key leaves |
| Executions.OutputsAreDeterministic | src/efloud/operation_recording.py:456-476 | when other recorders write derivation keys under execution keys only, every output whose name does not clash has one content for each derivation over any history |
| Executions.UncontestedKeyHasOneContent | src/efloud/repository.py:414-502 | a key that no other recorder's row carries has one content over any history |
| Executions.OutputMeetsExecution | src/efloud/operation_recording.py:456-478 | an output's artifact key is some task's execution key exactly when its name is `execution` or ends with `:execution`, and its own task's exactly when it is `execution` |
| Executions.RepeatedExecutionsDiffer | src/efloud/operation_recording.py:477-491 | two executions of a deterministic task on the same inputs leave one content under their execution key exactly when they return the same details |
| Executions.OutputIsServedExecution | src/efloud/operation_recording.py:456-491 | an output named `execution` gets its own bytes in the first execution and the first one's record in the next, whatever that produced |
| Executions.DifferentDetailsTwoContents | src/efloud/operation_recording.py:477-491 | from an empty cache, a task run twice with different details: both runs record and one key has two contents |
| Executions.OutputNamedExecution | src/efloud/operation_recording.py:456-491 | from an empty cache, a task with an output named `execution` run twice: both runs record and the second output is the first record |

## Left out

- Index.IndexIsExactly: the source's recordings come at increasing times, no other step writes under its path keys, and no other recorder writes snapshots of the same source. Ids free of colons exclude rsync and collection recordings of other sources; an artifact key chosen by hand for a local source could still look like one.
- Index.IndexAgreesWithUpstream: under the same assumptions.
- Index.IndexIsLastInventory: under the same assumptions.
- Agreement.RecorderAndResolverAgree: for unscoped listings; a scoped one is recorded as incomplete and does not resolve.
- Media types, materialization rows and the modification time and version of upstream files play no part in the recorded decisions.
- Source-definition revisions inside observation metadata are modelled in `Envelopes` and `Handoff`, not in the rsync store.
- Rows of runs and operations are modelled in `Lifecycle`; the rsync store does not check that a run exists.
- The ids bound in snapshot evidence follow the order of the rows, not of artifact keys.
- Classification counts and error text in evidence are not kept.
- A change token is kept as its fields instead of their text, so a symlink target that contains the separator is not confused with another one.
- The mirror on disk is a map from safe relative paths to bytes; symlinks that lead out of it are not modelled.
- Item metadata of collections other than the item id, and validator results as such: an item's validation is a flag.
- The order in which a wave starts its operations, and in which results are returned, is left open: the theorems hold for every order.
- Cleanup candidates are deleted in any order, not only sorted.
- The role and tags that a source selection asks for are read through a function of the observation, given or unknown; `Handoff` models the revisions behind it.
- Files of the store hold `Maintenance` rows under text ids; `Maintenance.CleanupIsStoreStep` relates them to the store's tables through what the rows name. Whether a file's bytes match its digest is a function parameter of the audit.
- Clone and reflink strategies fall back to copying, and are modelled as copying.
- A tree that both repeats a path and names unknown content raises one error in the database; the model reports the repeated path.
- Symlinks and directories of an incomplete transfer, and unsafe or vanished paths, are what a map from paths says they are.
- Detached.ExportSucceeds: file system state and default hashed paths are abstract; paths are any safe function of the artifact key.
- An exception raised by a derived task, a result of the wrong type and an output file that cannot be read are not modelled: the first two record nothing.
- HTTP, rsync processes, Git, SQL text, signing, progress output, configuration and planning are not part of this model.
