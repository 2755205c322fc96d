# Verified model of lorepia's storage, backup, lorebook, memory and transform cores

This project models the parts of lorepia whose promises span many operations and survive crashes, and proves those promises in Dafny 4.11. Check it with `dafny verify dfyconfig.toml`.

| area | modules | what is modelled |
|---|---|---|
| restore | `RestoreProtocol`, `RestoreInvariant`, `RestoreSafety`, `Restore` | `restore_backup` as a journalled step machine over destination, staging, restore-old and journal |
| asset store | `AssetModel`, `AssetInvariant`, `AssetQuarantine`, `AssetProtection`, `AssetPlaces`, `AssetRollback`, `AssetSessions`, `AssetCatalog`, `AssetStore` | ingest, sessions, rollback and recovery, sweep, reconcile, quarantine, backup snapshots, trigger-maintained totals |
| lorebook | `LoreModel`, `LoreCompile`, `LoreSelect`, `LoreEngine`, `LoreCache` | catalog compilation, indexed selection and its index-free reference, the selection cache |
| export and manifest | `BackupCatalog`, `BackupExport`, `BackupSession`, `BackupExporter`, `BackupSupply`, `PortablePaths`, `BackupManifest`, `BackupRoundTrip` | resumable exports over any number of calls, manifest building, manifest validation |
| memory | `MemoryBudget`, `MemoryArtifacts`, `MemorySelection` | token budgets, summary lineage and planning, memory selection |
| transforms | `Replacement`, `Transform` | the replacement language, rule application, the pipeline |
| shared | `Wrappers`, `Digests`, `Ordering` | results, hashes, string order, sorting, sorted sets |

## How crashes are modelled

What survives a process stop is a value: a `Site` for restore, a `World` for the store, a `Site` of its own for export. A `History` is a run of single durable steps or transactions over that value, legal when each step is enabled where it happens. The methods of the classes change the durable value only through one recording step, so every state a stop can leave is the last state of a legal history, and the theorems quantify over all legal histories. Interleavings of an importer with recovery are histories too, at transaction granularity.

## What turned out not to hold

- A restore stopped while the replaced tree is being deleted, and cancelled during the final validation of the next call, moves a partly deleted tree back to the destination. The package copy stays complete in staging. `DestinationWholeExactly` gives the exact condition on what a call finds, `RollbackCanRestoreRemains` a run for every package and every file.
- A stop inside `rollback_publish`, before its closing journal write, leaves a site from which a retry does not complete. `InterruptedExactlyInRollback` and the contract of `Restore` make this an if-and-only-if.
- Reconciling a shard that holds a file named by a valid hash but filed under another shard marks the healthy object of that hash as quarantined. Row and file stay. `StaysActiveExactly` gives the exact condition on the state before a run, `MisfiledCopyDemotes` and `StrayCanDemote` the runs, and `StoreKeepsInPlace` that the store never makes such a file itself.
- The removal of an abandoned export deletes its files in no fixed order. Stopped after the journal is gone it leaves a directory that no later export to that destination can resume or remove. `StrandedExactly` gives the exact condition, `StrandedCanHappen` a run, and the contract of `Export` what a later call does with it.
- A catalog snapshot drops the references of importers and of live sessions, but keeps those of a temporary owner of another type whose session a recovery has claimed and not yet rolled back. `SnapshotKeepsResidue` gives the exact condition, `ResidueCanHappen` a run for every such owner. It takes a caller with a temporary owner type of its own: the only one in the repository is the importers’ (`crates/lorepia-import/src/service.rs:28`).

## Conventions

- A digest is the value that remembers its preimage (`Sha256`), or a given hash function where only equality and order matter: hashing is taken to be collision free.
- Strings stand for their UTF-8 bytes, so lengths are byte lengths.
- Text normalization, the regex engine, the random bucket of an id and the random key of an artifact are function values the theorems hold for, whatever they are. The random key is assumed to differ for the candidates of one selection.
- The store takes any owner. What its documentation asks of callers (owner types reserved for temporary owners, a fresh id for each session, admission for a temporary owner only during its session, commits to an owner of another kind, the backup type left to the store) is the predicate `Permitted`; the theorems that need it say so, for any choice of reserved types. Owner names are taken to be well formed, as their constructor demands.
- The cache key is ordered field by field over any given order of digests.
- Cancellation, expiry of a lease, failing callbacks and, in an export, failing file operations, failing stores and refusals of the free-space policy are nondeterministic choices switched on by a parameter (`mayCancel`, `mayStop`).
- Random names and ids, clocks and free space are parameters.

## Model

| member | source | states |
|---|---|---|
| `RestoreSafety.EveryCrashPointIsSafe` | crates/lorepia-backup/src/restore.rs:192-275 | over any number of restore calls for one package onto an existing destination, stopped after any durable step, either the old tree is whole at the destination or in restore-old, or a complete copy of the package is at the destination or in staging; while a journal lives the destination is absent, the package data or (a part of) the tree it replaces, and without a journal it is the old tree or the package data |
| `RestoreSafety.InterruptedExactlyInRollback` | crates/lorepia-backup/src/restore.rs:747-760 | the states from which a retry cannot complete are, over all runs, exactly those left by a stop inside rollback_publish before its closing journal write |
| `RestoreSafety.DestinationWholeExactly` | crates/lorepia-backup/src/restore.rs:44-290 | whatever one call does and wherever it is stopped, the destination is absent, whole old data or whole package data at every point, if and only if the call found the destination whole, and the tree in restore-old whole too unless a rollback had been cut short between withdrawing the new tree and putting the old one back |
| `RestoreSafety.CallsStayWhole` | crates/lorepia-backup/src/restore.rs:44-290 | so over a run of any number of calls that each found them whole, the destination is whole at every point |
| `RestoreSafety.CallCanRestoreRemains` | crates/lorepia-backup/src/restore.rs:251-275 | a call that finds otherwise has a run that leaves an incomplete tree at the destination |
| `RestoreSafety.UndoneStays` | crates/lorepia-backup/src/restore.rs:97-100 | a call that finds a rollback cut short there keeps the destination absent and the old tree set aside |
| `RestoreSafety.RollbackCanRestoreRemains` | crates/lorepia-backup/src/restore.rs:251-275 | for every intact package and every file of every old tree: a stop after deleting that file leaves such a state, and the next call, cancelled, moves the rest of the old tree back to the destination and journals it; a stop before that last journal write is a state no retry completes from |
| `RestoreSafety.HistoryKeepsInv` | crates/lorepia-backup/src/restore.rs:78-275 | the protocol invariant holds in every state of every run |
| `RestoreInvariant.StepKeepsInv` | crates/lorepia-backup/src/restore.rs:78-275 | every durable step of a restore keeps the invariant that relates the three trees and the journalled phase |
| `RestoreInvariant.MatchesExactly` | crates/lorepia-backup/src/restore.rs:682-745 | the validation of restored data accepts a tree exactly when it is the package data, file for file |
| `RestoreInvariant.CopiedIsData` | crates/lorepia-backup/src/restore.rs:574-637 | when every entry is in place the staging tree is the package data and holds no temporary file |
| `RestoreInvariant.StagingStepKeepsPartial` | crates/lorepia-backup/src/restore.rs:574-680 | a step that fills staging keeps it a part of the package data beside at most temporary copies, and cannot change a complete one |
| `Restore.RestoreSite.Restore` | crates/lorepia-backup/src/restore.rs:44-290 | one call: every durable state it passes through continues the run, and it puts no old tree back after it has begun to delete one or when it found a rollback half done; for a site left by earlier calls, an uncancelled Replace call with enough space ends with the package data at the destination and no staging, restore-old or journal if and only if the site was not left by an interrupted rollback |
| `Restore.RestoreSite.Resume` | crates/lorepia-backup/src/restore.rs:78-122 | reading the journal undoes a half-made exchange; it fails only with a conflict and then changes nothing, and never fails on a site left by the forward path |
| `Restore.RestoreSite.Begin` | crates/lorepia-backup/src/restore.rs:124-190 | a resumed journal must belong to this package and is kept; a fresh start journals Prepared with empty staging and takes the present destination as the tree to protect |
| `Restore.RestoreSite.CopyVerified` | crates/lorepia-backup/src/restore.rs:639-680 | copies through a temporary in chunks and publishes it only when hash and size are right; every entry already in place stays |
| `Restore.RestoreSite.CopyEntry` | crates/lorepia-backup/src/restore.rs:574-637 | after success the entry is in place with the right content; a right one is kept and a wrong one replaced |
| `Restore.RestoreSite.CopyDataEntries` | crates/lorepia-backup/src/restore.rs:574-637 | success leaves every data entry copied and the journal counters at their totals; without cancellation it fails only when the package lacks content or staging is gone |
| `Restore.RestoreSite.Stage` | crates/lorepia-backup/src/restore.rs:201-222 | ends in Verified with nothing but staging and journal changed; without cancellation it cannot fail on a sound site |
| `Restore.RestoreSite.Verify` | crates/lorepia-backup/src/restore.rs:214-221 | the copied tree passes validation exactly when it may be journalled as verified; on a sound site only cancellation stops it |
| `Restore.RestoreSite.Publish` | crates/lorepia-backup/src/restore.rs:223-249 | exchanges the trees by two renames and ends with staging gone and the destination present; on a sound site an uncancelled Replace fails only when a tree is at the destination although the journal says it was moved away |
| `Restore.RestoreSite.RollbackPublish` | crates/lorepia-backup/src/restore.rs:747-760 | succeeds exactly when staging is free or nothing is published, and then the old tree is back and the published one is staging again |
| `Restore.RestoreSite.Finish` | crates/lorepia-backup/src/restore.rs:251-275 | succeeds exactly when the published tree validates; then old tree and journal are gone, otherwise the publication is rolled back |
| `Restore.RestoreSite.Advance` | crates/lorepia-backup/src/restore.rs:182-290 | the part of a call after the package was found intact, with the success condition of the whole call |
| `AssetInvariant.EventKeepsTables` | crates/lorepia-assets/src/store.rs:427-2083 | every transaction and file operation of every store operation, for any owners whatever, keeps references, rows, quarantine rows, files and session limits consistent |
| `AssetInvariant.HistoryKeepsTables` | crates/lorepia-assets/src/store.rs:427-2083 | so they are consistent in every state of every run, with stops and reopens anywhere |
| `AssetInvariant.EventKeepsSound` | crates/lorepia-assets/src/store.rs:427-2083 | and when callers keep to what the store asks of them, also who may own references and that pins match their snapshots |
| `AssetInvariant.HistoryKeepsSound` | crates/lorepia-assets/src/store.rs:427-2083 | so this too holds in every state of every such run |
| `AssetInvariant.PinnedPins` | crates/lorepia-assets/src/store.rs:177-309 | pinning for a backup session makes its pins the active rows, beside any found under the name of a session that did not exist, and leaves the pins of other live sessions alone |
| `AssetInvariant.PinnedSessions` | crates/lorepia-assets/src/store.rs:2426-2468 | no more than 128 backup sessions ever exist |
| `AssetInvariant.BackupKeepsBackups` | crates/lorepia-assets/src/store.rs:177-400 | from the moment a backup session has written its snapshot until it is released, its pin set is the active rows of that snapshot, and the snapshot carries no pins, no importers’ references and no sessions |
| `AssetInvariant.SnapshotKeepsResidue` | crates/lorepia-assets/src/store.rs:277-293 | of the references of a type reserved for temporary owners a snapshot keeps exactly those of owners without a session, of a type other than the importers’ |
| `AssetSessions.ResidueCanHappen` | crates/lorepia-assets/src/store.rs:941-998 | for every owner of such a type: a run from the empty store, with callers that keep to what they are asked, after which a snapshot holds a reference of that owner |
| `AssetQuarantine.EveryStopIsOnPath` | crates/lorepia-assets/src/store.rs:1901-2083 | whatever state a run is stopped in is a state of the move or purge it left unfinished, or has none pending |
| `AssetQuarantine.RecoveryEndsAtOutcome` | crates/lorepia-assets/src/store.rs:1842-1872 | carrying out the pending intent, however often that is itself stopped, ends in the state the uninterrupted operation would have reached |
| `AssetQuarantine.RowsMatchFiles` | crates/lorepia-assets/src/store.rs:1842-1872 | with no intent pending, quarantine rows and quarantined files correspond one to one and every quarantined object names a row |
| `AssetQuarantine.MoveRuns` | crates/lorepia-assets/src/store.rs:1901-1991 | from every point of a move its own remaining steps are a legal continuation of the run and end in its whole effect |
| `AssetQuarantine.MoveForced` | crates/lorepia-assets/src/secure_fs.rs:383-394 | between the link and the unlink of a move nothing but the next step of that move can happen |
| `AssetProtection.ReferencedObjectSurvives` | crates/lorepia-assets/src/store.rs:427-1991 | once an object has its file in place and a reference of any owner, no run of ingests, sweeps, rollbacks of other owners, reconciliations, recoveries and cleanups removes its row or replaces its file while the reference stands |
| `AssetProtection.EventKeeps` | crates/lorepia-assets/src/store.rs:1466-1528 | one event keeps row and file of a referenced object, and demotes it only by finishing the move of a copy named after it |
| `AssetPlaces.StaysActiveExactly` | crates/lorepia-assets/src/store.rs:1466-1528 | a healthy referenced object stays active in every run that holds the reference, if and only if the state before it has no file of that name in another shard and no pending move of one |
| `AssetPlaces.ReferencedObjectStaysActive` | crates/lorepia-assets/src/store.rs:427-1991 | the one half, over every run of a store with consistent tables, whatever other misplaced files it holds |
| `AssetPlaces.StrayCanDemote` | crates/lorepia-assets/src/store.rs:1466-1528 | the other half: from every other state a run that demotes the object |
| `AssetPlaces.FinishPending` | crates/lorepia-assets/src/store.rs:1842-1872 | reopening finishes any pending move or purge, and demotes the object exactly when it moves a copy named after it |
| `AssetProtection.PinnedObjectsStay` | crates/lorepia-assets/src/store.rs:167-176 | when callers keep to what they are asked, from the pinning of a backup session until its release every object that was active with its file in place keeps that file, whatever references go meanwhile |
| `AssetPlaces.StoreKeepsInPlace` | crates/lorepia-assets/src/store.rs:1796-1840 | over every run nothing is outside its hash-derived place, or moved from there, that was not so at the start |
| `AssetPlaces.MisfiledCopyDemotes` | crates/lorepia-assets/src/store.rs:1466-1528 | with nothing pending, reconciling a shard with a misfiled copy demotes the healthy object of that hash, whose reference, row and file stay |
| `AssetRollback.RollbackSurvivesCrashes` | crates/lorepia-assets/src/store.rs:1026-1102 | a rollback stopped after any unlink or transaction and resumed any number of times ends in what the uninterrupted one gives |
| `AssetRollback.StepTowards` | crates/lorepia-assets/src/store.rs:1026-1102 | each step leaves the outcome still to be reached unchanged |
| `AssetRollback.OthersUntouched` | crates/lorepia-assets/src/store.rs:1026-1102 | every other owner keeps its session, references, and the rows and files they name |
| `AssetRollback.GoneAndKept` | crates/lorepia-assets/src/store.rs:1026-1102 | the rolled-back owner has no reference and no session left, everyone else what they had |
| `AssetRollback.OneLessDead` | crates/lorepia-assets/src/store.rs:941-998 | rolling back one dead owner leaves exactly the others dead, so the recovery loop makes progress |
| `AssetRollback.OtherTypesStayDead` | crates/lorepia-assets/src/store.rs:1000-1024 | recovering one owner type leaves the dead owners of every other type as they were |
| `AssetRollback.OrphansSplit` | crates/lorepia-assets/src/store.rs:941-998 | what one rollback removes of the orphans of a set of owners, so the removed counts add up |
| `AssetSessions.ClaimedNeverCommits` | crates/lorepia-assets/src/store.rs:740-752 | in every interleaving that keeps to what callers are asked, a session recovery has claimed can never be renewed, committed or finished afterwards |
| `AssetSessions.CommittedNeverRolledBack` | crates/lorepia-assets/src/store.rs:941-998 | when callers keep to what they are asked, nothing of a committed batch’s temporary owner can be claimed, unlinked or dropped by recovery |
| `AssetSessions.ClaimedOrCommitted` | crates/lorepia-assets/src/store.rs:810-998 | when callers keep to what they are asked, no session is ever both claimed and committed |
| `AssetSessions.CommitIsExact` | crates/lorepia-assets/src/store.rs:810-913 | a commit moves exactly the temporary references to the final owner in one step, and touches no row, file or other reference |
| `AssetSessions.CommittedBatchStays` | crates/lorepia-assets/src/store.rs:810-913 | when callers keep to what they are asked, the references a commit made stay until their final owner removes them, whatever recovery does in between |
| `AssetSessions.OnlyOwnerRemoves` | crates/lorepia-assets/src/store.rs:667-700 | when callers keep to what they are asked, a permanent reference goes only when its owner removes it |
| `AssetCatalog.CountWritten` | crates/lorepia-assets/src/catalog.rs:225-287 | writing a row changes the active bytes and the missing count by exactly its share |
| `AssetCatalog.CountFirst` | crates/lorepia-assets/src/catalog.rs:429-448 | the recount does not depend on the order of the rows |
| `AssetCatalog.Database.PutObject` | crates/lorepia-assets/src/catalog.rs:225-287 | after the insert or update trigger the totals are those of a recount |
| `AssetCatalog.Database.UpdateState` | crates/lorepia-assets/src/catalog.rs:225-287 | a state change keeps the totals those of a recount |
| `AssetCatalog.Database.DeleteObject` | crates/lorepia-assets/src/catalog.rs:225-287 | deleting an unreferenced row keeps the totals those of a recount |
| `AssetCatalog.Database.InsertRef` | crates/lorepia-assets/src/catalog.rs:225-287 | a reference is counted once, also when it was there |
| `AssetCatalog.Database.DeleteRefs` | crates/lorepia-assets/src/catalog.rs:225-287 | deletes exactly the given references, counts them, and keeps the totals those of a recount |
| `AssetCatalog.Database.InsertRefs` | crates/lorepia-assets/src/catalog.rs:225-287 | adds exactly the given references and keeps the totals those of a recount |
| `AssetCatalog.Database.InsertStaging` | crates/lorepia-assets/src/catalog.rs:225-287 | a staging row keeps the totals those of a recount |
| `AssetCatalog.Database.DeleteStaging` | crates/lorepia-assets/src/catalog.rs:225-287 | removing a staging row keeps the totals those of a recount |
| `AssetCatalog.Database.PutQuarantine` | crates/lorepia-assets/src/catalog.rs:225-287 | only a new quarantine row is counted |
| `AssetCatalog.Database.DeleteQuarantine` | crates/lorepia-assets/src/catalog.rs:225-287 | removing a quarantine row keeps the totals those of a recount |
| `AssetCatalog.Database.MissQuarantined` | crates/lorepia-assets/src/store.rs:2038-2083 | every object quarantined under the name becomes missing, one trigger a row, and the totals stay those of a recount |
| `AssetStore.Store.Ingest` | crates/lorepia-assets/src/store.rs:427-572 | for any owner: success leaves the object active, its file in place and the asked reference, with active bytes equal to those of all other objects plus its own and within the quota; in every case staging is as before and only this hash is touched |
| `AssetStore.Store.AdmitWithinQuota` | crates/lorepia-assets/src/store.rs:481-554 | admits exactly when the other active bytes plus the content fit the quota, and changes nothing otherwise |
| `AssetStore.Store.PrepareDestination` | crates/lorepia-assets/src/store.rs:1663-1691 | true for the right file in place; a wrong one is moved to quarantine and its row with it |
| `AssetStore.Store.Stage` | crates/lorepia-assets/src/store.rs:1604-1642 | row and staged file are recorded, row first, and nothing else changes |
| `AssetStore.Store.Unstage` | crates/lorepia-assets/src/store.rs:1650-1661 | file and row are gone, file first, and nothing else changes, the active bytes included |
| `AssetStore.Store.Admit` | crates/lorepia-assets/src/store.rs:524-552 | the admitting transaction has exactly the effect of one admission step of the run |
| `AssetStore.Store.RollbackTemporaryOwner` | crates/lorepia-assets/src/store.rs:1026-1102 | for any owner: removes exactly the owner’s session and references and the active objects nobody else referred to, and reports how many |
| `AssetStore.Store.RecoverTemporaryOwners` | crates/lorepia-assets/src/store.rs:941-998 | for any owner type: terminates with no expired session and no session-less reference of the type, having rolled back exactly the owners that were dead |
| `AssetStore.Store.RecoverExpired` | crates/lorepia-assets/src/store.rs:1000-1024 | rolls back exactly the dead owners of every type in which a session has expired; the limit of its query never cuts a type off |
| `AssetStore.Store.CommitTemporaryOwner` | crates/lorepia-assets/src/store.rs:810-913 | for any two owners: succeeds exactly when their types differ and the temporary owner has a live session whose references are as many as expected and all active; a failure changes nothing |
| `AssetStore.Store.CompleteQuarantineMove` | crates/lorepia-assets/src/store.rs:1901-1991 | finishes a move from wherever it was stopped, with intent steps only |
| `AssetStore.Store.CompleteQuarantinePurge` | crates/lorepia-assets/src/store.rs:2038-2083 | finishes a purge from wherever it was stopped, with intent steps only |
| `AssetStore.Store.RecoverQuarantineIntents` | crates/lorepia-assets/src/store.rs:1842-1872 | leaves no intent and the state the interrupted operation would have reached |
| `AssetStore.Store.QuarantineFile` | crates/lorepia-assets/src/store.rs:1750-1794 | ends in the whole effect of the move |
| `AssetStore.Store.PurgeQuarantineFile` | crates/lorepia-assets/src/store.rs:1993-2036 | ends in the whole effect of the purge, and does nothing for an unknown name |
| `AssetStore.Store.MarkSweepPage` | crates/lorepia-assets/src/store.rs:1308-1403 | removes, row and file, exactly the hashes of the page that are old enough and unreferenced, and reports them in page order |
| `AssetStore.Store.ReconcileObject` | crates/lorepia-assets/src/store.rs:1217-1299 | the exact new state: missing without a file, active exactly when the right file was in its place, otherwise row and file in quarantine; no other row is touched |
| `AssetStore.Store.ReleaseBackupSessions` | crates/lorepia-assets/src/store.rs:350-400 | drops the sessions and every pin of theirs, and reports how many pins |
| `AssetStore.Store.BeginBackupSnapshot` | crates/lorepia-assets/src/store.rs:177-309 | the written copy has right totals and no operational metadata; the session pins its active rows, beside any pins found under the name of a session that did not exist, and exactly its active rows while pins belong to sessions; refused only when 128 other sessions are live |
| `AssetStore.Store.RenewBackupSnapshot` | crates/lorepia-assets/src/store.rs:315-347 | returns the pin count, which is the number of active rows of the session’s snapshot as long as nobody else uses the store’s own owner type, so the exporter’s lease check holds until release or expiry |
| `AssetStore.Store.Open` | crates/lorepia-assets/src/store.rs:131-160 | opening finishes what was pending, then drops expired backup sessions, then rolls back the dead owners of every type in which a session has expired |
| `LoreModel.BeforeOrders` | crates/lorepia-lorebook/src/engine.rs:492-499 | entries with distinct ids have no ties in the prompt order |
| `LoreModel.FillTakes` | crates/lorepia-lorebook/src/engine.rs:432-461 | the prompt is the joined contents of some ranked entries in order and keeps both budgets |
| `LoreModel.FillIsGreedy` | crates/lorepia-lorebook/src/engine.rs:432-461 | an entry left out would not have fitted after the entries ranked above it |
| `LoreCompile.TakeCensus` | crates/lorepia-lorebook/src/engine.rs:845-899 | the first pass collects exactly the distinct normalized keys, sorted, and the regex totals; it fails exactly on a key that normalizes to nothing |
| `LoreCompile.CompileCondition` | crates/lorepia-lorebook/src/engine.rs:1000-1037 | a literal is resolved to the index of its own key and the inconsistent-index error cannot occur; a regex fails exactly when it does not compile |
| `LoreCompile.CompileList` | crates/lorepia-lorebook/src/engine.rs:978-998 | all conditions of a list are represented, or the entry is refused for a regex |
| `LoreCompile.CompileActivation` | crates/lorepia-lorebook/src/engine.rs:954-976 | the compiled activation represents the source activation |
| `LoreCompile.RegisterAll` | crates/lorepia-lorebook/src/engine.rs:1039-1070 | registers an entry under exactly the keys it names, each list increasing and without repeats |
| `LoreCompile.SameRegexes` | crates/lorepia-lorebook/src/engine.rs:1072-1086 | an entry is examined unconditionally exactly when it has no condition or some regex |
| `LoreCompile.BuildEntries` | crates/lorepia-lorebook/src/engine.rs:900-925 | the second pass fails at the first entry with a regex that does not compile, and otherwise yields the exact index |
| `LoreCompile.CompileCatalog` | crates/lorepia-lorebook/src/engine.rs:839-934 | compilation succeeds exactly on valid catalogs within the key and regex limits, and its index lists for every key exactly the enabled entries that name it; a refusal reports the first fault in the order of the checks, and of several bad regexes the first |
| `LoreSelect.MatchPatterns` | crates/lorepia-lorebook/src/engine.rs:271-283 | finds exactly the patterns that occur, charging every overlapping occurrence, and fails exactly when these exceed the limit |
| `LoreSelect.AddCandidate` | crates/lorepia-lorebook/src/engine.rs:501-506 | each entry becomes a candidate at most once |
| `LoreSelect.AddPatternCandidates` | crates/lorepia-lorebook/src/engine.rs:508-521 | the candidates grow by exactly the entries of the patterns that were hit |
| `LoreSelect.OthersAreInactive` | crates/lorepia-lorebook/src/engine.rs:387-423 | an entry the index does not propose is not active and would have cost no regex work |
| `LoreSelect.HitMeansLiteral` | crates/lorepia-lorebook/src/engine.rs:508-521 | an entry listed under an occurring key is one with a literal condition that holds, and conversely |
| `LoreEngine.EvaluationLimits.Evaluate` | crates/lorepia-lorebook/src/engine.rs:698-737 | one evaluation succeeds exactly within all three limits, and a failure names a limit that is exceeded |
| `LoreEngine.MatchChain` | crates/lorepia-lorebook/src/engine.rs:794-806 | short-circuit evaluation gives the truth of any/all at exactly the reference cost |
| `LoreEngine.MatchActivation` | crates/lorepia-lorebook/src/engine.rs:740-765 | the compiled activation is evaluated to the reference truth at the reference cost |
| `LoreEngine.FindCandidates` | crates/lorepia-lorebook/src/engine.rs:387-405 | the candidates are exactly the entries the index cannot rule out, each once |
| `LoreEngine.EvaluateCandidates` | crates/lorepia-lorebook/src/engine.rs:410-423 | the matched list is exactly the active candidates |
| `LoreEngine.SumIsTotal` | crates/lorepia-lorebook/src/engine.rs:387-423 | the work charged over the candidates, in any order, is the work of a scan over every entry |
| `LoreEngine.SameRanking` | crates/lorepia-lorebook/src/engine.rs:425-430 | ranking the matched candidates gives the ranking of all active entries |
| `LoreEngine.FillPrompt` | crates/lorepia-lorebook/src/engine.rs:432-461 | the fill loop builds the greedy prompt |
| `LoreEngine.SelectUncached` | crates/lorepia-lorebook/src/engine.rs:372-483 | indexed selection succeeds exactly when a scan of every enabled entry stays within all four limits, and then returns the scan’s prompt and receipt; a failure names a limit the scan exceeds |
| `LoreCache.SplitNumber` | crates/lorepia-lorebook/src/engine.rs:599-601 | an encoded number can be read back from the bytes that follow it |
| `LoreCache.SplitText` | crates/lorepia-lorebook/src/engine.rs:591-597 | so can a length-prefixed text |
| `LoreCache.TurnCodesInjective` | crates/lorepia-lorebook/src/engine.rs:555-574 | the turn encoding determines every visible turn |
| `LoreCache.SliceFixesText` | crates/lorepia-lorebook/src/engine.rs:531-582 | requests with the same slice bytes and partial-message policy have the same summary, visible turns and search text |
| `LoreCache.SettingsCodeInjective` | crates/lorepia-lorebook/src/engine.rs:612-646 | the settings bytes determine every setting but the tokenizer |
| `LoreCache.SameKeySameSelection` | crates/lorepia-lorebook/src/engine.rs:603-660 | requests with the same cache key have the same uncached selection and the same affordability |
| `LoreCache.BuildSearch` | crates/lorepia-lorebook/src/engine.rs:531-582 | one pass builds the search text and the bytes that identify it |
| `LoreCache.LorebookEngine.Select` | crates/lorepia-lorebook/src/engine.rs:350-370 | over every run: with or without a hit, selection succeeds on the same requests with the same prompt and receipt as an uncached scan, apart from the hit flag |
| `LoreCache.LorebookEngine.Remember` | crates/lorepia-lorebook/src/engine.rs:361-369 | the cache never exceeds 16 entries: a full one loses exactly its first key and every other answer stays |
| `LoreCache.FirstKey` | crates/lorepia-lorebook/src/engine.rs:363-365 | the first key of the cache in the order of its fields |
| `LoreCache.LorebookEngine.ReplaceCatalog` | crates/lorepia-lorebook/src/engine.rs:338-346 | a new catalog empties the cache under the next generation; a refused one changes nothing |
| `LoreCache.NewEngine` | crates/lorepia-lorebook/src/engine.rs:329-334 | an engine exists exactly for compilable catalogs |
| `BackupCatalog.PageResumes` | crates/lorepia-backup/src/sqlite.rs:130-157 | a page read from a cursor starts exactly after the row the cursor names |
| `BackupCatalog.PathOrderIsHashOrder` | crates/lorepia-backup/src/export.rs:684-691 | objects sort by path as they sort by hash |
| `BackupExport.StepKeepsCounted` | crates/lorepia-backup/src/export.rs:434-537 | a copy step keeps the counters those of the rows up to the cursor, each in place |
| `BackupExport.StepKeepsTidy` | crates/lorepia-backup/src/export.rs:434-537 | and leaves nothing in the package but counted objects and work on the next row |
| `BackupSession.StepKeepsInv` | crates/lorepia-backup/src/export.rs:75-350 | every step of every call, including the loss of a lease, abandoning and removal, keeps the invariant over directory, journal, lease and published package |
| `BackupSession.EveryStopIsCounted` | crates/lorepia-backup/src/export.rs:75-537 | over any number of calls, each stopped anywhere, with snapshots retaken and leases lost: a journal that has not reached the catalog snapshot counts nothing, and one that has counts exactly the rows of the snapshot beside it up to its cursor, each in place, with nothing else there, unless the lease was given up and files have been removed since |
| `BackupSession.RemovalForgets` | crates/lorepia-backup/src/export.rs:319-350 | in that one case it may fail: for every snapshot, every count and every counted row, a run after which that object is gone and still counted |
| `BackupSession.NeverConflicts` | crates/lorepia-backup/src/export.rs:206-210 | a call that is let in never finds a count beyond its snapshot, so that conflict cannot occur |
| `BackupSession.NeverRetaken` | crates/lorepia-backup/src/export.rs:167-193 | no call takes a snapshot again once anything has been counted against the one before |
| `BackupSession.CompleteExactly` | crates/lorepia-backup/src/export.rs:434-537 | the copy is complete exactly when the cursor is the last row, and then the totals are the snapshot’s and the package holds exactly its objects |
| `BackupSession.PublishedExactly` | crates/lorepia-backup/src/export.rs:291-302 | however many calls it took, a published package holds every object of its snapshot with the right content and nothing else |
| `BackupSession.StrandedExactly` | crates/lorepia-backup/src/export.rs:112-119 | a directory that no later call can use is left exactly by a stop inside its own removal, after its journal was deleted |
| `BackupSession.StrandedIsStuck` | crates/lorepia-backup/src/export.rs:319-350 | nothing but that removal can change such a directory |
| `BackupSession.StrandedCanHappen` | crates/lorepia-backup/src/export.rs:319-350 | a run that leaves one |
| `BackupSupply.PinnedSnapshotIsSupplied` | crates/lorepia-assets/src/store.rs:167-176 | when callers keep to what they are asked, from the pinning of a snapshot until its release the store can supply every row of it with its hash and size, if the files were in place when they were pinned |
| `BackupExporter.Exporter.Export` | crates/lorepia-backup/src/export.rs:56-73 | an unstopped call on supplied rows publishes exactly the snapshot it resumed, or the active rows if it had none or its lease was gone, if and only if no removal before it was cut short after deleting the journal or the catalog snapshot; a failure publishes nothing, and one that no later call can resume from leaves neither directory nor lease unless the journal is missing |
| `BackupExporter.Exporter.ExportResumable` | crates/lorepia-backup/src/export.rs:75-311 | the same for the call without its cleanup; it reports a journal conflict exactly for a stranded directory |
| `BackupExporter.Exporter.Enter` | crates/lorepia-backup/src/export.rs:112-164 | resumes a journalled catalog snapshot exactly while its lease is held over all of it, resumes an earlier phase as it is, starts over when the lease is gone, and refuses a directory without journal or snapshot |
| `BackupExporter.Exporter.TakeSnapshots` | crates/lorepia-backup/src/export.rs:167-193 | takes what is missing and ends with the rows it resumed or the active rows, journalled and truthful |
| `BackupExporter.Exporter.TakeCatalog` | crates/lorepia-assets/src/store.rs:177-309 | pins the active objects and journals the copied rows; a copy that is cancelled or fails gives up the pins |
| `BackupExporter.Exporter.Abandon` | crates/lorepia-backup/src/export.rs:319-350 | gives up the lease and removes the directory; without a journal it changes nothing |
| `BackupExporter.Exporter.CopyObject` | crates/lorepia-backup/src/export.rs:468-521 | keeps a right object, replaces a wrong one, copies a missing one; only a verified copy takes the object’s name, and a copy that could not be made or did not verify leaves no file |
| `BackupExporter.Exporter.CopySnapshotObjects` | crates/lorepia-backup/src/export.rs:434-537 | resumed from the journal under a renewed lease, success counts every row once; an unstopped call on supplied rows with its lease held succeeds |
| `BackupExporter.Exporter.Finish` | crates/lorepia-backup/src/export.rs:225-302 | publishes exactly the counted snapshot, once the lease has been renewed for the last time and given up |
| `PortablePaths.ObjectPathIsUsable` | crates/lorepia-backup/src/fsutil.rs:198-255 | every object path is portable, lower case and 90 bytes long |
| `PortablePaths.FixedPathsAreUsable` | crates/lorepia-backup/src/fsutil.rs:198-255 | the four fixed paths are portable, lower case and 86 bytes together |
| `PortablePaths.ComponentsOf` | crates/lorepia-backup/src/fsutil.rs:219-253 | splitting a path gives back its components |
| `BackupManifest.ListingIsSorted` | crates/lorepia-backup/src/export.rs:626 | catalog, objects in hash order, product database and receipts are in strict path order |
| `BackupManifest.ListingSizes` | crates/lorepia-backup/src/manifest.rs:78-97 | a listing of n objects takes 86 + 90 n path bytes and its objects are the rows in order |
| `BackupManifest.ListingIsAcceptable` | crates/lorepia-backup/src/restore.rs:425-520 | a catalog of at most 100,000 objects never breaks the entry or path budget: its listing is acceptable unless its sizes overflow |
| `BackupManifest.AcceptedIsListing` | crates/lorepia-backup/src/restore.rs:425-571 | an acceptable entry list whose objects are the rows is the listing of those rows and nothing else |
| `BackupManifest.Push` | crates/lorepia-backup/src/manifest.rs:99-123 | an entry is added exactly within the entry and path budgets |
| `BackupManifest.PushObjects` | crates/lorepia-backup/src/export.rs:578-607 | the paged loop lists every row once and in order; within the object limit it succeeds exactly when every object is in the package with its hash and size |
| `BackupRoundTrip.SortedListing` | crates/lorepia-backup/src/export.rs:626 | sorting the collected entries by path gives the listing |
| `BackupRoundTrip.BuildManifest` | crates/lorepia-backup/src/export.rs:539-652 | export writes a manifest exactly when the package is complete, within the object limit and countable, and it is the listing |
| `BackupRoundTrip.CheckBudget` | crates/lorepia-backup/src/manifest.rs:78-97 | the budget check is exact |
| `BackupRoundTrip.CheckCollisions` | crates/lorepia-backup/src/fsutil.rs:257-268 | accepts exactly portable paths that differ after case folding |
| `BackupRoundTrip.ScanEntries` | crates/lorepia-backup/src/restore.rs:454-491 | the scan accepts exactly ordered, well-formed, supported entries within the totals, and counts them |
| `BackupRoundTrip.CountIsPresence` | crates/lorepia-backup/src/restore.rs:492-500 | under strict path order a fixed kind occurs at most once, so the counter asks whether it occurs |
| `BackupRoundTrip.CheckDescriptor` | crates/lorepia-backup/src/restore.rs:506-519 | a database descriptor is accepted exactly when an entry says the same |
| `BackupRoundTrip.ValidateManifest` | crates/lorepia-backup/src/restore.rs:425-521 | accepts exactly the acceptable manifests, and reports the first fault of any other: the first failing check, and within the entries the first entry at fault |
| `BackupRoundTrip.ValidateCatalogManifest` | crates/lorepia-backup/src/restore.rs:523-572 | the lock-step walk accepts exactly when the object entries are the catalog’s active rows, one to one and in order |
| `BackupRoundTrip.ExportedIsRestorable` | crates/lorepia-backup/src/restore.rs:425-572 | every manifest an export can write passes both checks of a restore of the same catalog |
| `BackupRoundTrip.RestorableIsListed` | crates/lorepia-backup/src/restore.rs:425-572 | and a manifest that passes them is one an export could have written |
| `BackupRoundTrip.AcceptedForRestore` | crates/lorepia-backup/src/restore.rs:425-520 | the data entries of a validated manifest have distinct paths, none of which looks like a temporary copy, and at most 100,000 objects: what the restore protocol asks of a package |
| `MemoryBudget.LossesAddUp` | crates/lorepia-memory/src/budget.rs:169-188 | what rounding loses adds up to a whole number of at most two tokens |
| `MemoryBudget.TopLosersOnly` | crates/lorepia-memory/src/budget.rs:169-188 | rounding up the largest losses is fair and never gives to a share that lost nothing |
| `MemoryBudget.Apportion` | crates/lorepia-memory/src/budget.rs:169-188 | for weights that make up the whole: shares sum to the total, each is its rounded-down quota or one more, larger losses first and of equal ones the first, and a zero weight gets zero |
| `MemoryBudget.ApportionedOnce` | crates/lorepia-memory/src/budget.rs:169-188 | these demands leave exactly one apportionment |
| `MemoryBudget.Calculate` | crates/lorepia-memory/src/budget.rs:93-130 | every token of the memory budget goes to exactly one part, and the budget fits both the ratio cap and what the prompt leaves |
| `MemoryBudget.BudgetOnce` | crates/lorepia-memory/src/budget.rs:93-130 | a preset and a prompt fix the budget |
| `MemoryArtifacts.CoveredAreTheLeaves` | crates/lorepia-memory/src/artifact.rs:69-103 | for any depth of re-summarizing, the covered list is the sorted set of exactly the leaves in the derivation |
| `MemoryArtifacts.CollectLeaves` | crates/lorepia-memory/src/artifact.rs:76-89 | the union of the sources’ leaves, refused exactly beyond the candidate limit |
| `MemoryArtifacts.NewArtifact` | crates/lorepia-memory/src/artifact.rs:52-121 | exactly when a job of the session yields an artifact, down to the content rules; its range is the job’s, and from soundly derived sources it is soundly derived, so it covers exactly the leaves below it |
| `MemoryArtifacts.CoversLeaf` | crates/lorepia-memory/src/artifact.rs:189-191 | binary search answers exactly whether the leaf is in the derivation |
| `MemoryArtifacts.ValidateSnapshot` | crates/lorepia-memory/src/summary.rs:688-720 | accepts exactly few enough, distinct, strictly chronological messages of the session’s chat |
| `MemoryArtifacts.PlanInitialJobs` | crates/lorepia-memory/src/summary.rs:417-482 | plans exactly for the expected session within the batch and plan byte limits, one job a batch |
| `MemoryArtifacts.JobsPartition` | crates/lorepia-memory/src/summary.rs:431-481 | the batches are the messages cut into pieces of at most the batch size, nothing lost or repeated |
| `MemoryArtifacts.JobsAreIncreasing` | crates/lorepia-memory/src/summary.rs:431-481 | job ranges are disjoint and increasing |
| `MemoryArtifacts.PlanResummary` | crates/lorepia-memory/src/summary.rs:484-557 | accepts exactly usable, distinct, strictly chronological artifacts of the session within the byte limit |
| `MemoryArtifacts.InitialArtifactsAreAccepted` | crates/lorepia-memory/src/summary.rs:505-535 | artifacts of any of the initial jobs always pass the resummary checks of scope, validity and order |
| `MemorySelection.BucketFits` | crates/lorepia-memory/src/retrieval.rs:672-707 | a bucket keeps its budget and repeats nothing |
| `MemorySelection.BucketIsMaximal` | crates/lorepia-memory/src/retrieval.rs:672-689 | when a bucket closes nothing left over would still fit |
| `MemorySelection.BucketsAreMaximal` | crates/lorepia-memory/src/retrieval.rs:385-450 | and this holds of each bucket of a selection, for every uncovered leaf |
| `MemorySelection.SelectionForgetsOrder` | crates/lorepia-memory/src/retrieval.rs:344-457 | the selection does not depend on the order of the candidates |
| `MemorySelection.PickIsOk` | crates/lorepia-memory/src/retrieval.rs:344-450 | every pick is eligible, within its bucket’s budget, and no id is picked twice |
| `MemorySelection.SelectionFits` | crates/lorepia-memory/src/retrieval.rs:458-468 | the whole selection fits a completely split budget, so the two guards at the end cannot fire |
| `MemorySelection.SelectionIsChronological` | crates/lorepia-memory/src/retrieval.rs:452-457 | the selection is exactly the picks, each once, in chronological order |
| `MemorySelection.NoLeafBesideItsSummary` | crates/lorepia-memory/src/retrieval.rs:376-383 | no leaf is selected beside a summary derived from it |
| `MemorySelection.SelectBucket` | crates/lorepia-memory/src/retrieval.rs:672-689 | the loop takes exactly the specified bucket |
| `MemorySelection.CalculatedBudgetSplits` | crates/lorepia-memory/src/budget.rs:93-130 | a calculated budget is split completely and fits 32 bits |
| `MemorySelection.ValidateQuery` | crates/lorepia-memory/src/retrieval.rs:483-534 | accepts exactly no query for a rolling summary, and for hybrid retrieval a query of the session whose messages are unchanged, in order and neither none nor too many |
| `MemorySelection.CheckCandidates` | crates/lorepia-memory/src/retrieval.rs:321-342 | accepts exactly few enough, distinct candidates of the session whose scores belong to this session and this query |
| `MemorySelection.SelectMemories` | crates/lorepia-memory/src/retrieval.rs:310-481 | with the budget its preset gives for the prompt: fails exactly on a wrong scope or query, bad candidates or a missing score, never over budget or by overflow, and otherwise returns the specified selection and its tokens |
| `Replacement.PrintOfParse` | crates/lorepia-prompt/src/regex_pipeline.rs:205-274 | printing the parts of an accepted replacement gives back the string, and the parts are canonical |
| `Replacement.ParseOfPrint` | crates/lorepia-prompt/src/regex_pipeline.rs:205-274 | parsing a printed canonical part list gives back the list |
| `Replacement.DigitsOfValue` | crates/lorepia-prompt/src/regex_pipeline.rs:236-256 | canonical digits are determined by their value |
| `Transform.ParseReplacement` | crates/lorepia-prompt/src/regex_pipeline.rs:205-274 | the cursor parser accepts exactly the replacement language and returns its parts |
| `Transform.ReadDollar` | crates/lorepia-prompt/src/regex_pipeline.rs:223-266 | what follows a dollar sign is read as one part, or no part list exists for the rest |
| `Transform.ExpandReplacement` | crates/lorepia-prompt/src/regex_pipeline.rs:337-354 | expands exactly within the text limit |
| `Transform.RuleSucceedsExactly` | crates/lorepia-prompt/src/regex_pipeline.rs:283-335 | a rule succeeds exactly within the shared and own match limits and the text limit |
| `Transform.ApplyRule` | crates/lorepia-prompt/src/regex_pipeline.rs:283-335 | returns the input with exactly the matches in use replaced, or the limit that is met first: the text limit at the first match that breaks it unless a match limit comes before |
| `Transform.WholeMatchIsIdentity` | crates/lorepia-prompt/src/regex_pipeline.rs:283-335 | replacing every match by itself returns the input, for every list of non-overlapping matches |
| `Transform.ParseWholeMatch` | crates/lorepia-prompt/src/regex_pipeline.rs:205-274 | `${0}` parses to the whole match |
| `Transform.Pipeline.Apply` | crates/lorepia-prompt/src/regex_pipeline.rs:74-91 | rules run in order, each over the text before it, under one shared budget: the text and all counters of a completed run, or the first limit met; no counter ever goes down |
| `Transform.OutcomeExactly` | crates/lorepia-prompt/src/regex_pipeline.rs:74-139 | a run completes exactly when the bytes read, the matches of all rules, the matches of each rule and every text in between stay within their limits, and then gives what the rules give without limits and has counted exactly those sums |
| `Transform.IdentityPipeline` | crates/lorepia-prompt/src/regex_pipeline.rs:74-91 | a pipeline of whole-match rules returns its input |

## Left out

- AssetStore.Store.MarkSweepPage: the page of hashes its query returns is an input; the paging cursor is not modelled.
- AssetStore.Store.RecoverTemporaryOwners: the order in which dead owners are found is left open; the result does not depend on it.
- AssetStore.Store.ReconcileObject: states the work on one row; the paging around it and the list of findings are not modelled.
- BackupExporter.Exporter.Export: a failure of a store is modelled while it takes a snapshot or reads an object, and not where it only renews or gives up a lease.
- BackupExporter.Exporter.CopyObject: a copy interrupted while it is being read back may leave its temporary file, as in the source; the contract does not tell that stop from one during the copying, which removes it.
- BackupExporter.Exporter.Finish: the renewals of the lease during manifest building, verification and the secret scan are one renewal here, and the manifest files are not part of the directory.
- Transform.Pipeline.Apply: the counters a failed run leaves are bounded from below only.
- SQLite, schema migration, JSON and the manifest's canonical bytes: a transaction is one atomic step, a manifest its decoded value.
- File system identity, symbolic links and no-follow handling: directories are maps from names to contents.
- The journal fields that only name things (operation, destination name, session id, last verified hash of a restore) and foreign journals beyond the conflict they cause.
- The contents of the product database snapshot, the sums behind the free-space policy of export and the secret scan.
- Staging cleanup and quarantine purge pages, which repeat modelled single steps, and the paging of shard reconciliation.
- Overflow of 64-bit counters in the store and of revision counters; sizes are unbounded there.
- Embedding queries, cosine similarity, materialization of selected memories and chunking.
- Prompt compilation, presets, personas, providers, credentials, import formats and the user interface: mostly one-branch checks, I/O and library calls.
