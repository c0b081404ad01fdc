# Verified model of NetBox Scripts' storage, validation and migration protocols

NetBox Scripts keeps each Script Project's source as content-addressed revisions: a row per
identity in the database, a key per file on a storage backend, and a status that says what may be
done with it. This project models that machinery in Dafny 4.11 and proves what it promises, for
all inputs and over all interleavings. `dafny verify dfyconfig.toml` checks everything.

## What is modelled

**The revision lifecycle as a transition system** (`Lifecycle.dfy`). One project's revision rows,
its stored content, the holder of the project lock, the cleanup jobs deletion records, validation
runs with their leases, Script File declarations and Script rows. Every action is one database
transaction, one conditional UPDATE or one backend mutation; deletion, lease expiry, write
failures, worker pauses and crashes may fall between any two. A disabled action changes nothing, so
the theorems range over *all* action sequences from a project that never stored anything.

- `StorageSafety.dfy`: settled content is always stored; no stored key is ever orphaned.
- `Effects.dfy`: what storing and editing steps leave alone, shared by the invariants below.
- `Serving.dfy`: pointer, ACTIVE revision and Script rows always agree.
- `Fencing.dfy`, `FencingExact.dfy`: one verdict per revision, from the latest claim, and what exactly
  that assumes of the Jobs.
- `Discoveries.dfy`: discovery results never go back, and converge.
- `Progress.dfy`: what an upload, a refresh, a cleanup and a promotion come to when left to themselves.
- `Uploads.dfy`: the accepted tree is the fold of the successful uploads.
- `OneShot.dfy`: one-shot activation requests and automatic promotion.
- `ScriptSync.dfy`, `Introspection.dfy`: synchronizing Script rows with a recorded snapshot, and
  the snapshot itself, from collection over acceptance to the published rows.

**Paths, manifests and the store** (`Segments.dfy`, `SourcePaths.dfy`, `Manifest.dfy`,
`Store.dfy`). The backend is a class over a key-to-bytes map whose calls may fail, report no size,
misreport one, deliver short reads, or park a save under an invented name because a rival took the
key. Hashing is an uninterpreted function: digests are 64 hexadecimal characters, and where
contents are compared by digest, the contents at hand are assumed not to collide
(`Manifest.Hexadecimal`, `Manifest.NoCollisions`). NFC, `str.lower` and `str.isspace` are
uninterpreted functions with the laws in `SourcePaths.Lawful`.

**The migration** (`Cutover.dfy`, `CutoverExact.dfy`, `CutoverCompletion.dfy`, `Replay.dfy`). The
capture and cancellation of waiting jobs as a second transition system, with what a pass holds in
memory apart from the stored journal, racing workers and crashing between any two writes; what
exactly its guarantee assumes; what completion means, and that an undisturbed cutover completes;
and one reference pass in full, over the same journal entries.

**Algorithms on their own** (`LocalCache.dfy`, `CacheRoot.dfy`, `Sanitizer.dfy`,
`MigrationPlan.dfy`, `Dialects.dfy`).

## Findings

Five properties hold only under a condition. The code is modelled as it is; each has a lemma with
a concrete input showing the failure, and a lemma saying exactly when it does hold.

- A canonical path is not always a fixed point of canonicalization: `./ a.py` becomes ` a.py`,
  which the second pass rejects. `SourcePaths.SecondPass` gives the exact condition, and
  `Store.BuildWriteRead` shows what it means: a build can report no error and still be refused when
  it is written. The documentation of `normalize_source_path` says leading whitespace is rejected;
  whitespace behind a dropped `./` is not.
- In a project that never accepted a source, a crash between settling an upload's revision and
  accepting it leaves that upload in the tree the next one merges into, though it never succeeded
  (`Uploads.ACrashCanLoseTheFirstAcceptance`). `Uploads.OnlyALosingCrashBreaksTheFold` says exactly
  when that crash breaks the fold. While a source is accepted and nothing is deleted it cannot
  happen (`Uploads.AcceptedRunsAreLossless`); deleting the accepted revision's row reopens the case.
- The validation fence compares Jobs, so a Job run a second time on a revision, once its lease
  expired, shares the fence with its first run: the verdict of the run whose claim was taken over
  still lands (`FencingExact.ARepeatedJobPassesItsOwnFence`). `FencingExact.OneRunAtATimeIsExact`
  shows the fence holds exactly when no Job claims a revision while an earlier run of it is still at
  work there. One verdict per revision, its finality and results that never go back need no such
  condition.
- A worker that dequeued a captured task before the cutover and starts it only after the reference
  pass runs a job that was recreated (`Cutover.ALateWorkerRunsARecreatedJob`).
- A Job row deleted after its job ran, while the stored journal does not yet say so, reads as
  vanished, and the job is recreated (`Cutover.ADeletedRowIsRecreatedAfterRunning`).

`Cutover.Orderly` is the condition for the last two findings: a started job's row is deleted only
once the stored journal marks it executed or left running, and a schedule is replayed only while no
worker holds its old task. `CutoverExact.OrderlyIsExact` shows both halves: from any sound state, a step
meets it if and only if no continuation that meets it both executes and recreates a job.

## Model

| member | source | states |
|---|---|---|
| `StorageSafety.SettledContentIsAlwaysStored` | netbox_scripts/storage/service.py:137-193 | In every interleaving, each row with a digest outside staging and storage_failed finds every manifest key stored with the recorded bytes |
| `StorageSafety.NoContentIsEverOrphaned` | netbox_scripts/signals.py:72-145 | Every stored key belongs to its tree's manifest and is named by a live row or by an unfinished cleanup job |
| `StorageSafety.StepSound` | netbox_scripts/jobs.py:73-112 | Each single step, cleanup's recheck and key deletions included, keeps the joint invariant of rows, store, jobs and lock holder |
| `StorageSafety.IntactElsewhere` | netbox_scripts/storage/store.py:243-256 | Writing a key of a tree that is not intact there disturbs no intact tree, so a sibling's retry is harmless mid-write |
| `Serving.ServingIsAlwaysCoherent` | netbox_scripts/storage/service.py:322-385 | The project serves r exactly when r is the one ACTIVE revision, and then the unretired Script rows are exactly r's recorded ones |
| `Serving.PromotionCoherent` | netbox_scripts/activation.py:59-92 | A promotion moves pointer, both statuses and Script rows together, and a permitted one ends serving its revision |
| `Serving.DeactivationRetiresEverything` | netbox_scripts/activation.py:95-132 | Every Script retires and none is lost, each keeping its publication, last revision, enabled flag and overrides; the pointer clears and that revision alone retires |
| `Serving.ReactivationRestoresEveryRow` | netbox_scripts/activation.py:95-132 | Deactivating a revision and promoting it again leaves every Script row, every revision row and the pointer as they were |
| `Serving.NothingServedNothingPublished` | netbox_scripts/activation.py:95-132 | In every deletion-free run, a project serving no revision has every Script retired |
| `Fencing.OneVerdictFromTheLatestClaim` | netbox_scripts/validation.py:356-365 | At most one verdict per revision, and status, errors and published set are that verdict's, in every run; reached by the latest claimant unless a Job ran twice on a revision it was still at work on |
| `Fencing.VerdictLandsExactly` | netbox_scripts/validation.py:356-365 | A run that still holds its row writes status, errors and published set there and nowhere else; any other writes nothing |
| `Fencing.ReversalGivesBack` | netbox_scripts/validation.py:377-388 | Environment trouble leaves the row materialized and unowned, claimable by any run, or untouched when the run no longer holds it |
| `Fencing.ClaimableExactly` | netbox_scripts/validation.py:82-91 | A revision is claimable exactly when materialized, or validating for more than half an hour; the claim starts at the clock under the claiming Job |
| `Fencing.LeaseHolds` | netbox_scripts/validation.py:80-91 | Within its lease only its owner's verdict or reversal, or its deletion, moves a row being validated |
| `Fencing.OvertakenRunIsInert` | netbox_scripts/validation.py:377-388 | Unless a Job so runs twice, a run whose claim was taken over stays so, and none of its final steps changes a revision or Script File row |
| `Fencing.TheFenceSeesJobs` | netbox_scripts/validation.py:361-364 | In every reachable state the fence lets an overtaken run through exactly when the run that overtook it belongs to the same Job |
| `FencingExact.OneRunAtATimeIsExact` | netbox_scripts/validation.py:82-91 | Wherever the fence holds, a step starts no second run of a Job at work on the revision exactly when no continuation without such steps lets an overtaken run decide |
| `FencingExact.ARepeatedJobPassesItsOwnFence` | netbox_scripts/validation.py:356-365 | From any fresh project, a Job run again after its lease expired leaves its first run's verdict on the row although the second run claimed it |
| `Fencing.VerdictIsFinal` | netbox_scripts/storage/service.py:150-166 | Nothing re-drives a digest-bearing INVALID row, and a valid one keeps errors and published set through promotion, retirement and re-staging |
| `Discoveries.DiscoveryConverges` | netbox_scripts/validation.py:391-426 | Absent deletions and second runs of a Job, whatever order verdicts persist in, each Script File ends with the outcome of an attempt having the greatest claim time |
| `Discoveries.DiscoveryNeverGoesBack` | netbox_scripts/validation.py:415-426 | In every reachable state, second runs included, no step but a deletion moves a Script File's result to an earlier claim |
| `Discoveries.PersistsExactly` | netbox_scripts/validation.py:391-426 | Which files a result is written to, and what exactly: never on one moved, removed, or reached for a revision claimed later |
| `Uploads.NoUploadIsLost` | netbox_scripts/ingestion.py:138-190 | From any reachable state at rest, a source accepted or only rows left over, the current tree is the starting tree with the successful uploads merged in lock order, failures contributing nothing |
| `Uploads.AcceptedRunsAreLossless` | netbox_scripts/storage/service.py:68-79 | While a source is accepted, every deletion-free run satisfies the condition of that theorem |
| `Uploads.OnlyALosingCrashBreaksTheFold` | netbox_scripts/models/projects.py:397-421 | A crash before the first acceptance leaves the merged tree current exactly when it is not the excluded crash, or the caught tree is the merged one anyway |
| `Uploads.ACrashCanLoseTheFirstAcceptance` | netbox_scripts/models/projects.py:397-421 | A concrete run in which the current tree holds a file no successful upload brought |
| `Progress.UploadIsAccepted` | netbox_scripts/ingestion.py:178-190 | From any reachable state at rest, an upload left to itself makes the merged tree the accepted source under the declarations then enabled, stored whole, other rows and other trees' keys untouched |
| `Progress.RefreshIsAccepted` | netbox_scripts/storage/service.py:196-267 | A refresh left to itself accepts the current tree under the declarations enabled now, writing nothing to the store |
| `Progress.CleanupEnds` | netbox_scripts/jobs.py:73-112 | A cleanup left to itself finishes: a tree a row still names is untouched, of any other exactly its keys are gone |
| `Progress.PromotionServes` | netbox_scripts/storage/service.py:270-385 | A promotion left to itself serves its revision, retires what was active, publishes exactly its recorded Scripts and spends the request waiting on it |
| `Progress.CommitsExactly` | netbox_scripts/storage/service.py:322-385 | The commit serves the revision exactly when it still is what was verified and may be served, spending the request waiting on it, and otherwise rolls everything back |
| `Progress.ClaimTurns` | netbox_scripts/storage/service.py:146-174 | A stored row is accepted only when found whole, a rejected one untouched, and one another worker took on meanwhile is looked at again |
| `Progress.StepsWaitTheirTurn` | netbox_scripts/storage/service.py:55-193 | An operation starts only on a free lock, and each later step only of its holder and in its turn |
| `Progress.DeclarationsStayDistinct` | netbox_scripts/ingestion.py:253-268 | In every reachable state no two Script Files declare one path |
| `Progress.DeclaringNeedsItUndeclared` | netbox_scripts/ingestion.py:253-268 | A path is declared once, by a new enabled file discovery has not reached |
| `Progress.FailedWriteIsRecorded` | netbox_scripts/storage/service.py:137-193 | A failed write marks its row storage_failed, accepts nothing, and leaves at most the key at hand, when it was free, holding something |
| `Progress.FailedCleanupStays` | netbox_scripts/jobs.py:73-112 | A cleanup that could not delete a key gives the lock back and stays on record |
| `Progress.DeletionIsExact` | netbox_scripts/signals.py:72-145 | Exactly the deleted rows go, pointers to them clear, and each tree no surviving row names gets a cleanup; the store keeps everything |
| `Progress.SavesAreNarrow` | netbox_scripts/models/scripts.py:243-266 | A full save of a stale Script row or of the project writes its own fields and keeps what publication and acceptance own |
| `OneShot.RequestsAreNeverTransferredOrReused` | netbox_scripts/storage/service.py:68-79 | A pending request was made for the accepted revision, never waits on an ACTIVE source, and is spent at most once |
| `OneShot.AcceptedRequestsWait` | netbox_scripts/storage/service.py:68-79 | In every reachable state, accepting leaves a request pending exactly when the row is not being served and one is asked for now or already waits on it |
| `OneShot.PendingUntilServed` | netbox_scripts/storage/service.py:333-365 | A pending request ends only by a promotion of the source or by another source accepted in its place |
| `OneShot.RequestsServeTheirOwnRevision` | netbox_scripts/storage/service.py:333-365 | A request is spent only by a promotion that leaves the revision it was made for active |
| `OneShot.AutomaticPromotionIsCurrent` | netbox_scripts/storage/service.py:333-365 | Over all runs, a step that moves the pointer under an automatic promotion serves the source accepted in that state, under the declarations enabled then and with a request or the policy in force, unless the served row is deleted |
| `OneShot.AcceptedSourceIsStored` | netbox_scripts/storage/service.py:68-79 | In every reachable state the accepted source is a row whose content is stored |
| `ScriptSync.ScriptTable.SynchronizeScripts` | netbox_scripts/activation.py:137-185 | From any row set the table becomes exactly the synchronized one, primary keys stand, and the counts are the real writes and retirements |
| `ScriptSync.SyncConverges` | netbox_scripts/activation.py:137-185 | The synchronized table publishes exactly the snapshot, loses no row, keeps enabled and overrides, creates rows enabled and without overrides, and a second pass writes nothing |
| `ScriptSync.SyncDeterminesSnapshot` | netbox_scripts/activation.py:137-185 | Two snapshots that leave one table are equal |
| `Introspection.ValidateDiscoveredScripts` | netbox_scripts/runtime/introspection.py:93-157 | Accepts exactly the acceptable snapshots, and otherwise reports the first entry that spoils the list |
| `Introspection.WellFormedExactly` | netbox_scripts/runtime/introspection.py:93-157 | What a record must hold, field by field, with Python's equality for its position |
| `Introspection.DescribesFaithfully` | netbox_scripts/runtime/introspection.py:46-90 | A class is described exactly when nothing is wrong with it, and the record then carries its identity, texts, timeout, policy, file and position |
| `Introspection.CollectPublications` | netbox_scripts/validation.py:309-353 | The new failures are one for each item refused, in order, each for that item's own reason; every other item's class is published, every record added describes an item, and FAILED means a failure was added |
| `Introspection.CollectAll` | netbox_scripts/validation.py:100-184 | Whatever is found, the collected snapshot is acceptable and describes only classes found, and a run without failures publishes every class |
| `Introspection.PublishCollected` | netbox_scripts/activation.py:137-199 | Collected, accepted and synchronized: the unretired Script rows are exactly the classes found, with the recorded publication, and the counts are the real writes; a refused run changes no row |
| `SourcePaths.SecondPass` | netbox_scripts/storage/paths.py:74-103 | Canonicalizing a canonical path returns it unchanged, except when it is whitespace-edged or reads as drive-qualified, with the error each gives |
| `SourcePaths.CanonicalSegments` | netbox_scripts/storage/paths.py:102-153 | A canonical path is NFC, and splits into named segments, none '.' or '..' |
| `SourcePaths.AcceptedExactly` | netbox_scripts/storage/paths.py:74-153 | Exactly which paths are accepted, on their NFC text and its segments, with the three size limits |
| `SourcePaths.RefusedByText` | netbox_scripts/storage/paths.py:74-115 | Exactly which paths are refused as absolute, which as traversal, and which reach the checks of their segments |
| `SourcePaths.RefusedBySegments` | netbox_scripts/storage/paths.py:102-153 | Exactly which of those are refused for which of the other reasons, in order, and that an accepted one is its kept segments joined |
| `SourcePaths.DotSlashSpaceIsNotFixed` | netbox_scripts/storage/paths.py:74-103 | './ a.py' is accepted as ' a.py', which is then rejected |
| `SourcePaths.FormsAreDistinct` | netbox_scripts/storage/paths.py:156-166 | One path contributes no two nodes under one case-insensitive form |
| `SourcePaths.CaseInsensitiveCollisions` | netbox_scripts/storage/paths.py:169-189 | Exactly the paths touching a collision are reported, each with its shallowest colliding node and the least other name |
| `SourcePaths.CollisionFree` | netbox_scripts/storage/paths.py:169-189 | When no path is rejected, two nodes of one form are the same node |
| `Manifest.BuildManifest` | netbox_scripts/storage/manifest.py:29-97 | The entries are the accepted candidates strictly sorted by path, and the errors are the walk's, the conflicts' and the limits', in that order |
| `Manifest.SilentBuilds` | netbox_scripts/storage/manifest.py:29-97 | A build reports nothing exactly for a clean tree, and then every file has its entry |
| `Manifest.CandidatesDescribe` | netbox_scripts/storage/manifest.py:47-66 | Every candidate records one source file's size and hash under its canonical path, no path twice |
| `Manifest.CandidatesExactly` | netbox_scripts/storage/manifest.py:47-66 | The candidates are exactly the size and hash of each path's first spelling, when its content is no larger than allowed |
| `Manifest.FaultExactly` | netbox_scripts/storage/manifest.py:47-66 | Which error a spelling leaves: why its path is refused, that it is not the first, or its size |
| `Manifest.RejectPathConflicts` | netbox_scripts/storage/manifest.py:100-147 | The errors' paths are exactly the dropped entries' paths, blocked ones first and each pass in order, naming the shallowest blocking file or the shallowest colliding node and least other name |
| `Manifest.ConflictsNameTheDropped` | netbox_scripts/storage/manifest.py:100-147 | With no path twice, an entry is dropped exactly when an error names it, no two errors name one path, and none names anything else |
| `Manifest.AcceptedNeverClash` | netbox_scripts/storage/manifest.py:100-147 | No accepted path matches, ignoring case, another accepted path or an ancestor directory of one |
| `Manifest.DroppedReallyClash` | netbox_scripts/storage/manifest.py:100-147 | Every dropped entry really clashes with another candidate |
| `Manifest.ValidateManifest` | netbox_scripts/storage/manifest.py:181-206 | A stored manifest raises no reason exactly when it can be trusted: well-formed distinct canonical entries that coexist, under its digest |
| `Manifest.ConflictingPaths` | netbox_scripts/storage/manifest.py:245-254 | A reason for exactly the blocked and exactly the colliding paths |
| `Manifest.ComputeDigest` | netbox_scripts/storage/manifest.py:163-178 | The digest is that of the sorted listing, whatever order the entries come in |
| `Manifest.BuildsAreTrusted` | netbox_scripts/storage/manifest.py:181-242 | A build's entries read back under their digest are trusted exactly when no path is whitespace-edged or drive-qualified |
| `Manifest.AssumptionsCanBeMet` | netbox_scripts/storage/manifest.py:163-178 | Some hashing has hexadecimal digests and tells any two given byte strings apart |
| `Store.Measure` | netbox_scripts/storage/store.py:337-359 | Size and hash of the stream cut one byte past the expected size, never reading further, the sink receiving those bytes |
| `Store.BoundedReadIsExact` | netbox_scripts/storage/store.py:291-313 | Whatever a stream holds, the bounded read accepts it exactly when it is the recorded content, provided these two do not collide |
| `Store.KeysNameOneObject` | netbox_scripts/storage/paths.py:218-231 | Two revision keys are equal exactly when project, digest and canonical path are |
| `Store.KeySegments` | netbox_scripts/storage/paths.py:213-231 | A key's segments are the plugin's name, the storage key, 'revisions', the digest and the canonical path's |
| `Store.KeyBuildable` | netbox_scripts/storage/paths.py:203-231 | A key can be built exactly from a well-formed digest and an acceptable path |
| `Store.OthersStayIntact` | netbox_scripts/storage/store.py:51-151 | Whatever was stored intact for another digest or another project is intact after any write or delete |
| `Store.StreamVerified` | netbox_scripts/storage/store.py:291-313 | Success means the object is intact and the sink holds its bytes; on a working backend the verdict names exactly the damage |
| `Store.VerifyRevisionTree` | netbox_scripts/storage/store.py:85-122 | On a working backend it passes exactly for an intact tree, and prefix_missing means exactly that no key is there |
| `Store.VerdictMeans` | netbox_scripts/storage/store.py:103-122 | The verdict over a tree's damages is a pass exactly when all is intact and prefix_missing exactly when all is absent |
| `Store.DamagesExactly` | netbox_scripts/storage/store.py:291-313 | Missing, size and checksum damages name exactly the files they hold of |
| `Store.CanonicalSource` | netbox_scripts/storage/store.py:223-240 | Succeeds exactly when every path is acceptable and no two resolve to one, and then places every file once |
| `Store.WriteOne` | netbox_scripts/storage/store.py:243-279 | A success leaves the content or the recorded bytes at the key, intact content is left alone, and no other key is touched, renamed saves included |
| `Store.WriteRevision` | netbox_scripts/storage/store.py:51-82 | An untrusted manifest touches nothing; success means every recorded byte is in place; nothing stored under any other revision moves; it succeeds from any prior contents on a working backend |
| `Store.ReadRevisionTree` | netbox_scripts/storage/store.py:203-220 | Returns exactly the recorded tree, and on a working backend does so exactly when it is stored intact |
| `Store.DeleteRevision` | netbox_scripts/storage/store.py:125-151 | Each path not reported is gone, nothing else changes, nothing stored under any other revision moves, and on a working backend only unbuildable paths are reported |
| `Store.PresentKeys` | netbox_scripts/storage/store.py:154-161 | The sorted paths whose key is occupied, and nothing else |
| `Store.BuildWriteRead` | netbox_scripts/storage/store.py:51-82 | An error-free build of fixed-point paths is written over anything and, where no file collides with a stored object, read back as exactly the canonical source; otherwise nothing is written; no other key changes |
| `Store.ReadIsSource` | netbox_scripts/storage/store.py:203-240 | A tree read back under a complete build's entries is the canonical source, where no file collides with a stored object |
| `Cutover.RecreatedOnceAndNeverExecuted` | netbox_scripts/migration/cutover.py:478-581 | Over every orderly run, deletions of rows marked executed or running included, no captured job is recreated twice, none is both executed and recreated, and an entry marked executed or running really ran |
| `CutoverExact.OrderlyIsExact` | netbox_scripts/migration/cutover.py:478-581 | From any sound state a step is orderly exactly when no orderly continuation of it both executes and recreates a job |
| `CutoverExact.HeldAtBeginCanRunTwice` | netbox_scripts/migration/references.py:262-290 | A captured task a worker holds when any pass begins can be run after that pass recreated its job |
| `Cutover.StepSound` | netbox_scripts/migration/cutover.py:73-136 | Every orderly step, of the installation or of a pass, keeps rows, tasks, journal and in-memory entries consistent, entries marked before a refusal included |
| `CutoverCompletion.CompletingMeansSettled` | netbox_scripts/migration/cutover.py:122-136 | In every run, deletions and all, a pass enters completing only when every built-in job has ended and every entry is resolved, and only a completing pass is recorded as done |
| `CutoverCompletion.DoneWasSettled` | netbox_scripts/migration/cutover.py:122-136 | A run that recorded the cutover as done passed through such a moment |
| `CutoverCompletion.UndisturbedCutoverCompletes` | netbox_scripts/migration/cutover.py:438-581 | Left to itself a cutover completes: every waiting job failed, unstarted, off the queue, captured once and cancelled; no other row, task or execution touched |
| `CutoverCompletion.SoundCanComplete` | netbox_scripts/migration/cutover.py:60-136 | Every sound state at rest with nothing running and every waiting task handed over can complete so |
| `CutoverCompletion.RefusalMarksTheRunning` | netbox_scripts/migration/cutover.py:79-92 | A cutover enters exactly when nothing runs; a refusal marks exactly the captured running jobs, whose rows may from then on be deleted safely |
| `Cutover.LookSound` | netbox_scripts/migration/cutover.py:486-552 | The resolution of one entry from its row, resumed or fresh, records only what is true of the job |
| `CutoverCompletion.RowsDecide` | netbox_scripts/migration/cutover.py:486-552 | What the first look makes of an entry for each state of its row |
| `Cutover.FailSound` | netbox_scripts/migration/cutover.py:556-581 | The conditional update cancels only a waiting, unstarted job whose task is out of the queue |
| `CutoverCompletion.LostRaceIsResolved` | netbox_scripts/migration/cutover.py:556-581 | When the conditional update misses, the refreshed row decides: vanished, left running or executed |
| `Cutover.ReadyToReplay` | netbox_scripts/migration/references.py:262-290 | An entry the pass does not pass over was never executed, never will be, and was not recreated before |
| `CutoverCompletion.UndisturbedPassRecreates` | netbox_scripts/migration/references.py:262-290 | Left to itself a pass recreates exactly the replayable jobs it does not skip, besides those recreated before, and ends |
| `Cutover.ALateWorkerRunsARecreatedJob` | netbox_scripts/migration/references.py:278-290 | A worker holding its task through the pass executes a job already recreated |
| `Cutover.ADeletedRowIsRecreatedAfterRunning` | netbox_scripts/migration/cutover.py:491-495 | A deletion before the stored journal marks the job lets an executed job be recreated |
| `Replay.MigrationRun.RecreateSchedules` | netbox_scripts/migration/references.py:242-417 | A pass leaves exactly the replayed journal and counts, completes exactly when nothing is outstanding, and a completed one only repeats its counts |
| `Replay.EveryEntryIsCountedOnce` | netbox_scripts/migration/references.py:262-417 | Every entry not recreated before is counted once, as recreated or skipped, and the outstanding count is the repairable ones |
| `Replay.ExactlyTheEligible` | netbox_scripts/migration/references.py:262-417 | Exactly the eligible entries join the recreated ones, which all stand |
| `Replay.RecreatedExactly` | netbox_scripts/migration/references.py:262-417 | On the recorded fields alone, exactly which jobs a pass recreates, and as which new job |
| `Replay.CountsAreExact` | netbox_scripts/migration/references.py:262-417 | The outstanding and the shifted count are of exactly the entries they speak of |
| `Replay.SecondPassRecreatesNothing` | netbox_scripts/migration/references.py:262-264 | A second pass over the same site recreates nothing |
| `Replay.ReplayIsNeverUnasked` | netbox_scripts/migration/references.py:420-430 | A future start is kept exactly, and what is past due runs at once only if it recurs |
| `Replay.OnlyWhatNeverRuns` | netbox_scripts/migration/references.py:262-290 | From a completed cutover a whole pass recreates only jobs no worker ran or can run, unless one still holds the task |
| `LocalCache.VerifyLocalTree` | netbox_scripts/runtime/cache.py:86-154 | No flaw exactly when the tree is the manifest's files plus their ancestor directories |
| `LocalCache.FittingIsExact` | netbox_scripts/runtime/cache.py:118-151 | The entry-by-entry judgement and the exact tree are the same thing |
| `LocalCache.PurgeSparesExactTrees` | netbox_scripts/runtime/cache.py:397-429 | The purge takes nothing from a tree that verifies |
| `LocalCache.PurgeIsExact` | netbox_scripts/runtime/cache.py:397-429 | Exactly the compiled files and the bytecode directories with all in them are gone, in any letter case; everything else stands |
| `LocalCache.Slot.Materialize` | netbox_scripts/runtime/cache.py:157-220 | Returns only a write-protected exact tree, publishes no other, takes at most three attempts; on every host each occupant that failed its check is set aside for good, or still in the slot when it could not be moved, and nothing else is set aside; on a quiet host one attempt is enough |
| `LocalCache.Slot.ExistingTreeVerifies` | netbox_scripts/runtime/cache.py:355-394 | A hit keeps an exact tree; a miss leaves the slot free with the failed occupant judged and set aside; an error leaves it in the slot |
| `LocalCache.Slot.Publish` | netbox_scripts/runtime/cache.py:473-486 | Only the verified staging tree enters the slot, over nothing or an empty directory; a lost race is judged |
| `LocalCache.Pull` | netbox_scripts/runtime/cache.py:432-455 | The staged tree is exact, and on a working backend the pull succeeds exactly for intact content |
| `LocalCache.ManyBuilders` | netbox_scripts/runtime/cache.py:157-220 | Over any sequence of builders, damage and crashes only exact trees were ever published, and every occupant that failed its check is among the asides, save the last one of a builder that failed to move it |
| `CacheRoot.EnsurePrivateRoot` | netbox_scripts/runtime/cache.py:239-299 | Ends on every tree, succeeds exactly when the walk on the tree it leaves ends with every visited node trusted, at the resolved directory; then every node resolving the root again looks at is trusted; it adds only private directories |
| `CacheRoot.WalkIsResolution` | netbox_scripts/runtime/cache.py:266-299 | The walk with its stack of pending names ends where recursive path resolution does, or fails with it, and looks at exactly the nodes resolution looks at |
| `CacheRoot.ResolveInTwo` | netbox_scripts/runtime/cache.py:272-278 | Resolving a link's target and then the rest is resolving the joined path |
| `CacheRoot.VisitsInTwo` | netbox_scripts/runtime/cache.py:272-278 | What resolving a joined path looks at is what its two parts look at |
| `Sanitizer.Sanitize` | netbox_scripts/validation.py:239-270 | For every text the result names none of the cache directory, module names, private root, storage key, hex key or digest |
| `Sanitizer.NothingPrivateSurvives` | netbox_scripts/validation.py:249-268 | The same of the ten replacements in order, although deletions can join text into new occurrences |
| `Sanitizer.FencedReplacement` | netbox_scripts/validation.py:249-260 | A fenced placeholder removes its word and brings back no absent one |
| `Sanitizer.SanitizingIsIdempotent` | netbox_scripts/validation.py:263-268 | A text that names nothing private is untouched, and sanitizing twice is sanitizing once |
| `Sanitizer.IdentityReducesInPlace` | netbox_scripts/validation.py:249-260 | Each identity reduces to its own placeholder, and the text around it stands |
| `Sanitizer.IdentitiesNamed` | netbox_scripts/validation.py:239-260 | The ten identities, in the order replaced, and what each becomes |
| `MigrationPlan.Group` | netbox_scripts/migration/plan.py:65-71 | Each proposal holds exactly the modules whose home it is, as often as they occur |
| `MigrationPlan.Container` | netbox_scripts/migration/plan.py:252-265 | The shallowest original folder containing a folder |
| `MigrationPlan.GroupsPartition` | netbox_scripts/migration/plan.py:65-71 | Every module is in one proposal and in no other |
| `MigrationPlan.ProposedFoldersNeverOverlap` | netbox_scripts/migration/plan.py:236-249 | Proposed folders of one data source are pairwise non-overlapping |
| `MigrationPlan.MembersHaveRelativePaths` | netbox_scripts/migration/plan.py:56-62 | Every member has a path inside its proposal that leads back to its own, and the folder is the shallowest original one |
| `MigrationPlan.GroupingIgnoresOrder` | netbox_scripts/migration/plan.py:65-71 | The proposals do not depend on the order the modules are read in |
| `MigrationPlan.OverlapIsContainment` | netbox_scripts/validators.py:7-22 | Two data paths overlap exactly when one contains the other by whole segments |
| `MigrationPlan.ContainedHasRelativePath` | netbox_scripts/utils.py:12-24 | A file under a folder has a relative path that leads back to it |
| `MigrationPlan.RelativePathExactly` | netbox_scripts/utils.py:12-24 | A path's relative one is what follows the folder and a '/', and everything is relative to the root |
| `MigrationPlan.DirnameExactly` | netbox_scripts/migration/plan.py:226-233 | The directory of any path, slashes alone and repeated ones included |
| `Dialects.SupplyIsReachability` | netbox_scripts/migration/dialects.py:92-103 | On any class graph, cycles included, true exactly when a reachable base defines run or is an unseen name that may carry it |
| `Dialects.HasReportShape` | netbox_scripts/migration/dialects.py:157-167 | True exactly when some class with test methods and no run reaches no base that may supply one |
| `Dialects.SuppliersExactly` | netbox_scripts/migration/dialects.py:92-103 | A base inside the module supplies run when it declares it, one outside unless it is Report or object |
| `Dialects.LastDeclarationWins` | netbox_scripts/migration/dialects.py:159-160 | The last declaration of a class name is the one a base resolves to |

## Left out

- Services as objects: staging, promotion, cleanup, validation and the cutover are atomic steps over one state value rather than methods on rows, because the theorems range over their interleavings; aliasing of row instances is not captured.
- One project and one storage key per transition system; routing guards and the non-default database alias are assumed to have passed, and session locks not to drop mid-operation.
- Two sibling rows deleted by overlapping transactions: deletions are taken one transaction at a time.
- Full saves of stale revision rows, the storage sweep's report, reconciliation scheduling and job enqueueing.
- The text of messages, tracebacks and log lines; an error is its code with the paths it names.
- Uploads.NoUploadIsLost: assumes no deletion, and no crash between settling and accepting a revision while nothing is accepted, because the code does lose that case (see Findings).
- Cutover.RecreatedOnceAndNeverExecuted: assumes `Cutover.Orderly`, because the code needs exactly that (see Findings); permissions, event rules and auto-sync records of the cutover are not modelled.
- Store.BuildWriteRead: a file's content sharing its SHA-256 digest with a different file's or a different stored object's is excluded by hypothesis, since the code cannot tell them apart.
- Fencing.OvertakenRunIsInert: assumes no Job claims a revision while an earlier run of it is still at work there, because the fence needs exactly that (see Findings); deleting a Job's own row while it validates is not modelled.
- Discoveries.DiscoveryConverges: assumes the same, and no deletion.
- Cutover.StepSound: a Job row deleted before its task was handed to the queue is not modelled.
- Cutover.LookSound: the refusal while a job is running reads the running jobs and marks their entries in one step.
- Manifest.ValidateManifest: a stored entry carrying fields beyond path, size and sha256 is not modelled, nor is the wording of the reasons.
- Manifest.ComputeDigest: JSON serialization is an uninterpreted function of the sorted entries.
- SourcePaths.SecondPass: a lone surrogate, which cannot be encoded, is not modelled, and a drive is a second character ':' as in Python 3.12 and later.
- Store.StreamVerified: a destination that cannot accept the bytes is not modelled.
- Store.WriteOne: a key removed by someone else between the existence check and the delete is not modelled.
- Introspection.CollectPublications: building the run form is a given outcome of each class.
- LocalCache.Slot.Materialize: the path length budget, making the project directory and the lock file are not modelled, and nothing disturbs the staging tree between its verification and its rename.
- CacheRoot.EnsurePrivateRoot: nobody else changes the filesystem during the walk, and lstat does not fail for other reasons than absence.
- MigrationPlan.Group: the key, its digest and the final sort by key are not modelled.
- Dialects.HasReportShape: parsing and the import walk of reachable nodes are left out.
- Replay.MigrationRun.RecreateSchedules: the enqueued job's own fields and the serving check before the pass are left out.
- Forms, views, tables, REST, GraphQL, script execution and authoring variables.
