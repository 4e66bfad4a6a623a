# TGX download durability, verified

TGX is a daemon that downloads Telegram media to an SSD, publishes each file under its final name, and
moves published files to an archive. This project models the parts that must not lose, replace or
double-count anything, and proves what they promise over every run, every crash point and every
interleaving.

- `Types.dfy` — bytes, digests, record keys. SHA-256 is an injective constructor: equal digests mean equal bytes.
- `DatabaseSpec.dfy`, `Database.dfy`, `DatabaseLaws.dfy` — the two tables of `app/daemon/db.go`. The class holds
  the tables and every lifecycle method branch by branch; each method is proved equal to a transition of its own
  key's rows that touches no other key; the laws are about all sequences of those calls.
- `Lifecycle.dfy` — the same life of a download and of an archive job drawn as two diagrams, status by status, which the
  transitions are proved to follow, and what that means for an attempt that fails, is cancelled or is repeated.
- `Protocol.dfy` — `downloadOne`, `ReconcileCommittingRecord`, `processJob`, startup recovery and the operator as
  one state machine over both tiers. One action is one mutation (a database call, a directory entry, a write, a
  change of the registry or of an ownership mark). A crash may come between any two actions, any file may be
  unreadable when it is hashed, any database call may fail, and other processes may create new files.
- `ProtocolInvariant.dfy`, `ProtocolRuns.dfy`, `CrashTransparency.dfy`, `RecoverySpec.dfy` — the invariant, and no
  loss, no replacement, crash transparency and crash-idempotent recovery over all runs.
- `ProtocolWitness.dfy`, `ProtocolProgress.dfy` — runs that the machine has, and what each of its parts comes to from
  any state when nothing disturbs it, so that those theorems are not about nothing.
- `Recovery.dfy` — `ReconcileOnStartup` as it is written, loops and errors of files and database included, against
  `RecoverySpec`, at every point where it could be interrupted; and the bridge from the protocol's reachable states.
- `Migrator.dfy`, `Quarantines.dfy` — the quarantine migrator: staging, commit verdict, rollback, restart reconcile,
  of one directory and of all that are found. The model keeps every disk state it passes through, and a crash may resume
  from any of them.
- `ByteRanges.dfy`, `PartWrites.dfy` — the two interval lists and the checks that admit a part file.
- `DataGate.dfy`, `RequestBudget.dfy` — the request gate and the per-task budget under all interleavings.
- `Sums.dfy`, `SsdAdmission.dfy`, `Registry.dfy`, `ConflictResolve.dfy` — reservations, the task registry, and
  conflict resolution across registry and database.

`dafny verify dfyconfig.toml` checks everything.

## What turned out not to hold, and exactly when it does

- A copy that cannot be read is taken for a copy that is not there. `ReconcileOnStartup` then returns nil after it
  has deleted an intact part or reset a row whose final is intact (`RecoverySpec.MisreadPartIsLost`,
  `ProtocolWitness.MisreadPartRestarts`). Recovery comes to the outcome the files call for if and only if enough of
  them could be read (`RecoverySpec.OutcomeNeedsReads`, `Recovery.Recovery.ReconcileOnStartup`). Success rows lose
  nothing by it (`ProtocolRuns.NoLoss`).
- Two calls of other attempts change a row that holds a generation: a cancel without a generation, on a pending or
  downloading row (`DatabaseLaws.EmptyCancelCrossesFence`), and a begin, on a pending or failed one
  (`DatabaseLaws.BeginCrossesFence`). A foreign call, and a sequence of foreign calls, changes the row if and only if it
  is, or has, one of these (`DatabaseLaws.ForeignCallFenced`, `DatabaseLaws.GenerationFence`). So a resolved conflict
  stays as it was reopened if and only if nobody else begins or cancels so, and stays the new generation's if and only if
  nobody else begins (`DatabaseLaws.ResolveReopens`).
- A published row need not show the last accepted prepare: `UpdateDownloadStatus` can write success without any
  (`DatabaseLaws.UpdatePublishesUnprepared`), and so can `CompleteExistingDownload`. It shows it all along a sequence
  of calls if and only if no call publishes something else past it (`DatabaseLaws.PublishedShowsPrepared`). A field a
  prepare left empty takes what the completion brings; the prepared proof is final for every completion if and only
  if it is full (`DatabaseLaws.FullProofIsFinal`).
- A late SSD release need not return what its own Reserve took (`SsdAdmission.LateRelease`); it does if and only if the
  task has not reserved again, and no other release of the task was called, since the grant
  (`SsdAdmission.SSDAdmission.Call`, `SsdAdmission.Run`). A refused Reserve also drops the task's earlier reservation.
- A terminal attempt is final only once it is off the queue: it can change if and only if it is queued
  (`Registry.Registry.ReviveQueued`, `Registry.Registry.Run`), and it gets there by ending before it is taken
  (`Registry.EndedWhileQueued`). Handed out again, it is still in the terminal order, and pruning can forget it while it
  is at work (`Registry.ForgetsRevived`); ending an attempt forgets an active one if and only if an active one's id is
  among the ids it pushes out (`Registry.Registry.Settle`).
- Files that were in the quarantine directory before need not survive a migration. A run that has files to stage and
  meets no fault removes them all, an exact copy of a planned file included (`Migrator.ExactCopyDropped`), if and only if
  no planned staged name held something else than an exact copy (`Migrator.Migrator.Run`). If one did, all of them stay
  as they were in every disk state of the run and through any crashes and reconciles
  (`Migrator.Migrator.RunThroughCrashes`).
- Directories that could each be settled need not all be: one can stand in the way of another
  (`Quarantines.SharedFileStops`). If no file was planned twice, all are settled if and only if each could be
  (`Quarantines.BufferDir.ReconcilePendingQuarantines`).
- The identity-mismatch branches of `ensureArchiveJobLocked` are unreachable in lifecycle runs
  (`DatabaseLaws.NoArchiveConflict`).
- The comment on `IsComplete` says the intervals cover `[0, expectedSize)`; the code also accepts coverage beyond it.
  `ByteRanges.RangeTracker.IsComplete` states what the code does, and `PartWrites.ExactTiling` why the byte count then
  rules the excess out.

## Assumptions

- Different records have different save paths, and no save path is another one plus `.part` or `.moving`.
- Other processes may create new files at any save path at any time. They do not rewrite or remove files of the two tiers.
- `stat` reports accurately and a read that succeeds returns the bytes of the file; a completed system call is durable in
  program order; a failed database statement changed nothing; and the final path is not a directory.
- The finalizer's row snapshot is the row when it starts working on it.
- Whether steps may fail is an input (`calm`, and `tidy` for removals whose error is ignored). Where a contract speaks of
  a run without a fault, it also says that a calm run has none.
- Integers are unbounded; timestamps are integers read from one monotone clock.

## Model

| member | source | states |
|---|---|---|
| Database.Database.BeginDownload | app/daemon/db.go:1002-1102 | every status branch is the Begin transition of its key, errors included, other keys untouched |
| Database.Database.PrepareDownloadCommit | app/daemon/db.go:1104-1169 | the Prepare transition: commit intent only from downloading under its own generation, exact repeats accepted |
| Database.Database.EnsureArchiveJobLocked | app/daemon/db.go:1361-1424 | inserts a missing job, accepts one for the same file, and turns a pending job for another file into a conflict |
| Database.Database.CompleteDownloadAndQueueArchive | app/daemon/db.go:1171-1274 | success and archive job in one transition, or neither |
| Database.Database.CompleteExistingDownload | app/daemon/db.go:1276-1359 | the idempotent completion transition for a file already in place |
| Database.Database.RecordTargetConflict | app/daemon/db.go:1612-1670 | the conflict transition, refused for success rows and foreign generations |
| Database.Database.FailDownload | app/daemon/db.go:1717-1803 | failed, unavailable, or pending for lifecycle errors; terminal rows and foreign generations untouched |
| Database.Database.UpdateDownloadStatus | app/daemon/db.go:578-647 | the upsert as a transition of its key, which success and conflict rows ignore |
| Database.Database.CompleteArchiveJob | app/daemon/db.go:1478-1519 | copying to archived only under its claim and with the job's own digest; idempotent when archived already |
| Database.Database.FailArchiveJob | app/daemon/db.go:1521-1568 | copying back to pending only under its claim |
| Database.Database.SetArchiveJobConflict | app/daemon/db.go:1570-1610 | to conflict only under its claim, never from archived |
| DatabaseLaws.ForeignCallFenced | app/daemon/db.go:1002-1359 | a call of another generation changes the row if and only if it begins on a pending or failed row or cancels without generation on a pending or downloading one; only the former changes its owner |
| DatabaseLaws.GenerationFence | app/daemon/db.go:1002-1830 | a sequence of such calls leaves another row than before if and only if one of them is such a begin or cancel for the row as it was |
| DatabaseLaws.EmptyCancelCrossesFence | app/daemon/db.go:1805-1831 | a concrete cancel without generation that fails another attempt's download |
| DatabaseLaws.BeginCrossesFence | app/daemon/db.go:1052-1100 | on any resolved conflict an earlier attempt can begin, and the retry it was reopened for is then refused |
| DatabaseLaws.SuccessAbsorbing | app/daemon/db.go:578-647 | no sequence of lifecycle and recovery calls changes a success row |
| DatabaseLaws.PublishedShowsPrepared | app/daemon/db.go:1104-1274 | a published row shows the last accepted prepare all along a sequence if and only if no call publishes something else past it |
| DatabaseLaws.FrozenProof | app/daemon/db.go:1195-1251 | a success row keeps its proof for ever; unless a call went past the prepares, a full last prepare is that proof |
| DatabaseLaws.UpdatePublishesUnprepared | app/daemon/db.go:578-647 | a concrete status update that writes success with no prepare and no digest |
| DatabaseLaws.FullProofIsFinal | app/daemon/db.go:1207-1240 | every accepted completion leaves the prepared proof if and only if that proof has no empty field |
| DatabaseLaws.AttemptSucceeds | app/daemon/db.go:1002-1274 | begin, prepare and complete of one attempt, with any calls of others in between, end in success with its proof and job if and only if none of those cancels without generation before the prepare |
| DatabaseLaws.ResolveReopens | app/daemon/db.go:1672-1702 | through the calls of others a resolved conflict stays as reopened if and only if none begins or cancels without generation, and stays with the new generation, which can begin, if and only if none begins |
| DatabaseLaws.JobsMatchRows | app/daemon/db.go:1361-1424 | in every sequence each job belongs to a success row with the same path, size and digest |
| DatabaseLaws.NoArchiveConflict | app/daemon/db.go:1361-1424 | the archive-identity conflict outcome cannot occur in a lifecycle sequence |
| DatabaseLaws.JobIdentityFrozen | app/daemon/db.go:1459-1607 | a job never changes its file, and archived and conflict are absorbing |
| DatabaseLaws.ClaimFence | app/daemon/db.go:1459-1607 | while a job copies under a claim, no sequence of calls without that claim moves it |
| DatabaseLaws.ClaimCompletes | app/daemon/db.go:1459-1519 | a claimed job stays claimed through the calls of others and is archived by its claimer and nobody else |
| Lifecycle.RowMoves | app/daemon/db.go:987-1831 | a row changes status exactly along the arrows of the diagram, followed by those who may, and otherwise does not change at all |
| Lifecycle.MovesWrite | app/daemon/db.go:987-1831 | which calls write owner, path, size and digest of a row they move, and with what |
| Lifecycle.MovesExplain | app/daemon/db.go:987-1831 | the error text every move leaves |
| Lifecycle.FirstRow | app/daemon/db.go:987-1025 | the six calls that create a record, each with the row it leaves, and that no other does |
| Lifecycle.OkMeans | app/daemon/db.go:1002-1831 | Ok is answered exactly to a call that moves the row or asks for what is so already |
| Lifecycle.StaleMeans | app/daemon/db.go:1104-1803 | stale is answered exactly to another attempt's call on a row that waits for its own |
| Lifecycle.RefusalMeans | app/daemon/db.go:1002-1831 | when there is no conflict to resolve and no record to change, and that a refusal changes nothing |
| Lifecycle.OwnFailure | app/daemon/db.go:1717-1803 | its own attempt's failure leaves a row unavailable if and only if the message is gone, pending if and only if a shutdown was the reason, else failed, and any attempt can begin again if and only if the message is not gone |
| Lifecycle.FailureRetries | app/daemon/db.go:1717-1803 | after such a failure another attempt can succeed if and only if the message is not gone |
| Lifecycle.OwnCancel | app/daemon/db.go:1805-1831 | a cancel ends a pending or downloading row as failed with its text, refuses any other, and leaves it open to any attempt |
| Lifecycle.SuccessAnswers | app/daemon/db.go:1027-1048 | after any calls on a success row a begin is told of the proof if and only if that is full and the begin asks for the same file or none in particular, else refused |
| Lifecycle.SucceededAnswers | app/daemon/db.go:1002-1274 | so it is after any attempt that succeeded with a full proof, through any calls since |
| Lifecycle.JobMoves | app/daemon/db.go:1459-2011 | a job changes exactly along the arrows of its diagram, keeps its file, and has a claim exactly where it took one |
| Lifecycle.FirstJob | app/daemon/db.go:1361-1424 | exactly which calls create a job, and that it is pending, unclaimed and for the file of a success row |
| Lifecycle.OtherJobStays | app/daemon/db.go:1385-1424 | a job for another file is kept, put in conflict if it was pending, and reported, while the row succeeds |
| Lifecycle.JobAnswers | app/daemon/db.go:1459-1610 | exactly when a claim, a completion, a failure or a conflict of a job is accepted, stale, not found or refused |
| Lifecycle.FailedCopyRetries | app/daemon/db.go:1521-1568 | a failed or recovered copy is pending and unclaimed, and after any calls without a claim the next claim gets it for the same file |
| Lifecycle.EndedJobStays | app/daemon/db.go:1570-1610 | a job in conflict or archived stays so through any calls and no claim is accepted again |
| ProtocolInvariant.WorkerKeeps | app/daemon/orchestrator.go:526-1522 | every step of a download, with unreadable files, failed database calls, early clean-up and silent returns, keeps the joint invariant of rows, files and owners |
| ProtocolInvariant.ReconKeeps | app/daemon/recovery.go:259-410 | every step of the committing-record reconciler, misreadings included, keeps it |
| ProtocolInvariant.ArchiveKeeps | app/daemon/archive.go:162-405 | every step of the archive worker, misreadings included, keeps it |
| ProtocolInvariant.RecoveryKeeps | app/daemon/recovery.go:43-151 | every other step of startup recovery, misreadings included, keeps it |
| ProtocolInvariant.UserKeeps | app/daemon/orchestrator.go:303-415 | submit, retry, resolve, cancel and pruning keep it |
| ProtocolInvariant.PathsFollow | app/daemon/orchestrator.go:755-860 | a record only ever changes the two slots of its own save path |
| ProtocolRuns.CrashKeeps | app/daemon/recovery.go:16-24 | a crash at any point, which keeps rows and files and loses all else, keeps the invariant |
| ProtocolRuns.RunKeeps | app/daemon/orchestrator.go:526-1520 | the invariant holds of all records after every run |
| ProtocolRuns.NoLoss | app/daemon/orchestrator.go:1289-1427 | in every reachable state each success row has its exact bytes on the SSD, or archived and in the archive |
| ProtocolRuns.RegistryAgrees | app/daemon/orchestrator.go:1423-1482 | a registry attempt is successful only when its database row is |
| ProtocolRuns.NoReplacement | internal/fscommit/rename_linux.go:15-57 | no action puts other bytes under an existing final; archive finals stay; an SSD final goes only when archived and verified |
| CrashTransparency.CommittingSettles | app/daemon/orchestrator.go:1296-1427 | a committing row with an intact copy settles as the files stand, whoever settles it and after whatever crashes, absent I/O errors |
| CrashTransparency.PrepareSetsCourse | app/daemon/orchestrator.go:1296-1310 | recording the commit intent starts from an intact part, so the two theorems around it apply from there |
| CrashTransparency.CommittingRestarts | app/daemon/recovery.go:395-409 | a committing row without an intact copy stays so until it is pending |
| CrashTransparency.CrashTransparent | app/daemon/recovery.go:194-410 | the undisturbed publish and any interrupted and recovered one end with the same status, proof and bytes |
| CrashTransparency.ConflictStays | app/daemon/recovery.go:304-334 | both files of a conflict survive unchanged and the row stays conflict until an operator resolves it |
| ProtocolWitness.PublishedAndArchived | app/daemon/archive.go:224-389 | for any content some run publishes, archives and deletes the SSD copy |
| ProtocolWitness.MeetsForeignFile | internal/fscommit/rename.go:22-38 | for any two contents some run ends in conflict with both files in place |
| ProtocolWitness.MisreadPartRestarts | app/daemon/recovery.go:339-409 | for any content some run loses a prepared part that could not be read and starts over |
| ProtocolProgress.ResubmittedEnds | app/daemon/orchestrator.go:560-635 | an attempt on a record that succeeded ends at once, with success if and only if it asks for that file and the final is intact and read |
| ProtocolProgress.Transfers | app/daemon/orchestrator.go:526-1310 | from any record that can be begun and has no file, the download comes to a commit intent for exactly the bytes sent |
| ProtocolProgress.Publishes | app/daemon/orchestrator.go:1310-1482 | from any prepared download with no final in its way the part becomes the final, row and attempt succeed, the job is queued and nothing is left at work |
| ProtocolProgress.DownloadSucceeds | app/daemon/orchestrator.go:526-1482 | so an undisturbed attempt ends in success with exactly the bytes sent under the final name and their digest in the row |
| ProtocolProgress.GivesUp | app/daemon/orchestrator.go:1285-1295 | from any point a worker can stop, is then not the publisher, and leaves row and final, and the part only if it was promised |
| ProtocolProgress.FailureRecorded | app/daemon/orchestrator.go:660-1392 | whichever step fails, the row its attempt owns is unavailable if and only if the message was found gone, pending after a shutdown, else failed |
| ProtocolProgress.PartRemovedUnlessPromised | app/daemon/orchestrator.go:965-1310 | the deferred functions remove the part exactly where no commit intent was recorded for it |
| ProtocolProgress.MeetsFileAtAdmission | app/daemon/orchestrator.go:770-830 | a file found at the planned path is kept; it is admitted if and only if the row says it was committed there, and else the row is put in conflict |
| ProtocolProgress.NoSpaceRequeues | app/daemon/orchestrator.go:832-845 | without room on the SSD the attempt is queued again, can be picked again, and nothing else changed |
| ProtocolProgress.CompletionCounts | app/daemon/orchestrator.go:1427-1450 | a completion counts if and only if the database accepted it, another job in the archive included |
| ProtocolProgress.EndsOnce | app/daemon/registry.go:821-852 | an attempt ends once and only for its own generation |
| ProtocolProgress.UsersAct | app/daemon/orchestrator.go:303-415 | exactly when an attempt is queued, retried, failed, cancelled or forgotten and a conflict resolved |
| ProtocolProgress.ReconSettles | app/daemon/orchestrator.go:448-485 | the online finalizer ends any committing row as startup recovery would |
| ProtocolProgress.Archives | app/daemon/archive.go:224-389 | from any claimed job with an intact source and a free archive path the file is copied, recorded and then removed |
| ProtocolProgress.MeetsArchived | app/daemon/archive.go:224-262 | with a file at the archive path the job is archived if that is the file, else in conflict with both files left |
| ProtocolProgress.CopyFailsAndRetries | app/daemon/archive.go:320-345 | a failed copy leaves no residue and the source, and the next claim gets the same job |
| ProtocolProgress.ArchiveRefuses | app/daemon/archive.go:262-375 | a source of the wrong size and an archive path taken meanwhile end the job in conflict with every file left, and a copy is done only from an intact source |
| ProtocolProgress.StartupRecovers | app/daemon/recovery.go:43-157 | the steps of startup recovery take any record that is not committing to exactly what recovery is said to make of it |
| RecoverySpec.RecoveredIsQuiet | app/daemon/recovery.go:16-157 | whatever was read, recovery leaves nothing committing, downloading, resolving or copying and no job missing, and recovering again changes nothing |
| RecoverySpec.RecoveredEnds | app/daemon/recovery.go:16-157 | the status every row and job ends in, and what becomes of finals and parts, case by case |
| RecoverySpec.OutcomeNeedsReads | app/daemon/recovery.go:279-410 | recovery comes to the outcome the files call for if and only if enough of them could be read |
| RecoverySpec.MisreadPartIsLost | app/daemon/recovery.go:339-409 | an intact part that cannot be read is deleted and its row reset, where reading it would have published it |
| RecoverySpec.RecoveryIdempotent | app/daemon/recovery.go:16-157 | after any recovery steps and crashes that misread nothing of a record, recovering it leads to the rows, job and finals it would have led to |
| Recovery.ReachableConsistent | app/daemon/recovery.go:16-24 | a crash in any reachable state of the protocol leaves a disk that meets the requirement of ReconcileOnStartup |
| Recovery.DurablesOf | app/daemon/recovery.go:16-24 | the records of that disk are the ones RecoveryIdempotent is about |
| Recovery.UnderwayWithReads | app/daemon/recovery.go:279-410 | where enough can be read, a record left by an interrupted pass recovers as if nothing had happened |
| Recovery.Recovery.CommitSiblingPart | internal/fscommit/rename.go:22-38 | no final is replaced, every state in between can still complete, and on success the final is the part |
| Recovery.Recovery.FinishFromFinal | app/daemon/recovery.go:282-302 | the part goes unless its removal fails, the row is completed unless the statement fails, recoverable at each point |
| Recovery.Recovery.Conflict | app/daemon/recovery.go:304-334 | an error is reported, and the row is in conflict with both files in place, or unchanged if the statement failed |
| Recovery.Recovery.Reset | app/daemon/recovery.go:395-409 | the part goes unless its removal fails, and the row is pending unless the statement fails |
| Recovery.Recovery.ReconcileCommittingRecord | app/daemon/recovery.go:259-410 | unless a statement, rename or sync fails, which none does in a calm pass, the record is what these reads make of it, and an error is reported exactly for a conflict; else it can still be recovered; no other record changes |
| Recovery.Recovery.ReconcileCommitting | app/daemon/recovery.go:25-41 | the loop does so for every committing record, in any order, with every state in between recoverable, and reports an error exactly for a conflict unless there is a fault, which a calm pass has not |
| Recovery.Recovery.ResetDownloading | app/daemon/recovery.go:43-66 | every downloading record becomes pending with its error cleared and loses its part unless the removal fails, or an error is reported; all others are untouched |
| Recovery.Recovery.SweepInterruptedRows | app/daemon/recovery.go:68-76 | exactly the resolving and moving rows become pending, or none, with the same recovered outcome |
| Recovery.Recovery.SweepCanceledRows | app/daemon/recovery.go:78-92 | exactly the rows that failed with a shutdown text become pending, or none, with the same recovered outcome |
| Recovery.Recovery.ReconcileCopy | app/daemon/recovery.go:114-149 | archived, with the SSD duplicate removed unless that fails, only if the archive copy was read and verified, else pending again, or an error |
| Recovery.Recovery.ReconcileCopying | app/daemon/recovery.go:108-150 | the loop archives or sends back to pending for every copying job and touches nothing else |
| Recovery.Recovery.BackfillJobs | app/daemon/recovery.go:95-106 | the backlog fill on every record or on none, with the same recovered outcome |
| Recovery.Recovery.ReconcileOnStartup | app/daemon/recovery.go:16-157 | at every point, whatever failed, every record can still be recovered; if no statement, rename or sync fails, as in a calm pass, all are exactly as the reads make them but for files whose removal failed, of which a tidy pass has none, each row and job ends in the status RowEnds and JobEnds name and nothing is pending, an error is reported if and only if a record was put in conflict, and the outcome is what the files call for exactly where enough could be read |
| Migrator.MoveLosesNothing | app/daemon/migration/spool_migrator.go:787-928 | a move of one file between its two places, at any stage, leaves every planned file an intact copy |
| Migrator.Migrator.CreateDestination | app/daemon/migration/spool_migrator.go:787-880 | only the new destination changes, and an existing one not at all; without a fault it gets the bytes of the source |
| Migrator.Migrator.DurableNoReplaceMove | app/daemon/migration/spool_migrator.go:787-928 | at every disk state in between the source is intact or the destination verified; an existing destination is never touched; without a fault it refuses nothing else |
| Migrator.Migrator.Purge | app/daemon/migration/spool_migrator.go:1040-1056 | after the verdict every staged file, the manifest and the directory go, safely at each step, and no file at its own path is touched; only a fault stops it |
| Migrator.Migrator.RemoveAll | app/daemon/migration/spool_migrator.go:1051-1053 | only the quarantine directory is emptied and removed, safely at each step, whatever else was in it |
| Migrator.Migrator.Validate | app/daemon/migration/spool_migrator.go:1064-1125 | accepts only if every entry has a copy and every copy present matches the manifest; without a failed read it refuses nothing else |
| Migrator.Migrator.RestoreOne | app/daemon/migration/spool_migrator.go:1127-1150 | one entry back at its path with no staged copy, every other file untouched, nothing at its own path altered at any step |
| Migrator.Migrator.Restore | app/daemon/migration/spool_migrator.go:1058-1172 | without a fault it puts every entry back if and only if no copy differs; a copy that differs stops it before it starts; no step loses a file or alters one at its own path |
| Migrator.Migrator.ReconcilePendingQuarantines | app/daemon/migration/spool_migrator.go:937-1172 | of one directory: without a fault it succeeds if and only if the disk can be settled, and on any other disk it touches nothing; success means all or nothing and an emptied directory; nothing at its own path is ever altered or removed, files put there after the verdict included |
| Migrator.Migrator.Stage | app/daemon/migration/spool_migrator.go:552-560 | moves one original into quarantine unless its staged name is taken, and touches no other file and no file staged before |
| Migrator.Migrator.StageAll | app/daemon/migration/spool_migrator.go:478-561 | directory, durable manifest, then the moves, safe at every disk state, unplanned files and files staged before left alone; without a fault it succeeds if and only if no planned staged name is taken |
| Migrator.Migrator.Run | app/daemon/migration/spool_migrator.go:389-623 | every disk state of the run is safe and leaves unplanned files alone, and once the quarantine is gone it is all or nothing; without a fault, and a calm run has none, it succeeds if and only if no planned staged name was taken and COMMIT was reported, records the verdict if and only if that took effect, rolls back or purges in the same run, and empties the directory if and only if none was taken by something else than an exact copy; else the directory's earlier files stay; success is reported only if nothing failed |
| Migrator.Migrator.Commit | app/daemon/migration/spool_migrator.go:563-622 | the verdict is there if and only if COMMIT took effect, and only a reported one is purged at once; sound at every disk state, also when a commit that reported an error took place |
| Migrator.SoundStays | app/daemon/migration/spool_migrator.go:937-1172 | what a reconcile may do to a disk keeps all that a migration promises of it |
| Migrator.EndsAllOrNothing | app/daemon/migration/spool_migrator.go:937-1172 | a sound disk without the directory is all or nothing, and no planned name was taken by something else than an exact copy |
| Migrator.ExactCopyDropped | app/daemon/migration/spool_migrator.go:1143-1170 | a concrete directory whose exact copy of the planned file, and an unrelated file, are gone after a calm run |
| Migrator.Migrator.RunThroughCrashes | app/daemon/migration/spool_migrator.go:937-1172 | after any number of crashes at any point, a finished reconcile is all or nothing and nothing is left in the directory; at every point nothing was lost and no unplanned file was touched, nor any file that was in the directory if a planned name there held something else than an exact copy, and no verdict is recorded if a name was taken; in calm weather the last reconcile succeeds if and only if the disk of the last crash could be settled |
| Quarantines.BufferDir.ReconcileDir | app/daemon/migration/spool_migrator.go:973-1174 | settling one directory leaves every other directory and every file it did not plan as it was, and every migration can still be brought to an end, at each step |
| Quarantines.BufferDir.ReconcilePendingQuarantines | app/daemon/migration/spool_migrator.go:937-1177 | at every point every migration can still be brought to an end and no file at its own path was altered or removed; the first directory that cannot be settled stops the loop and those after it are left alone; if no file was planned twice, a loop without a fault, as a calm one is, settles all if and only if each could be settled at the start, each all or nothing |
| Quarantines.OtherSafe | app/daemon/migration/spool_migrator.go:973-1174 | work on one directory leaves another one's migration recoverable, though both share the files at their own paths |
| Quarantines.SideDecides | app/daemon/migration/spool_migrator.go:973-1174 | whether a directory can be settled, and whether it ended all or nothing, depends on it and its planned files alone |
| Quarantines.SharedFileStops | app/daemon/migration/spool_migrator.go:1090-1125 | two directories that staged different versions of one file: settling the first is in the way of the second, which stays as it was |
| ByteRanges.CanonicalUnique | core/transfer/writer.go:29-66 | a byte set has exactly one sorted list with gaps |
| ByteRanges.TotalIsCardinality | core/transfer/writer.go:82-90 | the lengths of such a list add up to the number of bytes in it |
| ByteRanges.RangeTracker.AddRange | core/transfer/writer.go:29-66 | the list stays canonical and its bytes are the old ones and the range, a negative or empty range ignored |
| ByteRanges.RangeTracker.IsComplete | core/transfer/writer.go:69-79 | true exactly when the bytes are [0, m) for some m not below the expected size |
| ByteRanges.RangeTracker.CoveredBytes | core/transfer/writer.go:82-90 | the cardinality of the covered set |
| ByteRanges.Overlap | app/daemon/registry.go:1192-1199 | the overlap loop counts exactly the bytes already covered |
| ByteRanges.AddRange | app/daemon/registry.go:1192-1223 | the same canonical list, and exactly the newly covered bytes |
| PartWrites.ExactTiling | core/transfer/manager.go:429-441 | coverage and byte count both pass exactly for the write logs that partition [0, size) |
| PartWrites.CountingIsExact | core/transfer/writer.go:117-139 | the byte counter equals the covered bytes exactly when no two writes overlap |
| PartWrites.ContentIndependentOfOrder | core/transfer/writer.go:117-139 | any two byte-level interleavings of a tiling log leave the same file |
| PartWrites.AsIfSequential | core/transfer/writer.go:117-139 | and that file is the one the writes would leave one after the other |
| PartWrites.TiledFileSize | app/daemon/orchestrator.go:1178-1182 | a tiled file that started empty has exactly the expected size, so the size check agrees |
| PartWrites.CountingWriterAt.WriteAt | core/transfer/writer.go:117-139 | tracker and counter describe the accepted writes, partial and failed ones included |
| PartWrites.CountingWriterAt.PassesChecks | app/daemon/orchestrator.go:1178-1182 | the checks accept exactly the tiling logs of a file of the expected size |
| DataGate.Cooldowns.TriggerFloodWait | core/transfer/gate.go:61-71 | a wait that is imposed is remembered until it is over, whatever else is imposed |
| DataGate.Cooldowns.IsDCCooledDown | core/transfer/gate.go:74-82 | true exactly while some wait ever imposed on the data centre is in force |
| DataGate.Cooldowns.Check | core/transfer/gate.go:93-106 | drops exactly the waits that are over, and waits exactly until the latest one ever imposed |
| DataGate.TableAnswersAsHistory | core/transfer/gate.go:93-106 | the pruned table answers as the full history and holds its latest wait |
| DataGate.GateSafe | core/transfer/gate.go:85-149 | in every interleaving inFlight <= permits <= max, sleepers hold no permit, and pruning is invisible |
| DataGate.AdmissionHonoursHistory | core/transfer/gate.go:85-149 | a caller passes exactly when no wait ever imposed is in force, else sleeps until the latest |
| DataGate.ReleaseOnce | core/transfer/gate.go:138-146 | after the first release no later one changes anything, whatever runs in between |
| DataGate.WaitsForReason | core/transfer/gate.go:85-149 | in every interleaving a caller waits only for the time it was told or while all permits are held, and a blocked one gets any free permit |
| DataGate.LeavesWhileWaiting | core/transfer/gate.go:61-149 | a caller can be cancelled exactly while it waits, taking nothing with it, and released exactly when it got in |
| DataGate.GateGoesOn | core/transfer/gate.go:85-149 | while a caller is blocked it, or some caller that holds a permit, can take its next step |
| DataGate.Served | core/transfer/gate.go:85-149 | with no wait in force and a permit free a caller gets in flight by its own steps, and its release gives back exactly what it took |
| RequestBudget.ComputeChunkCount | core/transfer/manager.go:29-38 | the least positive number of 512 KiB parts that holds the file |
| RequestBudget.ComputeRequestBudget | core/transfer/manager.go:40-47 | one request and all its retries for every part, so positive |
| RequestBudget.PhysicalIdInjective | core/transfer/manager.go:95-113 | within a generation the id string determines range label and attempt number |
| RequestBudget.BudgetHolds | core/transfer/adapter.go:98-152 | in every interleaving requests sent <= count <= parts x (1 + retries), and all attempt ids differ |
| RequestBudget.RefusedExactly | core/transfer/adapter.go:108-129 | in every interleaving an invoker is refused exactly when the count has reached that number, and is set back only by another one that got in |
| RequestBudget.BudgetIsReached | core/transfer/adapter.go:98-152 | any requests up to that number are sent by some run |
| SsdAdmission.SSDAdmission.Reserve | internal/fscommit/admission.go:97-145 | granted exactly when it fits; a grant leaves minFree plus total within the free figure it read |
| SsdAdmission.SSDAdmission.Call | internal/fscommit/admission.go:131-142 | only the first call gives something back, and what its own Reserve took if and only if the task has been left alone since |
| SsdAdmission.Run | internal/fscommit/admission.go:97-145 | over any order of reserves and releases the table, the grants and the releases handed out are those of a book that sums the table each time; the total is the sum of the table and not negative, every grant fits, and every release is exact if and only if undisturbed |
| SsdAdmission.LateRelease | internal/fscommit/admission.go:131-142 | a concrete release after a second Reserve that removes the newer reservation |
| Registry.Registry.Submit | app/daemon/registry.go:239-293 | exactly which of its five answers it gives, what it queues and with which size, id conflicts, and that all else is unchanged and totals conserved |
| Registry.Registry.RemoveTerminal | app/daemon/registry.go:304-312 | the first occurrence of the id leaves the terminal order, the rest keeps its order |
| Registry.NoLongerListed | app/daemon/registry.go:304-312 | so an id that was in the order once is not in it any more, and every other still is |
| Registry.Registry.RetryTaskWithDecider | app/daemon/registry.go:336-410 | exactly when it is refused and why; it succeeds exactly under its three checks, with the request and the known size of the attempt it replaces or else the fallback; the id leaves the terminal order; otherwise neither registry nor database changed |
| Registry.Registry.Next | app/daemon/registry.go:412-433 | the head of the queue, resolving, unless paused or empty |
| Registry.Registry.Requeue | app/daemon/registry.go:435-446 | refused exactly for a terminal attempt |
| Registry.Registry.Update | app/daemon/registry.go:798-808 | a terminal attempt is not updated |
| Registry.Registry.Record | app/daemon/registry.go:514-521 | counters recorded on an attempt change the totals by the difference while it is listed, else not at all |
| Registry.Registry.RecordTransferTelemetry | app/daemon/registry.go:622-638 | a transfer replaces the figures, the payload only if something was written, and the totals follow |
| Registry.Registry.RecordResult | app/daemon/registry.go:644-663 | positive figures of a result replace those so far, and the totals follow |
| Registry.Registry.RecordWrite | app/daemon/registry.go:756-796 | a write counts exactly its new bytes, clipped to a known size, and none through a stale handle |
| Registry.Registry.SetResolved | app/daemon/registry.go:585-591 | the size is set unless the attempt is terminal |
| Registry.Registry.PruneTerminalOrder | app/daemon/registry.go:810-819 | exactly the oldest ids beyond the limit leave the order and the table, and their counters are carried over |
| Registry.Registry.Settle | app/daemon/registry.go:831-851 | ending an attempt forgets exactly the ids it pushes out of the order, and an active attempt if and only if one of those is the id of another one that has not ended |
| Registry.Registry.FinishWithGen | app/daemon/registry.go:821-852 | accepted exactly once per attempt and only for its generation, with the effect of Settle |
| Registry.Registry.FinishTask | app/daemon/registry.go:860-896 | which of the five replies it gives; accepted exactly for the current, non-terminal attempt of that generation, with the effect of Settle, and no other attempt changes |
| Registry.Registry.FinishTaskByMessage | app/daemon/registry.go:899-937 | which of the five replies some matching attempt gets, and that only an accepted one changes anything |
| Registry.Registry.Cancel | app/daemon/registry.go:963-1003 | exactly the queued attempts of the id and its listed one, if not ended, are failed; the queue keeps the rest in order |
| Registry.Registry.CancelTasksByChat | app/daemon/registry.go:1013-1061 | the matching attempts the decider let go are failed and leave the queue, which keeps its order; no other attempt changes |
| Registry.PeersByName | app/daemon/registry.go:1017-1021 | a leading @ on either side makes no difference to which attempts match, and nothing else is overlooked |
| Registry.Registry.Status | app/daemon/registry.go:514-521 | the reported totals are the carried-over counters plus those of the listed attempts |
| Registry.Registry.Run | app/daemon/registry.go:239-1061 | over any run only telemetry changes the totals, and a settled attempt never moves or returns |
| Registry.Registry.ReviveQueued | app/daemon/registry.go:412-433 | a terminal attempt anywhere in the queue can be handed out again |
| Registry.EndedWhileQueued | app/daemon/registry.go:860-896 | from a new registry, a submit and a finish leave a terminal attempt in the queue |
| Registry.WorksAgain | app/daemon/registry.go:412-433 | from there, handing it out leaves it at work and in the terminal order |
| Registry.ForgetsRevived | app/daemon/registry.go:810-819 | from there, ending another attempt leaves it at work and out of the table |
| ConflictResolve.ResolveTargetConflict | app/daemon/orchestrator.go:363-415 | either both stores are unchanged, or the row is pending and one new attempt of the row's generation is queued; with the exact condition |

## Left out

- Error texts are classes (lifecycle text, forcibly-closed text, other): only what the SQL and FailDownload tell apart.
- Timestamps, attempt counts, retry back-off and next_retry_at of both tables.
- IngestMessage and migrateLegacyUsernameIDs, which rewrite rows outside the attempt lifecycle.
- Registry.RegisterRecoveredTask, which overwrites a table entry without carrying its counters over; and queue capacity under Requeue, which the code does not check.
- A late directory-sync failure after a completed rename makes the worker fail a row whose final is in place; it is an I/O error, so it ends a course in CrashTransparency.
- A finalizer on a stale row snapshot while a newer attempt of the same record proceeds.
- Runs without a database or without a registry (nil dependencies).
- The database rewrite of the migrator transaction: only its commit verdict is modelled.
- 64-bit overflow of offsets, counters and sizes, and the uint64 to int64 casts of the admission check.
- Speed smoothing, rolling rates, events, storage meters, logging, lifecycle events.
- PathPlanner, validateRequest, path containment, and internal/fscommit/rename_other.go, whose check-then-rename is not atomic.
- Web server, CLI, login, proxies and the Telegram client: I/O around libraries.
- ConflictResolve.ResolveTargetConflict: the task id is a parameter, not formatted from chat and message.
- Migrator.Migrator.Run: makes its directory where no other is; the code settles all that were there before it begins, and
  stops if it cannot, which is Quarantines.BufferDir.ReconcilePendingQuarantines.
