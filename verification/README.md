# Cocoon's protocols and encoders, in Dafny

Cocoon is a MicroVM engine whose command-line processes and optional daemon share files, file locks and a
metadata store. This project models the parts where that is hard to get right and proves what they promise:

- Flock.dfy: the transient file lock whose file is unlinked on release, and the shared lease that is inherited
  by child processes. Any number of processes, descriptors, forks and crashes.
- `DiskDelta.dfy`, `Migration.dfy`: extent diffs between a disk and its reference, delta files, and the chain of
  migration rounds that is replayed on another node. The guest writes between rounds and a capture may die anywhere.
- JsonStore.dfy: commit and recovery of the JSON metadata engine under power cuts. A directory journal loses a
  suffix; file bytes that were not synced may be torn.
- Relay.dfy: the handover of source leases from a cloning parent to the console relay of a Firecracker VM.
- Lifecycle.dfy: one VM's record, metering ledger, VMM and host plumbing under create, clone, start, stop,
  hibernate, restore, delete, and the supervisor. Every operation may die between any two steps, and writes that the
  code only logs when they fail may be lost.
- Watcher.dfy: the daemon's registry of watched processes, with recycled descriptors.
- `Placements.dfy`, `Topology.dfy`, `CpuList.dfy`: CPU lists, cache domains, the choice of a domain and of queue
  threads, and the placement table that mirrors the VM records.
- Blobs.dfy: image blobs under concurrent publish, create, delete and garbage collection.
- `Fat12.dfy`, `Vfat.dfy`, `FatImage.dfy`, `ShortNames.dfy`: the FAT12 image writer, its 8.3 spelling of names, and a
  reader of its images. The layout is that of the Microsoft FAT specification version 1.03, sections "FAT Data Structure"
  and "FAT Long Directory Entries".
- Tar.dfy: sparse tar entries, from the scan for data segments to the extracted file.

A protocol is a machine: `Enabled` and `Apply` give its steps, `Legal` and `After` its runs, `Inv` what every step
keeps; the theorems quantify over every run from `Init`. Code that updates objects, buffers or variables in loops is a
class or a method proved against a specification. `dafny verify dfyconfig.toml` checks everything.

Where a promise turned out not to hold of the code, the code is kept, a lemma exhibits a failing case and another
gives the exact condition:

- A final migration round leaves its reference unmoved, so a further round on the same series may rebuild the wrong
  bytes (`Migration.RoundAfterFinalCanBeWrong`). It is exact if and only if the chain it found agrees with its target on
  the storage they share (`Migration.RoundAfterFinalIsExactWhen`, `Migration.EveryDeltaIsExactWhen`).
- The first commit of a JSON namespace, and a commit that starts before an earlier one's bytes are synced, can be lost to
  a power cut with nothing left to load (`JsonStore.FirstCommitCanCorrupt`, `JsonStore.OverlappingCommitsCanCorrupt`). A
  commit is safe if and only if the generation it will leave as `.prev` is synced when it takes the lock
  (`JsonStore.CommitIsSafeExactly`), and runs of such commits are (`JsonStore.PowerLossSafety`).
- A restore whose compute-stop commit fails can open a compute interval twice, and a forced delete whose re-read fails can
  close one twice (`Lifecycle.LostRestoreStopBreaksTheLedger`, `Lifecycle.FailedRereadBreaksTheLedger`). A run keeps the
  ledger if and only if no restore finalizes an open interval and no delete closes one that is shut
  (`Lifecycle.LedgerIsWellFormed`). So any restore keeps it if and only if it never finalizes, its stop landed or no
  interval was open (`Lifecycle.LostRestoreStopExactly`), and any delete if and only if its re-read did not fail, its stop
  was never recorded or no interval was open (`Lifecycle.ForcedDeleteExactly`).
- A restore of a stopped VM that ends before its placement or its failure mark is recorded can leave plumbing up with no
  mark to quiesce it, with or without dying (`Lifecycle.DyingRestoreCanLoseTheMark`,
  `Lifecycle.LostFailureMarkLosesTheMark`, `Lifecycle.EarlyEndExactly`, `Lifecycle.DyingRestoreKeepsTheMarkExactly`).
- A pin looks at the blob file alone, so a reserved VM may lack its kernel (`Blobs.KernelCanBeMissing`,
  `Blobs.PinnedFileExactly`).
- A file whose short name starts with byte 0xE5 is stored in the image and listed by no reader, and a long name of 64
  entries or with a NUL does not read back (`ShortNames.MarkedNameIsLost`, `Vfat.LongNameReadBack`,
  `FatImage.CreateFAT12`, `ShortNames.ImageOfNamesExactly`). Nor do the names "A." and "A " (`ShortNames.NamesCanChange`,
  `ShortNames.PlainNameExactly`, `ShortNames.OwnNamesExactly`).
- Two files of one image can get the same short name, if one of them has no long name (`ShortNames.ShortNamesCanClash`,
  `ShortNames.ShortNamesClashExactly`).
- The cache-domain loop does not end when a cpu it takes as head is missing from its own shared list
  (`Topology.LoopCanRunOn`, `Topology.TerminatesExactly`); it ends when every list names its own cpu
  (`Topology.SelfListedTerminates`).

## Model

| member | source | states |
|---|---|---|
| `Flock.MutualExclusion` | lock/flock/flock.go:35-147 | over every run of any number of processes, descriptors, forks and crashes: at most one verified exclusive holder, and none while any copy of a verified shared lease is open |
| `Flock.UnlinkHitsOnlyOwnFile` | lock/flock/flock.go:74-147 | whoever unlinks, reclaim included, removes the inode it is itself bound to, and no other open file on that inode is locked or verified |
| `Flock.FreePathIsTaken` | lock/flock/flock.go:35-108 | in every reachable state where no open file is locked, an idle lock can run token, open, flock and bind check and holds: a crash never wedges the path |
| `Flock.ReleaseFreesThePath` | lock/flock/flock.go:74-95 | the unlink leaves no path, the unlock after it closes the file and frees the lock, and no other lock or open file changes |
| `Flock.CrashReleasesAll` | lock/flock/shared.go:44-52 | when the only process with copies dies, no open file and no holder is left |
| `Flock.LeaseOutlivesItsTaker` | lock/flock/shared.go:18-76 | from every reachable state with no exclusive lock a lease can be taken, inherited, and outlives its taker's death, locked and verified, in the child alone |
| `Flock.BindKeepsInv` | lock/flock/flock.go:97-132 | the path/inode comparison after flock is what makes a holder verified, and keeps the invariant that one inode's verified holders exclude each other |
| `Flock.UnlinkKeepsInv` | lock/flock/flock.go:74-95 | unlinking before the descriptor is closed strands every waiter on the old inode, so none of them can become verified |
| `Flock.LeaseLockKeepsInv` | lock/flock/shared.go:54-76 | a shared flock is granted only beside shared ones, and becomes a lease only by its own bind check |
| `Flock.InheritKeepsInv` | lock/flock/shared.go:18-52 | a forked copy keeps the lease's open file locked |
| `Flock.RunKeepsInv` | lock/flock/flock.go:35-147 | the invariant holds after every legal run |
| `DiskDelta.MapAtIsTheExtent` | hypervisor/diskdelta.go:103-116 | the mapping at an offset is that of the one extent that holds it |
| `DiskDelta.ExtentAt` | hypervisor/diskdelta.go:103-116 | the cursor drops exactly the extents that end at or before pos, returns the mapping there, and the boundary up to which that mapping stays the same |
| `DiskDelta.DiffExtents` | hypervisor/diskdelta.go:83-101 | the sweep ends; an offset is covered exactly when the two mappings there differ, as zeros exactly when the current file reads as zeros; ranges are sorted, disjoint, in bounds and fully coalesced |
| `DiskDelta.DiffIsUnique` | hypervisor/diskdelta.go:83-101 | those properties determine the range list |
| `DiskDelta.SweepStep` | hypervisor/diskdelta.go:83-101 | one turn of the sweep extends exactness from pos to the next boundary |
| `DiskDelta.WriteDeltaFile` | hypervisor/diskdelta.go:118-154 | the delta holds the ranges, the size and, each where those before it end, exactly the bytes of the non-zero ranges |
| `DiskDelta.WriteDiskDelta` | hypervisor/diskdelta.go:55-81 | the file written is the delta between the two extent lists |
| `DiskDelta.DiskFile.Truncate` | hypervisor/diskdelta.go:156-195 | byte by byte: the target is cut, or extended with zeros |
| `DiskDelta.DiskFile.PunchHole` | hypervisor/diskdelta.go:156-195 | byte by byte: the range reads as zeros, every other byte and the size stay |
| `DiskDelta.DiskFile.WriteAt` | hypervisor/diskdelta.go:156-195 | byte by byte: the data lands at its offset, a gap before it reads as zeros, every other byte stays |
| `DiskDelta.ApplyDiskDelta` | hypervisor/diskdelta.go:156-195 | the target becomes what replaying the ranges over the resized target gives; a short data section is an error |
| `DiskDelta.ApplyRangesAt` | hypervisor/diskdelta.go:156-195 | byte by byte: covered bytes become the current file's, the others stay |
| `DiskDelta.ApplyIsExact` | hypervisor/diskdelta.go:55-195 | replaying a delta gives the current file if and only if the target agreed with it wherever both lists map the same storage |
| `DiskDelta.DeltaOntoReference` | hypervisor/diskdelta.go:55-195 | replaying the written delta on a copy of the reference yields the current file byte for byte |
| `Migration.NextRound` | hypervisor/migrate.go:258-264 | the first round with no delta file |
| `Migration.CheckRoundsInStep` | hypervisor/migrate.go:239-256 | true exactly when memory and every disk stand at one completed round with no next reference left behind |
| `Migration.ApplyDiskDeltas` | hypervisor/diskdelta.go:38-49 | the disk becomes the replay of rounds 1 to n, and a missing or broken round is an error |
| `Migration.NewDeltaReplays` | hypervisor/migrate.go:275-290 | one more delta on a chain that replays to the reference replays to the new state |
| `Migration.WriteDeltaKeepsInv` | hypervisor/migrate.go:266-290 | a disk's new delta keeps its files in step, and before any final round its chain equal to the frozen disk until its reference moves |
| `Migration.RunKeepsInv` | hypervisor/migrate.go:114-290 | over every run, rounds after a final one included, each disk's delta files are those of the memory's round or the one before and replay; up to the first round after a final one they replay to the current reference, or to what the final round saw |
| `Migration.MigrationIsExact` | hypervisor/migrate.go:142-290 | for any number of disks and rounds and any guest writes between them, when the first final round has completed and the guest is still paused, replaying all deltas on the baseline copy gives exactly the bytes and size of the live disk |
| `Migration.MovingRound` | hypervisor/migrate.go:142-290 | a round that is not final can run through, and leaves the disk it froze as the reference and its delta as the last file |
| `Migration.DeadRoundIsDetected` | hypervisor/migrate.go:142-290 | after captures, final ones included, died at any prefixes of their steps, in any order across disks, the next one refuses unless every disk has exactly the deltas 1 to n of the memory's round and no next reference; the chains then replay, to the references before any final round and after the first to what the disks held at its pause |
| `Migration.RoundAfterFinalCanBeWrong` | hypervisor/migrate.go:275-290 | a run of the series, from a baseline through two final rounds, whose last round completes and replays to the wrong byte |
| `Migration.RoundAfterFinalIsExactWhen` | hypervisor/migrate.go:275-290 | one more delta on a chain that leads to any bytes leads to the target if and only if those bytes agree with it wherever the reference and the target map the same storage |
| `Migration.EveryDeltaIsExactWhen` | hypervisor/migrate.go:266-290 | over every run, also after final rounds, the delta a round is about to write makes its disk exact if and only if the chain it found agrees with its target on shared storage |
| `JsonStore.PowerLossSafety` | meta/json/store.go:85-125 | over every run of commits, which may overtake each other's syncs as long as each finds the generation it will leave as .prev synced, from one synced generation, a cut at any step loads a generation committed since the last durable one and never a corrupt store; a reader sees the latest |
| `JsonStore.DurableUpdateSurvives` | meta/json/store.go:308-329 | after a durable update's syncs every cut loads exactly what it committed |
| `JsonStore.OldOrNew` | meta/json/store.go:274-329 | a cut inside one update from a durable generation loads the old or the new generation |
| `JsonStore.CutLoadsGood` | meta/json/store.go:246-272 | any cut of a state that satisfies the invariant loads a whole generation |
| `JsonStore.RotatePrevNames` | meta/json/store.go:274-306 | rotation leaves the file alone and puts the previous name on it; a missing file is not rotated |
| `JsonStore.CommitNames` | meta/json/store.go:274-306 | after a commit the new bytes are the file; the previous name is the last generation that decoded, so a commit over a recovered load does not destroy the only good one |
| `JsonStore.SyncCommittedKeepsInv` | meta/json/store.go:308-329 | the syncs outside the lock keep every cut loadable, sync the file and its previous generation and, when durable, empty the journal |
| `JsonStore.KeptLogLoadsLatest` | meta/json/store.go:308-329 | once the file is synced every cut that keeps the whole journal loads the latest commit unrecovered |
| `JsonStore.RunKeepsInv` | meta/json/store.go:245-329 | the invariant holds after every legal run, power cuts included |
| `JsonStore.Namespace.constructor` | meta/json/store.go:57-69 | a namespace opens on one synced generation and can be updated |
| `JsonStore.Namespace.Update` | meta/json/store.go:85-125 | commits exactly when dirty or when the load was recovered, otherwise changes nothing; in both modes a committed file and its previous generation are synced, so the next update finds its fallback synced and every cut that keeps the log loads this commit from its own file; a durable update leaves only its own generation loadable |
| `JsonStore.SurvivalIsSafety` | meta/json/store.go:246-272 | no power cut makes a load corrupt if and only if at every journal prefix the file is absent, or it or its previous generation is synced and whole |
| `JsonStore.CommitIsSafeExactly` | meta/json/store.go:274-306 | over a store no power cut can corrupt, whatever is unsynced and whether or not there is a file yet, a commit leaves it so if and only if the generation it will leave as .prev is synced when it takes the lock |
| `JsonStore.FirstCommitCanCorrupt` | meta/json/store.go:274-329 | in a namespace with no file a cut before the first commit's sync leaves nothing to load |
| `JsonStore.OverlappingCommitsCanCorrupt` | meta/json/store.go:274-329 | from every state of every run, a second commit before the first one's bytes are synced leaves a store a cut can corrupt |
| `Relay.LeasesCoverTheLoad` | hypervisor/firecracker/clone.go:102-182 | over every run with one fault, from snapshot load until the record is durable, a live VMM has every source lease open in the parent or in the relay |
| `Relay.RelayLetsGoOnlyWhenTold` | hypervisor/firecracker/relay.go:135-210 | a relay that did not crash drops a copy only after the commit byte, which follows the durable record, or once the loaded VMM is gone |
| `Relay.AbortMeansNoCommit` | hypervisor/firecracker/relay.go:184-210 | a relay that aborts, and kills the clone, was never sent the commit byte |
| `Relay.HandoverCompletes` | hypervisor/firecracker/clone.go:102-182 | for every set of leases a run ends with the clone running and recorded, the relay serving and no lease held |
| `Relay.OrphanedLoadIsUndone` | hypervisor/firecracker/relay.go:135-210 | a parent that dies before the record leaves a relay that can kill the clone and let go |
| `Relay.UnreadyRelayIsUndone` | hypervisor/firecracker/start.go:176-191 | a relay that never reports can be killed with the clone, the parent still holding every lease |
| `Relay.FailedLoadIsUndone` | hypervisor/firecracker/clone.go:102-182 | a failed load can be aborted: clone and relay gone, the parent still holding every lease |
| `Relay.RelayStepKeepsInv` | hypervisor/firecracker/relay.go:135-210 | every relay step keeps the handover invariant |
| `Relay.ParentStepKeepsInv` | hypervisor/firecracker/start.go:176-191 | every parent step keeps the handover invariant |
| `Relay.RunKeepsInv` | hypervisor/firecracker/clone.go:68-182 | the invariant holds after every legal run |
| `Lifecycle.LedgerIsWellFormed` | hypervisor/state.go:50-156 | over every run, lost writes included: compute and storage entries each alternate, compute is open exactly while StartedAt is set and StoppedAt is not and storage exactly while a finished record exists, if and only if each restore that finalized found no open interval and each delete believed open exactly the interval its record held; a deleted VM then leaves both closed |
| `Lifecycle.CommitsLand` | hypervisor/state.go:50-257 | over every run and on the record's fields: a convergence of a record running or with an open interval, a stop and a restore's stop leave it stopped with no interval open, no cpus held and nothing left to converge; a start, a finalization and an adoption that takes hold leave it running with an interval open; failed stops, kills and starts leave it in error, a mixed disk in quarantine; a placement is stored as given, a failure mark gives it up, a cleared mark is gone; no other step but a create's and a delete's touches it |
| `Lifecycle.StopTxLands` | hypervisor/supervisor.go:172-217 | the stop, the dead convergence and the restore's stop, field by field, and when each changes nothing |
| `Lifecycle.RunTxLands` | hypervisor/state.go:93-156 | the start, the adoption and the restore's finalization, field by field, and when an adoption changes nothing |
| `Lifecycle.FinishesLand` | hypervisor/create.go:72-94 | a placeholder, a created record, a running clone and a rollback, field by field |
| `Lifecycle.EntriesTell` | hypervisor/state.go:50-156 | the entries each transaction books and the reasons they carry |
| `Lifecycle.DeadVmConverges` | hypervisor/supervisor.go:172-217 | a run that creates, places and starts a VM, sees it exit and converges it: stopped, its cpus free, its plumbing down, nothing owed |
| `Lifecycle.VmmMoves` | hypervisor/start.go:35-128 | exactly the launches bring the VMM up, and exactly the shutdowns, kills and exits take it down |
| `Lifecycle.RestoreMovesOutside` | hypervisor/restore.go:127-225 | which restore steps move the VMM, the plumbing and the dirty marker, and how |
| `Lifecycle.RestoredVm` | hypervisor/restore.go:127-225 | a run that restores a running VM through: running again, clean, plumbed and placed anew |
| `Lifecycle.StateTxMetered` | hypervisor/state.go:50-156 | stop, error, quarantine, start and adopt transactions emit exactly what their change of interval needs |
| `Lifecycle.ConvergeTxMetered` | hypervisor/supervisor.go:172-217 | dead convergence and clearing the mark emit exactly what their change of interval needs |
| `Lifecycle.RestoreTxMetered` | hypervisor/restore.go:39-64 | the restore's stop and finalize emit exactly what their change of interval needs |
| `Lifecycle.LaunchTxMetered` | hypervisor/state.go:208-223 | placement and the mark of a failed operation change no interval and emit nothing |
| `Lifecycle.CreateKeepsLedger` | hypervisor/create.go:72-94 | every step of a create or clone keeps the ledger: a placeholder has booked nothing, a created VM has storage open, a clone storage and compute |
| `Lifecycle.LostRestoreStopExactly` | hypervisor/restore.go:127-225 | every restore, however it goes and wherever it ends, keeps the ledger if and only if it never finalized, its stop commit landed or no interval was open when it began |
| `Lifecycle.LostRestoreStopBreaksTheLedger` | hypervisor/restore.go:199-225 | a run from the empty store that restores a running VM, loses the stop and breaks the ledger |
| `Lifecycle.DeleteClosesExactly` | hypervisor/stop.go:146-167 | the closing entries shut the compute meter if and only if the interval the delete believes open is the record's, and break it when they close one that is not |
| `Lifecycle.ForcedDeleteExactly` | hypervisor/stop.go:112-167 | every delete, by whatever path of its forced stop it comes to remove the record, leaves the ledger closed if and only if its re-read did not fail, its stop was not recorded, or no interval was open when it began |
| `Lifecycle.FailedRereadBreaksTheLedger` | hypervisor/stop.go:147-153 | a run from the empty store that force-deletes a running VM, quiesces it, fails the re-read and breaks the ledger |
| `Lifecycle.DeathBeforeEntriesExactly` | hypervisor/state.go:190-206 | a death between a commit and its entries keeps the ledger after a stop, a convergence or a restore's stop exactly when no interval was open, and after a start, an adoption that takes hold or a restore's finalization exactly when one was |
| `Lifecycle.DeathAroundTheRecordExactly` | hypervisor/create.go:72-94 | such a death is never harmless after the commit that finishes a create or a clone, and after the one that removes a record exactly when it was a placeholder |
| `Lifecycle.SupervisorNeverStopsALiveVm` | daemon/reconcile.go:112-141 | in every interleaving a stop the daemon lands finds no live VMM and, for an exit event, a record of the event's generation |
| `Lifecycle.StaleExitIsDropped` | daemon/reconcile.go:193-228 | an exit observed at another generation than the record's changes nothing in the record |
| `Lifecycle.DeleteFindsNoVmm` | hypervisor/stop.go:112-167 | a delete removes the record only with the VMM gone |
| `Lifecycle.StepMoves` | hypervisor/state.go:235-246 | each step moves the generation by at most one, and by one whenever the state changes; the quiesce mark goes only with a transition to running or after a successful quiesce at the same generation |
| `Lifecycle.StoppedPlumbingIsPending` | hypervisor/network.go:28-45 | between operations a stopped VM whose plumbing is up is marked for quiescing, over every run in which each restore that died or lost its failure mark left the quiesce owed |
| `Lifecycle.EarlyEndExactly` | hypervisor/restore.go:127-225 | every restore that is over before its placement or failure mark is recorded, at whatever step and dead or alive, leaves the quiesce owed if and only if it left the plumbing down, the VM was not stopped, marked or without plumbing when it began, its stop of an open interval was recorded, or it quarantined the VM |
| `Lifecycle.DyingRestoreKeepsTheMarkExactly` | hypervisor/restore.go:127-159 | every such early end leaves the quiesce owed if and only if the VM was not stopped, was marked or had no plumbing when the restore began |
| `Lifecycle.DyingRestoreCanLoseTheMark` | hypervisor/restore.go:127-159 | a run from the empty store in which a stopped and quiesced VM loses the mark to a restore that dies with the plumbing up |
| `Lifecycle.LostFailureMarkLosesTheMark` | hypervisor/state.go:208-223 | a run in which nothing dies and the mark is lost: the plumbing comes up in part and the failure mark is not recorded |
| `Lifecycle.StartKeepsControl` | hypervisor/start.go:35-128 | what a start knows while it holds the lock |
| `Lifecycle.StopKeepsControl` | hypervisor/stop.go:33-76 | what a stop knows: its local generation is the stored one, and the VMM is gone once it marks |
| `Lifecycle.RestoreKeepsControl` | hypervisor/restore.go:127-225 | what a restore knows: a finished record, no VMM between the kill and the launch, and the quiesce mark set for its plumbing once it is placed |
| `Lifecycle.SuperviseKeepsControl` | daemon/reconcile.go:82-141 | what the supervisor knows: past the dead probe the VMM is gone and its event is of the generation it read |
| `Lifecycle.RunKeepsInv` | hypervisor/state.go:50-257 | what the operations know at each control point holds after every legal run, lost writes included |
| `Lifecycle.RunKeepsLedger` | hypervisor/state.go:50-257 | the same from any state whose ledger agrees with its record: a run keeps the agreement if and only if each of its finalizations and deletes is sound |
| `Lifecycle.UnsoundBreaks` | hypervisor/stop.go:112-167 | any other finalization or delete breaks the compute meter |
| `Lifecycle.BrokenRuns` | hypervisor/metering.go:24-28 | a broken meter stays broken over every run: nothing is taken back from the ledger |
| `Watcher.ProcWatcher.constructor` | daemon/watch.go:45-51 | an empty registry with no descriptor open |
| `Watcher.ProcWatcher.EvictLocked` | daemon/watch.go:166-171 | both maps lose the entry and its descriptor is closed |
| `Watcher.ProcWatcher.EnsureEvict` | daemon/watch.go:76-85 | an entry for the same process and generation stays and ends the call, any other for the key goes |
| `Watcher.ProcWatcher.EnsureAdd` | daemon/watch.go:87-105 | the key is watched exactly when the pidfd opened, the pid still names the process and the poller took it; otherwise nothing is registered and no descriptor leaks |
| `Watcher.ProcWatcher.Drop` | daemon/watch.go:107-113 | the key is no longer watched, others are |
| `Watcher.ProcWatcher.DropAbsent` | daemon/watch.go:115-126 | exactly the backend's keys outside the seen set go |
| `Watcher.ProcWatcher.Fire` | daemon/watch.go:148-164 | a registered descriptor publishes its key with the generation it is watched under and is evicted; any other does nothing |
| `Watcher.RunKeepsRegistry` | daemon/watch.go:76-171 | over every run of critical sections the maps are inverse and each entry is the key's last watch |
| `Watcher.FiredGenerationIsTheWatchedOne` | daemon/watch.go:148-164 | whichever descriptor fires and however its number was recycled, the event carries the generation its key was last watched under, once per watch |
| `Placements.EveryRunMirrors` | hypervisor/repo.go:23-39 | after every sequence of record writes and deletes a VM has a row exactly when one of its two lists is set, its queue cpus if they are set and else its cpu set |
| `Placements.VmTables.constructor` | hypervisor/repo.go:83-91 | empty tables mirror each other |
| `Placements.VmTables.Put` | hypervisor/repo.go:23-32 | writes the record and its row, the queue cpus before the cpu set, or removes the row when both are empty; every other row stays |
| `Placements.VmTables.Del` | hypervisor/repo.go:34-39 | removes record and row and keeps the mirror |
| `Placements.VmTables.PlaceRecord` | hypervisor/placement.go:16-41 | stores the placement chosen against the load of every other record of this and the peer namespaces, marks the plumbing as owed a quiesce, and fails, changing nothing, exactly for a missing record or when queues are pinned in a domain whose sibling files cannot be read |
| `Placements.PlacementLoad` | hypervisor/placement.go:99-118 | every cpu's load is the number of rows other than self's, over all namespaces, whose list holds it; a malformed list counts for nothing |
| `Placements.TallyCountsRecords` | hypervisor/placement.go:99-118 | counting the mirrored rows of all namespaces is counting the records whose queue cpus, or without those whose cpu set, hold the cpu |
| `Placements.PlaceVM` | hypervisor/placement.go:61-93 | without a topology the configured list is copied; with one, the cpu set is a least-loaded domain when asked for, and the queue cpus are threads of it when queues are pinned, the best ones when the sibling files describe cores; fails exactly when those files cannot be read |
| `Topology.ReadCPUList` | cgroup/topology.go:96-102 | the set the trimmed file denotes, or an error |
| `Topology.TerminatesExactly` | cgroup/topology.go:37-51 | the domain loop ends if and only if no cpu it takes as head is missing from its own shared list |
| `Topology.SelfListedTerminates` | cgroup/topology.go:37-51 | the loop ends, in at most one round per cpu, on every host whose readable shared lists each name their own cpu |
| `Topology.SelfListedHalts` | cgroup/topology.go:25-58 | such hosts are ones ReadTopology ends on |
| `Topology.LoopCanRunOn` | cgroup/topology.go:37-51 | a host on which the loop never ends: cpu 0 alone, its shared list naming cpu 1 |
| `Topology.ReadDomains` | cgroup/topology.go:37-51 | the loop computes the specified domains |
| `Topology.DomainsPartition` | cgroup/topology.go:37-51 | the domains partition the cpus the loop started from |
| `Topology.DomainsAreCaches` | cgroup/topology.go:37-51 | when the shared lists are those of an equivalence, two cpus are in one domain exactly when they share a cache |
| `Topology.ReadTopology` | cgroup/topology.go:25-58 | the domains partition the online cpus inside the fence, one domain on a host without cache files; fails only when no cpu is left or a file it needs is unreadable |
| `Topology.CoresOf` | cgroup/topology.go:104-125 | lists the cores of the domain as specified, or fails on an unreadable sibling file |
| `Topology.CoresPartition` | cgroup/topology.go:104-125 | when sibling lists are those of an equivalence, the cores are whole, disjoint and cover the domain |
| `Topology.SumLoadOf` | cgroup/topology.go:127-133 | the sum of the loads |
| `Topology.SumLoadAdds` | cgroup/topology.go:127-133 | the load adds up over concatenation and that of one cpu is its own |
| `Topology.PickDomain` | cgroup/topology.go:60-68 | the first domain of minimum load |
| `Topology.RankCpus` | cgroup/topology.go:73-90 | the ranking lists the domain by rank inside the core, then load, then number |
| `Topology.LeadersTouchAll` | cgroup/topology.go:73-90 | there is exactly one first thread per core |
| `Topology.FrontTouches` | cgroup/topology.go:73-92 | the first k threads of the ranking touch min(k, number of cores) cores |
| `Topology.Place` | cgroup/topology.go:60-94 | returns a minimum-load domain and, for q >= 2 queues, at most q cpus of it; when sibling lists describe cores they are min(q, domain size) distinct cpus, in order, that cover min(q, number of cores) cores and precede every other cpu of the domain in rank, load and number; none for fewer queues |
| `Topology.PinsAreLightest` | cgroup/topology.go:73-92 | a chosen thread has fewer less loaded threads ahead of it in its core than any other of the domain, or as many and less load, or the smaller number |
| `CpuList.ParseCPUList` | cgroup/cgroup.go:106-130 | succeeds exactly on well-formed lists, with the strictly increasing list of the set denoted |
| `CpuList.FormatCPUList` | cgroup/cgroup.go:132-148 | renders the specified runs of any list of cpu numbers |
| `CpuList.RunsAreMaximal` | cgroup/cgroup.go:132-148 | no two neighbouring runs of the rendering could be merged |
| `CpuList.RunsDenote` | cgroup/cgroup.go:132-148 | the runs denote exactly the cpus |
| `CpuList.FormatDenotes` | cgroup/cgroup.go:132-148 | the rendered text denotes exactly the cpus, whatever their order |
| `CpuList.FormatExample` | cgroup/cgroup.go:132-148 | cpus 0, 1, 2 and 192 are written "0-2,192" |
| `CpuList.RoundTrip` | cgroup/cgroup.go:106-148 | parsing the rendering of a strictly increasing list of non-negative cpus gives the list back |
| `CpuList.SameCPUList` | cgroup/cgroup.go:432-436 | true exactly when both lists are valid and denote the same set |
| `CpuList.IncreasingIsUnique` | cgroup/cgroup.go:128-129 | a set has one strictly increasing list |
| `Blobs.BlobSafety` | images/gc.go:100-141 | over every run of publishers, creators, deleters, collectors and crashes, no file a committed index entry names and no blob a reserved record pins is missing from disk |
| `Blobs.CommitKeepsInv` | images/cloudimg/commit.go:42-65 | an index commit names only digests its publisher holds, so no collector has passed its recheck for them |
| `Blobs.ReserveKeepsInv` | cmd/vm/run.go:380-391 | a record is reserved only over digests its creator holds and found |
| `Blobs.RemoveKeepsInv` | images/gc.go:112-141 | the collector removes only files of a digest nobody names, pins or is checking |
| `Blobs.RunKeepsInv` | images/gc.go:100-141 | the invariant holds after every legal run |
| `Blobs.NoCyclicWait` | images/store.go:97-114 | in every reachable state no process waits, through however many others, for itself |
| `Blobs.SomeoneRuns` | images/store.go:97-114 | if anyone waits, some process that holds a wanted lock does not wait and can go on |
| `Blobs.PinnedFileExactly` | images/store.go:124-144 | a file of a pinned digest stays on disk for as long as the record exists if and only if it is there when the record is |
| `Blobs.KernelCanBeMissing` | images/store.go:124-144 | a run that reserves a record over a blob whose kernel was collected |
| `Blobs.BlobLocks.constructor` | images/store.go:97-100 | holds nothing |
| `Blobs.BlobLocks.Lock` | images/store.go:102-114 | holds every path in strictly increasing order, or nothing when one cannot be locked |
| `Blobs.BlobLocks.Release` | images/store.go:116-122 | holds nothing |
| `Blobs.ApplyDiff` | images/store.go:50-78 | writing back only the differences leaves exactly the new index and touches exactly the entries that changed |
| `Blobs.BuildEntry` | images/oci/commit.go:83-134 | succeeds exactly when some layer has a kernel, some an initrd, and every file the entry names is on disk; the kernel is that of the last layer with one, the initrd likewise; the entry's digests are the layers' |
| `Blobs.LastWithTells` | images/oci/commit.go:90-97 | the boot layer is the last that carries the file, and there is none exactly when no layer does |
| `Blobs.DeletesTell` | images/gc.go:100-141 | deleting a VM takes its pins away and nothing else, deleting an image its entry |
| `Fat12.SetFATEntry` | metadata/fat12.go:192-202 | stores the merged word of the entry, nothing else |
| `Fat12.UpdatedBytes` | metadata/fat12.go:192-202 | an even entry is a byte and the low nibble of the next, an odd one a high nibble and the byte after it, and no other bit changes |
| `Fat12.EntryWritten` | metadata/fat12.go:192-202 | a written entry reads back as its low twelve bits and no other entry changes, not even the one that shares a byte |
| `Fat12.LinkClusters` | metadata/fat12.go:72-79 | the clusters form one chain that ends, and every other entry is as before |
| `Fat12.FollowChain` | metadata/fat12.go:72-79 | a reader that follows the chain ends and visits exactly its clusters in order |
| `Fat12.ImageParts` | metadata/fat12.go:118-150 | the image is exactly 1 MiB and its parts lie where a reader looks for them |
| `Fat12.ReadBack` | metadata/fat12.go:118-150 | following the chain from a content's first cluster recovers exactly its bytes |
| `Vfat.LfnChecksum` | metadata/fat12.go:290-296 | the loop computes the checksum that ChecksumAppends describes |
| `Vfat.ChecksumAppends` | metadata/fat12.go:290-296 | for every name one more byte rotates the sum right by one bit and adds the byte, in a byte; the sum of no bytes is 0 |
| `Vfat.ChecksumIsOrdered` | metadata/fat12.go:290-296 | swapping two neighbouring bytes can change the sum |
| `Vfat.MetaDataChecksum` | metadata/fat12.go:290-296 | the checksum of "META-D~1   " is 212 |
| `Vfat.MetaDataEntry` | metadata/fat12.go:244-296 | the one entry of "meta-data", byte for byte |
| `Vfat.PutLFNChars` | metadata/fat12.go:274-288 | units, then the terminator, then padding, and no byte outside the field |
| `Vfat.MakeEntry` | metadata/fat12.go:251-268 | the number cut to a byte, or-ed with the flag on the last entry, the attribute, the checksum and thirteen characters of one entry |
| `Vfat.MakeLFNEntries` | metadata/fat12.go:244-272 | for every name, the entries in disk order, highest number first |
| `Vfat.LongNameReadBack` | metadata/fat12.go:244-296 | reading the entries in disk order recovers the name if and only if it is not empty, holds no NUL and takes at most 63 entries; the numbers then run down from the flagged one to 1 and each entry carries the checksum of the short name |
| `FatImage.Builder.constructor` | metadata/fat12.go:42-61 | the reserved FAT entries, no files, and a first slot that carries the label |
| `FatImage.Builder.AddVolumeLabel` | metadata/fat12.go:56-61 | the first slot is the volume label |
| `FatImage.Builder.WriteDirEntry` | metadata/fat12.go:108-116 | the entry fills the next slot and no other, or the directory is full |
| `FatImage.Builder.Allocate` | metadata/fat12.go:63-82 | fails exactly when the clusters do not fit; otherwise links a chain above all used clusters and touches no other entry |
| `FatImage.Builder.WriteShort` | metadata/fat12.go:97-105 | the slot carries the short name, the first cluster and the size |
| `FatImage.ShortBytes` | metadata/fat12.go:97-105 | a short slot byte by byte: name, attribute, first cluster and size, low bytes first |
| `FatImage.Builder.AddFile` | metadata/fat12.go:63-106 | fails exactly when data area or directory are too small; otherwise every earlier file and the new one are stored |
| `FatImage.ChainsAppend` | metadata/fat12.go:63-82 | a new chain leaves every earlier file's chain alone |
| `FatImage.ChainsApart` | metadata/fat12.go:63-82 | the chains of two files have no cluster in common |
| `FatImage.DirectoryListsExactly` | metadata/fat12.go:84-116 | a reader lists exactly the stored files if every short name starts with neither 0 nor 0xE5 and the label not with 0, and fewer files otherwise |
| `FatImage.MakeBootSector` | metadata/fat12.go:152-178 | every field of the boot sector, and that the geometry a reader takes from it is the image's |
| `FatImage.WriteTo` | metadata/fat12.go:118-150 | streams boot sector, two FATs, root directory, padded contents and zeros |
| `FatImage.CreateFAT12` | metadata/fat12.go:180-190 | for all files succeeds exactly when they fit; the image is 1 MiB with two equal FATs and the label in the boot sector and in the first slot of the root directory; every file's chain ends and reads as exactly its bytes; with a visible label and visible short names a reader finds every file with its short name and bytes, and with its long name exactly when that reads back; otherwise it finds fewer files |
| `ShortNames.NeedsLFNExactly` | metadata/fat12.go:204-208 | a file goes without a long name exactly when its name is in upper case and is at most eight bytes without a dot, or before its only dot and then at most three after it |
| `ShortNames.MetaDataName` | metadata/fat12.go:230-242 | the first generated name of "META-DATA" is "META-D~1   " |
| `ShortNames.GeneratedNamesDiffer` | metadata/fat12.go:230-242 | two generated names with different numbers differ, whatever the files are called |
| `ShortNames.ShortNamesClashExactly` | metadata/fat12.go:204-242 | two files of an image get the same short name if and only if at least one has no long name and the bases and extensions written differ in trailing spaces alone |
| `ShortNames.ShortNamesCanClash` | metadata/fat12.go:221-242 | files "A~1" and "a" get the same short name |
| `ShortNames.HiddenExactly` | metadata/fat12.go:204-242 | a file's short slot is visible if and only if the upper-case base it is spelled from does not start with 0 or 0xE5 |
| `ShortNames.ImageOfNamesExactly` | metadata/fat12.go:180-242 | a reader recovers the files of an image from their own names if and only if the label does not start with 0, no name is hidden and every long name reads back |
| `ShortNames.PlainNameExactly` | metadata/fat12.go:204-228 | a file without a long name reads back under its own name if and only if neither its base nor its extension ends in a space and the name does not end in a dot |
| `ShortNames.NamesCanChange` | metadata/fat12.go:204-228 | files "A." and "A " take no long name and read back as "A" |
| `ShortNames.OwnNamesExactly` | metadata/fat12.go:180-242 | a reader recovers the files under the names they were given if and only if label and names are visible, every long name reads back and every other name is plain |
| `ShortNames.CreateNamed` | metadata/fat12.go:180-190 | on the caller's label and names: succeeds exactly when they fit, carries the padded label, and reads back under the own names exactly when OwnNamesExactly says |
| `ShortNames.MarkedNameIsLost` | metadata/fat12.go:221-228 | the file named by the character U+597D fits, and no image of it reads back |
| `Tar.IsAllZero` | utils/tar.go:188-201 | true exactly when every byte is zero |
| `Tar.OutFile.Write` | utils/tar.go:138-186 | byte by byte: the bytes land at the offset, which moves past them, a seeked gap reads as zeros, every other byte stays |
| `Tar.OutFile.Truncate` | utils/tar.go:111-113 | byte by byte: the file is cut, or extended with zeros |
| `Tar.NextRun` | utils/tar.go:151-157 | the blocks of the run are all zero or all not, and it stops at the first block of the other kind |
| `Tar.ExtractFile` | utils/tar.go:138-186 | the file is exactly the entry's bytes, whatever the buffer size, including zero runs across buffers and at the end; with the size of the header exactly the blocks with a nonzero byte are written |
| `Tar.CheckMap` | utils/tar.go:115-121 | every segment in bounds, and the sum as an int64 |
| `Tar.ExtractFileSparse` | utils/tar.go:99-136 | succeeds exactly when the map is in bounds and describes as many bytes as the entry holds, and then lays the segments over zeros |
| `Tar.TarFileMaybeSparse` | utils/tar.go:203-264 | sparse exactly when the scan succeeded, its data falls short of the file and the map fits; then the scan's segments, the real size and as many bytes as the segments hold; otherwise the whole file |
| `Tar.ScanDataSegments` | utils/sparse_linux.go:53-79 | the segments hold exactly the file's data, non-empty, in order and with holes between them; fails exactly when a seek it makes fails |
| `Tar.ScanCoversData` | utils/sparse_linux.go:53-79 | when holes read as zeros the scanned segments are in bounds, add up to no more than the file and cover its nonzero bytes |
| `Tar.SparseExactly` | utils/sparse_linux.go:53-79 | the scanned data falls short of the file exactly when the file has a hole |
| `Tar.LaidMeans` | utils/tar.go:126-133 | bytes in a segment are the file's, all others zero |
| `Tar.RoundTripExactly` | utils/tar.go:99-264 | extraction restores exactly the bytes and length for every content and every segment list that covers its nonzero bytes, on every branch, and on the sparse branch for no other list |
| `Tar.ArchiveAndExtract` | utils/tar.go:99-264 | scanned, archived and extracted, every file comes back, whatever of it is hole, whichever seek fails and whichever branch archives it; it travels sparse, with a body shorter than the file, exactly when the scan succeeds, the file has a hole and the map fits |

## Left out

- Hypervisor REST calls, process launch, pidfds, netlink, CNI and cgroup writes: steps that succeed, fail or are inconclusive.
- The sqlite engine, the tombstone table, snapshot stores and the conversion between engines: delete is one fenced step.
- JSON text: a namespace's bytes decode or are torn; a delta header and a sparse map are values, the map's text only a length.
- Timestamps beyond set or unset, FAT dates, the volume serial and random ids: parameters or absent.
- The lock order over several JSON namespaces (meta/json/store.go:137-189): one namespace is modelled, under its own lock.
- Unicode: a name comes as UTF-8 bytes with its upper-case form and its UTF-16 units, as the Go library computes them.
- Changing a VM's network interfaces while it exists, and capturing a creating placeholder, which records no disk.
- Clones from exported directories: their pins skip digests with no local blob.
- Config validators, path helpers, command-line and download code: single checks and input/output.
- CpuList.ParseCPUList: the loop counter is unbounded, so a range that ends at the largest int ends here while the source's counter would wrap.
- CpuList.FormatCPUList: stated for non-negative cpus, which is what its callers pass.
- DiskDelta.DeltaOntoReference: extents reported past the end of a file are taken to read as zeros there, as the kernel reports them.
- Relay.LeasesCoverTheLoad: one fault among a parent crash, a relay crash and a failed launch abort; with a dead relay the abort kills the VMM.
- JsonStore.PowerLossSafety: each commit finds its fallback synced, which `CommitIsSafeExactly` shows is needed; an overtaken commit's syncs are writeback and journal steps, so its own durable return is not told from them.
- JsonStore.Namespace.Update: one process at a time through the namespace's lock; interleavings are those of the machine.
- Lifecycle.StoppedPlumbingIsPending: runs in which a restore that died or lost its failure mark left the quiesce unowed are excluded; `EarlyEndExactly` says exactly which those are.
- Lifecycle.LedgerIsWellFormed: a commit and its entries are one step, while the source emits after the commit; `DeathBeforeEntriesExactly` and `DeathAroundTheRecordExactly` say when a death between the two keeps the ledger.
- Topology.ReadTopology: asks for hosts on which the domain loop ends, which `TerminatesExactly` characterizes and `SelfListedHalts` gives a test for.
- Tar.TarFileMaybeSparse: segments lie in the file and their lengths add up within an int64, which `ScanCoversData` proves of the scan; the file does not change between the scan and the copy, and read and write errors are left out.
- Blobs.BlobSafety: locks are mutexes that a crash releases; records are those of the create path.
