# Verification of the GCE persistent disk volume plugin

This project models the docker volume plugin for GCE persistent disks and proves
properties of the model with Dafny 4.11. `dafny verify dfyconfig.toml` checks it all.
Nothing was executed: every statement below is about the model, and is checked by the
verifier alone.

## What is modelled

The plugin keeps a record per volume in a state file, creates, attaches, formats, mounts,
detaches and deletes GCE disks, and runs slow deletes in the background while it goes on
serving. It may crash between any two steps, and several VMs share one zone. The model has
three layers.

* **One control automaton per operation** (`Protocol`). `Awaits` says which request to GCE
  or to the host is outstanding, `After` how its answer moves the call on, `AfterCall` and
  `AfterStore` how the driver carries on. A disk carries an `id` that tells incarnations
  under one name apart, its users, labels and label fingerprint.
* **The plugin's own code** (`Driver`, `Client`, `Mounter`, `Store`, `Options`, `Refs`,
  `Names`): classes and loops in the form of the source. `World` is what a thread sees of
  GCE and of its host. It answers as it pleases, remembers what the thread has done, and
  accepts no request, command line or outcome that the automaton does not allow at that
  point. So each method is proved to be a walk of the automaton: a driver operation is
  `Completed` when its walk started at `Begin` and ended in the reply it returns. A method
  that skipped a step, took a wrong branch or sent another request would not verify. What
  the automaton itself decides at its leaves (which status is down, which exit code means
  blank, which disk fits, what an option means) is stated again in the contracts, by the
  recorded requests, answers and commands and with the values written out.
* **The whole system** (`Cluster`): any number of VMs running that automaton, each with its
  state file, mount table and background deletes, against one set of disks. A step is one
  request with its answer, one store operation, one incoming request, a start, a crash of
  the plugin or a reboot of the VM. A request may fail with or without having taken effect.
  GCE refuses a second read-write attach, the deletion of an attached disk and a label
  update with a stale fingerprint; a detach reported done may leave the holder attached.
  `IsRun` says what a run is; the main results hold in every state of every run. Each VM
  remembers in its `drift` which of its failures have made records, mount table and
  attachments come apart; the results about counts are stated exactly with it, instead of
  excluding failures:
  * *lost*: the unwinding of a Mount that could not be counted has unmounted the volume,
    which stays counted in memory;
  * *stray*: the unmount after the last reference failed, or was never tried because the
    count could not be written, or a scan at start-up failed, or a reconciliation left the
    mounted volume out, and no count covers it since;
  * *adrift*: a detach has taken effect while the volume is mounted, with no attach since.

The modules with the main results:

| module | result |
|---|---|
| `Causality` | every deletion of a disk has a cause in the history of the run |
| `DeleteProtocol` | what the deleting mark guarantees over a run |
| `Incarnations` | exactly when a Delete request hits the disk it marked, and its snapshot |
| `Tracked` | a tracked volume without a disk had one, and its deletion is on record |
| `Refusals` | exactly when a refused operation leaves a trace |
| `Filesystem` | a file system is never overwritten, over all runs and all VMs |
| `FailedDeletes` | exactly when a failed background delete leaves the disk marked |
| `Imports` | an imported record is never reused |
| `Attachment` | an attachment ends only by its own VM's detach or a failover; exactly when a mounted disk is attached |
| `MountSafety`, `HeldDisks` | exactly when a positive count means mounted and attached, through failures and restarts |
| `Conservation` | counts, attaches and detaches balance over every failure-free walk |
| `Store`, `Reconciling` | crash atomicity, round trip and canonicity of the state file; what reconciliation amounts to |
| `Client`, `Failovers`, `Requests` | retries and backoff; fencing of a failover; what each call comes to, told by its requests |
| `Mounter`, `MountTable` | the wait for a device; what was run on the host and when; what /proc/mounts shows |
| `Options`, `OptionTexts`, `Orders` | parsing and matching of options; what they say by their text; exactly when the visiting order shows |
| `Retention` | nobody loses a disk by default |
| `Refs`, `Names`, `Host`, `Texts` | instance references; names; commands and paths; splitting and trimming |
| `Counterexamples` | runs that show which expectations fail |

### Where the code and its own text disagree

The model follows the code.

* `internal/driver/reconcile.go:39` says a snapshot was taken before the interruption. The
  mark precedes the snapshot and a resumed delete takes none, so the snapshot can be lost
  (`Counterexamples.SnapshotCanBeLost`). A delete takes a snapshot before its Delete request
  exactly if it was started with snapshotFirst (`DeleteProtocol.SnapshotPrecedesDelete`).
* `internal/driver/driver.go:260-261` says that a failed background delete leaves the disk
  marked. A disk that is still attached is refused before it is marked
  (`internal/gce/disk.go:116-126`), and can end up unmarked, untracked and with no delete in
  flight (`Counterexamples.RefusedDeleteLeavesUnmarked`). The disk is marked exactly if its
  label was there when the delete looked, or has been written since; one that fails on its
  snapshot or its Delete request always leaves the mark (`FailedDeletes.FailedDeleteMark`).
* The repository's `README.md:194-196` promises that a Create reuses a retained, re-imported volume. An
  imported record carries the managed-by label, which no option list can contain, so as
  long as it is tracked every such Create is refused (`Imports.ImportedIsNeverReused`,
  `Options.ManagedRecordNeverMatches`). Only a disk that has not been re-imported yet can be
  adopted.
* The repository's `README.md:168-171` says the size is re-read from GCE at startup. A record that survives
  the reconciliation keeps its options (`Reconciling.ReconciledRecord`), so its size is the
  current one exactly if it was before (`Reconciling.SizeIsCurrentIff`).
* A Delete request need not hit the disk that was marked: behind a retryable error it can
  hit one created since under the same name (`Counterexamples.NewDiskIsDeleted`). It does
  so exactly if the deletion of the disk it had looked at is on record already
  (`Incarnations.DeleteHitsWhatItMarked`).
* Only `managed-by` is reserved: a user who sets the deleting label loses the disk at the
  next restart (`Counterexamples.LabelledDiskIsDeleted`).
* The store changes memory before it persists and does not undo that. After a failed persist
  a refused Create leaves its record, and a refused Mount its count
  (`Counterexamples.RolledBackStaysTracked`, `Counterexamples.UnwoundStaysCounted`). A
  refused Create, Mount or Remove leaves a trace exactly if a persist has failed on the way
  (`Refusals.RefusedLeavesTraceIffPersistFailed`; `AllOrNothing` in the contracts of the
  driver says the same of each call). The agreement of status, count and mountpoint
  (`MountSafety.StatusFollowsCount`) needs no condition. A counted volume is mounted exactly
  if it is not lost (`MountSafety.CountedIsMounted`), a mounted one counted exactly if it is
  not stray (`MountSafety.MountedIsCounted`).
* The detach after a failed Mount does not look at the mount table. So a disk can be
  detached under a mounted file system: a counted one
  (`Counterexamples.CountedDiskIsGivenBack`), or one that an earlier unmount left behind
  (`Counterexamples.StrayDiskIsGivenBack`). A mounted disk is attached exactly if it is not
  adrift, nor taken away by the failover of a VM in global scope
  (`Attachment.MountedIsAttached`); so a positive count means mounted and attached exactly
  if the volume is neither lost nor adrift nor taken (`HeldDisks.CountedIsAttached`).
* Matching is not symmetric (`Options.MatchesIsNotSymmetric`; exactly when it is:
  `Options.SymmetricIff`), and the order in which the option map is visited can show
  (`Options.CollidingKeysAreOrderDependent`; exactly when:
  `Orders.OrderShowsIffAmbiguous`).

## Model

| member | source | states |
|---|---|---|
| Causality.EveryDeletionHasACause | internal/driver/driver.go:224-243 | in every state of every run with crashes, restarts, failed persists and interleaved deletes: each deletion follows a rollback, a foreign or user-made mark, or a removal with policy delete that itself follows a Create with that policy |
| Causality.UntouchedDiskSurvives | internal/driver/driver.go:234-236 | a disk whose name was never removed for deletion, rolled back or marked is there, in the same incarnation, at every later state |
| Causality.DisappearanceIsLogged | internal/gce/disk.go:134-152 | a disk vanishes from GCE only in a step that is logged as its deletion |
| Causality.StepKeepsTraceable | internal/driver/reconcile.go:38-41 | every step of every VM keeps: what is to be deleted, in flight or marked, has a cause |
| Causality.ResumedAreCaused | internal/driver/reconcile.go:34-41 | the deletes a reconciliation resumes have a cause, and what it imports is retained |
| Tracked.PhantomWasDeleted | internal/driver/driver.go:137-170 | over every run, failed persists included, in memory and in the file: a tracked volume whose disk is not in GCE has its deletion on record, with its cause |
| Tracked.TrackedIsManaged | internal/driver/driver.go:178-183 | a tracked volume never stands for a disk the plugin does not manage |
| Imports.ImportedIsNeverReused | internal/driver/reconcile.go:44-55 | over every run, from the reconciliation that imports a volume on and as long as it is tracked, through failures and restarts: its record carries the managed-by label in memory and in the file, and every Create of it is refused without a change |
| Tracked.StepKeepsTracked | internal/driver/driver.go:111-171 | every step of every VM keeps: what is tracked, or about to be, is backed by a managed disk or by a deletion on record |
| DeleteProtocol.MarkIsForever | internal/gce/disk.go:212-250 | over any stretch of a run, a disk stays marked and stays managed as long as it exists |
| Incarnations.DeleteHitsWhatItMarked | internal/gce/disk.go:120-141 | in every run, the disk a Delete request removes is the incarnation its delete had looked at if and only if the deletion of that one is not on record yet, and then it is marked; otherwise it is a later one |
| Incarnations.SnapshotOfDeleted | internal/gce/disk.go:128-141 | in every run, a delete started with snapshotFirst that does not go astray has a snapshot of the very incarnation it removes on record |
| Incarnations.StepKeepsAccounted | internal/gce/disk.go:108-153 | every step keeps: what a delete in flight has looked at is there or its deletion is on record, and deleted incarnations are older |
| FailedDeletes.FailedDeleteMark | internal/driver/driver.go:258-264 | in every run, for a background delete followed from its look at the disk to the request it fails on: the disk is marked if and only if the look found the label or a label update has taken effect since; it fails at the look exactly if the disk is attached, and then leaves it as it was; failing on the snapshot or the Delete request it leaves the mark |
| FailedDeletes.FollowsLook | internal/gce/disk.go:108-153 | over every run: what a delete in flight is doing tells what its look found, users or label |
| FailedDeletes.MarkedByUpdates | internal/gce/disk.go:212-250 | over any stretch of a run: an incarnation gets the mark by a label update of some delete and by nothing else |
| DeleteProtocol.LaterCreateRefuses | internal/driver/driver.go:137-144 | over every run, once a disk is marked, a Create on any VM that looks it up adds no record |
| DeleteProtocol.ReconcileResumesMarked | internal/driver/reconcile.go:34-42 | a marked managed disk is resumed exactly once, without snapshot, and not imported |
| DeleteProtocol.LaterReconcileResumes | internal/driver/driver.go:234-236 | over every run and whichever VM restarts: every reconciliation after the mark resumes the delete exactly once |
| DeleteProtocol.CloudAfterEvolves | internal/gce/disk.go:216-249 | the fingerprint check: under any interleaving a label update loses no label and takes away no mark |
| DeleteProtocol.KnowsStays | internal/gce/disk.go:108-153 | what a delete in flight has read stays valid, in the sense its next request needs, whatever the others do |
| DeleteProtocol.StepKeepsProtocolled | internal/gce/disk.go:108-153 | every step keeps the knowledge of all deletes in flight and the uniqueness of users, ids and fingerprints |
| Filesystem.FilesystemNeverOverwritten | internal/mount/mount.go:138-150 | over any stretch of a run, on all VMs: a file system once present is unchanged until the disk is deleted |
| Filesystem.FormattedAtMostOnce | internal/mount/mount.go:138-150 | mkfs succeeds at most once in the life of a disk |
| Filesystem.StepKeepsFormatting | internal/driver/driver.go:299-318 | every step of every VM keeps: a VM about to format has the disk attached and blank, or not attached |
| Attachment.AttachmentEndsByOwnerOrFailover | internal/gce/attach.go:82-181 | whatever the scopes, any interleaving: an attachment ends only in the DetachDisk of its own VM, or in a detach from that holder in the failover of a VM in global scope |
| Attachment.AttachmentEndsOnlyByOwner | internal/gce/attach.go:82-100 | all VMs in local scope, any interleaving: an attachment ends only in the DetachDisk of its own VM |
| Attachment.MountedIsAttached | internal/driver/driver.go:289-361 | in every state of every run, whatever the scopes and whatever failed: a mounted disk is attached to its VM if and only if neither an own detach under the mount nor another VM's failover has taken it away since the last attach |
| Attachment.LocalTakesNothing | internal/gce/attach.go:33-40 | with all VMs in local scope no disk is ever taken away |
| Attachment.LocalRefusesForeignHolder | internal/gce/attach.go:33-40 | a VM in local scope refuses a disk that another VM holds and changes nothing |
| Attachment.ViewShowsOwner | internal/gce/attach.go:32-36 | a reference recognised as this VM is this VM's, and a foreign one yields the holder's name |
| MountSafety.StatusFollowsCount | internal/state/state.go:191-244 | in memory and in the file, persists failing or not: status mounted iff count positive iff mountpoint is the target |
| MountSafety.CountedIsMounted | internal/driver/driver.go:289-361 | in every serving state, in any scope and whatever failed, persists included: a volume with a positive count is mounted if and only if no unwinding has unmounted it since it was counted |
| MountSafety.MountedIsCounted | internal/driver/driver.go:333-361 | between operations, in any scope and whatever failed: a mounted volume is counted if and only if it is not stray; a tracked one is counted exactly if it is mounted and not stray, or lost |
| MountSafety.StepKeepsAgreement | internal/driver/driver.go:277-361 | every step of every VM, failed persists included, keeps counts, mount table and what is lost and stray in agreement |
| MountSafety.MountOutcome | internal/mount/mount.go:154-205 | the calls on the mount table end well only with the table as their name says |
| HeldDisks.CountedIsAttached | internal/driver/driver.go:289-361 | in every run, whatever the scopes, whatever failed and whatever restarts lie behind: a positive count means mounted and attached to this VM if and only if the volume is neither lost nor adrift nor taken by a failover |
| HeldDisks.FaultlessStaysInStep | internal/driver/driver.go:289-361 | all VMs local, no failed persist, unmount or scan since the VM was last booted: nothing is lost or adrift, and a stray volume is one that is being deleted |
| HeldDisks.IdleCountsAreExact | internal/driver/reconcile.go:71-88 | so under these conditions, between operations: count positive iff mounted; a mounted volume that is not tracked is being deleted (MountSafety.MountedIsCounted has the exact form without conditions) |
| HeldDisks.AttachLearns | internal/gce/attach.go:26-77 | AttachDisk succeeds only with the disk attached to this VM |
| HeldDisks.ListingCoversMounts | internal/driver/reconcile.go:34-55 | every mounted disk is listed as available or is marked |
| Conservation.CountsAreConserved | internal/driver/driver.go:277-361 | over every failure-free walk, between operations: count is initial plus mounts minus effective unmounts, and attaches minus detaches is the change of being in use |
| Conservation.MoveKeeps | internal/driver/driver.go:277-361 | every single failure-free move keeps these books, whichever volume it is about |
| Refusals.RefusedLeavesTraceIffPersistFailed | internal/driver/driver.go:111-329 | over every walk that is one Create, Mount or Remove past its look at the records: a success has changed and persisted them; a refusal has changed them if and only if a persist failed, and then by the refused change |
| Refusals.StaysOnCourse | internal/driver/driver.go:111-329 | every state of such a walk is before the change, or after it, or undoing an unpersisted one |
| Refusals.RefusedMountGivesBack | internal/driver/driver.go:302-328 | over every walk of a Mount past a successful AttachDisk: a refusal has called DetachDisk before the reply, whichever step failed |
| Refusals.StartupNeedsItsRecords | internal/driver/reconcile.go:57-74 | over every walk that comes to serve: neither the reconciled records nor the reset counts failed to be written |
| Counterexamples.SnapshotCanBeLost | internal/driver/reconcile.go:38-41 | a run in which a disk is deleted without the snapshot that was asked for |
| Counterexamples.NewDiskIsDeleted | internal/gce/disk.go:139-145 | a run in which a delete removes a re-created, recorded, unmarked disk |
| Counterexamples.LabelledDiskIsDeleted | internal/gce/options.go:180-182 | a run in which a disk is deleted that nobody removed |
| Counterexamples.RolledBackStaysTracked | internal/driver/driver.go:162-168 | a run in which a refused Create leaves a record without a disk |
| Counterexamples.UnwoundStaysCounted | internal/driver/driver.go:320-326 | a run in which a refused Mount leaves a count of 1 on an unmounted volume, which is lost |
| Counterexamples.CountedDiskIsGivenBack | internal/driver/driver.go:320-326 | a run in which a refused Mount leaves a count of 1 on a volume that is mounted while its disk is detached |
| Counterexamples.StrayDiskIsGivenBack | internal/driver/driver.go:302-307 | a run in which a failed umount leaves a volume mounted and uncounted, and the next Mount detaches its disk |
| Counterexamples.RefusedDeleteLeavesUnmarked | internal/gce/disk.go:116-118 | a run in which a background delete fails and the disk is there, unmarked, with no record and no delete in flight |
| Counterexamples.TraceIsRun | cmd/docker-volume-gcepd/main.go:92-103 | what these step by step constructions reach is the last state of a run from an empty zone |
| Driver.Driver.Create | internal/driver/driver.go:111-171 | refuses bad options and names without a trace; otherwise follows the protocol to its reply; a known volume is only compared; for a new one the first answer and the requests sent decide the reply, field by field as for CreateOrAdopt, and the record is the one asked for, count 0; the options are what their text says |
| Driver.Driver.CreateVolume | internal/driver/driver.go:122-155 | a known volume is accepted exactly if its options match; for a new one the answer to the look at GCE decides, and a success records exactly the options and stamp given |
| Driver.Driver.CreateOrAdopt | internal/driver/driver.go:137-155 | the first request is the look at GCE; a disk it finds is accepted if and only if it carries managed-by=docker-gcepd and not gcepd-deleting=true, has the size and the type asked for, and the persist succeeds, and is refused without a trace if it does not fit; a missing one is accepted if and only if it was inserted, read back and persisted; an error is refused |
| Driver.Driver.AdoptExistingDisk | internal/driver/driver.go:178-203 | a disk with another managed-by label, size or type is refused without a trace; any other one is recorded, and accepted exactly if the persist succeeds |
| Driver.Driver.RecordNew | internal/driver/driver.go:156-170 | accepted exactly if the record is persisted; otherwise the very next step is the rollback delete |
| Driver.Driver.Remove | internal/driver/driver.go:212-245 | refuses a volume in use; drops exactly that record, refused exactly if that was not persisted; starts the delete only once the record is gone for good and the policy is not retain |
| Driver.Driver.RunBackground | internal/driver/driver.go:253-268 | a background delete is a run of DeleteDisk on a thread of its own |
| Driver.Driver.Mount | internal/driver/driver.go:277-329 | follows the protocol to its reply; counts exactly one more on success, and on a refusal exactly if a persist failed; a volume in use is only counted; a first use succeeds if and only if the attach, the device, the formatting, the mount and the persist did, each tried only after the one before |
| Driver.Driver.MountFirst | internal/driver/driver.go:298-328 | every refusal past a successful AttachDisk ends with the requests of a DetachDisk; every refusal before that sends none |
| Driver.Driver.FormatAndMount | internal/driver/driver.go:308-328 | from the device to the reply along the protocol; mounts only after a successful formatting step, counts only after a successful mount, and gives the disk back on every refusal |
| Driver.Driver.Unwind | internal/driver/driver.go:320-326 | an uncounted mount is unmounted, then detached, then refused |
| Driver.Driver.Unmount | internal/driver/driver.go:333-361 | follows the protocol to its reply; counts exactly one less; idempotent at zero; with the last reference, and only if that was persisted, the volume is taken down and the reply is a success if and only if umount and detach were |
| Driver.Driver.TakeDown | internal/driver/driver.go:356-360 | umount runs exactly if the target is mounted; the disk is detached exactly if it is unmounted by then; a success only if all of it was |
| Driver.Driver.SortListing | internal/driver/reconcile.go:34-56 | the loop splits the listing into names, import options and resumed deletes |
| Driver.Driver.RestoreCounts | internal/driver/reconcile.go:75-88 | sends one scan per tracked volume in ascending order, and gives count 1 to exactly those whose scan answered mounted |
| Driver.Driver.Reconcile | internal/driver/reconcile.go:22-91 | sends one listing and one scan per volume then tracked; on success the records are what AfterReconcile makes of the listing and the scans answered mounted, and the resumed deletes are started; otherwise the plugin does not serve |
| Reconciling.ReconcilePartitions | internal/driver/reconcile.go:34-60 | each listed disk is tracked or resumed, as it is unmarked or marked |
| Reconciling.ReconciledRecord | internal/driver/reconcile.go:43-88 | nothing else is tracked; survivors keep options and creation time; imports get size, type and labels of the disk, ext4, and are retained; counts are 1 or 0 as mounted or not |
| Reconciling.SizeIsCurrentIff | internal/state/state.go:276-290 | the size of a record is the one GCE reports if and only if the record is new or had that size before |
| Reconciling.ReconcileTwice | internal/driver/reconcile.go:58-88 | a second reconciliation on the same listing changes nothing |
| Store.Store.Persist | internal/state/state.go:106-126 | at every crash point, torn temporary file included, a restart finds the old or the new records; the file depends on the records alone |
| Store.Store.Load | internal/state/state.go:76-102 | a missing or empty file is an empty store, a corrupt one an error, any other loads every record |
| Store.LoadDocument | internal/state/state.go:94-113 | loading the persisted document gives the records back, up to nil against empty labels |
| Store.Store.SortedNames | internal/state/state.go:107-111 | the listing does not depend on the map iteration |
| Sorting.AscendingUnique | internal/state/state.go:107-113 | an ascending listing is determined by the names in it |
| Sorting.LessByFirstDifference | internal/state/state.go:111-111 | a name comes first if it is a proper prefix, or has the smaller character where they first differ |
| Store.Store.List | internal/state/state.go:140-149 | one copy of each record, ascending by name |
| Store.Store.Add | internal/state/state.go:153-162 | adds a new record only, and is crash-atomic |
| Store.Store.Remove | internal/state/state.go:166-174 | removes exactly that record, idempotently, and is crash-atomic |
| Store.Store.Update | internal/state/state.go:178-187 | changes exactly that record, and is crash-atomic |
| Store.Store.IncRef | internal/state/state.go:191-200 | refines its pure effect, returns the new count, and is crash-atomic |
| Store.Store.DecRef | internal/state/state.go:205-218 | refines its pure effect with the clamp at zero, returns the new count, and is crash-atomic |
| Store.Store.SetMounted | internal/state/state.go:238-244 | refines its pure effect, and is crash-atomic |
| Store.Store.ResetRefCounts | internal/state/state.go:224-233 | the loop resets every record and persists once, crash-atomically |
| Store.Store.DropMissing | internal/state/state.go:268-273 | keeps exactly the records with a disk and reports the others once each |
| Store.Store.ImportMissing | internal/state/state.go:276-290 | adds exactly the missing disks and reports them once each |
| Store.Store.Reconcile | internal/state/state.go:257-296 | the result is the pure reconciliation, both reports are the sorted exact differences, and it is crash-atomic |
| Store.ReconcileIdempotent | internal/state/state.go:257-296 | a second call with the same names imports and removes nothing |
| Records.ApplyKeepsCoherent | internal/state/state.go:153-296 | every operation keeps status, count and mountpoint in agreement |
| Records.ApplyKeepsTheRest | internal/state/state.go:191-296 | no operation changes the options or creation time of a record; counts move by one up, one down but not below zero, to zero or to one, of the volume named |
| Records.NormalKeepsMatches | internal/state/state.go:42-46 | nil against empty labels is invisible to matching, on either side |
| Client.Client.Retry | internal/gce/retry.go:40-71 | repeated only after retryable errors; returns the answer or the first definite error of its last attempt unchanged, or, after MaxElapsed, that attempt's error with the exact attempt count, or the cancellation; sleeps within the interval in force; the last attempt starts before MaxElapsed plus MaxInterval |
| Client.Client.Attempt | internal/gce/retry.go:45-56 | an attempt ends the loop with its own answer, with its own error if that is definite, or exhausted with its own error and the attempt count; otherwise its error was retryable |
| Client.RetriedByCode | internal/gce/retry.go:86-116 | an attempt is repeated only after HTTP 429, 500, 502, 503, 504 or gRPC Unavailable, ResourceExhausted, Aborted, Internal; the definite error that ends a loop is none of these |
| Client.IntervalClosed | internal/gce/retry.go:65-68 | with multiplier 2, the k-th interval is the first one doubled k times, capped |
| Client.DefaultIntervals | internal/gce/retry.go:28-35 | by default half a second, doubled each time, up to half a minute |
| Client.GrownIsProper | internal/gce/retry.go:65-68 | for every non-negative multiplier the next interval is within the cap and not negative |
| Client.Client.Send | internal/gce/retry.go:40-71 | a request ends with the answer, with the first definite error, or, exhausted or cancelled, with an error, each that of the last attempt; it counts as missing if and only if that error is HTTP 404 |
| Client.Client.CreateDisk | internal/gce/disk.go:40-77 | an invalid name sends no request; it succeeds if and only if an insertion with the effective labels and then a reading were both sent and answered well |
| Client.Client.MarkDeleting | internal/gce/disk.go:212-250 | writes the labels just read plus gcepd-deleting=true, under the fingerprint just read, and nothing if the reading failed |
| Client.Client.DeleteDisk | internal/gce/disk.go:108-153 | told by its requests: marks exactly a disk found unattached and unmarked, takes a snapshot exactly if asked to, sends the deletion exactly if all of that was done; succeeds if and only if the disk was missing at the look or the deletion was done or found it missing |
| Client.Client.AttachDisk | internal/gce/attach.go:26-77 | told by its requests: a failover exactly if the first user found is another VM and the scope is global, another look exactly if that freed the disk, the attach exactly if the disk is free by then; succeeds if and only if the first user was this VM or the attach was done |
| Client.Client.DetachDisk | internal/gce/attach.go:82-100 | told by its requests: detaches this VM exactly if the look shows it as a user; fails exactly if the look or that detach did |
| Client.Client.EnsureDetachedFromHolder | internal/gce/attach.go:138-233 | its requests are those of a failover; the holder counts as down if and only if its status was answered by a 404, empty, TERMINATED, STOPPED, STOPPING, SUSPENDED or SUSPENDING; it succeeds if and only if the disk was released or the last detach was done |
| Client.Client.FreeFrom | internal/gce/attach.go:146-181 | what follows the reading of the holder's state: one detach of a down holder, or a clean one and the grace loop |
| Failovers.FailoverFenced | internal/gce/attach.go:138-233 | a holder that is gone or whose status is empty, TERMINATED, STOPPED, STOPPING, SUSPENDED or SUSPENDING, and no other, gets exactly one detach at once; any other one at most two, the second only after a poll saw the disk held and the clock past the grace period; polls are bounded by it |
| Failovers.DownByStatus | internal/gce/attach.go:223-235 | so RUNNING, PROVISIONING, STAGING and REPAIRING are up, and a status that cannot be read is neither |
| Client.Client.AwaitRelease | internal/gce/attach.go:159-180 | at most one forced detach, late, and at most grace in seconds plus two polls |
| Client.Client.DiskReleasedBy | internal/gce/attach.go:210-221 | released iff no user is the holder |
| Mounter.Mounter.WaitForDevice | internal/mount/mount.go:70-88 | at most timeout by poll interval plus two probes; succeeds at the first probe that finds the device; gives up only past the deadline |
| Mounter.StayingDeviceIsFound | internal/mount/mount.go:70-88 | a device that appears by the deadline and stays is found, cancellation aside |
| Mounter.Mounter.ProbeFSType | internal/mount/mount.go:95-105 | by the exit code of the blkid that was run: 0 gives its output, trimmed, 2 gives blank, anything else an error |
| Mounter.Mounter.EnsureFormatted | internal/mount/mount.go:138-150 | by the commands that were run: mkfs only after blkid exited with 2, or with 0 and blank output, and then the mkfs of the file system asked for; succeeds if and only if that mkfs did or a file system was found |
| Mounter.Mounter.Mount | internal/mount/mount.go:154-169 | mounts the device at the target, made first, only if it is not mounted there; succeeds if and only if it was or that mount exited with 0 |
| Mounter.Mounter.Unmount | internal/mount/mount.go:173-185 | runs umount exactly if the target is mounted; succeeds if and only if it was not or that umount exited with 0 |
| Mounter.ScanMounts | internal/mount/mount.go:189-204 | of a table of lines device, target, rest: true if and only if some line's target, cleaned, is the target wanted, cleaned |
| MountTable.TableDecides | internal/mount/mount.go:195-202 | the same of the text as such, for any number of lines |
| MountTable.OneLineDecides | internal/mount/mount.go:196-202 | a single line shows the wanted target if and only if the second of its three parts is that target, cleaned |
| MountTable.FieldsConcat | internal/mount/mount.go:196-196 | white space separates fields: those of a joined text are those of its parts |
| MountTable.ShortLineShowsNothing | internal/mount/mount.go:197-199 | a line of less than two fields shows nothing |
| Host.MkfsKnowsFsTypes | internal/mount/mount.go:122-133 | exactly the file systems that option parsing accepts can be made |
| Host.TargetIsClean | internal/mount/mount.go:189-201 | the mount target of every valid name is a clean path already, so cleaning makes no two volumes share one |
| Host.PathIsClean | internal/mount/mount.go:189-201 | an absolute path of ordinary parts is cleaned to itself |
| Host.CleanDropsDots | internal/mount/mount.go:190-200 | empty parts and dots of an absolute path make no difference |
| Host.CleanTakesBack | internal/mount/mount.go:190-200 | nor does an ordinary part with a double dot after it |
| Host.CleanStopsAtRoot | internal/mount/mount.go:190-200 | nor a double dot at the root; with PathIsClean this says what any absolute path is cleaned to |
| Texts.TrimIsUnique | internal/mount/mount.go:104-104 | trimming takes the white space off both ends and nothing else |
| Texts.SplitJoined | internal/mount/mount.go:195-195 | splitting at a character gives back what was joined with it |
| Protocol.MovedWellFormed | internal/driver/driver.go:104-361 | every move leads to a state whose call or store operation belongs to its continuation |
| Protocol.Available | internal/driver/reconcile.go:38-43 | the names of exactly the unmarked disks |
| Protocol.Resumable | internal/driver/reconcile.go:38-42 | deletes of exactly the marked disks, none with a snapshot |
| Protocol.ImportTable | internal/driver/reconcile.go:44-55 | options for exactly the unmarked disks, with their size, type and labels |
| Options.ParseDiskOptions | internal/gce/options.go:103-165 | the loop is ParseInOrder for whatever order the map is visited in, which OptionTexts.ParseTells says by the text of keys and values; success satisfies every range constraint; no options at all give 10 GiB pd-balanced ext4, retained |
| OptionTexts.ParseTells | internal/gce/options.go:103-165 | for every map and visiting order: it succeeds if and only if every key spells an option name and every value is one that option takes, with at most one source; then the record says what was given last of each option and the default of every other |
| OptionTexts.DefaultsWhenNotGiven | internal/gce/options.go:63-69 | an option that no key gives is 10, pd-balanced, ext4, no labels, no sources, no snapshot, retain |
| OptionTexts.ValueOfItsKey | internal/gce/options.go:112-159 | an option given once is what its own key says, by the text of the key |
| OptionTexts.LabelListRead | internal/gce/options.go:169-186 | a list k=v,k=v is read as its pairs, trimmed, a later one overriding; an empty key or managed-by spoils it |
| Retention.DefaultNeverDeletes | internal/gce/options.go:60-69 | over every run: if no Create of a name named a reclaim policy, no removal of it deletes, on any VM |
| Retention.RemoveKeepsTheDisk | internal/driver/driver.go:224-243 | the Remove of such a volume starts no delete |
| Options.ParseIsDeterministic | internal/gce/options.go:112-165 | with one key per option the result is one meaning of the map, success and failure alike, in every visiting order |
| Orders.OrderShowsIffAmbiguous | internal/gce/options.go:112-165 | for every option map: two visiting orders differ if and only if every option is acceptable alone, some option is given twice to different effect, and the two sources do not make every order fail |
| Orders.SameKeysSameFold | internal/gce/options.go:112-159 | without options that clash the loop comes to the same in every visiting order |
| Options.ParsedIsValid | internal/gce/options.go:103-165 | positive size within 64 bits, known type and file system, one source at most, no managed-by label |
| Options.ParseLabels | internal/gce/options.go:169-186 | pairs from left to right; one bad pair fails the whole list |
| Options.EffectiveLabelsAddOne | internal/gce/options.go:190-197 | for parsed options exactly one label is added and none hidden |
| Options.CheckMatches | internal/gce/options.go:202-221 | the loop decides exactly Matches |
| Options.MatchesUpToEmptyLabels | internal/gce/options.go:202-221 | options that match carry the same labels iff every empty-valued left label is present on the right |
| Options.MatchesIsEquality | internal/gce/options.go:202-221 | without empty-valued labels matching is equality of all fields but SnapshotOnRemove, and symmetric |
| Options.SymmetricIff | internal/gce/options.go:214-219 | of options that match, the second matches the first if and only if every label that only the second has is empty |
| Refs.LastIndex | internal/gce/attach.go:283-290 | the greatest occurrence, or -1 iff there is none |
| Refs.TrailingIdempotent | internal/gce/attach.go:264-273 | reducing a reference twice is reducing it once, for all strings |
| Refs.PrefixIgnored | internal/gce/attach.go:264-273 | what stands before a projects segment makes no difference |
| Refs.SameInstanceIffSameName | internal/gce/attach.go:257-259 | in one project and zone, URL or path, two references are the same VM iff the names are equal |
| Refs.InstanceNameRoundTrip | internal/gce/attach.go:244-253 | the name in a reference is recovered whole |
| Refs.ReleasedIffGone | internal/gce/attach.go:210-221 | released by the holder's short name iff the holder is no longer a user |
| Refs.DiskTypeRoundTrip | internal/gce/disk.go:255-288 | a disk type sent as a URL is read back as the short type |
| Names.SnapshotNameIsValid | internal/gce/disk.go:187-196 | every valid disk name gives a valid snapshot name of at most 61 characters |
| Names.SnapshotNamesCollide | internal/gce/disk.go:187-196 | two snapshot names are equal iff the first 40 characters and the stamps are |
| Names.MountpointInjective | internal/driver/driver.go:100-102 | two volumes never share a target |
| Names.NameByPattern | internal/gce/options.go:30-53 | a valid name is what the pattern matches from left to right, up to 63 characters |
| Names.Itoa | internal/gce/retry.go:118-130 | the buffer loop writes the decimal form and never underruns, for every non-negative 64-bit number |
| Names.DecimalEvaluates | internal/gce/retry.go:118-130 | the decimal form evaluates back and has no leading zero |
| Names.DecimalUnique | internal/gce/retry.go:118-130 | it is the only such form |

## Left out

- Counterexamples.TraceIsRun: only runs with one VM, which is all the counterexamples need.
- Attachment.SingleWriter: rests on GCE refusing a second attach, which the model assumes.
- Conservation.CountsAreConserved: only failure-free walks that do not create or remove the volume itself.
- Client.Client.Retry: the multiplier is a real number, its product with the interval rounded down; rounding of floating point products is not modelled. Every attempt takes at least one nanosecond.
- Client.Client.EnsureDetachedFromHolder: how the clock moves between the steps is arbitrary but monotone.
- Names.SnapshotNameIsValid: the name is not part of the snapshot request, whose only effect in the model is to be logged.
- Mounter.ScanMounts: the octal escapes of /proc/mounts are not decoded, as in the code.
- Store.LoadDocument: JSON syntax is left out; the file holds a sequence of documents with their omitted fields, or is empty or torn.
- World.World.Ask: answers, errors and times are arbitrary within the shape of the request.
- World.World.Run: the exit code and output of a command are arbitrary; only which command may run is fixed.
- Cluster.View: GCE reports users by full URL in the client's project and zone; disk sizes and types do not change.
- Requests that take effect after the client has given up on them; GCE effects happen within the step of their request.
- blkid reporting blank for a disk with a file system, and mount or umount failing with an effect; both are assumed not to happen. A rename that fails leaves the file as it was.
- Concurrent requests within one plugin: the driver's mutex is modelled by serving one operation at a time; background deletes do run concurrently.
- The references in the map of records: records are values, replaced in place; aliasing and copying are not captured.
- Get, List, Path and Capabilities of the driver, and convert.go: field copies.
- internal/metadata and main: configuration and wiring, except that a reconciliation precedes serving.
- SDK adapters in internal/gce/gce.go, error texts, logging, and the quality of the jitter.
- 64-bit overflow of counts and durations; time stamps beyond their shape.
- Label and disk changes by operators, instances being deleted, and liveness of GCE.
