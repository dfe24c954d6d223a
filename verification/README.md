# Verified model of the VM file restore operator

This project models the three protocols that make the operator hard to get right, and proves
what they keep over every run:

1. **The restore state machine.** `Reconcile` re-reads a VirtualMachineFileRestore, dispatches on
   its persisted phase and makes API and SSH calls, each of which may succeed, fail, or be carried
   out with the answer lost; the operator may crash between any two calls, and any number of
   restores share a VM. `RestoreModel` is the machine whose steps are single calls.
   `RestoreStatus`, `RestoreProgress`, `RestoreRuns`, `RestoreVms`, `RestoreCleanup` and
   `RestoreHolding` prove invariants of all its runs; `RestoreDecisions` proves that every persisted
   status follows from what the restore's own calls were told, `RestoreClaims` what a hotplugged volume
   points at, `RestoreCommand` what the helper is asked for. `RestoreRaces` and `RestoreOutcomes` have
   exact conditions, `RestoreSuccess` the undisturbed run, and `RestoreWitnesses` the runs in which
   damage is done. `RestoreRequests` says what each call asks for.
   `Reconciler` holds the handlers in their own imperative form and proves that whatever they do,
   interleaved with everybody else, is such a run, request by request.
2. **The keypair bootstrap.** Every replica runs `EnsureOperatorResources` before leader election,
   so their Get/Create/Delete/Update calls interleave. `Keypair` is the machine with its safety and
   convergence theorems; `Bootstrap` is the code as methods over it, with the start-up loop.
3. **The guest helper.** `GuestScript` is `filerestore.sh` as a function of what each of its
   commands reports; `GuestHelper` is the script with its loops and early exits, proved equal to it.
   `GuestMounts` and `GuestDetach` treat the choice and order of unmounts, `GuestLvm` and
   `GuestRestore` what every run keeps, `GuestCopy` when a restore succeeds and what it then has mounted
   and copied, `GuestCleanup` what a cleanup reports and achieves, `GuestRecords` when cloned volume groups stay on record,
   `GuestSessions` many runs on one guest.

Around them: `VmSpec` (hotplug and unplug as list edits sent by JSON merge patch, section 2 of
RFC 7396), `Commands` (the command line printed by the operator and parsed by the helper),
`FileCount` (the count printed by the helper and parsed by the operator), `SlashPath` (what the two
together make of a source path of slashes), `Backoff`, `GuestOs`, `Text`.

Check everything with `dafny verify dfyconfig.toml`.

## How the restore machine is built

A world holds restore objects, VMs with their volume and disk lists, VMIs, DataVolumes and a clock,
plus one thread per reconcile in flight: its next call and the locals that call needs. A step is one
call of one thread with an outcome, or something the environment does: create or delete an object,
edit a VM without touching names that end in `-restore`, update or delete a VMI, provision a
DataVolume, let time pass. Times are nanoseconds; persisted times are truncated to seconds. A VM
read may return any version the VM ever had. A result that needs more asks for it with a rule on
the run, as narrow as it can be: `Honest` with a `Trust` (certain reads of one restore neither hide
nor conjure up that restore's own entries), `NoEditBetween` (the VM's owner does not edit its
ordinary entries between a read and the patch computed from it), `Uncontested` (while one restore
holds its VM, nobody else's patch replaces the lists). Runs with current reads, atomic patches and no
VM deleted satisfy them all.

## Findings

These are properties one would expect and that do not hold of the code. Each has a lemma with a
failing input and, where the code meets the property sometimes, the exact condition.

- **A racing hotplug drops another restore's volume.** Two restores scan one version of a VM and both
  patch: both are answered, and only the second one's volume is in the spec.
  `RestoreWitnesses.RacingHotplugsLoseOne` is the run, for any two restores and any VM. Exactly when
  another restore holds the current spec: `VmSpec.HotplugPatchPreservesOthers`.
- **A deletion can leak its volume and count as clean.** If its VM read returns a version from before
  the hotplug, the unplug changes nothing, the finalizer goes, and the volume stays:
  `RestoreWitnesses.StaleDeletionLeaks` is a run. Exactly when the version read hides the volume:
  `RestoreRaces.DeletionCovers` (and `VmSpec.UnplugEffective` for the patch alone). The same read in
  phase Cleanup yields Succeeded with the volume still plugged:
  `RestoreWitnesses.StaleSuccessKeepsVolume` is a run, `RestoreRaces.SuccessUnplugs` the exact
  condition.
- **A restore created again under its name can be given the old source.** It takes over a volume that
  its predecessor leaked and goes on with it: `RestoreWitnesses.LeakedVolumeIsAdopted` is a run. Exactly
  when the VM it reads has a volume of its name that points elsewhere: `RestoreOutcomes.HotplugExactly`;
  over all runs, a restore that has hotplugged itself is safe: `RestoreClaims.OwnVolumePointsAtOwnSource`.
- **A loser can take the holder's volume away.** The cleanup behind a lost contest patches the VM spec
  with an old list if the version it reads still shows the loser's own name:
  `RestoreWitnesses.LoserTakesVolumeAway` is a run. Exactly then:
  `RestoreHolding.CleanupSparesHolder`.
- **A failure whose status patch is lost is never cleaned up.** The same holds for a crash right behind
  that patch. `RestoreWitnesses.LostFailureLeavesVolume` is the run;
  `RestoreRaces.FailedStaysAbandoned` proves that nothing is cleaned up in any continuation without a
  deletion; `RestoreRaces.FailureCleansUp` is the exact condition on the failing reconcile's calls.
- **A source path of slashes is restored by nobody.** It is trimmed to nothing: the helper mounts for
  manual use, copies nothing and leaves the mount behind, while the operator records 0 restored files
  and goes on to Cleanup: `SlashPath.SlashPathRestoresNothing`. Exact condition for the two to agree
  on the mode: `Commands.ModeAgreement`.
- **A second restore of one source can orphan the first one's clone.** The helper overwrites the state
  file of its mount path blindly, and mount paths come from source names:
  `GuestRecords.SecondRestoreOrphansFirst`; exact condition in `GuestRecords.RestoreRecordsAll`.
- **Different source names do not protect a holder.** If a restore is created again under its old name
  with another source, a cleanup for the old source removes the clone it now holds:
  `GuestSessions.RecreatedRestoreInterferes`. Exactly when the cleaning restore's state file names
  the holder's clone: `GuestSessions.LoserSparesHolder`.
- **An unreadable state file is forgotten.** In cleanup mode and behind a successful copy the shell
  ignores errors; a state file that cannot be read is taken for empty and deleted although its group
  exists: `GuestRecords.UnreadableStateIsForgotten`. Exactly when errexit is off:
  `GuestRecords.TracksExactlyUnderErrexit`.
- **A Secret without a usable key and no ConfigMap stops every start-up.** `Keypair.Stuck`;
  `Keypair.StartupConverges` proves that it is the only such state.
- **The timeouts are not 5 and 2 minutes.** The scheduled delays add up to 1090 s and 370 s
  (`Backoff.TimeoutTotals`, and over runs `RestoreDecisions.RetriesWaitTheSchedule`); 295 s and 115 s are the least possible between the first and the last
  check (`RestoreRuns.RetryTiming`). The model follows the code, not the documentation.

## Model

| member | source | states |
|---|---|---|
| RestoreStatus.MoveKeeps | internal/controller/phases.go:78-209 | every call of a reconcile, with every outcome, keeps the status record well-formed and its own program point consistent with it |
| RestoreStatus.DispatchKeeps | internal/controller/virtualmachinefilerestore_controller.go:136-152 | the dispatch on the persisted phase enters a handler in a consistent state |
| RestoreRuns.StepKeeps | internal/controller/virtualmachinefilerestore_controller.go:69-153 | every step of anybody keeps the invariants of every restore |
| RestoreRuns.Reachable | internal/controller/virtualmachinefilerestore_controller.go:69-153 | the invariants hold in every reachable state |
| RestoreProgress.MoveEvolves | internal/controller/phases.go:78-122 | a single call changes the persisted phase only along an arrow of the phase diagram and rewrites no start time, count, mount path or terminal status |
| RestoreRuns.OnlyOwnCallsWrite | internal/controller/phases.go:78-122 | a restore's status is written by its own calls only |
| RestoreRuns.StepEvolves | internal/controller/phases.go:54-122 | every step of a run moves each persisted status along the phase diagram or not at all |
| RestoreRuns.PhaseChain | internal/controller/phases.go:54-122 | between any two moments of any run the persisted phase stays or strictly rises; terminal status is final; start time, mount path and count are never rewritten |
| RestoreRuns.PersistedStatus | internal/controller/phases.go:165-196 | in every reachable state Init, New and unknown phases are not persisted, completion time is set exactly in terminal phases, and start time and a non-empty mount path are there from Hotplugging on, so the command builder's panic is unreachable |
| RestoreRuns.CleanupHasCount | internal/controller/phases.go:597-623 | over all runs, with stale reads too: Cleanup and Succeeded are reached only by automatic runs whose guest command succeeded and have a non-negative count, so the "deleted before restore could complete" failure is unreachable; VolumeReady only by manual runs |
| RestoreProgress.WaitsAreBlocked | internal/controller/phases.go:689-695 | a call makes a reconcile wait only when it saw an unprovisioned DataVolume or a listed volume, and then for five seconds |
| RestoreProgress.MoveProgress | internal/controller/phases.go:335-533 | the call that ends a live reconcile has lowered the measure, or it was a failed write of the restore object, or it is one of the legitimate waits |
| RestoreProgress.DispatchProgress | internal/controller/phases.go:634-642 | the same for reconciles that end in the dispatch |
| RestoreRuns.EveryReconcileProgresses | internal/controller/phases.go:335-533 | over all runs: a reconcile of a live restore has lowered the lexicographic measure (finalizer, phase rank, attachment and SSH retries left) when it ends, except if a write of its object failed (the only way to end with an error), and except for two waits that leave the status alone: the DataVolume just read is not provisioned, or the VMI just read lists the volume |
| RestoreRuns.EveryDispatchProgresses | internal/controller/phases.go:634-642 | the same for a reconcile that returns from the dispatch (VolumeReady, rate limiting); the measure is well-founded in every reachable state |
| RestoreRuns.RetryTiming | internal/controller/phases.go:356-372 | retry counters never exceed 60 and 24; reaching them takes at least 295 s and 115 s between first and last check; a self-scheduled requeue is never rate-limited |
| RestoreRuns.ChecksAreSpaced | internal/controller/phases.go:397-403 | successive recorded check times are at least 5 s apart, despite truncation to seconds |
| RestoreDecisions.MoveDecides | internal/controller/phases.go:213-709 | every call of every reconcile, with every outcome, keeps status and next call in line with what the restore's own calls were told since it was created |
| RestoreDecisions.ReachableDecided | internal/controller/phases.go:213-709 | so they are in every reachable state, for any number of restores and any interleaving |
| RestoreDecisions.MountPathIsRight | internal/controller/phases.go:217-313 | over all runs: a restore that has left New has exactly one source, a PVC or a snapshot, and its mount path is the base path of the guest system described by the VMI it read, and the name of that source |
| RestoreDecisions.AttachedBeforeSsh | internal/controller/phases.go:383-442 | over all runs: SSHConnecting and later phases are reached only behind an attachment check whose VMI has a first status of the volume's name that is ready, has a target and is hotplugged; Restoring and later ones only behind a dial that succeeded; in both cases the last one made |
| RestoreDecisions.CountIsPrinted | internal/controller/phases.go:605-623 | over all runs: in Cleanup and Succeeded the persisted count is that of the first counting line in the output of the last guest command, 0 without one |
| RestoreDecisions.PrintedCountIsPersisted | guest-helpers/linux/filerestore.sh:391-394 | so if the helper prints n, that fits 32 bits, among lines without a count before and any lines after, n is persisted |
| RestoreDecisions.FailuresHaveReasons | internal/controller/phases.go:165-196 | over all runs: a restore is Failed only if one of the listed reasons has occurred: a wrong number of sources, 60 attachment or 24 SSH retries, an unanswered read, another restore's volume on the VM, a PVC of another namespace, a failed VM or DataVolume write, a volume attached but not hotplugged, an SSH error other than a refused connection, a failed guest command; a VM missing in Cleanup is none |
| RestoreDecisions.RetriesWaitTheSchedule | internal/controller/phases.go:142-161 | over all runs: the delays asked for by the retries on record add up to the closed-form schedule, unless the answer to one was lost, and never exceed it; 1090 s at 60 attachment retries, 370 s at 24 SSH retries |
| RestoreDecisions.RetriesAreEarned | internal/controller/phases.go:406-423 | over all runs: a counter rises only by one, only behind a check that found the volume not attached yet or a dial that was refused, and falls to 0 only behind one that succeeded; the requeue of an answered retry is exactly the next share of the schedule |
| RestoreDecisions.HeldUpExactly | internal/controller/phases.go:363-372 | exact: a check is held up if and only if fewer than five seconds have passed since the last one on record, and then the requeue comes when they have, to the nanosecond |
| RestoreDecisions.CheckMeans | internal/controller/phases.go:383-431 | the attachment verdict in terms of the list read: attached, or not hotplugged, exactly by the first status of that name |
| RestoreOutcomes.HotplugExactly | internal/controller/hotplug.go:69-240 | exact: a reconcile in Hotplugging for a PVC that reads the VM as it is, its calls answered, fails if and only if another restore's volume is there, or the PVC is of another namespace and the own pair is not there; otherwise the volume of its name points at its PVC if and only if the version read had none of that name that points elsewhere |
| RestoreOutcomes.AttachmentCheckExactly | internal/controller/phases.go:374-442 | exact: a due reconcile in WaitingForAttachment, its calls answered, persists SSHConnecting with the counter at 0 if and only if the first status of the volume's name is ready, has a target and is hotplugged; Failed if and only if it is ready, has a target and is not hotplugged; otherwise one more retry with the next share of the schedule |
| RestoreOutcomes.SshCheckExactly | internal/controller/phases.go:468-533 | exact: a due reconcile in SSHConnecting persists Restoring if and only if the connection came about, one more retry if and only if it was refused, Failed if and only if anything else went wrong |
| RestoreOutcomes.GuestCommandExactly | internal/controller/phases.go:580-630 | exact: a reconcile in Restoring persists Failed if and only if the guest command failed; otherwise VolumeReady for a manual restore, and Cleanup together with the printed count for an automatic one |
| RestoreOutcomes.MissingVmExactly | internal/controller/phases.go:654-666 | exact: with the VM missing in Cleanup, Succeeded is persisted if and only if there is a count |
| RestoreSuccess.RestoreSucceeds | internal/controller/phases.go:213-709 | for every restore with a source path, of a PVC or a snapshot, every VM without restores and every VMI that shows the volume attached: the run in which every call is answered ends in Succeeded with the printed count, every VM is exactly as it was and no DataVolume is left |
| RestoreSuccess.ManualRestoreIsReady | internal/controller/phases.go:599-604 | without a source path that run gets to VolumeReady, with exactly the restore's pair added to the VM |
| RestoreClaims.VolumePointsAtSource | internal/controller/hotplug.go:111-227 | over all runs: every restore volume of a VM has the name of the restore that hotplugged that VM last and points at the PVC named in its spec, one of its own namespace, or, for a snapshot, at the claim its DataVolume is created under; the disk carries that name as its serial |
| RestoreClaims.OwnVolumePointsAtOwnSource | internal/controller/hotplug.go:111-227 | a live restore that has hotplugged since it was created finds its own source under its name, whatever an earlier restore of that name left behind |
| RestoreCommand.HelperIsAskedRight | internal/controller/ssh.go:125-182 | over all runs, on a Linux guest and for Kubernetes names: what the helper parses from the command in phase Restoring is restore mode, the serial of the restore's own disk, the persisted mount path and the trimmed source path; cleanup addresses the same mount path |
| RestoreVms.PatchResult | internal/controller/hotplug.go:229-238 | whatever version a hotplug or unplug patch was computed from, the patched VM is exclusive, a hotplug puts its own pair there, an unplug takes effect or changes nothing, and no other restore's name appears that was not there |
| RestoreVms.ReachableVms | internal/controller/hotplug.go:74-106 | in every reachable state every version of every VM is exclusive: no restore entry, or exactly one volume with exactly the disk of its name |
| RestoreVms.MutualExclusion | internal/controller/hotplug.go:74-106 | over all runs with any number of restores and arbitrarily stale VM reads: at most one restore volume and disk, no duplicate, volume exactly when disk, and the partial-hotplug branch is unreachable |
| RestoreVms.StepKeepsOrdinary | internal/controller/hotplug.go:229-272 | one step of anybody changes the ordinary entries exactly as the owner's edit in it says |
| RestoreVms.OrdinaryEntriesKept | internal/controller/hotplug.go:229-272 | over all runs, with any edits and deletions of VMs by their owners, stale reads and interleavings: the ordinary volumes and disks of every VM are at every moment what the owners' edits alone made them, in order, unless an owner edits between a restore's read and its patch |
| RestoreCleanup.ReachableTidy | internal/controller/virtualmachinefilerestore_controller.go:156-215 | in every reachable state what a restore may still own follows from its phase, its program point and its finalizer, as far as its own reads are trusted |
| RestoreCleanup.CrashSafeCoverage | internal/controller/virtualmachinefilerestore_controller.go:89-133 | in every reachable state each restore volume, disk or DataVolume belongs to an object with finalizer, or to one whose deletion cleanup had a failing call or found the VM missing; all reads may be stale, only the VM read of that restore's own deletion cleanup must not hide its entries |
| RestoreCleanup.SucceededMeans | internal/controller/phases.go:654-708 | Succeeded (and Cleanup) only for automatic runs whose guest command succeeded, with a non-negative count; unless the VM was missing, volume and disk are out of the spec, the DataVolume is gone and the VMI does not list the volume; only the two reads of that restore's own phase Cleanup are trusted |
| RestoreCleanup.FreshRunsAreHonest | internal/controller/virtualmachinefilerestore_controller.go:156-215 | runs with current reads satisfy every such condition, so all these results hold of them without proviso |
| RestoreHolding.VolumeHeldWhileInUse | internal/controller/phases.go:333-348 | in WaitingForAttachment, SSHConnecting, Restoring and VolumeReady the VM spec holds the restore's volume and disk, and a snapshot's DataVolume had been provisioned; others may read and do what they like, as long as nobody else's patch replaces the lists of this VM while it is held and this VM is not deleted, and the restore's own scan is right about its own name |
| RestoreHolding.HoldLostExactly | internal/controller/hotplug.go:229-238 | exact: another restore's call takes a held pair out of the spec if and only if it is a patch that takes effect and replaces the lists |
| RestoreHolding.OrderlyRunsAreUndisputed | internal/controller/phases.go:333-348 | runs with current reads, atomic patches and no VM deleted satisfy that rule for every restore |
| RestoreHolding.BusyRestoreTouchesNothing | internal/controller/hotplug.go:74-78 | a restore that fails because another holds the VM changes no VM spec, no other object and no DataVolume but that of its own name in any call until its reconcile ends, provided its own cleanup read does not show its own name |
| RestoreHolding.FreshLoserTouchesNothing | internal/controller/hotplug.go:74-78 | with current reads the same without proviso |
| RestoreHolding.RecentLoserTouchesNothing | internal/controller/phases.go:165-209 | the same under two conditions on the cache: the scan does not hide the restore's own entries, and the cleanup behind it reads no version that is older than the scan |
| RestoreHolding.CleanupSparesHolder | internal/controller/virtualmachinefilerestore_controller.go:205-212 | exact: a cleanup that patches a VM held by another restore leaves every VM spec alone if and only if the version it read does not show its own name |
| RestoreRaces.DeletionCovers | internal/controller/virtualmachinefilerestore_controller.go:156-215 | exact: a deletion whose remaining calls are answered leaves nothing uncovered if and only if the version it read shows the volume, if the VM has it |
| RestoreWitnesses.StaleDeletionLeaks | internal/controller/virtualmachinefilerestore_controller.go:205-212 | a run from an empty cluster, for every name, VM and VMI, in which a stale VM read makes a clean deletion leave the volume in the spec |
| RestoreWitnesses.LeakedVolumeIsAdopted | internal/controller/hotplug.go:96-99 | a run in which a restore created again under its old name, for another PVC, takes over the volume its predecessor leaked and waits for it, although it points at the old PVC |
| RestoreWitnesses.StaleSuccessKeepsVolume | internal/controller/phases.go:654-708 | a run in which every call is answered and the restore persists Succeeded with its volume still in the spec, because phase Cleanup reads an old version |
| RestoreWitnesses.LoserTakesVolumeAway | internal/controller/virtualmachinefilerestore_controller.go:205-212 | a run in which a restore loses the contest for a VM and its cleanup takes the live holder's volume out of the spec |
| RestoreWitnesses.RacingHotplugsLoseOne | internal/controller/hotplug.go:229-238 | a run, for any two restores and any VM, in which both hotplugs are answered and the first one's volume is gone |
| RestoreRaces.SuccessUnplugs | internal/controller/phases.go:654-708 | exact, for every source: phase Cleanup, its calls answered, persists Succeeded with a snapshot's DataVolume deleted, with the volume out of the spec if and only if the version it read shows it, and off the VMI if and only if its VMI read was right |
| RestoreRaces.FailureCleansUp | internal/controller/phases.go:165-209 | exact: which outcomes of the failing reconcile's five calls get the volume out of the spec, and which the DataVolume deleted |
| RestoreRaces.FailedStaysAbandoned | internal/controller/phases.go:192-209 | once Failed is persisted and the reconcile over, no own step in any continuation without a deletion touches a VM, a VMI or a DataVolume |
| RestoreWitnesses.LostFailureLeavesVolume | internal/controller/phases.go:192-209 | runs, with the answer to the status patch lost or a crash behind it, after which the restore is Failed for good with its volume in the spec |
| RestoreRequests.RequestsAreHonoured | internal/controller/phases.go:78-209 | every call of every reconcile changes what its request names, when it takes effect, and nothing else |
| RestoreRuns.OthersKeepOwn | internal/controller/virtualmachinefilerestore_controller.go:69-153 | steps of others never move a reconcile in flight and change nothing of its finalized object but the deletion flag |
| Reconciler.RunningIffInFlight | internal/controller/virtualmachinefilerestore_controller.go:69-153 | in every reachable state a call leaves the reconcile running exactly when it has a next call |
| Reconciler.Cluster.Call | internal/controller/phases.go:165-196 | a call whose request is the machine's is one step of the machine followed by any steps of others; own object and program point are as the step left them |
| Reconciler.Cluster.TransitionPhase | internal/controller/phases.go:78-123 | asks once, for a status that differs in the phase, the start time on leaving New and the completion time at the end; returns requeue or error |
| Reconciler.Cluster.FailRestore | internal/controller/phases.go:165-209 | asks for Failed with a completion time; ends with an error and nothing else if that fails, otherwise goes through the whole cleanup |
| Reconciler.Cluster.UnplugVolume | internal/controller/hotplug.go:245-288 | asks once for the VM without the own name and, exactly if that is answered and the source is a snapshot, for the DataVolume's deletion; success leads on, failure to the failure path |
| Reconciler.Cluster.RunCleanup | internal/controller/virtualmachinefilerestore_controller.go:156-215 | asks the guest first, then for the VM, then, if it could be read, for the unplug, in this order and whatever fails; ends at the finalizer loop when deleting, otherwise ends the reconcile |
| Reconciler.Cluster.HandleInit | internal/controller/phases.go:213-316 | asks to fail at once unless there is exactly one source; otherwise reads the VMI and asks for the mount path of that guest and source, then for Hotplugging, or to fail if the VMI is not answered or the source is remote |
| Reconciler.Cluster.HandleHotplugging | internal/controller/phases.go:319-349 | what the scan it was told of calls for: failure if another restore's volume is there or only half of the own pair, the next phase if the pair is there, otherwise the hotplug of a PVC of the own namespace, the look for a snapshot's DataVolume, or failure |
| Reconciler.Cluster.ProvisionAndAdd | internal/controller/hotplug.go:130-203 | looks for the DataVolume first and creates it at most once, under the own name, right behind that look and only if it was missing; then as the machine |
| Reconciler.Cluster.AddVolume | internal/controller/hotplug.go:210-240 | asks for the VM with exactly one volume appended, which has the own name and points at the PVC's name, or at the own name for a snapshot, and one disk with that name as its serial; then for the next phase or the failure path |
| Reconciler.Cluster.HandleWaiting | internal/controller/phases.go:352-442 | 60 retries ask to fail; within five seconds of the last check it asks for nothing and waits for the rest of them; otherwise it reads the VMI, records the check, and asks for SSHConnecting, failure or one more retry exactly as the first status of the volume's name says |
| Reconciler.Cluster.RetryAttachment | internal/controller/phases.go:128-162 | asks for one more retry and, if that is answered, requeues after the next share of the closed-form schedule |
| Reconciler.Cluster.RetrySsh | internal/controller/phases.go:128-162 | the same for the SSH counter |
| Reconciler.Cluster.HandleSsh | internal/controller/phases.go:445-534 | 24 retries ask to fail; within five seconds it waits for the rest; otherwise it records the attempt, dials, and asks for Restoring, one more retry with its share of the schedule, or failure, exactly as the dial turned out |
| Reconciler.Cluster.HandleRestoring | internal/controller/phases.go:537-631 | runs the helper with the own serial, the persisted mount path and the source path; behind a failure asks to fail, otherwise in one patch for VolumeReady, or for Cleanup with the count of the first counting line it printed |
| Reconciler.Cluster.HandleCleanup | internal/controller/phases.go:645-709 | reads the VM, asks for the unplug and behind it for the VMI; a listed volume waits five seconds, an unlisted one or a missing VMI asks for Succeeded, anything else for failure; a missing VM asks for Succeeded exactly if there is a count |
| Reconciler.Cluster.RemoveFinalizer | internal/controller/virtualmachinefilerestore_controller.go:98-120 | one to three requests to drop the finalizer and no other; reports success exactly when an update succeeded, and an error only behind three in vain, so the loop never falls through |
| Reconciler.Cluster.Reconcile | internal/controller/virtualmachinefilerestore_controller.go:69-153 | for every state, every outcome and every interference the cluster goes through a run of the machine and no reconcile is left in flight; what it asks for is spelled out by the object read: cleanup and finalizer when deleting, the finalizer first, nothing when finished, otherwise what the handler of the phase asks for |
| Reconciler.FindVolumeStatus | internal/controller/phases.go:384-394 | finds the first volume status of that name, or none exactly when there is none |
| Reconciler.ListsVolume | internal/controller/phases.go:683-695 | true exactly when the VMI lists the volume |
| VmSpec.VolumeNameInjective | internal/controller/hotplug.go:23-28 | different restores have different volume names |
| VmSpec.CheckHotplug | internal/controller/hotplug.go:74-106 | the scanning loops return the verdict defined by what the lists contain: busy, present, partial or absent |
| VmSpec.FilterOut | internal/controller/hotplug.go:252-267 | the filter loops keep exactly the entries of other names, in order |
| VmSpec.NeverPartial | internal/controller/hotplug.go:100-106 | an exclusive VM never takes the partial-hotplug branch |
| VmSpec.PlugKeepsExclusive | internal/controller/hotplug.go:229-238 | hotplug after an absent verdict keeps the VM exclusive |
| VmSpec.UnplugPatchKeepsExclusive | internal/controller/hotplug.go:252-272 | an unplug patch from any exclusive version keeps the VM exclusive, and either takes that version's other entries or changes nothing |
| VmSpec.UnplugEffective | internal/controller/hotplug.go:252-272 | the name is out of the patched spec if and only if the version read showed it or the current spec did not have it |
| VmSpec.HotplugPatchPreservesOthers | internal/controller/hotplug.go:229-238 | a hotplug patch keeps every other restore's pair if and only if no other restore holds the current spec |
| VmSpec.PatchKeepsOrdinary | internal/controller/hotplug.go:229-272 | exact: a patch keeps the ordinary entries, in order, if and only if the version it was computed from had the same ones (or, for an unplug, did not show the restore) |
| VmSpec.UnplugUndoesPlug | internal/controller/hotplug.go:252-267 | unplug undoes hotplug exactly |
| VmSpec.UnplugIdempotent | internal/controller/hotplug.go:252-267 | a second unplug changes nothing |
| VmSpec.UnplugKeepsOthers | internal/controller/hotplug.go:252-267 | unplug keeps every other name |
| VmSpec.RehotplugIsNoop | internal/controller/hotplug.go:81-98 | hotplugging again after a crash behind the patch finds the pair and adds nothing |
| Keypair.NextKeeps | internal/controller/keypair.go:39-191 | every call with every outcome keeps the keys matching and the caller's stale locals usable, and guarantees to all others that a Secret stays, versions are unique, and no ConfigMap appears before a Secret |
| Keypair.OthersKeep | internal/controller/keypair.go:47-74 | what a replica concluded from earlier reads survives every such call of others |
| Keypair.StepKeeps | internal/controller/keypair.go:39-191 | every step of every replica, crashes included, keeps the invariant |
| Keypair.KeysAlwaysMatch | internal/controller/keypair.go:39-146 | for any number of replicas and any interleaving from a start that is not present-and-mismatched, whenever both objects exist the published key is that of the stored private key |
| Keypair.SecretIsForever | internal/controller/keypair.go:64-69 | in every continuation of every run a stored private key is never replaced or removed |
| Keypair.GoodConfigMapCanBeDeleted | internal/controller/keypair.go:66-74 | a run in which a replica with a stale view deletes a ConfigMap that another one has just made good, so the safety results cover that race |
| Keypair.ReadyHasKey | cmd/main.go:252-266 | an operator whose start-up succeeded has a stored private key |
| Keypair.WritesAreCovered | internal/controller/keypair.go:47-74 | over all runs: a replica deletes a ConfigMap or stores a key only behind a read that reported the Secret missing, updates a ConfigMap only behind one that found it, and does neither behind one that failed |
| Keypair.NextApproaches | internal/controller/keypair.go:161-191 | every call brings an attempt closer to its end, at most five calls |
| Keypair.UndisturbedIsARun | internal/controller/keypair.go:39-74 | the big-step definition of an undisturbed call is the run of that replica's calls alone |
| Keypair.ReadyIsQuiet | internal/controller/keypair.go:163-166 | with both objects, matching keys and current tarballs a call writes nothing |
| Keypair.StartupConverges | internal/controller/keypair.go:47-74 | from every reachable state one undisturbed call succeeds if and only if the server is not stuck; then both objects exist, keys match, tarballs are the caller's, and the next call changes nothing; otherwise nothing is written |
| Bootstrap.Operator.EnsureOperatorResources | internal/controller/keypair.go:39-75 | a run of the machine whatever others do; the keys match on return and success implies a Secret; what it asks for follows from its two reads: nothing behind a failed one, and only behind a Secret that is missing is a ConfigMap deleted or a key generated |
| Bootstrap.Operator.CreateConfigMapFromSecret | internal/controller/keypair.go:80-90 | an unusable key is an error without any request; otherwise the one request is a ConfigMap with the key derived from the stored one |
| Bootstrap.Operator.CreateKeypairAndConfigMap | internal/controller/keypair.go:94-120 | never succeeds against an existing Secret; asks for the Secret first and only behind it for a ConfigMap with the public half of the very same key; without a key it asks for nothing |
| Bootstrap.Operator.EnsureHelperTars | internal/controller/keypair.go:151-191 | current tarballs mean no request at all; otherwise one update with the own tarballs and, only behind it, one refetch and one more update of what was refetched |
| Bootstrap.Operator.Update | internal/controller/keypair.go:171-189 | succeeds only on the version it was computed from; a conflict means the version moved on |
| Bootstrap.Operator.StartUp | cmd/main.go:252-266 | one to five attempts among other replicas, five if none succeeds: an existing Secret survives, keys match, success implies a Secret |
| GuestMounts.EscapeReadsBack | guest-helpers/linux/filerestore.sh:98-101 | the escaped mount path reads back as the literal mount path |
| GuestMounts.SelectsSubtree | guest-helpers/linux/filerestore.sh:107-107 | the pattern selects a target if and only if it is the mount path or below it at a component boundary |
| GuestMounts.SiblingNotSelected | guest-helpers/linux/filerestore.sh:107-107 | a path that merely starts with the mount path is not selected |
| GuestMounts.SelectedCounts | guest-helpers/linux/filerestore.sh:102-107 | stacked mounts are selected as often as they occur |
| GuestMounts.SortDescends | guest-helpers/linux/filerestore.sh:107-107 | the sorted list is in descending order (and a permutation) |
| GuestMounts.DescendantsFirst | guest-helpers/linux/filerestore.sh:107-111 | in descending order every descendant precedes its ancestor |
| GuestMounts.DetachOrderIsRight | guest-helpers/linux/filerestore.sh:102-111 | the loop walks through exactly the subtree, with multiplicity, descendants first |
| GuestDetach.DrainsInOrder | guest-helpers/linux/filerestore.sh:96-112 | if only the kernel's own rule about mounted children can make an unmount fail, every unmount succeeds, none is lazy, and nothing stays mounted at or below the mount path |
| GuestLvm.DoGood | guest-helpers/linux/filerestore.sh:87-125 | a command within its bounds keeps the log careful and everything outside the mount path, its state file and its group |
| GuestLvm.CleanupPasses | guest-helpers/linux/filerestore.sh:76-136 | whatever fails, a cleanup stays within its mount path and the group its state file names, and deletes that file only when the group is gone or the file was empty or, with errexit off, unreadable |
| GuestLvm.CleanupSucceeds | guest-helpers/linux/filerestore.sh:76-136 | a cleanup that reports success has removed the group its state file names |
| GuestCleanup.CleanupReports | guest-helpers/linux/filerestore.sh:113-136 | whatever fails: a cleanup reports success if and only if neither deactivation nor removal of the group failed (with errexit on, nor a command on the state file) and one of three attempts to remove the directory succeeded |
| GuestCleanup.CleanupUnmounts | guest-helpers/linux/filerestore.sh:87-129 | whatever fails: with a group on record a cleanup unmounts exactly what is mounted at or below the mount path, descendants first, or the mount path if that cannot be listed; without one the mount path; nothing only if errexit ends it at the state file |
| GuestCleanup.CleanupCompletes | guest-helpers/linux/filerestore.sh:76-136 | if only kernel and LVM stand in its way: success, the recorded group and no other is gone, and so are the state file and every mount at or below the mount path |
| GuestRestore.CloneGood | guest-helpers/linux/filerestore.sh:244-274 | after cloning, the state file names the clone, or the clone is gone, or nothing changed, or both the write and the emergency removal failed |
| GuestRestore.RestoreIsCareful | guest-helpers/linux/filerestore.sh:231-399 | in every restore run, for all outcomes: no group is removed that the script activated and did not deactivate, nothing foreign changes, and no state file is deleted while its group exists; only a run that exits with success may do that, behind a read that failed |
| GuestRestore.CleanupIsCareful | guest-helpers/linux/filerestore.sh:188-196 | the same for a cleanup; with errexit on, without any exception |
| GuestRestore.RestoreStateFile | guest-helpers/linux/filerestore.sh:268-274 | afterwards the state file names the run's own clone, or is as before, or is empty |
| GuestCopy.AutomaticRunCopies | guest-helpers/linux/filerestore.sh:343-399 | for every guest and all outcomes: an automatic run that exits with success has searched the volumes in order, if there are several, looked for the source path on the one it found, copied that very path right behind that look, once and successfully, and then cleaned up |
| GuestCopy.CopyDecidesExit | guest-helpers/linux/filerestore.sh:383-388 | in every run there is at most one copy and its outcome is that of the run; there is none in manual mode or behind a parent-directory component |
| GuestCopy.RestoreSucceedsExactly | guest-helpers/linux/filerestore.sh:199-399 | exact, for every guest and all outcomes: a restore exits with success if and only if there is a device, for LVM the tools and a volume with a filesystem, no parent-directory component, no failed fatal command, a mount that succeeded if any failed, and a last look for the source that was not in vain |
| GuestCopy.MountsEveryVolume | guest-helpers/linux/filerestore.sh:300-340 | a successful run has tried to mount every volume with a filesystem, once, in order: one at the mount path, several below it |
| GuestCopy.FailedRunCleansUp | guest-helpers/linux/filerestore.sh:276-332 | a run that fails although a clone was recorded or something was mounted has gone through the whole cleanup with errexit on, unless a mkdir failed |
| GuestCopy.BenignRunSucceeds | guest-helpers/linux/filerestore.sh:231-399 | if only kernel and LVM stand in its way, every possible restore succeeds on every guest, stale clone or not; an automatic LVM restore leaves no clone, state file or mount behind |
| GuestCopy.TraversesIsDotDot | guest-helpers/linux/filerestore.sh:349-356 | the case pattern catches exactly the paths with a parent-directory component |
| GuestRecords.RestoreKeepsRecords | guest-helpers/linux/filerestore.sh:231-399 | from a safe start with every clone on record, every restore run ends with every clone on record, unless the write and the emergency removal failed or, in a run that exits with success, a read |
| GuestRecords.RestoreRecordsAll | guest-helpers/linux/filerestore.sh:231-399 | that holds for all outcomes if and only if no other clone is recorded only by the state file to be overwritten or inside the directory to be deleted |
| GuestRecords.CleanupRecordsAll | guest-helpers/linux/filerestore.sh:76-136 | for cleanup it holds if and only if no clone is recorded only inside the directory to be deleted |
| GuestRecords.SecondRestoreOrphansFirst | guest-helpers/linux/filerestore.sh:268-274 | a restore with another serial at the same mount path can lose the only record of a living clone |
| GuestRecords.UnreadableStateIsForgotten | guest-helpers/linux/filerestore.sh:87-92 | cleanup mode deletes a state file it cannot read while its group lives on |
| GuestRecords.TracksExactlyUnderErrexit | guest-helpers/linux/filerestore.sh:87-125 | exact: a cleanup never forgets a living group, whatever fails, if and only if errexit is on |
| GuestSessions.HolderUntouched | guest-helpers/linux/filerestore.sh:76-136 | any number of restores and cleanups for other mount paths, failing as they like, leave the holder's group, state file and mounts as they were, as long as none finds the holder's clone named by its own state file or brings the holder's serial |
| GuestSessions.LoserSparesHolder | internal/controller/virtualmachinefilerestore_controller.go:169-212 | exact, on every guest: for different source names the loser's cleanup leaves the holder's group, state file and mounts alone, whatever fails, if and only if the loser's state file does not name the holder's clone |
| GuestSessions.RecreatedRestoreInterferes | internal/controller/os.go:53-59 | three runs on an empty guest, with different source names, after which the holder's clone is gone |
| GuestSessions.CleanupSparesExactly | guest-helpers/linux/filerestore.sh:76-136 | the same exact condition for any two mount paths directly under the root |
| GuestSessions.ServeStaysOwned | guest-helpers/linux/filerestore.sh:244-274 | where every mount path is used by one serial, over any session its state file only names that serial's clone |
| GuestSessions.OwnersDoNotInterfere | guest-helpers/linux/filerestore.sh:76-136 | so there, runs for other serials and mount paths never touch a holder, whatever fails |
| GuestSessions.OperatorPathsFlat | internal/controller/os.go:53-59 | mount paths built from Kubernetes names lie directly under the root, as HolderUntouched needs |
| GuestSessions.SharedPathInterferes | guest-helpers/linux/filerestore.sh:76-136 | on one mount path the loser's cleanup can remove the holder's group, so different mount paths are needed |
| GuestSessions.SessionsKeepRecords | guest-helpers/linux/filerestore.sh:231-399 | over any session whose every run starts safe (exactly the condition of RestoreRecordsAll and CleanupRecordsAll) every clone stays on record, unless a failure excuses it |
| GuestSessions.OwnersKeepRecords | guest-helpers/linux/filerestore.sh:231-399 | with one serial per mount path, a serial having any number of them, every run starts safe and every clone stays on record |
| GuestHelper.Shell.TryToUmount | guest-helpers/linux/filerestore.sh:51-58 | the topmost mount at the target is gone and one command succeeded, or both failed and nothing changed; the second is lazy and comes only behind a failure; groups and state files stay |
| GuestHelper.Shell.UmountSubmounts | guest-helpers/linux/filerestore.sh:108-111 | the loop unmounts the whole list in its order |
| GuestHelper.Shell.UnmountAndCleanup | guest-helpers/linux/filerestore.sh:76-136 | whatever fails it stays within the mount path, its state file and the group named there, and forgets the group only when it is gone (with errexit on); reported success means the group is gone; its exit status is exactly that of CleanupReports |
| GuestHelper.Shell.CloneVolumeGroup | guest-helpers/linux/filerestore.sh:244-274 | success leaves the own clone named by the state file; failure leaves it gone, or everything as it was, or comes from both the write and the emergency removal; nothing foreign changes |
| GuestHelper.Shell.CountMountable | guest-helpers/linux/filerestore.sh:293-298 | counts the logical volumes with a filesystem |
| GuestHelper.Shell.MountVolumes | guest-helpers/linux/filerestore.sh:300-323 | is the specified mounting: one volume at the mount path, several below it, failures skipped |
| GuestHelper.Shell.CopyFiles | guest-helpers/linux/filerestore.sh:343-399 | a successful automatic run has copied, as AutomaticRunCopies says, and cleaned up; the copy's outcome is the exit status; it stays within the mount path, its state file and the group named there, and a failing exit never forgets a living group |
| GuestHelper.Shell.RunRestore | guest-helpers/linux/filerestore.sh:231-399 | success exactly as RestoreSucceedsExactly says, with every volume mounted where it belongs and, with a source path, the copy made; careful and within its frame |
| GuestHelper.Shell.RunCleanup | guest-helpers/linux/filerestore.sh:188-196 | is the specified cleanup run, and it is careful and stays in its frame |
| GuestOs.MountPathsCollide | internal/controller/os.go:53-59 | two restores on one guest share a mount path if and only if their sources share a name |
| GuestOs.DetectMeans | internal/controller/os.go:28-49 | Windows exactly if a non-empty annotation starts with "windows" or, without one, the agent's name contains it, whatever the case |
| Commands.RunOptionLoop | guest-helpers/linux/filerestore.sh:148-186 | the option loop computes the recursive option parser, including every usage error |
| Commands.RestoreRoundTrip | internal/controller/ssh.go:125-161 | the helper reads back mode, serial, trimmed mount path and trimmed source path if and only if none has a separator and the trimmed mount path is not empty |
| Commands.CleanupRoundTrip | internal/controller/ssh.go:165-182 | for every Kubernetes source name, cleanup addresses the very mount path restore used |
| Commands.ModeAgreement | internal/controller/phases.go:599-616 | for every source path, with blanks or without: if the helper accepts the command, it agrees with the operator on automatic mode if and only if the source path is empty or has a character other than slashes; it accepts every command without separators |
| Commands.SourcePathIsSplit | guest-helpers/linux/filerestore.sh:29-34 | for every source path: what the helper reads, or that it refuses; with blanks the first word is the source path and the others are options |
| Commands.SlashPathIsManual | internal/controller/ssh.go:135-158 | for a source path of slashes only the operator is automatic and the helper manual |
| SlashPath.SlashPathRestoresNothing | internal/controller/phases.go:597-623 | then the helper's successful run copies nothing and leaves mounts behind, and the operator records 0 files and goes on to Cleanup |
| SlashPath.ManualRunLeavesMounts | guest-helpers/linux/filerestore.sh:343-347 | a manual run that exits with success has copied nothing and added at least one mount, at or below the mount path, and removed none |
| SlashPath.WordyDoesNotCount | internal/controller/phases.go:715-735 | a log line whose text starts with a letter carries no count |
| Commands.ParsedIsPlain | guest-helpers/linux/filerestore.sh:23-35 | whatever command line arrives, an accepted request is complete and has no separators |
| Commands.OptionsExactly | guest-helpers/linux/filerestore.sh:159-181 | exact: the option loop accepts exactly the lists of known options with non-empty values, and the last value of each option counts |
| Commands.AcceptedExactly | guest-helpers/linux/filerestore.sh:22-35 | exact, for every string: the helper accepts it if and only if it is its own path followed by white space and the words of the first line are a known mode and such a list with a mount path and, for restore, a serial |
| Commands.WindowsCommandQuotes | internal/controller/ssh.go:135-182 | on Windows trimmed mount path and trimmed source path arrive in quotes of their own, blanks and all; so does the mount path of a cleanup |
| FileCount.ParseRestoredFileCount | internal/controller/phases.go:715-726 | the scanning loop returns the count of the first counting line, -1 if there is none |
| FileCount.CountLineReadsBack | internal/controller/phases.go:729-735 | a printed count line is matched if and only if the number fits 32 bits, and then with that number |
| FileCount.CountRoundTrip | guest-helpers/linux/filerestore.sh:391-394 | whatever uncounted lines come before and whatever lines after, the printed count is the parsed count |
| FileCount.LineCountExactly | internal/controller/phases.go:715-735 | exact: a line carries n if and only if, trimmed, it is the mark, blanks, an optional sign, digits, blanks, "files", blanks, "restored" and anything, and the number is n and fits 32 bits |
| FileCount.NoCountLine | internal/controller/phases.go:715-726 | without any counting line the result is -1 and the operator reports 0 files |
| Backoff.ComputeDelay | internal/controller/phases.go:142-158 | a retry waits for its share of the closed-form schedule, never less than the base delay and never more than 30 s or four times the base |
| Backoff.DelayGrows | internal/controller/phases.go:151-156 | a later retry never waits less |
| Backoff.TotalDelayClosedForm | internal/controller/phases.go:142-161 | the sum of the first n delays is 5·min(n,4) + 10·min(max(n-4,0),5) + 20·max(n-9,0) |
| Backoff.TimeoutTotals | internal/controller/phases.go:355-361 | 1090 s for 60 retries and 370 s for 24 |

## Left out

- RestoreVms.OrdinaryEntriesKept: leaves out runs in which a VM's owner edits it between a restore's read and the patch computed from it; there the patch brings the old entries back (`VmSpec.PatchKeepsOrdinary` is the exact condition).
- RestoreCleanup.CrashSafeCoverage: leaves out runs in which the restore's own deletion cleanup reads a version that hides its entries; `RestoreWitnesses.StaleDeletionLeaks` is such a run.
- RestoreCleanup.SucceededMeans: leaves out runs in which the restore's own phase Cleanup reads such a version or a VMI that hides the volume; `RestoreWitnesses.StaleSuccessKeepsVolume` is such a run and `RestoreRaces.SuccessUnplugs` says exactly what happens then. The part about mode, guest command and count holds of all runs (`RestoreRuns.CleanupHasCount`).
- RestoreHolding.VolumeHeldWhileInUse: leaves out runs in which another restore's patch replaces the lists of a held VM (`RestoreHolding.HoldLostExactly`), the VM is deleted, or the restore's own scan is wrong about its own name; the DataVolume part leaves out a restore that reuses the name of an earlier one whose deletion cleanup failed, since it adopts the leaked volume.
- RestoreHolding.BusyRestoreTouchesNothing: leaves out losers whose cleanup reads a version that shows their own name (`RestoreHolding.CleanupSparesHolder`); the guest side of non-interference is separate, in `GuestSessions.LoserSparesHolder`.
- RestoreOutcomes.AttachmentCheckExactly: nobody else acts between the calls; what holds whatever others do is in `RestoreDecisions.AttachedBeforeSsh`, `RetriesAreEarned` and `FailuresHaveReasons`, and in the contract of `Reconciler.Cluster.HandleWaiting`. The same goes for the other lemmas of `RestoreOutcomes`.
- RestoreClaims.OwnVolumePointsAtOwnSource: leaves out restores that found a pair of their name in place; `RestoreWitnesses.LeakedVolumeIsAdopted` is one, and `RestoreClaims.VolumePointsAtSource` says whose source it is.
- RestoreCommand.HelperIsAskedRight: Linux guests; of the Windows command line only the quoting is proved.
- RestoreRaces.FailureCleansUp: nobody else acts between the failing reconcile's calls.
- RestoreRaces.DeletionCovers: nobody else acts between the deletion's calls.
- RestoreRaces.SuccessUnplugs: nobody else acts between the calls of phase Cleanup.
- SlashPath.SlashPathRestoresNothing: what the helper prints is not modelled; its manual mode is taken to log only lines that start with a letter.
- LVM refuses to deactivate a group with open volumes; here that is one more outcome of the command, which may also succeed. `GuestSessions.RecreatedRestoreInterferes` does not depend on it: nothing is mounted there.
- Bodies of calls to SSH (transport, goroutines, timeouts), key generation and PEM encoding: only success, failure and an abstract derivation of the public key.
- Archive format of the helper tarballs: fixed byte strings per operator binary.
- A lost call is carried out at the time of the call; a write that takes effect after the operator has gone on is not modelled.
- Reads that are not followed by a decision of their own (VMI, IP address, Secret before an SSH call) are one call with one outcome.
- Restores live in one namespace, their spec never changes, reads of the restore object are current, and one reconcile per object is in flight.
- The guest operating system does not change between the phases of one restore.
- Status conditions, error messages, events and logging.
- Guest IP selection, the classification of transient errors, snapshot volume mode: oracles.
- Windows helper script and both setup scripts; only the Windows command line is printed.
- Device discovery, `blkid`, `lvs` and `rsync`: their results are inputs, stable within a run. An import under an existing group name is taken to fail.
- The helper being killed in the middle; every run ends by itself.
- `sort -r` uses the order of the C locale, and mount paths and targets have no newline.
- The operator's own status controller, TLS profile handling, manifests and generated code: table lookups and constants that would only add easy members.
