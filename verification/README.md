# Odoo operator: proofs of its protocols

This project models the protocols at the heart of the Odoo operator and proves what they promise.
`dafny verify dfyconfig.toml` checks everything.

**Addons volume.** `AddonVolume`, `SyncScript`, `SyncCorrect`, `SyncSafety`, `SyncRuns`,
`SyncMoments`, `SyncHistory`, `SyncInterleaving`, `SyncOverlap` and `AddonsMount`. The script of a sync
Job is a machine that runs one command per step on a volume of links, release stores and manifests, so
a run can be cut off after any command and interleaved with others; `AddonsMount.Mount` is the same
script as loops over a volume changed in place. `cp -a` is one step per file into `.partial`; a rename
and an `rm -rf` of one folder are one step each. A folder that the release already holds is not copied
again.

**One at a time.** `Queue`, `QueueRuns`, `QueueLimits`, `QueueJobs`, `QueueOutcomes`, `QueueProgress`
and `QueueServer`. Upgrades and one-shot backups share one protocol: decide on a cached list, write the
status with optimistic concurrency and phase guards. The API server is its history of snapshots; a read
is an earlier snapshot and a write appends one. The proof is made once and instantiated for both kinds.
`QueueJobs` is about the Jobs behind the phases, `QueueOutcomes` tells what one pass makes of an item,
and `QueueServer` holds the retry loop and the pass as the controllers run them.

**Rollout and initialisation.** `Gate`, `Rollout`, `RolloutSafety`, `RolloutInit`, `RolloutQueue`,
`RolloutOutcomes` and `InstancePass`. The two decisions run inside passes whose reads come from caches
of any age and whose writes may be lost, repeated or interleaved with anything; only the status write
is compare-and-set. `RolloutOutcomes` tells what one pass writes, `RolloutQueue` puts the rollout and
the queue together, and `InstancePass.Cluster` is the pass in the order of its writes, error path
included.

**Addon sync and deletion.** `AddonSync`, `AddonRuns`, `AddonOutcomes`, `AddonTarget`, `AddonPinned`,
`AddonPass`, `AddonConditions` and `AddonDeletion`: the state machine of an OdooAddon with its Job, its
clock and spec edits, what one pass makes of them, the volume its results are on, the conditions it
writes, and the steps of its finalizer.

**Formats and loops.** `ShellWords` (quoting, read back by the rules of sections 2.2.1, 2.2.2, 2.3 and
2.7.4 of the Shell Command Language of IEEE Std 1003.1), `Retention` (the two retention loops),
`Revisions` (the text behind the addons hash), `OdooConf` (the printed configuration) and `SyncOutput`
(the last lines of a sync log). `Text` and `Options` hold strings, sorting and optional values.

Places where the code does less than one might expect, each with proofs of when it happens and when it
does not:

- The hash on a sync Job leaves out `spec.instanceRef`. When that field is edited while a Job for the
  old instance may still succeed, the addon becomes Ready for the new instance although the modules
  are on the volume of the old one (`AddonTarget.DangerIsExact`, `AddonTarget.EditGoesWrong`,
  `AddonTarget.RecordsAreOnVolume`, `AddonTarget.EditedInstanceIsRecorded`).
- A sync cut off after it published a module and never rerun can leave a link that a later sync
  breaks (`SyncHistory.ResolvesAfterRun`, `SyncHistory.LeakedLinkCanDangle`).
- A real folder in the place of a module is removed before the link is switched in, so the module is
  missing in between, and stays missing after a cut-off there (`SyncMoments.CutOffIsSafe`,
  `SyncMoments.FolderGoesMissing`).
- With stale reads, two upgrades can run at once when a newer object sorts before an older one, for
  example by name within one second (`QueueLimits.OrderIsExact`).
- An item can be recorded as Failed while its Job is still going, and the next one then starts beside
  it (`QueueJobs.StartMeetsExactly`, `QueueJobs.WrittenOffExactly`, `QueueJobs.LostJobMeets`).
- Until a status write of a pass through the gate has landed, every revision counts as a first one,
  even if pods of another already run (`RolloutInit.OpenUntilRecorded`,
  `RolloutInit.LostStatusReopensGate`).
- A database counts as adopted when pods are ready and the initialisation upgrade is not seen. For an
  instance that keeps its upgrade this never happens while the cache of upgrades does not go back, and
  can happen otherwise (`RolloutInit.NeverAdopts`, `RolloutInit.OldUpgradeListAdopts`).
- An addon pinned to the commit it already shows takes no notice of edits that keep its ref, that of the
  instance included, until some status write drops Ready, as the write of a pass that does not find
  the instance; only then is the spec synced as it is now (`AddonPinned.PinnedStays`,
  `AddonPinned.SyncsAfterDrop`, `AddonPinned.EditIsSynced`).
- A deletion pass that does not see the sync Job just started runs the cleanup next to it
  (`AddonDeletion.CleanupMeetsExactly`, `AddonDeletion.MissedStartMeets`).
- A folder name that the script publishes and validateModuleName refuses makes the operator read no
  modules, or, with a comma in it or a blank at its end, others than those published
  (`SyncOutput.OutputReadsBack`, `SyncOutput.ReadsNothingExactly`, `SyncOutput.OthersAreRead`).
- A stale sync Job is deleted in the background. A script of it that goes on while the next Job syncs,
  and ends after it, leaves its own module list and links that are listed nowhere
  (`SyncOverlap.LateFinisherLeaks`); what other addons show is safe (`SyncOverlap.OverlapSparesOthers`).

## Model

| member | source | states |
|---|---|---|
| `SyncSafety.ExecKept` | internal/controller/odooaddon_sync.go:342-358 | while a sync runs, finished module folders are never changed, new ones are whole copies, and a link to the new release that was not there before has its folder; after any number of commands |
| `SyncCorrect.StepKeepsInv` | internal/controller/odooaddon_sync.go:427-453 | every single command of the sync script keeps the invariant of its place in the script: which entries may differ from the start, which modules are already published, which stale ones are gone, what the manifest says |
| `SyncCorrect.ExecKeepsInv` | internal/controller/odooaddon_sync.go:316-453 | the same after any number of commands, so after a cut-off anywhere |
| `SyncCorrect.StepOutcome` | internal/controller/odooaddon_sync.go:342-358 | no command changes the volume that a complete run from here would produce |
| `SyncScript.RunIsExec` | internal/controller/odooaddon_sync.go:427-453 | a run always ends: it is a finite number of single commands |
| `SyncRuns.RunOutcome` | internal/controller/odooaddon_sync.go:382-403 | a run is refused, and then changes nothing, exactly when the manifest, empty-list or conflict check fails on the volume it starts on; any other run ends on the volume given in closed form (links of the run, stale modules gone, manifest, two newest releases) |
| `SyncRuns.WhatARunLeaves` | internal/controller/odooaddon_sync.go:382-417 | told entry by entry: what refuses a run, where the links of the run point, which links go, and that nothing else under the mount and in other stores changes |
| `SyncRuns.WhatARunStores` | internal/controller/odooaddon_sync.go:427-451 | told release by release: manifest, the two releases that stay, which copies are new and which are kept, and that copies are without .git |
| `SyncRuns.CutKeepsOutcome` | internal/controller/odooaddon_sync.go:342-358 | after a cut-off at any command, a new run would be refused exactly when the first one would, and would end on the same volume |
| `SyncRuns.RerunConverges` | internal/controller/odooaddon_sync.go:427-453 | a sync cut off any number of times at any commands and then rerun on the same commit ends in the same links, manifest and releases as one uninterrupted run |
| `SyncMoments.CutOffIsSafe` | internal/controller/odooaddon_sync.go:342-358 | at every moment of any number of cut-off runs of a sync, from a volume where every visible module of the addon resolves and none is leaked: that stays so; links of other addons stay and resolve if they did; a name vanishes only as a real folder in the place of a module of the run, until its link is switched in, or as an own link of the previous list that the run dropped; every reachable folder is an old one unchanged or a complete new copy without .git |
| `SyncMoments.FolderGoesMissing` | internal/controller/odooaddon_sync.go:352-356 | the real folder does vanish: in every sync that is not refused and finds a real folder in the place of one of its modules, there is a command after which that module is not there at all |
| `SyncHistory.SyncsSettle` | internal/controller/odooaddon_sync.go:439-451 | after any sequence of completed or refused syncs the links into the addon's store are exactly the last completed module list at its commit, the manifest says the same, at most two releases remain and the linked one is first; with every sync refused the volume is untouched |
| `SyncHistory.FinalSettles` | internal/controller/odooaddon_sync.go:405-417 | one completed run on a volume whose links are all listed leaves exactly its own modules linked |
| `SyncHistory.ResolvesAfterRun` | internal/controller/odooaddon_sync.go:405-451 | for runs that were cut off and never rerun: after the next completed run every visible module resolves if and only if each leaked link points at a folder that this run keeps |
| `SyncHistory.LeakedLinkCanDangle` | internal/controller/odooaddon_sync.go:405-451 | the condition is needed: a concrete history from the empty volume after which a link dangles |
| `SyncHistory.CleanupRestores` | internal/controller/odooaddon_sync.go:456-472 | any history of syncs of an addon, cut-off ones included, followed by its cleanup gives back the volume of before, provided its names were free |
| `SyncInterleaving.CleanupRun` | internal/controller/odooaddon_sync.go:456-472 | the cleanup script run command by command ends on the volume without the addon's links and store, everything else as it was |
| `SyncInterleaving.StepInView` | internal/controller/odooaddon_sync.go:342-358 | a command of a script reads and writes only what is called by its own names and its own store |
| `SyncInterleaving.StepElsewhere` | internal/controller/odooaddon_sync.go:456-472 | a command leaves the store and the names of every other addon as they are |
| `SyncInterleaving.InterleavingProjects` | internal/controller/odooaddon_sync.go:316-472 | for addons with disjoint names, any interleaving of their sync and cleanup scripts is, for each addon, its own script run alone: same place in the script, same store, same entries |
| `SyncOverlap.OverlapSparesOthers` | internal/controller/odooaddon_sync.go:382-453 | any number of sync scripts of one addon at the same time, in any order of their commands, killed anywhere and whatever they do to the files of the addon: every other addon keeps its store and all its module links at every moment, and these resolve if they did |
| `SyncOverlap.LateFinisherLeaks` | internal/controller/odooaddon_sync.go:405-451 | what does not survive, exactly: for any two syncs of one addon, one past its checks while the other runs from beginning to end, the manifest in the end is that of the late one, and a module is linked but listed nowhere if and only if the late one does not have it, it was not listed before, and the other one has it or it was linked already |
| `AddonsMount.Mount.SyncOnce` | internal/controller/odooaddon_sync.go:316-453 | the script as loops over a volume changed in place: refuses exactly when a check fails and leaves the volume alone then, otherwise ends on the closed-form volume |
| `AddonsMount.Mount.StoreModule` | internal/controller/odooaddon_sync.go:345-350 | one module is copied through the .partial folder unless the release already holds it |
| `AddonsMount.Mount.RemoveStale` | internal/controller/odooaddon_sync.go:405-417 | the stale loop removes exactly the links of the previous list that are not in the new one and still point into the own store |
| `AddonsMount.Mount.PruneReleases` | internal/controller/odooaddon_sync.go:451 | the prune loop leaves the two newest releases |
| `AddonsMount.Mount.CleanUp` | internal/controller/odooaddon_sync.go:456-472 | the cleanup loop over all symlinks removes exactly the addon's links, then its store |
| `Queue.DecideStart` | internal/controller/odoobackup_queue.go:36-53 | the search over the siblings: may start exactly when no one-shot sibling of the instance is Running and none that is empty or Pending is older; otherwise names the first one that blocks |
| `Queue.OlderIsStrictTotal` | internal/controller/odooupgrade_queue.go:54-60 | the (timestamp, name) order is irreflexive, asymmetric and total on different names |
| `Queue.OlderIsTransitive` | internal/controller/odooupgrade_queue.go:54-60 | the order is transitive |
| `QueueRuns.Lasts` | internal/controller/odooupgrade_controller.go:221-249 | over a run an object is present without gaps, keeps its instance and creation time, and once finished keeps its phase and Job |
| `QueueRuns.FinishedForGood` | internal/controller/odooupgrade_controller.go:228-230 | a terminal phase is never left, whatever stale pass writes later |
| `QueueRuns.SucceededHadItsJob` | internal/controller/odooupgrade_controller.go:181-188 | a Succeeded item was Running when some pass found its Job complete |
| `QueueRuns.StaleQueueIsFifo` | internal/controller/odooupgrade_controller.go:112-121 | with creations in (timestamp, name) order and reads as old as one likes: when an item is Running or Succeeded, every older sibling has finished |
| `QueueRuns.StaleReadsAreSafe` | internal/controller/odooupgrade_controller.go:223-235 | under the same hypothesis, in every snapshot of every run at most one item of an instance is Running and starts are first in, first out |
| `QueueRuns.FreshReadsAreSafe` | internal/controller/odooupgrade_queue.go:35-52 | with fresh reads at most one is Running whatever the order of creations |
| `QueueOutcomes.RunningWrites` | internal/controller/odooupgrade_controller.go:169-203 | in any run, a pass that read its one-shot item Running leaves it Succeeded if and only if it read the Job complete, Failed if and only if it read the Job failed or missing after the grace period, and writes nothing else; told by the phase in the next snapshot, however old the read |
| `QueueOutcomes.WaitingWrites` | internal/controller/odooupgrade_controller.go:95-166 | likewise before the start: Failed for an invalid spec or no database, Pending without the instance or behind a sibling that runs or is older and waits, else Running with its Job; in this order |
| `QueueOutcomes.ScheduledWrites` | internal/controller/odoobackup_controller.go:224-262 | likewise for a backup with a schedule |
| `QueueOutcomes.WritesExactly` | internal/controller/odooupgrade_controller.go:86-203 | when a pass on the snapshot of the moment writes at all: always before the start and for a schedule; while Running exactly when the Job has ended or is missing for too long; never after the end |
| `QueueOutcomes.StartsAndEnds` | internal/controller/odooupgrade_controller.go:123-203 | from any point of any run, an item that nothing blocks goes to Running and then to Succeeded or Failed as its Job ended |
| `QueueRuns.UpgradesRunAlone` | internal/controller/odooupgrade_controller.go:107-121 | the instance for OdooUpgrades, none of which is scheduled |
| `QueueRuns.ScheduledBackupsAreSkipped` | internal/controller/odoobackup_queue.go:36-53 | the instance for OdooBackups: scheduled siblings play no part in the decision |
| `QueueLimits.OrderIsNeeded` | internal/controller/odooupgrade_queue.go:35-60 | in any run in which an item can start, creating one sibling that sorts before it lets stale reads put both in Running |
| `QueueLimits.OrderIsExact` | internal/controller/odooupgrade_queue.go:35-60 | for two creations in a row: every run with any reads keeps at most one Running if and only if the first created sorts first |
| `QueueJobs.JobsRunAlone` | internal/controller/odooupgrade_controller.go:123-166 | the Jobs behind the phases, with creations in order and any reads: while no item is recorded as finished with its Job still going, an instance has one live Job at most |
| `QueueJobs.StartMeetsExactly` | internal/controller/odooupgrade_controller.go:107-121 | and that is exact: in any run, the Job of an item that may start meets another live one of the instance if and only if some item of the instance is recorded as finished with its Job still going |
| `QueueJobs.WrittenOffExactly` | internal/controller/odooupgrade_controller.go:169-179 | a step records an unfinished item as finished over its live Job if and only if it is the write of a pass that missed the Job after the grace period, or that read the item as it was before the start and found the spec invalid or no database |
| `QueueJobs.CarefulRunsAreSafe` | internal/controller/odooupgrade_controller.go:125-179 | so in every run without such a write, and without a Job created for a finished item, at most one Job of an instance is live at any moment |
| `QueueJobs.LostJobMeets` | internal/controller/odooupgrade_controller.go:169-179 | in any run in which another item would be next, a pass that does not find the live Job of the Running one ends with two live Jobs |
| `QueueProgress.SomeoneMayMove` | internal/controller/odooupgrade_queue.go:35-52 | while an instance has an unfinished item, one of them is Running or allowed to start |
| `QueueProgress.NoDeadlock` | internal/controller/odooupgrade_controller.go:75-203 | in every snapshot of a run some unfinished item of an existing instance changes its phase at its next pass, once its Job has ended |
| `QueueProgress.MovesAreBounded` | internal/controller/odooupgrade_controller.go:125-203 | however stale the reads, a run changes phases of one-shot items at most three times per created object, and what is left is counted by a weight |
| `QueueProgress.DrainedMeansFinished` | internal/controller/odooupgrade_controller.go:269-271 | weight zero means that every item has finished |
| `QueueProgress.SweepLowers` | internal/controller/odooupgrade_controller.go:75-203 | a sweep of fresh passes over all unfinished items, in any order and with ended Jobs, lowers the weight |
| `QueueProgress.QueueDrains` | internal/controller/odooupgrade_controller.go:75-203 | every item terminates if Jobs do: from any point of any run and for every order of the passes, after as many sweeps as the weight says every one-shot item has finished |
| `QueueServer.ApiServer.UpdateStatus` | internal/controller/odooupgrade_controller.go:242 | the compare-and-set of the API server: conflict exactly on an outdated version, not found exactly on a deleted object, otherwise only the status fields change |
| `QueueServer.SameVersionSameItem` | internal/controller/odooupgrade_controller.go:221-249 | two copies with one resourceVersion are one copy, so guards checked on the cached copy hold for the stored one |
| `QueueServer.RunIsVersioned` | internal/controller/odooupgrade_controller.go:221-249 | every run of the queue has that property |
| `QueueServer.TryWrite` | internal/controller/odooupgrade_controller.go:223-242 | one attempt: the guards on the copy that was read, then the compare-and-set |
| `QueueServer.WriteStatus` | internal/controller/odooupgrade_controller.go:214-249 | the retry loop of five attempts while others write in between: what lands is one guarded write on the copy of the moment; it gives up only when every attempt read an outdated cache |
| `QueueServer.Decide` | internal/controller/odooupgrade_controller.go:75-121 | the decision of a pass over the list as it was read: of a Running item by its Job alone, of a waiting one by spec, instance, queue and database, of a scheduled one without the queue |
| `QueueServer.Reconcile` | internal/controller/odoobackup_controller.go:91-166 | a whole pass on stale reads: one that starts the item creates the Job first and ends if that fails; then it has the effect of one queue write, or none; what it writes of a Running item is Succeeded exactly for a complete Job and Failed exactly for a failed or lost one |
| `QueueServer.WriteContinuesRun` | internal/controller/odooupgrade_controller.go:214-249 | such a write continues a run of the queue, so the theorems about runs cover it |
| `Gate.GateDecide` | internal/controller/odooinstance_gate.go:80-107 | the revision rolls exactly when the gate is open, nothing changed, or the upgrade succeeded; otherwise the applied one stays, the upgrade is named, created if missing, and a failure shows |
| `Gate.InitDecide` | internal/controller/odooinstance_init.go:88-110 | pods are held back exactly while an initialisation is asked for and neither recorded, nor succeeded, nor ruled out by live pods; adoption, creation and failure likewise |
| `Gate.UpgradeNames` | internal/controller/odooinstance_gate.go:111-116 | upgrade names fit in 63 characters, and are equal exactly when the shortened instance names and the first eight digits are |
| `Gate.NamesShow` | internal/controller/odooinstance_gate.go:109-116 | the name is the first fifty characters of the instance without trailing dashes, then -upg- and the first eight digits; that of the initialisation is the instance name and -init |
| `RolloutSafety.PodsOnlySeeApproved` | internal/controller/odooinstance_controller.go:170-192 | in every run with stale reads, lost, repeated or reordered writes: every hash stamped on the web or cron pods, or recorded as applied, was current in a pass that found the gate open, or its upgrade had succeeded |
| `RolloutSafety.StaysShut` | internal/controller/odooinstance_gate.go:120-167 | once a revision is recorded with spec.upgrade kept and the database initialised, the status stays like that |
| `RolloutSafety.ShutForGood` | internal/controller/odooinstance_gate.go:80-107 | from then on a pass keeps the revision it reads or rolls to one whose upgrade has succeeded |
| `RolloutSafety.SameVersion` | internal/controller/odooinstance_controller.go:259-261 | the status write lands only on the object that was read |
| `RolloutOutcomes.WebWrites` | internal/controller/odooinstance_controller.go:186-195 | the write of the web Deployment, exactly, over reads of any age: none when a looked-up name is taken by another instance; the current revision exactly when the initialisation is due, no upgrades are asked for, none is recorded, it is the recorded one, or its upgrade has succeeded, and the recorded one otherwise; no replica while the initialisation is due, else as many as asked for, one at least |
| `RolloutOutcomes.CronWrites` | internal/controller/odooinstance_controller.go:196-201 | the cron Deployment likewise, with one replica, and gone when cron is not enabled |
| `RolloutOutcomes.AsksForUpgrade` | internal/controller/odooinstance_gate.go:120-148 | a pass asks for the upgrade of its revision exactly when it holds the revision back and sees no such upgrade |
| `RolloutOutcomes.AsksForInit` | internal/controller/odooinstance_init.go:88-110 | a pass asks for the initialisation upgrade exactly when the initialisation is due and it sees no such upgrade |
| `RolloutOutcomes.StatusWrites` | internal/controller/odooinstance_controller.go:186-261 | the status of a pass that went through: the revision as for the Deployments, the upgrade it waits for, whether the database is initialised |
| `RolloutOutcomes.FailureWrites` | internal/controller/odooinstance_controller.go:80-107 | the status of a pass that failed: the error, and what had been set by then |
| `RolloutOutcomes.UngatedRolls` | internal/controller/odooinstance_gate.go:80-85 | without spec.upgrade, once the database is initialised, every pass can roll to the current revision and creates nothing, whatever is recorded |
| `RolloutInit.NoPodBeforeInit` | internal/controller/odooinstance_controller.go:186-201 | with spec.initialize kept, no web or cron replica and no initialized status before the initialisation upgrade has succeeded |
| `RolloutInit.InitializedStays` | internal/controller/odooinstance_init.go:88-92 | status.initialized never goes back to false |
| `RolloutInit.AdoptsOnlyAfterInit` | internal/controller/odooinstance_init.go:93-99 | whatever the caches, a pass that adopts reads pods that were there only because the initialisation had succeeded by then |
| `RolloutInit.NeverAdopts` | internal/controller/odooinstance_init.go:93-99 | with a cache of upgrades that never goes back between passes and the succeeded upgrade kept, no pass of any run adopts, however old its reads are and however they differ in age |
| `RolloutInit.OldUpgradeListAdopts` | internal/controller/odooinstance_init.go:93-99 | the order of that cache is needed: a run of five steps in which a pass adopts on the upgrade list of the start |
| `RolloutInit.QueueMovesOutside` | internal/controller/odooupgrade_controller.go:214-249 | whatever the upgrade queue does is a step the rollout runs allow |
| `RolloutQueue.PodsOnlySeeEarned` | internal/controller/odooinstance_controller.go:170-192 | the two together: when the upgrades of a rollout run move as in a run of the queue, every hash stamped on the web or cron pods, or recorded as applied, was current in a pass with the gate open, or some pass of the queue had found its upgrade Running and its Job complete by then |
| `RolloutQueue.ServesAfterInitJob` | internal/controller/odooinstance_init.go:88-110 | likewise nothing serves before some pass of the queue has found the Job of the initialisation complete |
| `RolloutQueue.QueueGoesOn` | internal/controller/odooupgrade_controller.go:214-249 | such joint runs go on with whatever the queue does next |
| `RolloutQueue.PassCreates` | internal/controller/odooinstance_gate.go:171-191 | and with every upgrade a rollout pass creates under a new name, which is a creation of the queue |
| `RolloutInit.AppliedOnceRecorded` | internal/controller/odooinstance_controller.go:259-261 | at every point of every run the status shows a revision if and only if a status write of a pass that got through the gate has landed before |
| `RolloutInit.OpenUntilRecorded` | internal/controller/odooinstance_gate.go:80-93 | with spec.upgrade set and no initialisation pending, a pass finds the gate open if and only if no such write had landed before the snapshot it read the instance from, whatever was deployed |
| `RolloutInit.LostStatusReopensGate` | internal/controller/odooinstance_controller.go:259-261 | why a baseline is said of a pass and not of the first pass: with the first status write lost, a second revision rolls without an upgrade |
| `InstancePass.Cluster.Pass` | internal/controller/odooinstance_controller.go:138-268 | one pass with anything moving between its calls, each of which may be refused, be the last, or fail: it extends a run; one that goes through makes exactly its writes in this order, one that stops makes the first few of them and at most reports its error; when nothing else moves it leaves web and status on the current or the recorded revision as RolloutOutcomes says |
| `InstancePass.CompletesAs` | internal/controller/odooinstance_controller.go:138-268 | everything a complete pass leaves: revision and replicas of web and cron, applied revision, awaited upgrade, initialized flag, each told by the reads |
| `InstancePass.Cluster.Prepare` | internal/controller/odooinstance_controller.go:138-184 | first come the decisions and the one upgrade that they ask for: that of the initialisation while it is due, that of the revision while it is held back, and only one that is not seen; a looked-up name that is taken ends the pass before any Deployment is written |
| `InstancePass.Cluster.RollOut` | internal/controller/odooinstance_controller.go:186-261 | web Deployment, cron Deployment, status, in that order |
| `InstancePass.Cluster.GiveUp` | internal/controller/odooinstance_controller.go:80-107 | an error is recorded, with what the pass had already set, exactly when the status write works and the instance is the one that was read; it touches no Deployment; a conflict or a crash changes nothing |
| `InstancePass.Cluster.UpdateStatus` | internal/controller/odooinstance_controller.go:259-261 | the status write is a conflict exactly when the instance changed since it was read |
| `InstancePass.Cluster.Ensure` | internal/controller/odooinstance_gate.go:171-191 | creating an upgrade leaves an existing one of that name alone |
| `InstancePass.PassIsIdempotent` | internal/controller/odooinstance_controller.go:138-268 | a pass on unchanged facts is a fixpoint: the next complete pass finds everything in place |
| `InstancePass.PassRollsOut` | internal/controller/odooinstance_gate.go:97-103 | when the upgrade of the current revision has succeeded, one complete pass brings web, cron and status to it |
| `AddonSync.DecideSync` | internal/controller/odooaddon_state.go:123-163 | a Job is judged before any cooldown and only as the result of the spec at hand; only own Jobs are deleted; every pass asks for a later one, a cooling one for exactly the rest of the interval |
| `AddonOutcomes.StartsExactly` | internal/controller/odooaddon_controller.go:154-222 | exactly when a pass starts a Job, and which: namespace, instance and volume in place, spec valid, no Job there, half a minute after a failure or five minutes after anything else, and not pinned to what is synced; built for the spec that was read and mounting the claim of its instance |
| `AddonOutcomes.DeletesExactly` | internal/controller/odooaddon_controller.go:154-247 | exactly when a pass deletes the Job it read: it is its own and has ended, or was built from another spec, or the spec is not valid any more |
| `AddonOutcomes.EarlyWrites` | internal/controller/odooaddon_controller.go:118-150 | a foreign namespace fails the addon, a missing instance or volume parks it |
| `AddonOutcomes.JobWrites` | internal/controller/odooaddon_controller.go:154-260 | what a pass makes of the Job it read: an invalid spec and a foreign Job fail; a success is recorded with what its log says, or fails without a readable commit; a failure fails; a Job still at work shows Syncing over anything but Synced; of a Job for another spec nothing is recorded |
| `AddonOutcomes.IdleWrites` | internal/controller/odooaddon_state.go:146-163 | a pass without a Job leaves the phase while cooling or pinned, else shows Syncing over anything but Synced |
| `AddonOutcomes.ReportedReasons` | internal/controller/odooaddon_controller.go:118-222 | which reason Ready gives for a bad namespace, a missing instance, an unbound volume, an invalid spec, a taken Job name and a success without a commit |
| `AddonOutcomes.LooksAgain` | internal/controller/odooaddon_state.go:123-163 | when the controller looks again after each action |
| `AddonOutcomes.WritesKeep` | internal/controller/odooaddon_controller.go:225-345 | commit and modules change only with the result of an own current Job, and the time of the last sync only with a result or a first failure |
| `AddonOutcomes.WritesExactly` | internal/controller/odooaddon_controller.go:331-345 | the status write lands exactly on the object that was read, and a pass that deletes a stale Job makes none |
| `AddonRuns.ReadyIsSynced` | internal/controller/odooaddon_controller.go:225-345 | in every run the addon is Ready exactly when its phase is Synced |
| `AddonRuns.ReadyLasts` | internal/controller/odooaddon_state.go:165-173 | while Ready, a step keeps Ready, commit and modules, records a newer success, or is a write that reports a reason |
| `AddonRuns.DropsOnlyWithCause` | internal/controller/odooaddon_controller.go:118-222 | Ready is dropped exactly for a bad reference, an unbound volume, an invalid spec, a taken Job name, or a Job of this spec that ended without a commit |
| `AddonRuns.CommitsAreTraced` | internal/controller/odooaddon_controller.go:225-247 | whatever commit and modules the status shows came from a succeeded Job of this addon whose script was built from the source spec, that is everything that enters the hash, which the addon had when they were recorded |
| `AddonRuns.SuccessIsOfThisSpec` | internal/controller/odooaddon_controller.go:331-345 | the compare-and-set write ties the recorded result to the source spec of that moment |
| `AddonOutcomes.ResolveTellsApart` | internal/controller/odooaddon_sync.go:147-157 | what enters the hash and the script is the same for two specs exactly when they agree on url, effective ref, path, effective module name, layout and secret |
| `AddonOutcomes.CommitsAreOfTheseFields` | internal/controller/odooaddon_controller.go:225-247 | so the trace on the fields of the addon: whatever commit and modules are shown were recorded from a succeeded own Job that some pass had started for the url, ref, path, module name, layout and secret that the addon had when they were recorded |
| `AddonOutcomes.EditMakesStale` | internal/controller/odooaddon_state.go:138-139 | any edit of these makes the own Job stale: the next pass that reads both deletes it, records nothing of it and starts nothing |
| `AddonTarget.RecordedVolume` | internal/controller/odooaddon_sync.go:147-157 | in any run a recorded result is on the volume of the instance that the addon named when the pass that started the Job read it, so it is wrong if and only if the addon names another instance when it is recorded |
| `AddonTarget.RecordsAreOnVolume` | internal/controller/odooaddon_controller.go:225-247 | in every run in which the instance is edited only while the addon has no Job, none is started from an older read of it and none recorded from an older read: every recorded result is on the volume of the instance that is named |
| `AddonTarget.DangerIsExact` | internal/controller/odooaddon_controller.go:154-247 | at any point of any run: going on without another edit and without older reads, a result can be recorded for the wrong volume if and only if an own Job of this source spec is there that mounts another volume and may still succeed |
| `AddonTarget.EditEndangers` | internal/controller/odooaddon_sync.go:147-157 | editing only the instance brings that about if and only if the own Job has the hash of the spec and may still succeed |
| `AddonTarget.OldStartEndangers` | internal/controller/odooaddon_controller.go:378-395 | starting a Job from an older read of the addon brings it about if and only if the instance was edited since and nothing that enters the hash was |
| `AddonTarget.EditGoesWrong` | internal/controller/odooaddon_controller.go:225-247 | from any point of any run at which such a Job is there, the edit has a continuation that ends Ready for the new instance with a result from the volume of the old one |
| `AddonTarget.EditedInstanceIsRecorded` | internal/controller/odooaddon_controller.go:225-247 | the shortest such run, from the creation of the addon |
| `AddonRuns.ForeignJobsSurvive` | internal/controller/odooaddon_controller.go:409-424 | however stale its view, no pass deletes a Job of somebody else |
| `AddonRuns.ResyncsUnlessPinned` | internal/controller/odooaddon_sync.go:164-177 | a pass over a valid idle addon past its interval starts a Job if and only if the addon is not pinned to the commit it shows, which of its spec only the ref decides |
| `AddonPinned.PinnedStays` | internal/controller/odooaddon_sync.go:164-177 | over any run with the ref kept and reads no older than the start, a pinned addon without a Job stays pinned at its commit and gets no Job, whatever else of its spec is edited, until a status write drops Ready |
| `AddonPinned.PinnedUntilDropped` | internal/controller/odooaddon_controller.go:280-345 | and exactly until then: while no own Job has appeared, it is still pinned if and only if no status write has dropped Ready since |
| `AddonPinned.SyncsAfterDrop` | internal/controller/odooaddon_controller.go:154-222 | so the next pass past the interval starts a Job for the spec as it is now if and only if such a write has landed since |
| `AddonPinned.EditIsSynced` | internal/controller/odooaddon_controller.go:118-150 | from any point of any run with the addon pinned and idle, any edit that keeps the ref can be synced: one pass that does not find the instance parks the addon, and the next one starts a Job for the edited spec |
| `AddonPinned.FirstSync` | internal/controller/odooaddon_controller.go:225-247 | pinned addons are reached: for every spec that is in order and names a commit, the run of its first sync ends pinned and idle |
| `AddonPinned.MovedWhilePinned` | internal/controller/odooaddon_controller.go:118-222 | a run from the creation of the addon: pinned on one volume, moved to another instance, parked, and synced again on the volume of that one |
| `AddonPass.Cluster.Sync` | internal/controller/odooaddon_controller.go:154-222 | one pass with anything moving between its calls, each free to fail: one that goes through makes exactly the calls of its plan in order, one that fails makes the first of them; the status written is the decided one, and a finished Job goes only after its result was recorded |
| `AddonPass.Cluster.Retire` | internal/controller/odooaddon_controller.go:225-247 | record first, then delete the Job |
| `AddonPass.Cluster.Delete` | internal/controller/odooaddon_controller.go:409-424 | only the Job that was read is deleted |
| `AddonPass.Cluster.Create` | internal/controller/odooaddon_controller.go:378-395 | an existing Job of that name is left as it is |
| `AddonConditions.SetSays` | internal/controller/conditions.go:47-56 | setting a condition makes the list say it, and changes nothing when it already did |
| `AddonConditions.SetAllSays` | internal/controller/conditions.go:47-56 | the same for all conditions of a write, in any list |
| `AddonConditions.ConditionsAgree` | internal/controller/conditions.go:251-310 | after any write to any status: the first Ready condition is True exactly in phase Synced, Progressing exactly in Syncing, Degraded exactly in Failed, and each is False otherwise |
| `AddonConditions.ReasonsAreShown` | internal/controller/conditions.go:251-310 | a failed, failing or parking write shows its reason and message in Ready, a failure in Degraded too, a success the commit and the number of modules |
| `AddonConditions.TimeMovesOnFlips` | internal/controller/conditions.go:43-46 | the transition time of a condition moves exactly when its status flips, and no other condition changes |
| `AddonOutcomes.ReadyConditionAgrees` | internal/controller/conditions.go:251-310 | over every run the Ready condition says what the ready field says |
| `AddonConditions.KeepChangesNothing` | internal/controller/conditions.go:234-243 | feeding the kept reason and message back in rebuilds identical conditions, in every phase |
| `AddonConditions.RepeatingWritesNothing` | internal/controller/odooaddon_controller.go:280-345 | after any write, a cooldown, await or skip pass writes nothing; a repeated pending, failed or syncing write changes nothing either |
| `AddonConditions.AddonRecord.SetConditions` | internal/controller/conditions.go:51-56 | the loop that updates the list in place |
| `AddonConditions.AddonRecord.WriteStatus` | internal/controller/odooaddon_controller.go:331-345 | the status is sent exactly when it changed, with Ready, Progressing and Degraded True exactly in phase Synced, Syncing and Failed |
| `AddonDeletion.DeletionEnds` | internal/controller/odooaddon_controller.go:497-578 | whatever the Jobs do, the finalizer is gone after a bounded number of rounds; each failed or partial write costs at most one more timeout |
| `AddonDeletion.SmoothProgresses` | internal/controller/odooaddon_controller.go:521-562 | each round of waiting and a pass shortens the time left |
| `AddonDeletion.PassDoes` | internal/controller/odooaddon_controller.go:497-578 | what a pass does, exactly: the finalizer goes when the volume is absent, or no own sync Job is there and the cleanup Job is foreign, has ended, or is older than three minutes; before that an own sync Job goes, then a cleanup Job comes |
| `AddonDeletion.WaitsForCleanup` | internal/controller/odooaddon_controller.go:544-561 | over any rounds without a setback: when the finalizer goes while the volume is there, the name of the cleanup Job was taken, or the pass of an earlier round created that Job and it has ended or has had three minutes |
| `AddonDeletion.FinalizerGoesLate` | internal/controller/odooaddon_controller.go:544-561 | in any run with stale reads a pass drops the finalizer only on having read so |
| `AddonDeletion.CleanupMeetsExactly` | internal/controller/odooaddon_controller.go:517-533 | when a pass creates the cleanup Job: a sync Job of the addon is there then or ever after if and only if one is there already, which is so if and only if one was started since the snapshot in which the pass read that there was none |
| `AddonDeletion.CleanupRunsAlone` | internal/controller/odooaddon_controller.go:517-533 | with a Job cache that shows what the controller itself started: when the cleanup Job is created no sync Job of the addon exists, and none is ever created again |
| `AddonDeletion.MissedStartMeets` | internal/controller/odooaddon_controller.go:502-533 | that cache is needed at every point of every run: while an own sync Job is there and no cleanup Job is, a deletion pass that read the Job from before its start puts both side by side |
| `AddonDeletion.StaleJobsMeet` | internal/controller/odooaddon_controller.go:502-533 | the shortest such run |
| `AddonDeletion.NewerSyncSurvives` | internal/controller/odooaddon_controller.go:409-424 | a deletion pass that stops the sync Job it read leaves a newer one of that name alone |
| `AddonDeletion.Addon.HandleFinalizer` | internal/controller/odooaddon_controller.go:497-562 | the pass as it updates Jobs and finalizer, with failing writes; it drops the finalizer only without the volume, or with no own sync Job and the cleanup over |
| `AddonDeletion.Addon.FinishDeletion` | internal/controller/odooaddon_controller.go:565-578 | own Jobs go first, then the finalizer |
| `ShellWords.ShJoin` | internal/controller/odooupgrade_script.go:46-53 | the two loops give the joined line |
| `ShellWords.WordRead` | internal/controller/odooupgrade_script.go:39-44 | the shell reads one quoted word back as that word |
| `ShellWords.JoinedRead` | internal/controller/odooupgrade_script.go:46-53 | tokenising a joined line gives back exactly the words, for every list of strings |
| `ShellWords.JoinIsInjective` | internal/controller/odooupgrade_script.go:46-53 | different lists never give one line |
| `ShellWords.InitScriptRuns` | internal/controller/odooupgrade_script.go:60-77 | whatever database and arguments are, the initialisation script is read as exactly its three commands with exactly these words, and the snippet as the input of the last |
| `Retention.Claim.PruneDumps` | internal/controller/odoobackup_script.go:103-122 | the count-and-drop loop keeps what the specification keeps |
| `Retention.Claim.Retain` | internal/controller/odoobackup_script.go:122 | no pruning with retention zero |
| `Retention.Bucket.Retain` | internal/controller/odoobackup_script.go:173-193 | the sort-descending loop keeps the same |
| `Retention.LoopsAgree` | internal/controller/odoobackup_script.go:103-122 | claim and bucket, given the same names, keep the same names |
| `Retention.NewestStay` | internal/controller/odoobackup_script.go:103-122 | what stays are min(N, total) dumps, each newer than every pruned one |
| `Retention.ArchivesFollow` | internal/controller/odoobackup_script.go:112-119 | a filestore archive goes exactly with its dump |
| `Retention.OthersStay` | internal/controller/odoobackup_script.go:106-117 | nothing of another database and no other file is removed |
| `Retention.DumpNames` | internal/controller/odoobackup_script.go:71-106 | the pattern of the loops matches exactly the names that a backup gives its dumps |
| `Retention.FileNames` | internal/controller/odoobackup_script.go:65-75 | the two file names of a backup, from database and timestamp |
| `Retention.OneDatabase` | internal/controller/odoobackup_script.go:65-71 | the timestamp has fixed length, so no file belongs to two databases |
| `Retention.SortsByTime` | internal/controller/odoobackup_script.go:65-102 | names of one database sort by their timestamps |
| `Revisions.AddonRevisions` | internal/controller/odooinstance_addons.go:68-87 | the loop gives the canonical text |
| `Revisions.Ready` | internal/controller/odooinstance_addons.go:28-36 | an addon is in the result exactly when it is ready and of the instance |
| `Revisions.FilterInOrder` | internal/controller/odooinstance_addons.go:28-36 | the filter keeps the order and every occurrence |
| `Revisions.TextChangesWithRevision` | internal/controller/odooinstance_addons.go:65-87 | the hashed text is the same exactly when the set of (name, commit, modules) is |
| `Revisions.EntryIsFaithful` | internal/controller/odooinstance_addons.go:68-82 | one entry determines name, commit and module set |
| `OdooConf.RenderOdooConf` | internal/controller/odooinstance_config.go:56-109 | accepts exactly the acceptable specs and gives the text of the merged settings; otherwise reports a user key with a bad name or value, the first in key order, and only when there is none the first bad database setting |
| `OdooConf.TextReadsBack` | internal/controller/odooinstance_config.go:104-108 | reading the text line by line at the first equals sign gives back the settings |
| `OdooConf.TextTellsApart` | internal/controller/odooinstance_config.go:53-56 | different settings never render alike |
| `OdooConf.AcceptedIsRenderable` | internal/controller/odooinstance_config.go:59-75 | whatever is accepted reads back |
| `OdooConf.OperatorKeysWin` | internal/controller/odooinstance_config.go:77-102 | operator keys over user keys over defaults |
| `OdooConf.BlockedKeysStayOut` | internal/controller/odooinstance_config.go:28-32 | blocked keys never reach the file |
| `OdooConf.AcceptedExactly` | internal/controller/odooinstance_config.go:59-102 | what is accepted, told letter by letter: no key the operator owns, nothing that breaks a line, no cron setting next to spec.cron |
| `OdooConf.DatabaseIsSet` | internal/controller/odooinstance_config.go:85-101 | with a database configured the file connects to it as its user and over TLS, whatever the user wrote |
| `OdooConf.PortIsSet` | internal/controller/odooinstance_config.go:85-101 | at the port that is given, or 5432 |
| `OdooConf.OtherKeys` | internal/controller/odooinstance_config.go:34-41 | every other key: the cron threads, else the user, else the default, else nothing |
| `OdooConf.PlainFile` | internal/controller/odooinstance_config.go:104-108 | the lines of the file of an instance without settings |
| `Text.LessIsByteOrder` | internal/controller/odooinstance_config.go:59-108 | the order of the keys is byte order, told by the first place where two strings differ |
| `Text.DecimalReads` | internal/controller/odooinstance_config.go:85-101 | a printed number reads back |
| `SyncOutput.ReadSyncOutput` | internal/controller/odooaddon_sync.go:656-670 | the loops give the commit and the module list of the log |
| `SyncOutput.ListIsClean` | internal/controller/odooaddon_sync.go:672-689 | a parsed module list is ascending and holds only valid folder names |
| `SyncOutput.NamesExactly` | internal/controller/odooaddon_sync.go:228-246 | which names are valid, and the line that is looked for |
| `SyncOutput.OutputReadsBack` | internal/controller/odooaddon_sync.go:452-453 | whatever was logged before, the operator reads back the module list and the commit the script printed last if and only if the names are in byte order and all of them pass validateModuleName; the script itself publishes any folder with a manifest whose name does not start with a dot |
| `SyncOutput.WhatIsRead` | internal/controller/odooaddon_sync.go:656-689 | for any other names: what is taken for the list is the printed line, trimmed, and the commit is still the one printed last |
| `SyncOutput.ReadsNothingExactly` | internal/controller/odooaddon_sync.go:672-689 | for names without a comma, the last of which does not end in a blank: no modules are read if and only if some name fails validateModuleName |
| `SyncOutput.OthersAreRead` | internal/controller/odooaddon_sync.go:672-689 | otherwise other modules can be read than those published: a folder named `a,b` is read as `a` and `b`, one named `a` with a trailing blank as `a` |

## Left out

- Client calls, informers, RBAC, the manager, events and log streaming: only the history of snapshots, reads of earlier snapshots and compare-and-set writes are modelled.
- Pod, Job, CronJob, Deployment, Service and volume claim templates: record building without protocol.
- Blanks beyond ASCII at the ends of a log line, which the reader trims as well.
- Git, pg_dump, tar and aws: a commit is a name with module folders, a backup a set of file names.
- The hash functions: equal hashes stand for equal inputs in `AddonRuns` (a hypothesis of its lemmas), and the canonical text is proved instead in `Revisions`. Upgrade names are compared by their first eight digits.
- URL, reference and path validators: a parameter of `AddonSync` that gives an error text or none.
- SyncMoments.CutOffIsSafe: asks for a volume without leaked links, because stale removal only knows the manifest; `SyncHistory.ResolvesAfterRun` says exactly what happens without that hypothesis.
- QueueRuns.StaleReadsAreSafe: asks for creations in (timestamp, name) order and for no name used twice; `QueueLimits` shows the order is needed. It is about recorded phases; the Jobs behind them are the matter of `QueueJobs`.
- QueueJobs.CarefulRunsAreSafe: is about Jobs of objects that exist; a Job of a deleted object, and pods of an ended Job that are still shutting down, are not part of the model.
- RolloutInit.NeverAdopts: asks for spec.initialize kept, for the succeeded upgrade not deleted, and for one cache of upgrades that never goes back; `RolloutInit.OldUpgradeListAdopts` shows the last is needed.
- AddonTarget.RecordsAreOnVolume: asks that the instance is edited only while no own Job is there or comes from an older read; `AddonTarget.EditGoesWrong` and `AddonTarget.OldStartEndangers` show what happens otherwise.
- AddonDeletion.CleanupRunsAlone: asks for an addon cache that never goes back and for a Job cache that shows the Jobs the controller itself started; `AddonDeletion.MissedStartMeets` shows the second is needed. Pods of a deleted Job that are still terminating are not part of the model.
- AddonDeletion.DeletionEnds: counts rounds in which the clock advances by at least one unit; a pass woken earlier by a watch changes nothing in the count.
- SyncOverlap.OverlapSparesOthers: of the addon's own store it says nothing, because what a script does when another one removes or replaces its files is not spelled out; `SyncOverlap.LateFinisherLeaks` is about turns in which no files go missing.
- AddonPinned.PinnedStays: asks for reads no older than the start; a pass that still sees an older ref or an older Job can drop the pin.
- SyncInterleaving.CleanupRun: its machine lists only the addon's own links, since looking at a foreign link changes nothing; `AddonsMount.Mount.CleanUp` looks at all of them.
- Two addons racing for the same module name: the conflict check and the publish are separate steps of the script.
- A crash inside one `rm -rf`, and two changes of the volume with the same modification time.
- Module content that differs between two runs at one commit, as after a change of addonPath: the release keeps the first copy.
- OdooConf.TextReadsBack: a reader that also splits at a colon, folds letter case, strips blanks or skips comment lines may see a user value differently.
- ShellWords.JoinedRead: is about words; that a first word may be a reserved word or an assignment is a matter of the grammar, and the scripts always start with a command name.
- Upgrades recreated under one name, and timestamps finer than the stored ones.
- Message texts of the instance and upgrade conditions, and the cron Deployment's conditions: easy members.
- Mount paths of addons, log tails and bounded names: easy members.
