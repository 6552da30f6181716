# The vCloud CSI driver, verified

This project models the vCloud storage driver for Kubernetes (a Container Storage Interface driver,
specification v1.9.0) and proves what its handlers keep, whatever way their calls interleave and
whichever requests, replies and system calls fail.

## What is modelled

**The controller service** is a transition system (`ControllerModel`). Any number of CreateVolume,
DeleteVolume, ControllerPublishVolume, ControllerUnpublishVolume, ControllerExpandVolume,
CreateSnapshot and DeleteSnapshot calls run at once over one lock table and one remote backend.
Each call arrives, takes its lock or is turned away, exchanges requests and replies with the
backend, releases its lock and returns. The backend is weak on purpose: ATTACH adds a pair without
looking, CREATE adds a record without looking, any write may take effect although its reply is lost,
and in a world with late writes it may even take effect after its handler has given up and returned.
A `World` says what the surroundings promise: whether lookups by name work, whether the backend
refuses duplicate names, whether a page of 100 snapshots is enough, and so on. The main theorems say
exactly in which worlds a property holds in all runs, with a concrete run for every world in which
it does not.

**The node service** is a second transition system (`NodeModel`), over stacks of mounts per path,
disks with a filesystem type and files, and directories. Every system call may fail, RemoveAll may
delete anything it can see, and a mount that timed out may still land after its handler has returned.
Here the `World` holds the orchestrator's promises: the volume each path belongs to, the device of
each volume, and the rule of the specification's "Concurrency" section that one call is in flight
per volume (`serial`).

**The handlers** themselves are methods of two classes (`ControllerServer`, `NodeServer`) with the
branches of the source. Each is proved to be a sequence of steps of its transition system with
arbitrary steps of other calls in between, so all theorems about runs hold of them (`Guarantees`).
The calls into the backend and the operating system are methods of which a handler knows the
contract only; their bodies are one backend, or one system, that meets the contract.

**The parts around them** are modelled in the form of the source: the lock table, the decoding of
JSON replies and its way of turning sizes into float64 and back, the classification of errors by
substring, the INI parser of the configuration file, the lookup in /proc/mounts, the bounded mount
retry, and the admission decision of the claim-resize webhook.

## Assumptions

- One controller process (deploy/kubernetes/controller.yaml:11), and one process per node.
- A read that succeeds is truthful. `VcloudClient` shows what that means for the HTTP replies.
- A volume id or snapshot id that the backend assigns is new and not empty; sizes are not negative.
- A backend that reports success for an EXPAND grants at least what was asked; one that accepts a
  removal leaves nothing of what was to be removed; one that accepts an ATTACH names the path under
  which the node sees the volume; one that reports a new snapshot gives its true name and source, and
  its true size or none. (A failed request may have taken effect or not.)
- A mount of a device that fails leaves nothing mounted. A bind that fails may have been mounted, as it
  is bound first and remounted afterwards.
- A directory in use has one spelling: no "/a" beside "/a/" or "//a", no "..", no symbolic links.
- A path is used for one volume. Everything else the orchestrator may promise is part of a `World`.
- When a node's run starts, a path carries at most one mount, and a disk without a filesystem holds no
  files. Where a `World` allows other mounts outside the paths in use (`foreign`), they stay as they are.

## What the proofs found out

- A volume is never attached to two nodes unless a write takes effect after its call has returned:
  the lock is held from the read to the ATTACH, and a node id is never empty
  (`ControllerAttachments.AttachedOnceIff`).
- A failed lookup by name goes on to CREATE, so one name can end up with two volumes; the exact
  condition under which it cannot is in `ControllerNames.NamesUniqueIff`, and the one under which a
  repeated call reports the volume again in `ControllerNames.SuccessesAgreeIff`.
- An expand goes ahead blindly when the volume cannot be read, and so may shrink it on a backend
  that takes the request literally (`ControllerSizes.NeverShrinksIff`), or issue an EXPAND again
  that has succeeded (`ControllerExpandRepeats.SuccessIsFinalIff`).
- The list fallback of CreateSnapshot sees one page and one source volume
  (`ControllerSnapshots.SnapshotNamesUniqueIff`, `ControllerSnapshots.UniquePerSourceIff`,
  `ControllerSnapshotRepeats.SuccessesAgreeIff`).
- An empty reply to the read of a snapshot is no error, so CreateVolume goes on to restore a snapshot
  that is not there, unless the backend answers such reads with a failure
  (`ControllerOutcomes.CheckFindsSourceIff`).
- Any failed removal whose status is 404 or whose body reads like "not found" counts as done
  (`VcloudClient.RemovalSucceedsIff`), so an unpublish can report success while the volume stays
  attached (`ControllerRemovals.UnpublishMayLeaveAttached`). Success means that nothing is left
  exactly where the backend says "not found" only when that is so
  (`ControllerRemovals.DoneMeansGoneIff`, for deletes and unpublish alike), and an unpublished volume
  stays detached until the call returns exactly where, in addition, no write takes effect late
  (`ControllerRemovals.StaysGoneIff`).
- A late mount, a probe that misses a filesystem, a mount below a path in use, or one device staged
  at two paths at once can cost data; nothing else in the model can (`NodeRuns.DataSafetyIff`). The
  second is real: exit code 2 of blkid counts as "no filesystem" (pkg/vcloud/mounter.go:185-188).
- The minimum size is applied after the limit is checked, so a limit is respected exactly when it is
  at least 1 GiB (`ControllerNames.LimitRespectedIff`).
- Two volumes can block each other's node calls exactly when one id starts with the other one and
  "-/" (`NodeLocks.ShareKeyIff`).
- The documentation says the webhook covers the driver `bs.csi.vnetwork.dev` (line 469 of the repository's README.md), the
  name in the released manifests. The code compares with `vcloud.csi.vnetwork.dev`
  (cmd/pvc-expand-webhook/main.go:203). The model follows the code
  (`ResizeWebhook.NeverDeniesReleasedDriver`).

## Model

| member | source | states |
|---|---|---|
| ControllerAttachments.AttachedOnceIff | pkg/vcloud/controllerserver.go:246-290 | in every run from a backend where each volume has at most one node, this stays so, if and only if there is no backend or no write takes effect after its call has returned; replies may be lost and unpublish may report too much |
| ControllerAttachments.InvInRun | pkg/vcloud/controllerserver.go:234-290 | in every state of such a run, a call about to ATTACH names a node and its volume is attached nowhere |
| ControllerAttachments.PublishTellsTheTruth | pkg/vcloud/controllerserver.go:253-289 | when a publish call succeeds its node and no other has the volume, and the device path it hands out is that attachment's own; when it fails a precondition another node has it |
| ControllerOutcomes.PublishDecides | pkg/vcloud/controllerserver.go:253-275 | where reads succeed, the backend alone decides what the read leads to: not found, success with the own attachment's path, a failed precondition, or ATTACH, each exactly in its case |
| ControllerOutcomes.PublishGoesOn | pkg/vcloud/controllerserver.go:253-289 | what each reply to the read or the ATTACH leads to, and with which device path |
| ControllerAttachments.LateAttachDoubles | pkg/vcloud/controllerserver.go:278-281 | a run in which an abandoned ATTACH takes effect after another one: two nodes |
| ControllerRemovals.AssuresIff | pkg/vcloud/controllerserver.go:317-329 | on its own, a reply that lets a removal succeed assures that nothing is left if and only if the backend accepted the request; with no node given, nothing left means detached from all |
| ControllerRemovals.DoneMeansGoneIff | pkg/vcloud/controllerserver.go:213-220 | for every well-formed delete or unpublish request, in all runs nothing is left at the moment a call for it succeeds, if and only if there is a backend and a removal fails with a "not found" text only when nothing is left |
| ControllerRemovals.GoneUnlessRestoredIff | pkg/vcloud/controllerserver.go:573-590 | under the same exact condition what was removed is gone in every state until the call returns, or a step since, from which it was gone to one where it is not, was a CREATE or ATTACH that brought it back |
| ControllerRemovals.StaysGoneIff | pkg/vcloud/controllerserver.go:307-329 | for every well-formed unpublish request, with a node or without, its volume is detached in every state in which a call for it leaves with success, if and only if there is a backend, that promise holds and no write takes effect late |
| ControllerOutcomes.RemovalGoesOn | pkg/vcloud/controllerserver.go:212-224 | a removal succeeds when it is accepted or fails with a "not found" text, and else fails as internal |
| ControllerRemovals.InvInRun | pkg/vcloud/controllerserver.go:311-329 | the invariant behind it, in every state of every run |
| ControllerRemovals.UnpublishMayLeaveAttached | pkg/vcloud/controllerserver.go:318-325 | without the promise: a run in which unpublish succeeds and the volume stays attached |
| ControllerRemovals.LateAttachReturns | pkg/vcloud/controllerserver.go:278-281 | with a late ATTACH: a run in which the volume is attached again before the unpublish call returns |
| ControllerNames.NamesUniqueIff | pkg/vcloud/controllerserver.go:117-168 | every run keeps one volume per name if and only if the backend refuses duplicates, or lookups do not fail and no CREATE takes effect late, or there is no backend |
| ControllerNames.InvInRun | pkg/vcloud/controllerserver.go:56-168 | in every state a name about to be created is free where lookups can be trusted, names are unique where the world keeps them so, and every success reports the chosen size |
| ControllerNames.FailedLookupDuplicates | pkg/vcloud/controllerserver.go:119-149 | a failed lookup goes on to CREATE and leaves two volumes of one name |
| ControllerNames.LateCreateDuplicates | pkg/vcloud/controllerserver.go:149-155 | an abandoned CREATE that takes effect late leaves two volumes of one name, although lookups work |
| ControllerNames.SuccessesReportTheirSize | pkg/vcloud/controllerserver.go:123-194 | all successes report the size their request settles on, in the existing, created and mock branches |
| ControllerNames.PresentAtSuccess | pkg/vcloud/controllerserver.go:119-194 | at the moment of its success a call's volume is in the backend under the requested name, or without a backend has the name's mock id |
| ControllerNames.SuccessesAgreeIff | pkg/vcloud/controllerserver.go:117-194 | a success for a name whose reported volume has been there ever since reports the same volume, in all runs and whatever else is created or deleted, if and only if the backend refuses duplicates, or lookups do not fail and no CREATE takes effect late, or there is no backend |
| ControllerNames.FailedLookupDisagrees | pkg/vcloud/controllerserver.go:119-149 | two calls whose lookups fail report two volumes |
| ControllerNames.LateCreateDisagrees | pkg/vcloud/controllerserver.go:119-155 | a late volume is the one that the next lookup finds and reports |
| ControllerNames.ChosenSizeBounds | pkg/vcloud/controllerserver.go:71-87 | the chosen size is the larger of 1 GiB and what is required, or 10 GiB, so at most 16 TiB, and with a limit at most the larger of the limit and 1 GiB; out of range exactly when the size asked for exceeds limit or maximum |
| ControllerOutcomes.CreateGoesOn | pkg/vcloud/controllerserver.go:104-181 | what each reply to the check of the source, the lookup or the CREATE leads to, with which id, size or error |
| ControllerOutcomes.SourceIsChecked | pkg/vcloud/controllerserver.go:97-115 | in every run, a restoring CreateVolume gets to its lookup, CREATE or success only after it has read its snapshot without a failure |
| ControllerOutcomes.CheckFindsSourceIff | pkg/vcloud/controllerserver.go:104-113 | a check that is passed has found the snapshot, in all runs, if and only if the backend answers the read of an absent one with a failure, or there is no backend; it then refuses exactly the absent ones, as not found |
| ControllerOutcomes.EmptyReplyPasses | pkg/vcloud/client/client.go:420-423 | an empty reply lets the check pass without a snapshot |
| ControllerNames.LimitRespectedIff | pkg/vcloud/controllerserver.go:77-84 | a positive limit is respected if and only if it is at least 1 GiB |
| ControllerNames.LimitBelowMinimum | pkg/vcloud/controllerserver.go:77-84 | a limit of one byte still yields 1 GiB |
| ControllerNames.NoFalseMismatch | pkg/vcloud/controllerserver.go:123-145 | an existing volume of at most 16 TiB is found again exactly when its true size is the chosen one, otherwise the call fails with already exists |
| ControllerSizes.NeverShrinksIff | pkg/vcloud/controllerserver.go:398-432 | no step of any run makes a volume smaller if and only if reads succeed with a size, sizes are at most 2^53 and no EXPAND takes effect late, or there is no backend |
| ControllerSizes.InvInRun | pkg/vcloud/controllerserver.go:398-446 | in every state an EXPAND about to be issued asks for more than the volume has, and a success reports at least what was asked |
| ControllerSizes.ExpandOnlyGrows | pkg/vcloud/controllerserver.go:385-446 | EXPAND is issued only for strictly more than the present size, and every success reports at least what was asked |
| ControllerOutcomes.ExpandGoesOn | pkg/vcloud/controllerserver.go:400-445 | what each reply to the read or the EXPAND leads to, with which bytes or error |
| ControllerOutcomes.ExpandReportsTruth | pkg/vcloud/controllerserver.go:411-445 | at the moment of its success an expand reports the volume's own size as it comes through a JSON number, or, after an EXPAND whose reply leaves it out, what was asked for |
| ControllerOutcomes.LargeEnoughIsLeftAlone | pkg/vcloud/controllerserver.go:411-418 | with known, exact sizes a volume that is large enough makes the call succeed with that size and without a write |
| ControllerSizes.LargeAtSuccess | pkg/vcloud/controllerserver.go:411-445 | at the moment of its success the volume has what the call asked for |
| ControllerSizes.StaysLarge | pkg/vcloud/controllerserver.go:411-445 | while it is there, whatever else is deleted, a volume keeps what it has |
| ControllerExpandRepeats.SuccessIsFinalIff | pkg/vcloud/controllerserver.go:398-445 | after a success, as long as the volume is there and whatever else is deleted, no call for that much or less issues another EXPAND, in all runs, if and only if reads succeed with a size, sizes are at most 2^53 and no EXPAND takes effect late, or there is no backend |
| ControllerExpandRepeats.BlindExpandRepeats | pkg/vcloud/controllerserver.go:401-408 | a failed read makes a repeated call issue its EXPAND again |
| ControllerExpandRepeats.RoundedExpandRepeats | pkg/vcloud/controllerserver.go:411-421 | so does a size that is rounded down on the wire |
| ControllerExpandRepeats.LateExpandRepeats | pkg/vcloud/controllerserver.go:421-432 | so does an abandoned EXPAND that takes effect after the success |
| ControllerSizes.BlindExpandShrinks | pkg/vcloud/controllerserver.go:401-408 | a failed read does not stop the expand: a run in which the volume shrinks |
| ControllerSizes.RoundedExpandShrinks | pkg/vcloud/controllerserver.go:411-421 | above 2^53 a size that was rounded down lets a smaller EXPAND through |
| ControllerSizes.LateExpandShrinks | pkg/vcloud/controllerserver.go:421-432 | an abandoned EXPAND that takes effect after a larger one shrinks the volume |
| ControllerSnapshots.SnapshotNamesUniqueIff | pkg/vcloud/controllerserver.go:474-518 | every run keeps one snapshot per name if and only if the backend refuses duplicates, or lookups by name work and no CREATE takes effect late, or there is no backend |
| ControllerSnapshots.UniquePerSourceIff | pkg/vcloud/controllerserver.go:491-506 | per name and source volume it is also enough that listings work and the source's snapshots fit the one page of 100 |
| ControllerOutcomes.SnapshotReadsGoOn | pkg/vcloud/controllerserver.go:476-515 | what each reply to lookup, listing or read of the source leads to, with which snapshot, size or error |
| ControllerOutcomes.SnapshotWriteGoesOn | pkg/vcloud/controllerserver.go:518-548 | what each reply to the CREATE leads to, with which size or error |
| ControllerOutcomes.SizeIsRemembered | pkg/vcloud/controllerserver.go:508-542 | the size a call takes to its CREATE is the one its read of the source volume reported, a true one or none |
| ControllerOutcomes.SnapshotReportsSize | pkg/vcloud/controllerserver.go:486-548 | at the moment of a success the snapshot's own size is reported; where the reply leaves it out, 0 for one that was found and the source volume's size as it was read for a new one |
| ControllerSnapshots.HitsMatchTheirSource | pkg/vcloud/controllerserver.go:476-560 | every success returns a snapshot of the requested source |
| ControllerSnapshots.HitsMatchTheirRequest | pkg/vcloud/controllerserver.go:476-560 | at the moment of a success, by lookup, listing or CREATE, the backend holds the snapshot under the requested name and source |
| ControllerSnapshotRepeats.SuccessesAgreeIff | pkg/vcloud/controllerserver.go:474-548 | a success for a name and source whose reported snapshot has been there ever since reports the same snapshot, in all runs and whatever else is taken or deleted, if and only if the backend refuses duplicates, or no CREATE takes effect late and lookups work or listings do and fit their page, or there is no backend |
| ControllerSnapshotRepeats.LateSnapshotDisagrees | pkg/vcloud/controllerserver.go:476-537 | a late snapshot is the one that the next lookup finds and reports |
| ControllerSnapshotRepeats.FailedListingDisagrees | pkg/vcloud/controllerserver.go:493-518 | two calls whose lookups and listings fail report two snapshots |
| ControllerSnapshotRepeats.SecondPageDisagrees | pkg/vcloud/controllerserver.go:495-518 | so do two calls to which the hundred and first snapshot is never shown |
| ControllerSnapshots.InvInRun | pkg/vcloud/controllerserver.go:469-548 | in every state a call past a trusted lookup knows the name to be free, past a full listing it knows it for its source |
| ControllerSnapshots.ListingDecides | pkg/vcloud/controllerserver.go:495-505 | a listing of a source that fits one page and does not show a name proves that the source has no snapshot of that name |
| ControllerSnapshots.ListingMissesOtherSources | pkg/vcloud/controllerserver.go:493-518 | where lookups fail, a snapshot of another volume with that name is missed and a second one is taken |
| ControllerSnapshots.FailedListingDuplicates | pkg/vcloud/controllerserver.go:495-518 | where lookup and listing fail, a second snapshot of one name and source is taken |
| ControllerSnapshots.SecondPageDuplicates | pkg/vcloud/controllerserver.go:495-518 | where lookups fail, the 101st snapshot is missed and taken again |
| ControllerSnapshots.LateSnapshotDuplicates | pkg/vcloud/controllerserver.go:518-537 | an abandoned CREATE that takes effect late leaves two snapshots of one name and source |
| ControllerLocks.LockTableIsHeldKeys | pkg/vcloud/controllerserver.go:56-59 | in every state of every run the lock table is the set of keys of the calls in flight, no two of them share a key, and it is empty when all have returned |
| ControllerHistory.OneAtATime | pkg/vcloud/controllerserver.go:469-472 | no two calls about one string, a name to create or an id, are in flight in any state of any run |
| ControllerHistory.TurnedAwayIff | pkg/vcloud/controllerserver.go:228-249 | a call is refused with an invalid argument exactly when it is incomplete, and else aborted exactly when a call in flight is about the same string |
| ControllerHistory.AdmittedIff | pkg/vcloud/controllerserver.go:61-119 | where a call goes that gets its lock: answered at once without a backend, or for block volumes and sizes out of range, and else to its first request |
| ControllerHistory.ReturnsItsResult | pkg/vcloud/controllerserver.go:56-59 | what a call returns is what it came to under its lock, or it was turned away |
| ControllerLocks.LocksInRun | pkg/vcloud/utils.go:30-47 | the lock invariant in every state of every run |
| ControllerHandlers.ControllerServer.constructor | pkg/vcloud/controllerserver.go:35-39 | a new server stands at the start of a run |
| ControllerHandlers.ControllerServer.CreateVolume | pkg/vcloud/controllerserver.go:42-195 | the handler is a run of its call with other calls in between, and returns what its last step says |
| ControllerHandlers.ControllerServer.SizeFor | pkg/vcloud/controllerserver.go:71-87 | computes the chosen size, or that it is out of range |
| ControllerHandlers.ControllerServer.MountOnly | pkg/vcloud/controllerserver.go:61-69 | accepts exactly the capability lists of mount capabilities only |
| ControllerHandlers.ControllerServer.CreateVolumeLocked | pkg/vcloud/controllerserver.go:61-182 | the part under the lock, up to leaving with its result |
| ControllerHandlers.ControllerServer.FindOrCreateVolume | pkg/vcloud/controllerserver.go:117-181 | lookup and comparison |
| ControllerHandlers.ControllerServer.CreateNewVolume | pkg/vcloud/controllerserver.go:148-181 | CREATE and its error classes |
| ControllerHandlers.ControllerServer.DeleteVolume | pkg/vcloud/controllerserver.go:198-225 | the handler as a run of its call |
| ControllerHandlers.ControllerServer.DeleteVolumeLocked | pkg/vcloud/controllerserver.go:212-224 | the DELETE under the lock |
| ControllerHandlers.ControllerServer.Removed | pkg/vcloud/controllerserver.go:213-220 | a removal succeeds exactly on success or on a text that reads like "not found" |
| ControllerHandlers.ControllerServer.ControllerPublishVolume | pkg/vcloud/controllerserver.go:228-298 | the handler as a run of its call |
| ControllerHandlers.ControllerServer.PublishLocked | pkg/vcloud/controllerserver.go:251-297 | read and checks under the lock |
| ControllerHandlers.ControllerServer.AttachTo | pkg/vcloud/controllerserver.go:277-289 | ATTACH, and the device path or failure it ends with |
| ControllerHandlers.ControllerServer.ControllerUnpublishVolume | pkg/vcloud/controllerserver.go:301-330 | the handler as a run of its call |
| ControllerHandlers.ControllerServer.UnpublishLocked | pkg/vcloud/controllerserver.go:317-329 | the DETACH under the lock |
| ControllerHandlers.ControllerServer.ControllerExpandVolume | pkg/vcloud/controllerserver.go:374-452 | the handler as a run of its call |
| ControllerHandlers.ControllerServer.ExpandLocked | pkg/vcloud/controllerserver.go:398-452 | read and comparison under the lock |
| ControllerHandlers.ControllerServer.GrowVolume | pkg/vcloud/controllerserver.go:421-446 | EXPAND, and the size that is reported |
| ControllerHandlers.ControllerServer.CreateSnapshot | pkg/vcloud/controllerserver.go:455-561 | the handler as a run of its call |
| ControllerHandlers.ControllerServer.CreateSnapshotLocked | pkg/vcloud/controllerserver.go:474-561 | lookup by name, fallback listing, and on to the source volume |
| ControllerHandlers.ControllerServer.FindNamed | pkg/vcloud/controllerserver.go:497-504 | the loop returns the first entry of that name, or that there is none |
| ControllerHandlers.ControllerServer.TakeSnapshot | pkg/vcloud/controllerserver.go:508-515 | the check of the source volume |
| ControllerHandlers.ControllerServer.CreateNewSnapshot | pkg/vcloud/controllerserver.go:517-548 | CREATE, its error classes and the size that is filled in |
| ControllerHandlers.ControllerServer.DeleteSnapshot | pkg/vcloud/controllerserver.go:564-591 | the handler as a run of its call |
| ControllerHandlers.ControllerServer.DeleteSnapshotLocked | pkg/vcloud/controllerserver.go:578-590 | the DELETE under the lock |
| VolumeLockTable.VolumeLocks.constructor | pkg/vcloud/utils.go:22-26 | a new table holds no key |
| VolumeLockTable.VolumeLocks.TryAcquire | pkg/vcloud/utils.go:30-39 | succeeds exactly when the key is free, and then holds it; otherwise nothing changes |
| VolumeLockTable.VolumeLocks.Release | pkg/vcloud/utils.go:42-47 | frees the key, held or not, and no other |
| Guarantees.OfController | pkg/vcloud/controllerserver.go:29-39 | at any moment of any server: lock table, attachments and names as the theorems say |
| Guarantees.SizesOfController | pkg/vcloud/controllerserver.go:374-452 | no step a server has seen has shrunk a volume, where reads can be trusted |
| Guarantees.SnapshotsOfController | pkg/vcloud/controllerserver.go:455-561 | a server's snapshots are unique by name, or by name and source, in the worlds that keep them so |
| Guarantees.RemovalsOfController | pkg/vcloud/controllerserver.go:301-330 | an unpublish call of a server about to return has its volume detached, where removals can be trusted |
| NodeRuns.DataSafetyIff | pkg/vcloud/nodeserver.go:94-133 | no step of the driver ever removes a file or formats a disk that has a filesystem, if and only if no mount can land late, no probe of a staged device can miss its filesystem, nothing can be mounted below a path in use and no device can be staged at two paths at once |
| NodeData.DriverKeepsData | pkg/vcloud/nodeserver.go:167-190 | the direction that says when data is safe, in every run and whichever system calls fail |
| NodeData.RemoveAllSeesNothing | pkg/vcloud/nodeserver.go:182-190 | after the unmount nothing is visible at or below the path when RemoveAll runs |
| NodeData.OneFormatter | pkg/vcloud/mounter.go:76-97 | no two calls are about to format one device |
| NodeRuns.LateMountsLoseData | pkg/vcloud/utils.go:58-78 | a mount that lands between unmount and RemoveAll costs its files |
| NodeRuns.TwoHomesLoseData | pkg/vcloud/mounter.go:76-97 | two stage calls of one blank device both find no filesystem, and the second one formats away what was stored |
| NodeRuns.MisreadLosesData | pkg/vcloud/mounter.go:181-194 | a probe that takes a device with data for blank has it formatted |
| NodeRuns.NestedPathsLoseData | pkg/vcloud/nodeserver.go:302-325 | RemoveAll runs through a mount below its path |
| NodeStacks.StacksAreBounded | pkg/vcloud/nodeserver.go:65-133 | the mounts stacked on a path never exceed one plus those that landed on it late; a successful unstage or unpublish leaves only those |
| NodeStacks.NoLateMountsNoStacks | pkg/vcloud/nodeserver.go:161-185 | where no mount can land late no path carries two mounts, and a successful unstage or unpublish leaves its path unmounted |
| NodeRuns.NeverStacksIff | pkg/vcloud/utils.go:58-78 | mounts never pile up in any run if and only if no mount can land late |
| NodeRuns.LateMountsStack | pkg/vcloud/utils.go:58-78 | the bound is reached: one late mount, two mounts on a path |
| NodeOutcomes.StageSucceedsIff | pkg/vcloud/nodeserver.go:94-143 | when a stage call comes to its result, it succeeds exactly when it has found its path mounted or has just mounted its device there, which the path then shows |
| NodeOutcomes.StageFailsIff | pkg/vcloud/nodeserver.go:71-133 | and it fails for want of the device, for an invalid argument, or as internal, each exactly in its case: a failed or timed-out mount, and any other failed system call, is internal |
| NodeOutcomes.StageGoesOn | pkg/vcloud/nodeserver.go:77-143 | what each system call of a stage call leads to, and the filesystem type that mkfs leaves |
| NodeOutcomes.StagePrepares | pkg/vcloud/nodeserver.go:107-119 | a stage call about to mount has made its directory and has seen, or else made, a filesystem on the device |
| NodeOutcomes.PublishEndsIff | pkg/vcloud/nodeserver.go:227-278 | when a publish call comes to its result, it succeeds exactly when it has found its target mounted or has just bound there what the staging path shows, fails a precondition exactly when it found that not mounted, and else is internal |
| NodeOutcomes.PublishGoesOn | pkg/vcloud/nodeserver.go:227-278 | what each system call of a publish call leads to |
| NodeOutcomes.PublishPrepares | pkg/vcloud/nodeserver.go:227-259 | a publish call about to bind has found its staging path mounted and made its directory |
| NodeOutcomes.UnmountEndsIff | pkg/vcloud/nodeserver.go:167-193 | an unstage or unpublish call succeeds exactly when it has found its path not mounted or not there, or has unmounted it itself; it fails exactly when its inspection or unmount does |
| NodeOutcomes.UnmountGoesOn | pkg/vcloud/nodeserver.go:302-328 | what each system call of these calls leads to |
| NodeOutcomes.TurnedAwayIff | pkg/vcloud/nodeserver.go:197-225 | a call is refused with an invalid argument exactly when it is incomplete, and else aborted exactly when a call in flight has the same volume and path |
| NodeOutcomes.AdmittedIff | pkg/vcloud/nodeserver.go:71-78 | where a call goes that gets its lock; only a stage call without a device is answered at once |
| NodeOutcomes.ReturnsItsResult | pkg/vcloud/nodeserver.go:64-69 | what a call returns is what it came to under its lock, or it was turned away |
| NodeRuns.ShowsOwnIff | pkg/vcloud/nodeserver.go:72-133 | every mount of every path in use shows the path's own volume in all runs, if and only if volumes can only be staged from their own devices and no publish call can meet another call of its volume |
| NodeDevices.PathsShowTheirVolume | pkg/vcloud/nodeserver.go:228-275 | the same direction for states and results: also a call that finds its path mounted already succeeds only with its volume's device visible there |
| NodeRuns.ForeignDeviceShows | pkg/vcloud/nodeserver.go:72-133 | a volume staged from another device shows that device |
| NodeRuns.ParallelCallsShowDirectory | pkg/vcloud/nodeserver.go:227-275 | an unstage between check and bind makes publish bind a plain directory and report success |
| NodeLocks.LockTableIsHeldKeys | pkg/vcloud/nodeserver.go:64-69 | in every state of every run the lock table is the set of keys of the calls in flight, no two of them share a key, and it is empty when all have returned |
| NodeLocks.ShareKeyIff | pkg/vcloud/nodeserver.go:65 | two different ids have the same key for some absolute paths if and only if one starts with the other one and "-/" |
| NodeLocks.SharedKeyNests | pkg/vcloud/nodeserver.go:221 | equal keys for two absolute paths mean equal ids and paths, or ids nested in this way |
| NodeLocks.KeysAreInjective | pkg/vcloud/nodeserver.go:65 | two keys are equal exactly when volume and path are, for ids without a slash and paths that start with one |
| NodeLocks.SlashesCollide | pkg/vcloud/nodeserver.go:65 | two ids that do |
| NodeHandlers.NodeServer.constructor | pkg/vcloud/nodeserver.go:37-43 | a new server stands at the start of a run |
| NodeHandlers.NodeServer.NodeStageVolume | pkg/vcloud/nodeserver.go:46-144 | the handler is a run of its call with other calls, late mounts and workloads in between, and returns what its last step says |
| NodeHandlers.NodeServer.StageLocked | pkg/vcloud/nodeserver.go:71-143 | device, capability and mount checks under the lock |
| NodeHandlers.NodeServer.FormatAndMount | pkg/vcloud/nodeserver.go:107-133 | directory, format, and on to the mount |
| NodeHandlers.NodeServer.MountDevice | pkg/vcloud/nodeserver.go:121-133 | the mount with its time-out, which counts as a failure |
| NodeHandlers.NodeServer.GetDeviceFSType | pkg/vcloud/mounter.go:181-194 | the type blkid prints, none for exit code 2, a failure for any other: the true type, unless blkid could not tell |
| NodeHandlers.NodeServer.Format | pkg/vcloud/mounter.go:69-103 | probes, and makes a filesystem only where the probe found none |
| NodeHandlers.NodeServer.MountWithTimeout | pkg/vcloud/utils.go:58-78 | whichever comes first, the mount's own result or the deadline, which leaves the mount under way |
| NodeHandlers.NodeServer.NodeUnstageVolume | pkg/vcloud/nodeserver.go:147-194 | the handler as a run of its call |
| NodeHandlers.NodeServer.UnmountLocked | pkg/vcloud/nodeserver.go:167-193 | the check before the unmount, for unstage and unpublish alike |
| NodeHandlers.NodeServer.UnmountAndRemove | pkg/vcloud/nodeserver.go:182-190 | unmount, then RemoveAll whose failure is only logged |
| NodeHandlers.NodeServer.NodePublishVolume | pkg/vcloud/nodeserver.go:197-279 | the handler as a run of its call |
| NodeHandlers.NodeServer.PublishLocked | pkg/vcloud/nodeserver.go:227-247 | the checks of staging and target path under the lock |
| NodeHandlers.NodeServer.BindTarget | pkg/vcloud/nodeserver.go:249-275 | directory and bind mount, which may be left behind when it fails |
| NodeHandlers.NodeServer.NodeUnpublishVolume | pkg/vcloud/nodeserver.go:282-329 | the handler as a run of its call |
| Guarantees.OfNode | pkg/vcloud/nodeserver.go:37-43 | at any moment of any server: lock table, stacks and devices as the theorems say |
| Guarantees.DataOfNode | pkg/vcloud/nodeserver.go:94-133 | no step a server or a mount it has started has made has lost data, in a safe world |
| IniConfig.ParseINIFile | pkg/vcloud/client/config.go:64-120 | the line loop computes the meaning of the text, and never writes to a missing section |
| IniConfig.ParseLine | pkg/vcloud/client/config.go:78-113 | one turn of the loop does to the section and the nested map what the line means |
| IniConfig.Step | pkg/vcloud/client/config.go:79-112 | whatever a line holds, a non-empty current section stays in the map, and no section goes |
| IniConfig.RoundTrip | pkg/vcloud/client/config.go:77-119 | printing any well-formed sections in any layout and quoting and parsing the text gives exactly their names and, per key, the last value assigned, across reopened sections |
| IniConfig.LayoutIsIrrelevant | pkg/vcloud/client/config.go:106-110 | documents that differ only in padding and quotes parse alike |
| IniConfig.NoiseIsIgnored | pkg/vcloud/client/config.go:81-84 | a blank or comment line put between any two lines of any text, at its start, or at its end without a line end, changes nothing |
| IniConfig.EntryStep | pkg/vcloud/client/config.go:101-112 | a printed assignment sets exactly its key to exactly its value |
| IniConfig.HeaderStep | pkg/vcloud/client/config.go:86-94 | a printed header opens exactly its section and keeps what it held |
| IniConfig.LoadConfig | pkg/vcloud/client/config.go:36-61 | on any text: reports a missing section exactly when there is none, a missing key only when it is absent or empty, and otherwise both settings |
| IniConfig.ConfigFailures | pkg/vcloud/client/config.go:42-55 | a printed file fails for want of the section, the URL or the token exactly when its document lacks them, in this order |
| IniConfig.ConfigRoundTrip | pkg/vcloud/client/config.go:36-61 | a printed file loads as a configuration exactly when its last settings are that configuration |
| WireSizes.ExactUpTo2Pow53 | pkg/vcloud/client/client.go:378-380 | every size of magnitude at most 2^53 survives its way through a JSON number |
| WireSizes.ExactIffRepresentable | pkg/vcloud/client/client.go:378-380 | in general it survives exactly when a float64 represents it |
| WireSizes.Nearest | pkg/vcloud/client/client.go:378-380 | what arrives is a float64, and none is nearer to the true size |
| WireSizes.TiesToEven | pkg/vcloud/client/client.go:378-380 | halfway between two of them the even one is taken |
| WireSizes.Monotone | pkg/vcloud/client/client.go:378-380 | the order of sizes is never reversed |
| ClientErrors.ContainsAt | pkg/vcloud/client/client.go:451-458 | the loop decides whether the text occurs |
| ClientErrors.Contains | pkg/vcloud/client/client.go:447-449 | so does the guarded call, for empty texts too |
| ClientErrors.IsNotFoundError | pkg/vcloud/client/client.go:429-436 | true exactly when one of the three texts occurs |
| ClientErrors.IsAlreadyExistsError | pkg/vcloud/client/client.go:439-445 | true exactly when one of the three texts occurs |
| ClientErrors.WrappingKeepsClass | pkg/vcloud/client/client.go:149-152 | a wrapped error has exactly the classes of the error and of the words in front of it |
| ClientErrors.StatusClassifiedIff | pkg/vcloud/client/client.go:94-96 | a reply is "not found" exactly when its status is 404 or its body reads so, and "already exists" exactly when its status is 409 or its body reads so |
| VcloudClient.ParseVolumeResponse | pkg/vcloud/client/client.go:369-395 | fields of the expected type are taken over, all others keep their zero values |
| VcloudClient.ParseSnapshotResponse | pkg/vcloud/client/client.go:398-426 | the same for snapshots, and nothing at all without an id |
| VcloudClient.ParseSnapshotList | pkg/vcloud/client/client.go:349-360 | the append loop yields one entry per object, in order, and skips everything else |
| VcloudClient.NoNilIff | pkg/vcloud/client/client.go:349-360 | the list is free of nil entries exactly when every object carries an id |
| VcloudClient.VolumeRoundTrip | pkg/vcloud/client/client.go:369-395 | decoding an encoded volume gives it back exactly when a float64 holds its size |
| VcloudClient.SnapshotRoundTrip | pkg/vcloud/client/client.go:398-426 | the same for snapshots |
| VcloudClient.TruthfulReplies | pkg/vcloud/client/client.go:158-180 | an encoded volume, or a 404 or id-less reply for an absent one, reaches the handlers as a truthful read |
| VcloudClient.TruthfulLookups | pkg/vcloud/client/client.go:183-205 | the same for the lookup by name |
| VcloudClient.TruthfulSnapshotLookups | pkg/vcloud/client/client.go:321-333 | the same for the lookup of a snapshot by name |
| VcloudClient.TruthfulContents | pkg/vcloud/client/client.go:306-318 | the same for the snapshot to restore from, where a 404 answers for an absent one |
| VcloudClient.ReadsClassifiedIff | pkg/vcloud/client/client.go:158-180 | a read by id fails, and reads like "not found", exactly when the request does, or for a volume when the reply carries no id |
| VcloudClient.TruthfulListings | pkg/vcloud/client/client.go:336-366 | an encoded page reaches the handler as a truthful listing without nil entries |
| VcloudClient.RemovalSucceedsIff | pkg/vcloud/client/client.go:143-155 | a removal succeeds exactly on status 200 or 404 or on a body or transport error that reads like "not found"; the client's own words never do |
| VcloudClient.HonestReplies | pkg/vcloud/client/client.go:143-155 | the promise of honest worlds holds for a reply exactly when such a status or body comes only with nothing left |
| VcloudClient.ExpandReportsSize | pkg/vcloud/client/client.go:248-272 | an expand succeeds exactly when the request does, and reports the reply's capacity or, without one, the size asked for |
| MountTable.GetDeviceForMountPoint | pkg/vcloud/nodeserver.go:457-474 | returns the device of the first line that names the mount point, and fails exactly when none does |
| MountTable.FindsFirstMount | pkg/vcloud/nodeserver.go:463-473 | on any rendered mount table that is the first mount at the point |
| MountTable.AgreesWithMap | pkg/vcloud/nodeserver.go:463-473 | with distinct mount points the lookup is a map lookup |
| MountRetry.MountWithRetry | pkg/vcloud/mounter.go:117-150 | at most 5 attempts, stopping at the first that settles the call; success exactly if it mounted or was confirmed mounted; failure with the last error |
| MountRetry.SleepBound | pkg/vcloud/mounter.go:138-146 | at most n(n+1) seconds are slept after n attempts, at most 30 in all, reached exactly when the device was busy every time from the second attempt on; 2 seconds after each attempt but the fifth when it never was |
| ResizeWebhook.IsVolumeAttached | cmd/pvc-expand-webhook/main.go:233-257 | the loop finds out whether an attachment in effect resolves to the handle |
| ResizeWebhook.Validate | cmd/pvc-expand-webhook/main.go:143-231 | denies exactly a decodable claim update that grows storage of an unbound claim, or of a volume of this driver that a readable attachment list shows nowhere attached |
| ResizeWebhook.NeverDeniesReleasedDriver | cmd/pvc-expand-webhook/main.go:202-206 | a bound claim on a volume of the driver under its documented name is never denied |

## Left out

- The gRPC servers, HTTP transport, TLS, JSON text and the decimal form of numbers: a JSON value is a datatype, and an exchange ends with a status and fields or with a transport error. A body that cannot be read or decoded is not told apart from these.
- Sizes of 2^63 - 512 and more, whose float64 exceeds an int64: the conversion back is not defined by the language there. Sizes are unbounded integers otherwise.
- Reply fields and request parameters that no decision depends on: volume type, volume context, content source, the time and readiness of a snapshot after they have been decoded, mount flags, read-only binds.
- CreateVolume does not tell a volume found by name from one that was restored from the requested snapshot; the model keeps that, as the content source is not part of its results.
- Entries of a snapshot list without an id, which the parser turns into nil and the handler would dereference: NoNilIff says exactly when a list is free of them, and a page that reaches a handler is.
- A successful reply to CREATE of a snapshot that lacks an id, for the same reason.
- ListSnapshots as a call of its own, ValidateVolumeCapabilities, the identity service and the capability lists: each is settled by reading one branch.
- NodeExpandVolume, NodeGetVolumeStats, permissions and chmod, FakeMounter: foreign commands, or for use without a node.
- What mkfs, mount and RemoveAll do beyond filesystem type, stack of mounts and files; MkdirAll of the target's parent and of the target is one step.
- Real time: a time-out may strike at any mount; the retry only adds up its delays.
- The Scanner's limit on the length of a line and read errors of the configuration file.
- Octal escapes in /proc/mounts: fields are taken as words without white space, as the lookup does.
- Kubernetes quantities: the webhook compares integers.
- RoundUpBytes, the GiB conversions, SetKeyValueInMap, CleanupPath and WaitForPathNotExist: no handler calls them.
- FirstPage and the other reads of the backend in `ControllerServer`: stand-ins that show one truthful reply each.
- Interference: its body is empty and stands for any steps of other calls; its contract is what the handlers rely on.
- The bodies of the backend's and the system's calls in the two servers: one possible behaviour each. What is proved about the handlers uses their contracts only.
