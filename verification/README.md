# Verification of the vCloud Director CSI driver

A Dafny model of the volume lifecycle of `vcd-csi` and proofs about it. The driver keeps independent disks in a vCloud
Director, attaches them to VMs, and mounts them on the nodes. An attachment is recorded twice in the cloud: the disk
knows its VM, and the VM's settings list the disk with a bus and a unit. The unit number is all that a node gets to
find the device of a disk.

`dafny verify dfyconfig.toml` checks the whole project.

## How the model is built

- `CloudModel.dfy` holds the cloud: VMs with their lists of settings, disks with their attached VM, and the operations
  the cloud offers (attach, detach, create, update, delete), each of which either fits the state or is refused. The
  class `Cloud` adds that any call can fail without effect; it counts the calls that did. The govcd objects the client
  holds are copies of what the cloud said, so they are values, and can be stale.
- `Slots.dfy` is the allocator of the units 8 to 15. `Lifecycle.dfy` says what each client operation does, within one
  VDC and over all of them, and states the invariant `Inv` of the cloud. `Invariant.dfy` shows that every cloud
  operation keeps it. `VcdClient.dfy` is the client itself: a class with the loops and branches of `client.go`,
  proved to take only the steps `Lifecycle.dfy` allows. `calm` in those relations says that no call to the cloud failed
  whose error is returned; the two kinds of call whose errors are logged only are named apart (`lost`, `missed`).
- `Runs.dfy`, `Volumes.dfy`, `Attachment.dfy` and `Outcomes.dfy` prove properties of all runs, the refinement to a simple
  map, the laws of attaching, and what a reported success is worth. `Devices.dfy` and `Placement.dfy` carry the unit
  number to the node.
- `Locker.dfy`, `Controller.dfy`, `Answers.dfy`, `Sizes.dfy`, `Expanding.dfy` and `Interleaving.dfy` model the
  controller's handlers, their answers, their lock, and every interleaving of them. `Storage.dfy` is the size arithmetic in 64 bits.
- `Node.dfy` has the node's handlers over a mount table; `Records.dfy` says what each answers and which record it adds
  to the table or takes from it; `Formatting.dfy` joins nodes and cloud to follow filesystems.
- `Samples.dfy` and `Witnesses.dfy` show, on small clouds, the inputs on which a property fails.
- `Text.dfy` and `Wrappers.dfy` hold decimal printing, splitting, and counting.

Assumptions, all stated as preconditions: the cloud satisfies `Inv` at the start (the two records of the attachments
agree, VM and disk names are unique within each VDC of the driver, sizes fit in 64 bits); this process is the only
writer; the cloud never gives an HREF to two disks; a node shows one device per settings entry of its VM, and no other
device of it has the unit of an entry in its path. The operators' rule that units 8 to 15 are used on no other bus
(README.md:84-107) is the predicate `Placement.Rule`.

Where code and comments disagree, or a property callers may expect does not hold, the model follows the code. Each line
names the exact condition, and the lemma of `Witnesses.dfy` with an input that fails.

- On a full VM the allocator's error is overwritten and unit 0 is asked for (`Placement.FullNode`). The path returned
  still identifies the disk when no other entry of the VM has unit 0, and only then (`Placement.PathIdentifies`,
  `NinthVolume`).
- A delete whose look-up in a VDC failed goes on, and can report success with the disk still there
  (`Outcomes.DeleteOutcome`, `DeletesNothing`).
- When submitting a create fails, the error is logged and the client goes on to wait for the job it does not have. What
  that wait reports is up to the client library, which is not part of this model; should it report success, there is no
  disk (`Outcomes.CreateOutcome`, `CreatesNothing`).
- A create that finds a disk of any size succeeds and reports the requested capacity (`Sizes.CreatedCapacity`,
  `ReportsWrongCapacity`).
- A range with both bounds around the minimum is granted below the minimum, and two one-sided ranges are refused
  although supported sizes meet them (`Storage.ExtractStorageBounds`, `GrantedTooSmall`;
  `Storage.ExtractStorageComplete`, `Storage.OneSidedRefused`, `RefusedOneSided`). The comment above the function
  promises the default size where the range is not satisfied; the code returns an error.
- The VDCs are visited in no fixed order, which shows when several have the VM or the disk (`Attachment.AttachOrder`,
  `Attachment.DeleteOrder`, `Attachment.DetachOrder`, `Expanding.ExpandOrder`; `AttachOrderMatters`, `PathByOrder`,
  `DeleteOrderMatters`, `DetachOrderMatters`, `ExpandOrderMatters`). For the same reason a detach can succeed and leave
  a disk of the name attached (`Outcomes.DetachLeavesNone`), and repeating an expand can grow another disk
  (`Expanding.ExpandRepeats`).
- A resize to a request that is not whole mebibytes falls short of it, so that repeating the expand resizes again; after
  a whole one the repeat is skipped, and asks for node expansion even of a block volume (`Expanding.ExpandAgain`). A
  disk that was big enough is skipped both times, whole or not (`EnoughAlready`).
- A publish returns the unit only, while staging demands the size too (`Formatting.PublishedContext`).
- Two expands that both list before either resizes can shrink the volume (`Interleaving.ShrinksExactlyWhen`,
  `Interleaving.ExpandsRace`).
- An expand dereferences nil when it carries no capacity range, or when it names a volume that is not listed with a
  range that would be granted (`Sizes.ExpandCrashes`, `ExpandOfUnlisted`; the answer `Crashed`). Staging a volume whose
  access type is unset dereferences nil once its device is found (`Node.StageCrashes`; the answer
  `Node.NodeError.Crashed`).
- The lock is consumed by the publish that reads it, and the node argument of a detach is used in log lines only.

## Model

| member | source | states |
|---|---|---|
| Slots.BuildDiskUnits | pkg/vcd-client/client.go:623-629 | the pool is exactly the units 8 to 15, none marked |
| Slots.GetFreeUnitNum | pkg/vcd-client/client.go:631-649 | any unit returned is reserved and unused on the bus; the error means that there is none, and comes with unit 0 |
| Slots.PickUnused | pkg/vcd-client/client.go:642-646 | visiting the marks in any order finds an unmarked unit if there is one |
| Slots.FreeUnitCount | pkg/vcd-client/client.go:631-649 | pigeonhole for settings lists of any length: free units and entries in reserved units of the bus make at least eight, and exactly eight when no slot is used twice |
| Slots.RoomMeansFreeUnit | internal/driver/drv.go:32 | a VM with fewer than maxVolumesPerNode entries in reserved units never meets the allocator's error |
| VcdClient.VcdClient.GetVMByName | pkg/vcd-client/client.go:556-584 | the first VM of the VDC's listing with the name, or not found exactly when there is none |
| VcdClient.VcdClient.GetDiskByName | pkg/vcd-client/client.go:586-600 | the one disk of the name with its record, not found when there is none, a mismatch when there are several |
| VcdClient.VcdClient.DisksExists | pkg/vcd-client/client.go:602-620 | whether the VDC has a disk of the name; not found is not an error |
| VcdClient.VcdClient.DetachFrom | pkg/vcd-client/client.go:504-553 | the loop over the settings ends as the detach specified for one VDC, with every error case |
| VcdClient.VcdClient.DetachDisk | pkg/vcd-client/client.go:295-329 | over any order of the VDCs: the first VDC with the name decides, none means success without effect, a failed call means an error without effect |
| VcdClient.VcdClient.AttachTo | pkg/vcd-client/client.go:365-447 | with the copy of the VM read before the detach: ends as the attach specified for one VDC for some unit the allocator may give; a call that fails within the detach is answered ErrWrongDiskAttach without effect, any other with its own error and the disk where it was or detached |
| VcdClient.VcdClient.AttachDisk | pkg/vcd-client/client.go:337-453 | over any order of the VDCs: VM not found, or the attach in some VDC that has the VM; with a failed call, the exact error and the cloud unchanged but for a finished detach |
| VcdClient.VcdClient.CreateDisk | pkg/vcd-client/client.go:175-231 | unknown VDC, existing name, or one new detached disk under an HREF never used; every failed call is returned without effect, but for the submission of the create, whose error is logged only and which leaves no disk |
| VcdClient.VcdClient.DeleteFrom | pkg/vcd-client/client.go:260-289 | detaches if attached, then deletes; a failed call leaves the disk as it was or detached |
| VcdClient.VcdClient.DeleteDisk | pkg/vcd-client/client.go:233-293 | deletes the disk of some VDC that has exactly one of the name and whose look-up did not fail, or finds none in all those looked up; every failed call but a look-up is returned, with the disk where it was or detached |
| VcdClient.VcdClient.ResizeDisk | pkg/vcd-client/client.go:455-501 | re-checks the attachment in the same critical section: an attached disk is refused and unchanged |
| VcdClient.VcdClient.ListVolumes | pkg/vcd-client/client.go:133-172 | every disk of the configured VDCs is listed exactly once with its size in bytes and its VDC |
| Lifecycle.NeverTwoDisks | pkg/vcd-client/client.go:593-595 | under the invariant a look-up never meets two disks of one name |
| Lifecycle.DetachEffect | pkg/vcd-client/client.go:515-552 | under the invariant the attached VM is found by its name and its settings name the disk, so the disk ends up detached and both bug branches are dead |
| Lifecycle.RecordsDisagree | pkg/vcd-client/client.go:515-552 | where the two records of an attachment disagree: a VM that is not found is an error of detach and delete and ErrWrongDiskAttach of attach; a VM that does not name the disk is no error of detach, and delete and attach are refused by the cloud; nothing changes |
| Lifecycle.NoLoneDisk | pkg/vcd-client/client.go:365-374 | without one disk of the name: the errors of detach and attach for none and for several |
| Invariant.DetachKeepsInv | pkg/vcd-client/client.go:526-547 | a detach keeps the invariant, moves no other disk and edits no other VM |
| Invariant.AttachKeepsInv | pkg/vcd-client/client.go:425-441 | an attach to a free slot of a VM of the disk's VDC keeps the invariant and puts the disk in that slot |
| Invariant.CreateKeepsInv | pkg/vcd-client/client.go:194-227 | a create after the existence check keeps names unique and the invariant |
| Invariant.UpdateKeepsInv | pkg/vcd-client/client.go:485-497 | a resize keeps the invariant and every attachment |
| Invariant.DeleteKeepsInv | pkg/vcd-client/client.go:275-289 | a delete of a detached disk keeps the invariant and every other disk |
| Invariant.TwoViewsAgree | pkg/vcd-client/client.go:376-405 | a disk says it is attached to v exactly when v's settings name it; they name it once, no other VM does, and v is in the disk's VDC |
| Invariant.Conservation | pkg/vcd-client/client.go:526-547 | as many settings entries name a disk as there are attached disks |
| Runs.StaleSnapshotSafe | pkg/vcd-client/client.go:356-432 | the copy of the target VM read before the detach is still true when the attach is issued |
| Runs.AttachEffect | pkg/vcd-client/client.go:365-447 | what an attach does in every state of the invariant: repeat, fresh or migrated, the slot, the reported unit, and exactly when it is refused |
| Runs.DeleteEffect | pkg/vcd-client/client.go:255-289 | in a VDC with the name, a delete succeeds and removes that disk and nothing else |
| Runs.StepSafe | pkg/vcd-client/client.go:108-115 | every operation with every outcome and failure keeps the invariant and is about at most one disk, which it names |
| Runs.StepFrame | pkg/vcd-client/client.go:108-115 | disks of other names keep record, VM and slot; no operation changes the size of an attached disk |
| Runs.RunSafe | pkg/vcd-client/client.go:175-553 | the invariant, and with it the agreement of the two views, holds after any run of operations |
| Runs.RunFrame | pkg/vcd-client/client.go:175-553 | a disk that no operation of a run names keeps its record, VM and slot |
| Runs.BugBranchesDead | pkg/vcd-client/client.go:406-407 | in every state of every run: no count mismatch, the attached VM is found by name, and its settings name the disk |
| Runs.ConservationStep | pkg/vcd-client/client.go:382-447 | the number of entries that name a disk changes with the attachment of the one disk moved |
| Runs.TakeAwayCounts | pkg/vcd-client/client.go:265-289 | a detach or delete takes one entry away if the disk was attached, else none |
| Outcomes.DeleteOutcome | pkg/vcd-client/client.go:255-292 | a delete that reports success has left no disk of the name in any VDC exactly when no look-up in a VDC holding it failed and at most one VDC held it; one that reports an error deleted nothing |
| Outcomes.CreateOutcome | pkg/vcd-client/client.go:194-230 | a create that reports success has left the volume in its VDC exactly when submitting it did not fail; one that reports an error changed nothing |
| Outcomes.DetachLeavesNone | pkg/vcd-client/client.go:295-329 | an undisturbed detach reports success, and for every order of the VDCs leaves no disk of the name attached exactly when a VDC with an attached one is the only one with the name |
| Outcomes.DeletedForGood | pkg/vcd-client/client.go:233-293 | in any run, up to the next operation that names the volume: it is gone after a delete that reported success exactly under that condition |
| Attachment.AttachPlaces | pkg/vcd-client/client.go:382-447 | after a successful attach the disk is on the named VM of its VDC, in the slot whose unit was reported |
| Attachment.AttachIdempotent | pkg/vcd-client/client.go:382-404 | with the VM in one VDC, a second attach to it returns the same unit and changes nothing |
| Attachment.AttachRepeats | pkg/vcd-client/client.go:348-404 | after a successful attach every further one answers the same and changes nothing exactly when each VDC that has the VM has the disk on it, in a slot and with a size as answered |
| Attachment.AttachMigrates | pkg/vcd-client/client.go:410-447 | an attach to another VM frees the slot on the first, adds one entry on the second, and moves no other disk |
| Attachment.AttachCounts | pkg/vcd-client/client.go:382-447 | a successful attach adds one entry for a disk on no VM, none on a repeat or migration |
| Attachment.AttachOrder | pkg/vcd-client/client.go:348-451 | an undisturbed attach gives the same cloud and the same answer, unit included, for every order of the VDCs, but for the choice among free units on one VM, exactly when all VDCs that have the VM, if several, come to the same verdict (no disk, there in this unit with this size, refused) without moving a disk |
| Attachment.DeleteOrder | pkg/vcd-client/client.go:247-292 | a delete is the same for every order of the VDCs exactly when at most one of them holds the name |
| Attachment.DetachOrder | pkg/vcd-client/client.go:307-328 | a detach is the same for every order exactly when a VDC with an attached disk of the name is the only one with the name |
| Volumes.DetachSimple | pkg/vcd-client/client.go:504-553 | on the simple map: the volume is on no node, or was not found |
| Volumes.DeleteSimple | pkg/vcd-client/client.go:255-289 | on the simple map: the volume is gone |
| Volumes.AttachSimple | pkg/vcd-client/client.go:365-447 | on the simple map: not found, already there, moved to the node, or refused and on no node |
| Volumes.Refinement | pkg/vcd-client/client.go:108-115 | every operation on disks, VMs and settings, with every outcome and failure, is one step of a map from (VDC, name) to size and node, and the nodes stay |
| Volumes.RunRefines | pkg/vcd-client/client.go:108-115 | the maps along any run form a run of the simple machine |
| Devices.GetDiskUnit | internal/mount/mounter.go:461-488 | succeeds exactly when one device has the unit in its path, and returns /dev/ and that device's name |
| Devices.GetDiskNameBySizeAndUnit | internal/mount/mounter.go:385-436 | each error exactly: bad size, no device of the size, the only one in another unit; succeeds exactly when one device has both the size and the unit, with its path |
| Devices.TwoStagesAreOneFilter | internal/mount/mounter.go:397-435 | the two stages with their 0/1/many split succeed with d exactly when d is the only device with both size and unit |
| Devices.SearchesAgree | internal/mount/mounter.go:397-487 | where the search by unit finds a device of the requested size, both searches agree |
| Devices.UnitOfPath | internal/mount/mounter.go:441-448 | splitting a printed SCSI path gives the printed unit back |
| Devices.Identified | internal/mount/mounter.go:461-488 | the printed unit of any entry leads to that entry's device exactly when no other entry of the VM, on any bus, has the unit |
| Text.SplitJoin | internal/mount/mounter.go:442 | splitting at the separator undoes joining |
| Text.ItoaInjective | pkg/vcd-client/client.go:401 | no two unit numbers print alike |
| Text.ParsePrinted | internal/mount/mounter.go:387 | an unsigned 64-bit size survives printing and parsing, larger numbers are refused |
| Placement.RuleKept | README.md:84-107 | no operation puts an entry in units 8 to 15 of another bus |
| Placement.FullNode | pkg/vcd-client/client.go:425-432 | a fresh attach lands in a reserved unit exactly when one is free; otherwise, if it succeeds, it is at unit 0 |
| Placement.StaysPut | pkg/vcd-client/client.go:175-553 | nothing but a successful attach puts a disk in a slot |
| Placement.PlacedKept | pkg/vcd-client/client.go:425-447 | while no node is over its limit, every disk is placed in a reserved unit of the bus, the reported path is a reserved unit, and no attach is refused |
| Placement.DiskIdentified | internal/mount/mounter.go:461-488 | under the operators' rule a disk placed in a reserved unit is found on its VM by its unit |
| Placement.PathIdentifies | pkg/vcd-client/client.go:389-447 | for every successful attach, fresh, migrated or repeated, in a reserved unit or unit 0: the path returned makes GetDiskUnit on that VM return that disk's device exactly when no other entry of the VM, on any bus, has the unit reported |
| Placement.PathsIdentify | pkg/vcd-client/client.go:389-447 | the same before the call: every path an attach in a VDC can return identifies the disk exactly when the unit it has already is no other entry's, or no unit the allocator may give and the cloud would accept is any entry's |
| Placement.EndToEndExactly | pkg/vcd-client/client.go:389-447 | and so in any run until an operation names the disk again |
| Placement.EndToEnd | pkg/vcd-client/client.go:389-447 | in any run within the limit: the path an attach returned makes GetDiskUnit on that VM return the device of exactly that disk, until an operation names the disk again |
| Locker.SimpleLock.Put | internal/locker/locker.go:40-42 | sets the lock of the key |
| Locker.SimpleLock.IsLocked | internal/locker/locker.go:44-52 | tells whether the key was locked and leaves it unlocked |
| Locker.SimpleLock.Pop | internal/locker/locker.go:55-63 | clears the lock and tells whether it was held |
| Locker.LockedIffLastSet | internal/driver/disk.go:375-385 | a volume is locked exactly when the last event about it set the lock |
| Locker.RejectionsBounded | internal/driver/disk.go:167-169 | rejected publishes of a volume never outnumber the expands that found it attached |
| Locker.RejectionNeedsSet | internal/driver/disk.go:167-169 | between two rejections of a volume an expand found it attached |
| Storage.MbOfBytes | pkg/types/disk.go:24-40 | the round trip through mebibytes loses less than one, rounds toward zero, and never overflows |
| Storage.FromMbExact | pkg/types/disk.go:24-28 | the conversion to bytes is exact exactly for sizes below 2^43 MiB in magnitude |
| Storage.ExtractStorageBounds | internal/driver/disk.go:409-456 | a granted size is at most 4 TiB and within the bounds set, and at least 4 MiB exactly when the range does not straddle the minimum |
| Storage.GrantIsBest | internal/driver/disk.go:409-456 | what is granted: the least size within the bounds where one is required, the greatest where only a limit is set, 5 GiB where neither is |
| Storage.ExtractStorageComplete | internal/driver/disk.go:409-456 | a range is granted exactly when a supported size meets it and it is not one of two one-sided ranges outside |
| Storage.OneSidedRefused | internal/driver/disk.go:409-456 | every one-sided range outside the limits is refused although a supported size meets it |
| Controller.CsiDriver.ValidateCapabilities | internal/driver/disk.go:484-501 | no violation exactly when every capability is single-writer and block or mount |
| Controller.CsiDriver.CreateVolume | internal/driver/disk.go:68-122 | InvalidArgument exactly for a request without name, capabilities or one of the two parameters, or with an unsupported capability; OutOfRange for a range not granted; both without effect; else the answer follows the create |
| Controller.CsiDriver.DeleteVolume | internal/driver/disk.go:124-142 | succeeds exactly when the client's delete does |
| Controller.CsiDriver.ControllerPublishVolume | internal/driver/disk.go:144-201 | a locked volume is rejected once, without touching the cloud; an unlocked one is attached, and the answer maps every outcome |
| Answers.PublishRefusals | internal/driver/disk.go:144-169 | InvalidArgument and AlreadyExists exactly for what they stand for; a locked volume is answered Internal; nothing changes |
| Answers.PublishNotFound | internal/driver/disk.go:179-181 | NotFound exactly where no call failed and no VDC has the node |
| Answers.PublishWrongNode | internal/driver/disk.go:182-185 | FailedPrecondition only where a call failed and the disk is on another node and stays there; any other failed call is answered Internal |
| Answers.PublishUndisturbed | internal/driver/disk.go:171-200 | with no failed call: Internal only where a VDC with the node has no disk of the name, or no slot for it; success only where one has both, with the disk on that node and its unit, under the key diskUnitNum, as the whole context |
| Answers.PlaceOrNot | pkg/vcd-client/client.go:365-447 | each VDC with the node is of one of these two kinds |
| Controller.CsiDriver.ControllerUnpublishVolume | internal/driver/disk.go:203-222 | detaches by volume; the node is not used |
| Controller.CsiDriver.ListVolumes | internal/driver/disk.go:256-276 | one entry with name and bytes for each listed disk |
| Controller.CsiDriver.FindVolume | internal/driver/disk.go:349-354 | of several volumes with the name the last one of the list is used |
| Controller.CsiDriver.ControllerExpandVolume | internal/driver/disk.go:328-401 | the list, the decision, the resize and the lock, with each refusal, and the lock law kept |
| Answers.NodeExpands | internal/driver/disk.go:364-397 | node expansion is asked for after every expand that succeeded but one that resized a block volume |
| Answers.ExpandSucceeds | internal/driver/disk.go:349-399 | every success: a disk of the name has the bytes to be granted, is left alone and its size is answered; or a detached one has fewer, gets their whole mebibytes, and the request is answered |
| Answers.ExpandInternal | internal/driver/disk.go:375-385 | Internal: a disk too small is attached, and the volume is locked, or a call failed in the resize; the cloud is unchanged |
| Answers.ExpandRefusals | internal/driver/disk.go:330-361 | the refusals before the resize, exactly, without effect |
| Sizes.CreatedCapacity | internal/driver/disk.go:92-109 | after a create that reported success the volume exists exactly when submitting it did not fail, the reported capacity is the one the range should be granted, and a disk that exists has it to within one mebibyte exactly when it is new or already had that size |
| Sizes.ExpandCrashes | internal/driver/disk.go:330-375 | an expand crashes exactly when it has no range, or it could read the list and names an unlisted volume with a range that would be granted |
| Sizes.GrowSawDisk | internal/driver/disk.go:349-375 | an expand that goes on to resize has seen its disk, smaller than asked |
| Sizes.GrowthBound | internal/driver/disk.go:364-375 | such a resize takes nothing away and gives the request to within one mebibyte |
| Expanding.ExpandAgain | internal/driver/disk.go:344-399 | two runs of the handler where one VDC holds the name: after a first that succeeded the second never changes the cloud; it answers the same after a skip, is skipped exactly for whole mebibytes after a resize, and else resizes again with the same answer |
| Expanding.ExpandPicks | internal/driver/disk.go:349-399 | an undisturbed expand comes to what it comes to on some disk of the name, or crashes where there is none |
| Expanding.ExpandCanPick | internal/driver/disk.go:349-354 | every disk of the name is the one picked for some order of the list |
| Expanding.ExpandOrder | internal/driver/disk.go:344-399 | an undisturbed expand gives the same cloud, lock events and answer for every order of the list exactly when all disks of the name, if several, have the same fate and none is grown |
| Expanding.ExpandMet | internal/driver/disk.go:364-383 | an expand that meets a disk of the request's whole mebibytes: skipped exactly for whole mebibytes, else resized without effect, or refused if attached by then |
| Expanding.ExpandRepeats | internal/driver/disk.go:344-399 | whichever VDCs hold the name: repeating an expand that succeeded never changes the cloud, with any failures and order of the list, exactly when no other disk of the name would be grown |
| Interleaving.ActSafe | internal/driver/disk.go:328-401 | in every interleaving each act keeps the cloud's invariant and the lock law and changes the size of no attached disk |
| Interleaving.NeverShrinks | internal/driver/disk.go:344-383 | while no other resize and no delete of the volume falls between an expand's two visits, no act makes any disk smaller |
| Interleaving.ShrinksExactlyWhen | pkg/vcd-client/client.go:476-485 | the only act that makes a disk smaller is a resize of a detached disk that has grown past the request |
| Interleaving.ResizeGives | pkg/vcd-client/client.go:485-497 | in any trace, after a successful resize the disk has the request to within one mebibyte and is detached |
| Interleaving.TraceSafe | internal/driver/disk.go:144-401 | the cloud's invariant and the lock law hold along every interleaved trace |
| Interleaving.TraceRejections | internal/driver/disk.go:167-169 | over any trace rejections of a volume never outnumber the expands that found it attached, and the last event tells the lock |
| Interleaving.TraceNeverShrinks | internal/driver/disk.go:344-399 | over any quiet trace no surviving disk gets smaller |
| Interleaving.ExpandsRace | internal/driver/disk.go:344-375 | a trace of two expands of one volume in which the second resize shrinks it |
| Interleaving.ExpandIsTrace | internal/driver/disk.go:328-401 | the expand handler called with nothing in between is a trace of the interleaved acts |
| Interleaving.PublishIsTrace | internal/driver/disk.go:144-201 | the publish handler called with nothing in between is a trace of the interleaved acts |
| Node.Mounter.IsMounted | internal/mount/mounter.go:305-318 | an error exactly when a mount of the path is not shared, else whether there is one |
| Node.NodeDriver.NodeStageVolume | internal/driver/node.go:28-117 | finds, formats if blank, mounts if not mounted; every refusal, and the crash on an unset access type; a failed command changes nothing beyond the format step |
| Node.NodeDriver.NodeUnstageVolume | internal/driver/node.go:119-151 | unmounts the staging path if it is mounted |
| Node.NodeDriver.NodePublishVolume | internal/driver/node.go:153-198 | bind options, then the file system or the block path |
| Node.NodeDriver.PublishForFileSystem | internal/driver/node.go:368-404 | mounts the staging path on the target with all options unless it is mounted |
| Node.NodeDriver.PublishForBlock | internal/driver/node.go:406-451 | demands both context keys, finds the device and mounts it unless mounted |
| Node.NodeDriver.NodeUnpublishVolume | internal/driver/node.go:200-232 | unmounts the target path if it is mounted |
| Node.StageIdempotent | internal/driver/node.go:86-113 | a stage that succeeded can be repeated without effect exactly when the node's propagation is shared or there was nothing to mount |
| Node.PublishIdempotent | internal/driver/node.go:382-447 | a publish that succeeded can be repeated without effect exactly when the node's propagation is shared or the target was mounted before |
| Node.StageCrashes | internal/driver/node.go:71-79 | staging dereferences nil exactly when a valid request has its access type unset and its unit finds one device |
| Records.StageAnswers | internal/driver/node.go:28-117 | every answer of a stage: what a complete request is, no device, unshared mount, crash, and what changed with each |
| Records.StageRecord | internal/driver/node.go:71-113 | a stage on a path with nothing mounted adds one record: the device with the unit, the type asked for or ext4, the flags; a blank device was made that type first |
| Records.PublishAnswers | internal/driver/node.go:153-198 | every answer of a publish, and that an error changes nothing |
| Records.PublishRecord | internal/driver/node.go:177-447 | a publish on a target with nothing mounted adds one record: bind, ro exactly where read-only is asked for or is a flag, the flags and nothing else; from the staging path with the type asked for or ext4, or for a block volume from the device with the unit and without a type |
| Records.UnmountAnswers | internal/driver/node.go:119-232 | unstage and unpublish succeed without effect where nothing is mounted, else take one mount of the path away and touch no other |
| Node.RoundTrip | internal/driver/node.go:28-232 | stage, publish, unpublish, unstage all succeed and restore the mount table exactly when the node's propagation is shared |
| Node.StageElsewhere | internal/driver/node.go:102-113 | a stage touches no mount of another path |
| Node.PublishElsewhere | internal/driver/node.go:382-447 | a publish touches no mount of another path |
| Node.UnmountElsewhere | internal/driver/node.go:134-232 | an unstage or unpublish touches no mount of another path |
| Formatting.FormatsOnlyBlank | internal/driver/node.go:86-98 | a stage runs mkfs on at most one device, and only on one without a filesystem |
| Formatting.FormattedOnce | internal/driver/node.go:71-113 | over any history of cloud operations and stagings no disk is formatted twice, none that came with a filesystem is, and filesystems stay |
| Formatting.StageFormats | internal/driver/node.go:71-98 | staging by a unit that identifies a disk formats that disk if it is blank and nothing otherwise |
| Formatting.StageMounts | internal/driver/node.go:102-113 | and shows that disk's device on the staging path, with the type and flags asked for |
| Formatting.MigrationKeepsData | internal/driver/node.go:86-98 | a disk with a filesystem is not formatted by a later staging, on whatever node and unit it has come to |
| Formatting.PublishedIdentifies | internal/driver/disk.go:171-200 | in any history of cloud operations and stagings, until an operation names the disk again, the path an attach returned identifies it exactly when no other entry has the unit; in a history within the node limit and the operators' rule it does |
| Formatting.StagePublished | internal/driver/node.go:71-113 | in such a history a stage on the VM with the published path formats that disk if it is blank and nothing otherwise, and mounts its device on the staging path |
| Formatting.PublishedContext | internal/driver/disk.go:194-200 | the context a publish returns is accepted by staging exactly when the disk size is added to it on the way |
| Witnesses.NinthVolume | pkg/vcd-client/client.go:425-432 | a VM with eight volumes and a system disk in unit 0: the ninth attach succeeds and its path does not identify the disk |
| Witnesses.DeletesNothing | pkg/vcd-client/client.go:255-259 | a delete that reports success and leaves the only disk of the name |
| Witnesses.ReportsWrongCapacity | pkg/vcd-client/client.go:201-204 | a create of 16 MiB that finds 4 MiB and succeeds |
| Witnesses.AttachOrderMatters | pkg/vcd-client/client.go:348-451 | two VDCs with the VM and the disk: two orders end differently |
| Witnesses.PathByOrder | pkg/vcd-client/client.go:382-404 | two VDCs that have the VM with the disk on it in different units: the unit reported depends on the order |
| Witnesses.ExpandOrderMatters | internal/driver/disk.go:349-375 | two VDCs that have the disk, one of them attached: an expand resizes or is refused by the order of the list |

## Left out

- Authentication, token refresh, HTTP and waiting for the cloud's jobs: each is a call that may fail without effect. A
  job that fails after changing the cloud is not modelled, nor is a storage profile as such (an unknown one is a failed
  call).
- vApps: the VMs of a VDC are listed in the order the two nested loops of getVMByName visit them.
- Nil entries of a settings list, which only the allocator guards against; decoding a reply does not make them.
- Bus and unit in a detach request: the cloud takes the first settings entry that names the disk away, which is the
  entry the client sends.
- The mutex of the client: each public method is one step. The unguarded write in `SimpleLock.Put` is taken as atomic.
- Changes made to the cloud by anyone else between two steps.
- mkfs, mount, umount, blkid, findmnt and the device inventory: replaced by a mount table, the set of formatted devices,
  and a list of devices; a command that fails has no effect.
- The mounter's errors for an empty source, target or file system type: the handlers refuse empty paths before they
  call it and always give a type where one is used.
- ErrDiskAlreadyExists in CreateVolume: CreateDisk never returns it.
- Volume statistics, capacity, capability, information and probe responses, snapshots, node expansion, sockets, signals
  and configuration parsing: no state of the lifecycle depends on them.
