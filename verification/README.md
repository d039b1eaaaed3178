# Verified model of the Velero plugin for vSphere

The plugin backs up vSphere volumes of a Kubernetes cluster. Its work is spread over processes that share only
custom resources: a data manager per node copies snapshots to the object store (Upload) and back (Download), the
backup driver takes and deletes snapshots (Snapshot) and binds repositories to claims (BackupRepositoryClaim), and
in a guest cluster it mirrors what happens in the supervisor cluster. Every process reads cached or remote objects
of some age, changes an in-memory copy, and sends the difference as a JSON merge patch without a version. What the
plugin promises (a snapshot is not deleted under a copy, a cancel request is not lost, a restored volume is the one
that was copied) must hold over every interleaving of these steps, and that is what is proved here.

## How it is organised

| files | content |
|---|---|
| `Json`, `UploadResource`, `StatusPatch` | merge patches on JSON documents, the Upload resource and its wire form, one patch attempt and the polling loop around it |
| `UploadProtocol` | the life of one Upload as a state machine at the granularity of API calls: runs on any number of nodes, cancel triggers from caches of any age, delete requests, lost and rejected patches, crashes |
| `UploadSafety`, `UploadCauses`, `UploadLease`, `UploadAccounting`, `UploadRetries` | what holds in every execution; why a phase is stored; what holds when the lease makes runs exclusive; retry accounting; termination |
| `DataMover`, `UploadController` | the data mover of a node over all its entities, and the controller code on that node, as imperative methods with arbitrary steps of everybody else between any two calls |
| `Base64`, `SnapshotIds` | base64, protected-entity IDs, the three recursive decoders, Upload names |
| `DownloadResource`, `DownloadProtocol`, `DownloadController` | the Download resource and its wire form, the Download machine, the restore call, the controller code |
| `PhaseMirror`, `MirrorProvenance`, `SnapshotOnce`, `BackupDriver` | Snapshot phases over two mirroring hops and the in-memory index, how often a snapshot is taken, and the backup driver's handlers |
| `RepositoryClaims`, `ClaimController` | claims, repositories and the call that waits for one |
| `Datastores`, `Labels` | the shared-datastore filter and the label filters |
| `Common` | what several controllers share |

A protocol is a `State`, an `Action` that carries everything the environment decides (clock readings, outcomes of
calls, which cached value is seen), a predicate `Enabled` and a function `Do`. An `Execution` is any finite run from
an initial state. Beside each protocol a class holds the code: its methods follow the Go functions call by call,
between two calls the method `Others` performs any number of enabled steps of the other actors, and the class
invariant says that everything so far is an `Execution`. So the code refines the protocol, and what is proved of all
executions holds of the code. In these classes `s` is the state of the cluster and `states`, `acts` the ghost trace.
What a call answers is a parameter of the method, and a method that ends in several ways says which: the predicate
`Ends` of each controller lists, for every ending, the answers that lead to it, the phase it records and the verdict it
returns.

## What the code does not do

Proving these properties showed where the code falls short of them or of its own documentation; the model follows
the code.

- `deleteSnapshot` treats every failed read of the Upload as "terminal" (pkg/snapshotmgr/snapshot_manager.go:438-445),
  not only "not found". Delete is safe against copies exactly if its read was answered (`DeleteIsSafeIffAnswered`).
- A status patch that is accepted only at its second attempt no longer carries the phase, because the first attempt
  has already mutated the copy the difference is taken from (`SecondAttemptLosesThePhase`). A completed Download then
  loses its volume ID too, while the run ends as after a success (`CompletedAttemptEffect`, `RepeatedCompletionIsLost`).
- A crash between a failed copy and the write that counts it lets one copy more fail than the retry maximum allows; the
  bound survives a step exactly if the step is not such a crash (`FailedCopiesBoundedIff`, `LostFailureReachable`).
- `PatchBackupRepositoryClaim` sets the reference in the lister's cached claim before the patch is sent. If that patch
  is lost, the next sync sends an empty patch and reports success on an unbound claim
  (`DeliveredPatchBindsIff`, `LostPatchHidesTheReference`).
- An interruption after the snapshot manager's create, while the stored Snapshot is still New, leads to a second
  snapshot, and nothing else does (`AtMostOneSnapshotIff`, `LostCallReachable`).
- The name `deleteSnapshot` looks up is the name `UploadSnapshot` used exactly if the wrapped component is of type ivd
  (`LookupFindsUploadIffIvd`).
- `triggerUploadCancellation` mutates the informer's shared object; the model adds the mutated value to the values
  later reads may see.
- A guest Snapshot never shows UploadFailedAfterRetry: the second hop does not forward it
  (pkg/backupdriver/backup_driver_controller_base.go:1058-1076).
- Without VELERO_NAMESPACE `CreateVolumeFromSnapshot` returns the zero ID and no error.
- RetryCount is an int32 and wraps; the accounting result is stated modulo that wrap.
- `FilterLabelsFromMetadataForCnsAPIs` is documented for the prefix "cns.containerCluster" but called with "cns".

## Assumptions

- The lease is the hypothesis `LeaseHolds`: no run starts while another is active. Results that do not name it hold for
  overlapping runs too.
- A cache may return any value the object ever had, and any in-place mutated copy of it.
- Each DataMover method is one step. In the source CancelUpload loads, calls and deletes in three.
- Executions of the Upload and Download machines begin with the created resource; names and UIDs are not reused; claims
  are taken from one namespace.
- A protected-entity ID is printed as type:id or type:id:snapshot; parsing needs at least two parts and takes a
  snapshot only from exactly three.
- Go's base64 decoders skip CR and LF and ignore the unused low bits of the last digit, and so does the model.
- Cancel functions are told apart by the node that made them and a serial number there.
- Copying, deleting local snapshots, taking snapshots, reading the retry maximum and listing datastores are outcomes
  chosen by the environment. Times are whole seconds.

## Model

| member | source | states |
|---|---|---|
| Json.DiffThenApply | pkg/utils/utils.go:620-647 | the merge patch between two null-free documents takes the first to the second |
| Json.PatchKeepsAgreedParts | pkg/utils/utils.go:636-642 | applied to any document, the patch leaves every path alone on which the two copies agree |
| Json.PatchedStaysNullFree | pkg/utils/utils.go:636-642 | patching a null-free document gives a null-free document |
| UploadResource.MergePatchIsFieldwise | pkg/utils/utils.go:620-647 | on the wire form of Uploads, diff and apply equal the field-by-field three-way update, for every pair of copies and every stored object |
| UploadResource.UploadJsonInjective | pkg/apis/datamover/v1alpha1/upload.go:24-121 | marshalling with omitempty loses nothing: equal documents come from equal resources |
| UploadResource.WireForm | pkg/apis/datamover/v1alpha1/upload.go:72-121 | name and value of every status field on the wire, left out when empty |
| UploadResource.WireSpec | pkg/apis/datamover/v1alpha1/upload.go:24-44 | name and value of every spec field on the wire |
| UploadResource.WirePhase | pkg/apis/datamover/v1alpha1/upload.go:60-69 | the text of every phase on the wire |
| UploadResource.CancelRequestKeepsProgress | pkg/snapshotmgr/snapshot_manager.go:446-461 | a delete request's patch keeps everything of whatever is stored but the cancel flag, which it sets, and the start time and message, which it sets where the copy agrees with the server |
| StatusPatch.PatchUpload | pkg/utils/utils.go:620-647 | the copy is mutated whether or not the call succeeds; the patch is the diff of the two marshalled copies; the answer is that patch applied to the stored document |
| StatusPatch.PatchUploadByStatusWithRetry | pkg/controller/upload_controller.go:445-462 | after k rejected attempts the accepted patch is the difference of the k-times and (k+1)-times mutated copies; no answer only if every attempt was rejected |
| StatusPatch.AcceptedAttemptEffect | pkg/controller/upload_controller.go:464-537 | the stored phase changes only if the first attempt is the accepted one; what that attempt stores in every field; for UploadError and CleanupFailed the stored count is the start plus the number of attempts and the next retry is due 2^(count-1) minutes later, at most 60 |
| StatusPatch.FirstFailureEffect | pkg/controller/upload_controller.go:478-493 | each field a failure stores at its first attempt, for every stored object |
| StatusPatch.LaterFailureEffect | pkg/controller/upload_controller.go:478-493 | the whole object a failure stores at a later attempt |
| StatusPatch.IteratedFailure | pkg/controller/upload_controller.go:478-493 | after any number of attempts to record a failure the copy shows the phase, the message, the last clock reading as completion, the count of all attempts as int32, a back-off of 2^(count-1) minutes, at most 60, and the next retry that much later |
| StatusPatch.IteratedEnd | pkg/controller/upload_controller.go:471-477 | every other end sets phase, completion and message, and nothing else |
| StatusPatch.IteratedInProgress | pkg/controller/upload_controller.go:498-506 | the InProgress mark sets phase and node, for a new upload also the start and a count of zero, and repeating it changes nothing |
| StatusPatch.SecondAttemptLosesThePhase | pkg/controller/upload_controller.go:445-462 | a completed upload recorded at the second attempt stays InProgress on the server |
| UploadSafety.LocalSnapshotSafety | pkg/controller/upload_controller.go:337-427 | in every execution the local snapshot is deleted only after a copy succeeded or a run saw the retry count at its maximum, and a stored CleanupFailed implies the same |
| UploadCauses.PhaseHasCause | pkg/controller/upload_controller.go:330-430 | in every execution a stored UploadFailedAfterRetry means the retries were used up, Completed and CleanupFailed a copy or that, UploadError a failed copy or an ID that does not parse, Canceling and Canceled a cancel request, Canceled also a stopped copy |
| UploadCauses.HistoryIsTheTrace | pkg/controller/upload_controller.go:368-383 | what the history says of copies, used-up retries and terminal phases is exactly what the actions did |
| UploadSafety.NoLostUpdates | pkg/controller/upload_controller.go:464-537 | over every interleaving UploadCancel never returns to false, the snapshot meant never changes, a completion time stays, New never returns |
| UploadSafety.KeptByDelete | pkg/snapshotmgr/snapshot_manager.go:446-461 | a delete request never changes phase or retry accounting in any state, and its cancel flag arrives |
| UploadSafety.CancelReachesTheCopy | pkg/dataMover/data_mover.go:207-222 | whatever entries failed copies left behind, CancelUpload during a registered copy cancels that copy and no other node's |
| UploadSafety.CompletedIsStamped | pkg/controller/upload_controller.go:104-180 | every cached Completed upload has its completion time, which the clean-up window dereferences |
| UploadSafety.OneSnapshotId | pkg/controller/upload_controller.go:325 | every stored, cached or in-memory copy names the same snapshot ID over all executions, so all cancel map entries of an upload are under one key |
| UploadLease.NoCopyAfterTerminal | pkg/snapshotmgr/snapshot_manager.go:542-547 | under the lease, once the stored phase has been terminal no copy is in flight or about to start, ever again |
| UploadLease.SettledForGood | pkg/controller/upload_controller.go:295-367 | and the number of copies made never changes again |
| UploadLease.DeleteIsSafeIffAnswered | pkg/snapshotmgr/snapshot_manager.go:437-465 | a delete that goes ahead has no copy under it, then or later, in all executions, if and only if its read was answered |
| UploadLease.UnansweredDelete | pkg/snapshotmgr/snapshot_manager.go:438-445 | an execution in which a delete with a failed read goes ahead during a copy |
| UploadAccounting.RetryAccounting | pkg/controller/upload_controller.go:478-493 | RetryCount is the number of stored UploadError and CleanupFailed writes as int32; while positive, CurrentBackOff is 2^(RetryCount-1), at most 60 |
| UploadRetries.FailedCopiesBounded | pkg/controller/upload_controller.go:368-410 | with maximum M at most M+1 copies fail, and after the (M+1)-th no run can copy, with crashes anywhere except where they lose a failed copy that is not stored yet |
| UploadRetries.LastCopy | pkg/controller/upload_controller.go:368-410 | the (M+1)-th failed copy is the last copy ever made |
| UploadRetries.FailedCopiesBoundedIff | pkg/controller/upload_controller.go:379-410 | after any step, all continuations that lose no further failure keep the bound if and only if the step does not lose one |
| UploadRetries.LostFailureReachable | pkg/controller/upload_controller.go:205-207 | for every maximum such a crash is reachable |
| UploadRetries.CopiesAreBounded | pkg/controller/upload_controller.go:368-410 | without crashes at most M+1 copies are made at all, and giving up happens only when all were made |
| UploadController.Cluster.GetUpload | pkg/controller/upload_controller.go:283-319 | answers what the server stores, and leaves the run where the protocol says |
| UploadController.Cluster.PatchUploadByStatusWithRetry | pkg/controller/upload_controller.go:445-462 | the polling loop over wire-level patches, with interference between attempts, is a sequence of protocol steps; the first attempt, if accepted, shows the phase asked for |
| UploadController.Cluster.CopyToRepo | pkg/controller/upload_controller.go:357-383 | the copy, registered in the node's data mover under the upload's entity: copied exactly if the copy succeeded, cancelled only if it was stopped, else failed with the maximum read; the run is at the matching point |
| UploadController.Cluster.Copy | pkg/dataMover/data_mover.go:115-122 | a cancellation is reported exactly to a stopped copy whose cancel function the data mover called |
| UploadController.Cluster.Register | pkg/dataMover/data_mover.go:111-113 | the data mover's registration is the protocol's register step |
| UploadController.Cluster.UnregisterOngoingUpload | pkg/controller/upload_controller.go:413-414 | the data mover's unregistration is the protocol's step |
| UploadController.Cluster.DeleteLocalSnapshot | pkg/controller/upload_controller.go:337-355 | reached only with the cause its call site has; a failed delete goes on to CleanupFailed, a successful one to UploadFailedAfterRetry after giving up and to Completed otherwise |
| UploadController.Cluster.BeginUpload | pkg/controller/upload_controller.go:284-324 | exactly Canceled, Canceling, Completed and UploadFailedAfterRetry end the run here, all others proceed marked in progress |
| UploadController.Cluster.ProcessUpload | pkg/controller/upload_controller.go:278-438 | every behaviour under arbitrary interference is an execution of the protocol that ends the run; for every ending, the answers that lead to it, the phase its first accepted write leaves on the server, the verdict returned, and what has happened |
| UploadController.Cluster.CopyAndCleanUp | pkg/controller/upload_controller.go:357-438 | the same from the repository lookup on |
| UploadController.Cluster.CleanUpCopied | pkg/controller/upload_controller.go:413-438 | a successful copy whose local snapshot is deleted is recorded Completed, else CleanupFailed with an error |
| UploadController.Cluster.CleanUpLeftover | pkg/controller/upload_controller.go:337-355 | a leftover snapshot that is deleted is recorded Completed without an error, else CleanupFailed with one |
| UploadController.Cluster.RetryOrGiveUp | pkg/controller/upload_controller.go:379-410 | below the maximum UploadError and an error; at or above it, after the delete, UploadFailedAfterRetry and no error, or CleanupFailed and an error |
| UploadController.Cluster.TriggerUploadCancellation | pkg/controller/upload_controller.go:580-604 | asks the data mover, patches the cached object, cancels through the data mover; is a protocol execution; on success the entry is gone and a copy then running on the node is cancelled; no step if the node is not uploading |
| UploadController.Cluster.CancelTriggered | pkg/controller/upload_controller.go:597-601 | succeeds exactly if the data mover has an entry, and then cancels the running copy |
| UploadController.Cluster.ProcessUploadItem | pkg/controller/upload_controller.go:182-276 | processes the item exactly if the lease is acquired, no cancel is requested and the phase seen is not Canceled, Completed or UploadFailedAfterRetry; then as ProcessUpload; without a cancel request and a run, no step |
| UploadController.Cluster.CancelOngoingUpload | pkg/snapshotmgr/snapshot_manager.go:437-465 | goes ahead, changing nothing, exactly if the read fails, finds nothing or finds Completed, CleanupFailed, Canceled or UploadFailedAfterRetry; with no copy running if answered and the lease held; otherwise a successful call leaves UploadCancel set in the stored object |
| DataMover.DataMover.RegisterOngoingUpload | pkg/dataMover/data_mover.go:224-228 | overwrites this entity's entry; every protocol view of this entity takes its register step with a fresh token, and every view of every other entity stays as it is |
| DataMover.DataMover.UnregisterOngoingUpload | pkg/dataMover/data_mover.go:230-238 | removes this entity's entry as the protocol's step does, and keeps every view of every other entity |
| DataMover.DataMover.CancelUpload | pkg/dataMover/data_mover.go:207-222 | succeeds exactly if there is an entry, cancels exactly its copy and drops it as the protocol's step does, and keeps every view of every other entity |
| DataMover.DataMover.OtherNodesKeep | pkg/dataMover/data_mover.go:200-238 | steps of the same upload on other nodes keep what this node's data mover shows |
| UploadController.ElsewhereKeeps | pkg/controller/upload_controller.go:580-604 | all protocol steps but this node's registration, unregistration, cancellation and crash are such steps |
| DataMover.DataMover.CopyToRepo | pkg/dataMover/data_mover.go:101-126 | with other entities copied and cancelled meanwhile, a registered copy ends cancelled exactly if a cancel came and owning its entry exactly if none did, failed or not |
| Base64.DecodeEncode | pkg/snapshotmgr/snapshot_manager.go:835 | unpadded base64 decoding inverts encoding for every byte string |
| Base64.DecodeDefined | pkg/snapshotmgr/snapshot_manager.go:859-866 | decoding succeeds exactly on digits with no single one left over |
| Base64.NewlinesIgnored | pkg/snapshotmgr/snapshot_manager.go:835 | newlines anywhere do not matter |
| Base64.EncodeAlphabet | pkg/paravirt/paravirt_protected_entity_type_manager.go:301-306 | encoded text uses only the 64 digits |
| Base64.DecodeEncodeStd | pkg/plugin/util/util.go:31-50 | the same for the padded form of the PVC annotation |
| SnapshotIds.ParsePrint | pkg/snapshotmgr/snapshot_manager.go:841 | parsing inverts printing for IDs whose parts contain no colon |
| SnapshotIds.ParseOtherCounts | pkg/snapshotmgr/snapshot_manager.go:841 | one part is no ID, and of four or more the first two count |
| SnapshotIds.DecodersAgree | pkg/snapshotmgr/snapshot_manager.go:832-879 | on every input the three decoders fail together for the same reason, or all report the same entity |
| SnapshotIds.DecodesIffUnwraps | pkg/snapshotmgr/snapshot_manager.go:832-855 | an entity is decoded if and only if a chain of layers leads to it: wrappers of types other than ivd with a snapshot ID, then an ivd entity or one without |
| SnapshotIds.NestedIdsDecode | pkg/snapshotmgr/snapshot_manager.go:832-879 | under any number of non-ivd wrappers all three find the innermost entity |
| SnapshotIds.ParavirtIdempotent | pkg/paravirt/paravirt_protected_entity_type_manager.go:281-306 | decoding and encoding again is idempotent and keeps the entity |
| SnapshotIds.ConvertKeepsTheEntity | pkg/paravirt/paravirt_protected_entity_type_manager.go:361-378 | the ID handed to the supervisor parses to its PVC and decodes to the entity the guest ID decodes to; it fails exactly when that decoding fails |
| SnapshotIds.LookupFindsUploadIffIvd | pkg/snapshotmgr/snapshot_manager.go:422-437 | delete computes the name create used if and only if the wrapped component is an ivd snapshot |
| SnapshotIds.UnwrappedLookup | pkg/snapshotmgr/snapshot_manager.go:422-426 | for an ivd snapshot that is not wrapped both names are "upload-" and the snapshot ID |
| SnapshotIds.UploadNamesDistinct | pkg/snapshotmgr/snapshot_manager.go:825-830 | Upload names coincide exactly for equal snapshot IDs |
| DownloadProtocol.RetryCountBounded | pkg/controller/download_controller.go:385-401 | in every execution RetryCount is at most DOWNLOAD_MAX_RETRY+1 |
| DownloadProtocol.FailedAtTheSeventh | pkg/controller/download_controller.go:385-401 | with exclusive runs and first attempts accepted, the failures up to number DOWNLOAD_MAX_RETRY+1 are stored as Retry and every later one as Failed |
| DownloadProtocol.CompletedIsFinal | pkg/controller/download_controller.go:229-232 | after Completed neither phase nor volume changes, and no copy follows |
| DownloadProtocol.CompletedNamesACopy | pkg/controller/download_controller.go:256-305 | the stored VolumeID of a completed download parses to an entity a successful copy returned, the target if one was given |
| DownloadProtocol.CreateVolumeFromSnapshot | pkg/snapshotmgr/snapshot_manager.go:686-717 | the first read that is Completed or Failed decides: the parsed volume, or a failure; waiting exactly while there is none; a failure if the download was not created; the zero ID without the namespace |
| DownloadProtocol.RestoreReturnsACopy | pkg/snapshotmgr/snapshot_manager.go:686-717 | an ID the restore call answers from a read was returned by a successful copy of this download before that read, and is the target if the download was created with one |
| DownloadResource.MergePatchIsFieldwise | pkg/controller/download_controller.go:316-348 | on the wire form of Downloads, diff and apply of a changed status equal the field-by-field update |
| DownloadResource.WireForm | pkg/apis/datamover/v1alpha1/download.go:24-108 | name and value of every field on the wire |
| DownloadResource.CompletedAttemptEffect | pkg/controller/download_controller.go:377-384 | the stored phase, volume and message change only if the first attempt to record a completion is the accepted one |
| DownloadResource.IteratedRetry | pkg/controller/download_controller.go:385-401 | the whole status after any number of attempts to record a failed copy: Retry with a next retry five minutes after the last clock reading up to a count of six, then Failed |
| DownloadResource.FirstRetryEffect | pkg/controller/download_controller.go:385-401 | what a first attempt stores where the server has what the copy shows |
| DownloadResource.IteratedInProgress | pkg/controller/download_controller.go:402-409 | the whole status after marking a download in progress |
| DownloadResource.LaterAttemptEffect | pkg/controller/download_controller.go:385-409 | a later accepted attempt to record a retry stores the count of all attempts and a phase only where it turns to Failed; a later InProgress attempt stores nothing |
| DownloadProtocol.RepeatedCompletionIsLost | pkg/controller/download_controller.go:299-305 | the run ends as after a success and the server keeps its old phase and volume |
| DownloadController.Cluster.PatchDownload | pkg/controller/download_controller.go:316-348 | mutates the copy in place whatever the server answers; the patch is the diff of the marshalled copies, the answer that patch applied to the stored document; the step is the protocol's |
| DownloadController.Cluster.PatchDownloadByStatusWithRetry | pkg/controller/download_controller.go:350-367 | the polling loop with interference is a sequence of protocol steps; what a first attempt, if accepted, shows on the server |
| DownloadController.Cluster.CopyFromRepo | pkg/dataMover/data_mover.go:154-198 | answers an ID exactly if the copy succeeded: the target when one is given, else the new one |
| DownloadController.Cluster.ProcessDownload | pkg/controller/download_controller.go:212-314 | every behaviour under arbitrary interference is an execution of the protocol that ends the run; for every ending, the answers that lead to it, what its first accepted write leaves on the server, and the verdict returned |
| DownloadController.Cluster.CopyAndReport | pkg/controller/download_controller.go:256-305 | the same from the choice of the target on |
| PhaseMirror.ReferenceTarget | pkg/backupdriver/backup_driver_controller_base.go:928-937 | the reference written for a snapshot leads back to it |
| PhaseMirror.RefTargetIff | pkg/backupdriver/backup_driver_controller_base.go:932-937 | a reference names a snapshot if and only if it is its namespace and name around one slash |
| PhaseMirror.EntryRoundTrip | pkg/backupdriver/backup_driver_controller_base.go:1044-1046 | the index entry written for a guest snapshot leads back to it |
| MirrorProvenance.SupervisorPhasesComeFromUploads | pkg/backupdriver/backup_driver_controller_base.go:928-975 | over all executions Uploaded means that an Upload with this reference was Completed before, UploadFailed UploadError, Uploading InProgress, CleanupFailed, Canceling and Canceled the same, UploadFailedAfterRetry UploadFailedAfterRetry |
| MirrorProvenance.GuestPhasesComeFromTheirSupervisor | pkg/backupdriver/backup_driver_controller_base.go:1038-1080 | a guest phase other than unset, New, Snapshotted and SnapshotFailed was shown by the supervisor snapshot it records, and so comes, phase by phase, from an Upload naming that one; UploadFailedAfterRetry never gets there |
| SnapshotOnce.AtMostOneSnapshot | pkg/backupdriver/backup_driver_controller.go:36-165 | each Snapshot causes at most one create call, over any execution in which no sync is lost after its call while the stored Snapshot is New |
| SnapshotOnce.AtMostOneSnapshotIff | pkg/backupdriver/backup_driver_controller_base.go:447-505 | after any step, all continuations that lose no further call keep that if and only if the step does not lose one |
| SnapshotOnce.LostCallRepeats | pkg/backupdriver/backup_driver_controller_base.go:486-505 | from any state in which a call can be lost, an execution with two create calls |
| SnapshotOnce.LostCallReachable | pkg/backupdriver/backup_driver_controller.go:36-165 | such a state is reachable for every Snapshot name |
| SnapshotOnce.SnapshottedWasTaken | pkg/backupdriver/backup_driver_controller.go:97-165 | over all executions a stored Snapshotted means that a call of the snapshot manager for this Snapshot returned a snapshot whose metadata could be read |
| MirrorProvenance.NamesInvStep | pkg/backupdriver/backup_driver_controller_base.go:478-484 | every step keeps: index entries name a guest snapshot that records the key; New has version 0 and no supervisor name |
| BackupDriver.Controller.UpdateSnapshotStatusPhase | pkg/backupdriver/backup_driver_controller.go:332-381 | succeeds exactly if the phase is already there or the write is stored, which then is exactly the phase and the given supervisor name on top of the object read; fails only if a call fails, the object is gone or its version has changed |
| BackupDriver.Controller.CreateSnapshot | pkg/backupdriver/backup_driver_controller.go:36-165 | one create call exactly if the checks pass; Snapshotted and no error exactly if it returned a readable snapshot and that was recorded; everything else records SnapshotFailed and is an error; the supervisor name is stored with either |
| BackupDriver.Controller.SyncSnapshotByKey | pkg/backupdriver/backup_driver_controller_base.go:456-509 | a snapshot read New without a cancel is handed to createSnapshot, and no other; every behaviour is an execution of the protocol |
| BackupDriver.Controller.IndexSnapshot | pkg/backupdriver/backup_driver_controller_base.go:476-484 | adds exactly the entry of a guest snapshot that has a supervisor name, unless there is one |
| BackupDriver.Controller.DelSnapshot | pkg/backupdriver/backup_driver_controller_base.go:530-546 | removes exactly the deleted guest snapshot's index key |
| BackupDriver.Controller.SyncUploadByKey | pkg/backupdriver/backup_driver_controller_base.go:909-975 | the snapshot named by the reference is left in the phase of the table, phase by phase; only an unset or New upload, a reference that names nothing and a missing target change nothing, without an error |
| BackupDriver.Controller.SyncSvcSnapshotByKey | pkg/backupdriver/backup_driver_controller_base.go:1017-1081 | exactly the seven phases are passed on, to a guest snapshot that records this supervisor snapshot, which is left in that phase; everything else changes nothing, without an error |
| BackupDriver.Controller.ForwardPhase | pkg/backupdriver/backup_driver_controller.go:332-381 | changes the phase of the target alone; fails only if a call fails, the target is gone or its version has changed |
| BackupDriver.Controller.EntryParses | pkg/backupdriver/backup_driver_controller_base.go:1044-1046 | taking the second part of an index entry never fails |
| RepositoryClaims.RepositoryNameInjective | pkg/backuprepository/backup_repository.go:172-174 | repository names coincide exactly for equal claim UIDs |
| RepositoryClaims.OneRepositoryPerClaim | pkg/backuprepository/backup_repository.go:127-169 | for any syncs, retries, restarts and stale reads, repositories of the same claim are the same, built from its parameters and namespaces |
| RepositoryClaims.ReferenceIsStable | pkg/backuprepository/backup_repository.go:219-262 | a claim's reference never changes once set; what it asks for never changes |
| RepositoryClaims.ReferenceIsOwnRepository | pkg/backuprepository/backup_repository.go:219-231 | a set reference is "br-" and the claim's UID and names a repository built for the claim |
| RepositoryClaims.DeliveredPatchBindsIff | pkg/backuprepository/backup_repository.go:219-262 | a delivered patch leaves the claim bound if and only if the cached claim showed no reference or the stored one has it |
| RepositoryClaims.LostPatchHidesTheReference | pkg/backupdriver/backup_driver_controller_base.go:692-719 | an execution whose last, delivered patch leaves the claim unbound |
| RepositoryClaims.ClaimBackupRepository | pkg/backuprepository/backup_repository.go:41-124 | creates a claim exactly if none matches; answers the reference of the first listed claim that matches and is bound, else of the first observed bound claim waited for; no answer exactly if there is none |
| RepositoryClaims.CompareBackupRepositoryClaim | pkg/backuprepository/backup_repository.go:264-286 | parameters, driver and namespaces all agree |
| RepositoryClaims.ClaimedRepositoryIsAsRequested | pkg/backuprepository/backup_repository.go:59-124 | over any execution, an answered name is that of a repository built with exactly the requested parameters and namespaces |
| ClaimController.Cluster.CreateBackupRepository | pkg/backuprepository/backup_repository.go:127-169 | an answered name is "br-" and the UID and that of a repository built for this claim, with the given supervisor name if it is new; none only if a call fails or the repository appeared meanwhile |
| ClaimController.Cluster.SyncBackupRepositoryClaim | pkg/backupdriver/backup_driver_controller_base.go:673-722 | every behaviour is an execution; success from a cached claim without reference leaves the claim bound to its repository |
| Datastores.FindHostsOfNodeVMs | pkg/ivd/ivd_protected_entity_type_manager_util.go:46-120 | a duplicate-free list of exactly the hosts of VMs that are nodes; an error exactly for an empty node name or a failed call |
| Datastores.NoShorterCover | pkg/ivd/ivd_protected_entity_type_manager_util.go:203-205 | pigeonhole: a duplicate-free list is no longer than any list covering it, so the length test drops nothing eligible |
| Datastores.Eligible | pkg/ivd/ivd_protected_entity_type_manager_util.go:165-226 | true exactly for allowed datastores attached to every host |
| Datastores.ContainsIff | pkg/ivd/ivd_protected_entity_type_manager_util.go:191 | the test for the internal domain is substring containment |
| Datastores.FindSharedDatastoresFromAllNodeVMs | pkg/ivd/ivd_protected_entity_type_manager_util.go:123-230 | exactly the allowed datastores attached to every node VM's host, in listing order; an error exactly for an empty node name, a failed call or no hosts |
| Datastores.Collect | pkg/ivd/ivd_protected_entity_type_manager_util.go:148-161 | the items of all data centers, skipping those not found; fails exactly if a listing fails |
| Datastores.SharedRefsExact | pkg/ivd/ivd_protected_entity_type_manager_util.go:197-226 | membership in the answer is the set condition |
| Datastores.MoreHostsFewerDatastores | pkg/ivd/ivd_protected_entity_type_manager_util.go:214-226 | more hosts never make a datastore eligible |
| Labels.FilterLabelsForVslm | pkg/ivd/ivd_protected_entity_type_manager_util.go:314-368 | the loops compute the reserved entries followed by the rewritten labels, for every order of the map traversal; the cluster ID and the user are the only values under their keys, and both occur |
| Labels.FilterLabelsForCns | pkg/ivd/ivd_protected_entity_type_manager_util.go:370-389 | the loop computes the labels without the prefix |
| Labels.DroppingCounts | pkg/ivd/ivd_protected_entity_type_manager_util.go:370-389 | each label outside the class survives as often as it occurs, no other does |
| Labels.DroppingIsSubsequence | pkg/ivd/ivd_protected_entity_type_manager_util.go:370-389 | the result is a subsequence of the input, at increasing positions |
| Labels.DroppingIdempotent | pkg/ivd/ivd_protected_entity_type_manager_util.go:370-389 | filtering twice is filtering once |
| Labels.FilterAfterRewrite | pkg/ivd/ivd_protected_entity_type_manager_util.go:335-389 | filtering after the rewrite equals filtering the original if and only if the filter drops every reserved key |
| Labels.CnsFilterHidesRewrite | pkg/ivd/ivd_protected_entity_type_manager_util.go:322-389 | which the prefix in use does |
| Labels.RewriteSetsReserved | pkg/ivd/ivd_protected_entity_type_manager_util.go:335-368 | after the rewrite every reserved key occurs and every occurrence carries this cluster's value |
| Labels.RewriteKeepsOthers | pkg/ivd/ivd_protected_entity_type_manager_util.go:335-368 | all other labels are kept in order, and exactly the reserved entries are added |

## Left out

- vCenter, VSLM, CNS, VDDK and S3 calls and the internals of Astrolabe: outcomes of steps.
- Leader election, work queues and informers: the lease is a hypothesis, re-delivery and staleness are steps.
- The clock tests of the informer handlers (retry time, clean-up window) and the node filter of enqueueUploadItem: a run may start at any time, which allows more executions.
- UploadRetries.CopiesAreBounded: assumes no crash, since a crashed copy is counted by nobody; what crashes leave of the bound is UploadRetries.FailedCopiesBounded, with its exact condition in UploadRetries.FailedCopiesBoundedIff.
- UploadAccounting.RetryAccounting: assumes first attempts are accepted; what later attempts do is StatusPatch.AcceptedAttemptEffect.
- DownloadProtocol.FailedAtTheSeventh: assumes first attempts are accepted, since a repeated attempt counts again.
- DataMover.DataMover.CancelUpload: is one step; the source's load, call and delete are not atomic.
- The patch of a claim, which changes one field, is modelled on the record; the wire-level refinement is proved for Uploads and Downloads.
- Whether a sync sees a cancel request on its Snapshot is the environment's choice.
- The wording of status messages, which carries error details: a write stores the message it is given.
- Progress, backup timestamps and object metadata: no writer modelled here changes them.
- reflect.DeepEqual distinguishes nil from empty lists and maps; the claim comparison here does not.
- GetUploadCRRetryMaximumFromConfig and other configuration look-ups: single lookups with defaults.
- Creation of the Upload and Download resources by polling, CloneFromSnapshot and DeleteSnapshot controllers, the guest branch of deleteSnapshot and its later deletes: little state.
- Installers, commands, servers, builders, generated clients and deep copies.
