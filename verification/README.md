# Verified models of the Mountpoint for Amazon S3 CSI Driver

This project models the stateful parts of the driver in Dafny and proves what they keep over all runs. Each part
consists of a transition system, of theorems about all its runs, and of imperative methods that follow the Go code
call by call. Every effect of such a method is a step of the transition system, and between two of its calls the
others move as they like, so that what holds of all runs holds of the code in any interleaving.

- **Sharing protocol** (`SharingTuple`, `Expectations`, `SharingModel`, `SharingInvariants`, `SharingUniqueness`,
  `KeyCollision`, `StaleExpectations`, `StaleExpectationRuns`, `NeedsUnmount`, `AnnotationHistory`, `PodConservation`,
  `Cluster`, `Removal`, `Reconciler`, `StaleAttachmentCleaner`, `ControllerRun`): the controller decides which
  Mountpoint Pod serves which workload and records it in MountpointS3PodAttachments. It reads attachments and
  Mountpoint Pods from a cache that lags by any amount, writes with compare-and-swap, and remembers what it has just
  created. The cleaner is a second writer.
- **Node search** (`NodeSearch`): how the node finds the attachment that the controller made.
- **Locks and mounts** (`MPPodLock`, `MountModel`, `PodMounter`): the reference-counted locks of Mountpoint Pods, and
  Mount, target unmounts and cleanUnmount under them. The state of the mounts contains the state of the locks, so
  mutual exclusion is the proved one.
- **Arguments** (`Args`, `Decimal`, `NodePublish`): parsing and printing of Mountpoint arguments, the set that is used
  as a map, and the argument part of NodePublishVolume (CSI Specification v1.9.0), cache size included.
- **Headroom** (`Headroom`): the Reconcile pass that labels, reserves, ungates and cleans up.
- **Child processes** (`ProcessManager`): Launch, waiter goroutines and Shutdown.

`Strings` has the order of `sort.Strings`, a sort, `strings.Join` and splitting at a separator.

## How to read the contracts

In the sharing protocol a cluster is `quiet` when calls are whole and read current state, and `reliable` when no call
is lost; without these words a contract holds for arbitrary interleavings, stale copies and lost calls. A failed call
has no effect. The versions of a Mountpoint Pod are not modelled: an annotation that was prepared on an old one may
fail at any time. The cleaner lists the workload Pods as they are. A world starts empty, Reconcile calls run one at a
time, and the controller process lives as long as the run: a restart forgets the expectations and is not a step.

A method of the lock table, of the node or of the process manager that has to block says by its result whether it has
returned yet. Waiting either sees what it waits for or fails.

## What the proofs found

- The expectation key joins fields with semicolons and does not escape them. Attachments are unique per tuple exactly
  as long as keys are; mount options and volume IDs with semicolons can make two tuples share one key, and then one of
  them can be created twice. Tuples without semicolons are safe.
- The recovery from duplicates is never entered in runs with distinct keys.
- The controller and the cleaner annotate a Mountpoint Pod before the compare-and-swap that drops it, on the strength
  of a version that may be old. The promise of the annotation is kept exactly as long as no such decision overlooks an
  existing workload; runs of the cleaner and of Reconcile on a lagging cache show that this happens.
- The cleaner deletes attachments without clearing expectations. An expectation outlives its attachment exactly when
  the cleaner deletes one that is expected or just made. As long as the cache still shows the deleted attachment, a
  Reconcile call that finds it clears the expectation, and another attachment can be created. If none does before the
  cache has dropped it, nothing is ever created for that tuple again.
- A Mountpoint Pod that the cache has not shown yet looks like one that is gone. If a call drops the entry of such a
  Pod, the Pod lives on, listed nowhere and not annotated; no live Pod is forgotten in any other way, but for a failed
  compensating delete.
- A terminating workload that still has its scheduling gate and its headroom label gets its Headroom Pods created and
  deleted in one pass, and then loses the gate if every claim is bound. A terminating workload that is gated and not
  labelled yet gets Headroom Pods that only a later pass takes away. A gated workload without volumes keeps its gate,
  although one whose volumes all belong to other drivers loses it.
- A Launch that is before its start, or between start and waiter, when Shutdown begins can leave a process behind. The
  accept loop of the daemon does not allow that.
- `Set` leaves just one value of a key only if there was at most one, and `Value` and `Remove` pick any one of
  several. A disk-backed request with several values of `--max-cache-size` is therefore sure to be capped only if all
  of them are within the cap, or none can be accepted.
- For a negative size limit, the cap of 95% is met only if 95% of the limit is a whole number of MiB, or the user
  gives a size within the cap, or one that is refused.

## Model

| member | source | states |
|---|---|---|
| `SharingUniqueness.AtMostOneLivePerTuple` | cmd/aws-s3-csi-controller/csicontroller/reconciler.go:701-729 | In every run, with the cleaner interleaved and an arbitrarily lagging cache, if no two tuples ever listed share an expectation key: at most one live attachment per tuple exists, each live one is visible, expected or just being recorded, and duplicates are never listed |
| `KeyCollision.UniqueExactlyWhenKeysDistinct` | cmd/aws-s3-csi-controller/csicontroller/reconciler.go:701-729 | Attachments over a set of well-formed tuples are unique in all runs if and only if their expectation keys are pairwise distinct |
| `KeyCollision.CleanTuplesAreUnique` | cmd/aws-s3-csi-controller/csicontroller/expectations.go:57-71 | Tuples whose fields contain no semicolon keep their attachments unique in every run |
| `KeyCollision.CollidingKeysDuplicate` | cmd/aws-s3-csi-controller/csicontroller/reconciler.go:496-499 | For any two tuples with one key there is a run that ends with two live attachments of one of them: finding the one clears the expectation of the other |
| `KeyCollision.TwoFieldsCollide` | cmd/aws-s3-csi-controller/csicontroller/expectations.go:57-71 | Whatever two filter fields: with all the others fixed, there are values of these two for which different filter maps get one expectation key |
| `KeyCollision.UniquenessFailsForSomeTuples` | cmd/aws-s3-csi-controller/csicontroller/reconciler.go:366-386 | For every tuple there are two that differ from it in mount options and volume ID only, and for which uniqueness fails in some run |
| `SharingInvariants.NoWorkloadTwice` | cmd/aws-s3-csi-controller/csicontroller/reconciler.go:501-506 | However stale the copies that Reconcile and cleaner write back, no content of an attachment ever lists a workload UID twice, within a list or across Mountpoint Pods |
| `SharingInvariants.OneHome` | cmd/aws-s3-csi-controller/csicontroller/reconciler.go:746-769 | A Mountpoint Pod name occurs in the contents of one attachment only, over all contents that any attachment ever had |
| `SharingInvariants.SharingIsolation` | cmd/aws-s3-csi-controller/csicontroller/reconciler.go:366-386 | All workloads ever attached to one Mountpoint Pod were attached under equal sharing tuples; that these are their own tuples is part of SpawnOrDeleteMountpointPodIfNeeded |
| `SharingInvariants.OnlyThoseWhoMaySharePods` | cmd/aws-s3-csi-controller/csicontroller/reconciler.go:366-386 | What that means field by field: workloads on record for one Mountpoint Pod, each under the tuple that describes it and its volume, agree in node, PV, volume handle, mount options, file system group and authentication source, the defaults filled in, and for the source pod also in namespace, service account and role |
| `SharingInvariants.EveryEntryIsRecorded` | cmd/aws-s3-csi-controller/csicontroller/reconciler.go:574-619 | Every entry of every content is on record as attached under the tuple of that attachment |
| `PodConservation.ConservedExactlyWithoutStaleNotFound` | cmd/aws-s3-csi-controller/csicontroller/reconciler.go:946-952 | All along a run every live spawned Mountpoint Pod is an entry of a live attachment, annotated needs-unmount, held by the running call, or left behind by a failed compensating delete, if and only if no step drops a live, unannotated Pod for which an earlier Get answered NotFound because the lagging cache had not shown it yet |
| `PodConservation.MountpointPodConservation` | cmd/aws-s3-csi-controller/csicontroller/reconciler.go:533-561 | So it is in every run in which a Get misses only Pods that are gone |
| `PodConservation.WholeRunsMissOnlyGone` | cmd/aws-s3-csi-controller/csicontroller/reconciler.go:843-850 | Runs of whole calls on current reads are such runs |
| `PodConservation.StaleNotFoundForgetsPod` | cmd/aws-s3-csi-controller/csicontroller/reconciler.go:651-663 | For every tuple a run in which a Reconcile call drops the entry of a live Mountpoint Pod that its cache has not shown yet, and the Pod is forgotten |
| `SharingInvariants.SafeStep` | cmd/aws-s3-csi-controller/csicontroller/reconciler.go:623-698 | Every step of the protocol keeps the conjunction of shape, contents, records, and of what annotations, listings and left-behind Pods mean |
| `SharingUniqueness.PromisedExactlyUnlessCleanerBreaks` | cmd/aws-s3-csi-controller/csicontroller/stale_attachment_cleaner.go:134-135 | With distinct keys, expectations stand for live attachments all along a run if and only if the cleaner never deletes an attachment that is expected, or just made and about to be |
| `SharingUniqueness.NoStaleExpectation` | cmd/aws-s3-csi-controller/csicontroller/reconciler.go:690-694 | In such runs, between calls, a pending key belongs to a live attachment of its tuple |
| `SharingUniqueness.ReconcilerOnlyKeepsPromises` | cmd/aws-s3-csi-controller/csicontroller/reconciler.go:690-694 | Runs without the cleaner are such runs |
| `StaleExpectations.BrokenExactlyUntilCleared` | cmd/aws-s3-csi-controller/csicontroller/reconciler.go:496-499 | With distinct keys: an attachment of a tuple is expected or just made although none lives, if and only if the cleaner has deleted one that was expected or just made, and no call has cleared the expectation since |
| `StaleExpectations.StuckExactlyWhenDroppedUncleared` | cmd/aws-s3-csi-controller/csicontroller/reconciler.go:701-711 | With distinct keys, whenever no call is at a tuple: its creation is blocked with nothing left in the cache, if and only if the cleaner has deleted an attachment of it that was expected or just made, the cache has dropped that one, and no call has cleared the expectation since |
| `StaleExpectations.StaleExpectationIsForEver` | cmd/aws-s3-csi-controller/csicontroller/reconciler.go:701-711 | Once the cache has dropped every attachment of a tuple whose key is still pending, and no call is at it: in no continuation with distinct keys is an attachment created for that tuple again, and none lives |
| `StaleExpectationRuns.CleanerLeavesStaleExpectation` | cmd/aws-s3-csi-controller/csicontroller/stale_attachment_cleaner.go:134-135 | For every tuple there is a run in which the cleaner deletes an attachment that the cache shows and that is expected, the cache drops it, and the expectation is stale for ever |
| `StaleExpectationRuns.ClearedExpectationRecovers` | cmd/aws-s3-csi-controller/csicontroller/reconciler.go:496-499 | For every tuple that run also goes on otherwise: a Reconcile call still finds the deleted attachment in the cache and clears the expectation, and after the cache has dropped it another one is created |
| `AnnotationHistory.AnnotatedServeNobodyExactlyWhenHeeded` | cmd/aws-s3-csi-controller/csicontroller/reconciler.go:651-675 | All along a run every annotated Mountpoint Pod lists only workloads that no longer exist, if and only if whenever one of a live attachment is annotated, every workload is gone that an earlier step assigned to it after the version it was decided on and no later step took away, for the cleaner also every listed one that came after its last listing; and no existing workload is assigned to an annotated Pod |
| `NeedsUnmount.AnnotatedPodsServeNobody` | cmd/aws-s3-csi-controller/csicontroller/reconciler.go:651-675 | So it is in runs of whole calls: decisions on the current version and Pods as they are |
| `NeedsUnmount.AnnotatedPodsGetNobody` | cmd/aws-s3-csi-controller/csicontroller/reconciler.go:853-876 | In runs of whole calls an annotated Mountpoint Pod stays annotated and is given nobody |
| `NeedsUnmount.CleanerRace` | cmd/aws-s3-csi-controller/csicontroller/stale_attachment_cleaner.go:103-138 | A run in which the cleaner annotates, as the version that it has read allows, a Mountpoint Pod that an existing workload was assigned to meanwhile |
| `NeedsUnmount.StaleCacheRace` | cmd/aws-s3-csi-controller/csicontroller/reconciler.go:651-663 | The same without the cleaner: a Reconcile call that still reads an old version with an empty entry annotates |
| `ControllerRun.RunController` | cmd/aws-s3-csi-controller/csicontroller/reconciler.go:305-336 | Any number of whole Reconcile and RunCleanup calls on current reads, with calls that may fail and moves of the environment between them: they compose, annotated Pods serve and get nobody at every moment, and no live Pod is forgotten |
| `SharingTuple.FiltersMatchExactly` | pkg/api/v2/mountpoints3podattachment_indexer.go:13-25 | The filters of a tuple match the attachment of a tuple if and only if the tuples are equal, and filter maps are equal iff the tuples are |
| `SharingTuple.NewSpecIsDescribed` | cmd/aws-s3-csi-controller/csicontroller/reconciler.go:746-769 | The tuple of a workload and a volume has exactly the fields that the code names, with driver for a missing authentication source, default for a missing service account, and namespace, service account and role only for the source pod |
| `SharingTuple.SameTupleExactly` | cmd/aws-s3-csi-controller/csicontroller/reconciler.go:366-386 | Two workloads get one tuple if and only if they agree in those fields |
| `Strings.JoinTells` | cmd/aws-s3-csi-controller/csicontroller/reconciler.go:374 | Joined mount options without commas tell the options apart |
| `SharingTuple.FreshAttachmentIsMatched` | cmd/aws-s3-csi-controller/csicontroller/reconciler.go:366-386 | The filters that led to the creation of an attachment match it, and match that of other inputs exactly when those inputs give the same filters |
| `SharingTuple.KeyDistinguishesCleanTuples` | cmd/aws-s3-csi-controller/csicontroller/expectations.go:57-71 | Tuples without semicolons have equal expectation keys iff they are equal |
| `Expectations.KeyInjective` | cmd/aws-s3-csi-controller/csicontroller/expectations.go:57-71 | The expectation key is injective on filter maps whose keys have no equals sign or semicolon and whose values have no semicolon |
| `Expectations.DeriveExpectationKeyFromFilters` | cmd/aws-s3-csi-controller/csicontroller/expectations.go:57-71 | Whatever order the map is iterated in, the derived key is the one function of the filter map |
| `ClusterClient.Cluster.ListMatching` | cmd/aws-s3-csi-controller/csicontroller/reconciler.go:416-430 | A List returns copies of visible matching attachments without repetition, and decides what the running call knows of the tuple |
| `ClusterClient.Cluster.UpdateAttachment` | cmd/aws-s3-csi-controller/csicontroller/reconciler.go:640-649 | Compare-and-swap: the write takes effect only on the version the copy was read at, and a failed write has no effect |
| `ClusterClient.Cluster.DeleteAttachment` | cmd/aws-s3-csi-controller/csicontroller/reconciler.go:791-793 | A delete takes effect only on the version the copy was read at |
| `ClusterClient.Cluster.DeleteSpawnedPod` | cmd/aws-s3-csi-controller/csicontroller/reconciler.go:549-559 | The compensating delete leaves the spawned Mountpoint Pod gone, or on record as left behind |
| `ClusterClient.Cluster.GetPod` | cmd/aws-s3-csi-controller/csicontroller/reconciler.go:843-850 | From a cache that lags: some state in which the Mountpoint Pod lived and was shown, or NotFound only of a Pod that is gone or not shown yet; on current reads the current state |
| `ClusterClient.Cluster.UpdatePodNeedsUnmount` | cmd/aws-s3-csi-controller/csicontroller/reconciler.go:959-967 | Annotates a live Mountpoint Pod, as the copy that the decision was made on allows; may fail on a conflict unless reads are current |
| `ClusterClient.Cluster.ReadPods` | cmd/aws-s3-csi-controller/csicontroller/stale_attachment_cleaner.go:53-66 | The cleaner works with the Pods that existed when it listed them |
| `Controller.Reconciler.IsPending` | cmd/aws-s3-csi-controller/csicontroller/expectations.go:32-36 | Reports exactly whether the key of the filters is expected |
| `Controller.Reconciler.SetPending` | cmd/aws-s3-csi-controller/csicontroller/expectations.go:25-28 | Adds the key of the filters and nothing else |
| `Controller.Reconciler.ClearPending` | cmd/aws-s3-csi-controller/csicontroller/expectations.go:40-43 | Removes the key of the filters and nothing else |
| `Controller.Reconciler.AddNeedsUnmountAnnotation` | cmd/aws-s3-csi-controller/csicontroller/reconciler.go:946-971 | Success means that the Mountpoint Pod is annotated, or that a Get, maybe from a cache that lags, did not find it; no attachment changes |
| `Controller.Reconciler.RemoveUid` | cmd/aws-s3-csi-controller/csicontroller/reconciler.go:623-649 | The first loop, for any map order: success has written the content with the workload filtered out of every list; another try is asked for only if the attachment has a newer version, and without lost calls an error means that it is gone |
| `Controller.Reconciler.DropEmptyPods` | cmd/aws-s3-csi-controller/csicontroller/reconciler.go:651-675 | The second loop, for any map order: success has dropped exactly the empty entries, each after its Mountpoint Pod was annotated or found absent |
| `Controller.Reconciler.DeleteIfEmpty` | cmd/aws-s3-csi-controller/csicontroller/reconciler.go:677-695 | The attachment is deleted, and its expectation cleared, exactly when no Mountpoint Pod remains |
| `Controller.Reconciler.RemoveWorkloadFromS3PodAttachment` | cmd/aws-s3-csi-controller/csicontroller/reconciler.go:623-698 | Success leaves exactly the old map without the workload, released entries dropped, and the attachment deleted iff nothing remains; nothing else changes on current reads |
| `Removal.RemovedIsExact` | cmd/aws-s3-csi-controller/csicontroller/reconciler.go:623-698 | The map that is left has every other attachment, in order and under its Mountpoint Pod, no entry without workloads, and not the removed workload |
| `Removal.OneEntryIsEnough` | cmd/aws-s3-csi-controller/csicontroller/reconciler.go:628-649 | Editing only the first entry that has the workload is enough because no workload occurs twice |
| `Removal.FilterOut` | cmd/aws-s3-csi-controller/csicontroller/reconciler.go:628-640 | The inner loop keeps the other attachments in order and reports whether the workload was there |
| `Controller.Reconciler.RecoverFromDuplicateS3PodAttachments` | cmd/aws-s3-csi-controller/csicontroller/reconciler.go:438-474 | Gives up on two attachments with Mountpoint Pods, and on current reads on nothing else; otherwise deletes the duplicates without Mountpoint Pods, returns the survivor iff there is one, and clears the expectation when none is left |
| `Controller.Reconciler.GetExistingS3PodAttachment` | cmd/aws-s3-csi-controller/csicontroller/reconciler.go:416-430 | On current reads without duplicates it finds the attachment of the tuple iff a live one exists |
| `Controller.Reconciler.FindSuitablePod` | cmd/aws-s3-csi-controller/csicontroller/reconciler.go:574-600 | For any map order, a Mountpoint Pod that took workloads in some state it was read in; on current reads it finds one that takes workloads, iff there is one |
| `Controller.Reconciler.AssignWorkloadToAnExistingMountpointPod` | cmd/aws-s3-csi-controller/csicontroller/reconciler.go:574-619 | Success appends the workload to the list of a suitable Mountpoint Pod and changes nothing else of the content; another try is asked for only on a newer version |
| `Controller.Reconciler.AddNewMountpointPod` | cmd/aws-s3-csi-controller/csicontroller/reconciler.go:532-566 | Success enters a Mountpoint Pod that did not exist before with the workload; on failure the spawned Pod is not kept, and another try is asked for only on a newer version |
| `Controller.Reconciler.AddWorkloadToS3PodAttachment` | cmd/aws-s3-csi-controller/csicontroller/reconciler.go:511-566 | The workload shares a suitable Mountpoint Pod if there is one, and gets a new one otherwise |
| `Controller.Reconciler.HandleInactivePod` | cmd/aws-s3-csi-controller/csicontroller/reconciler.go:477-484 | Without an attachment nothing happens; on current reads an inactive workload ends up attached nowhere under its tuple |
| `Controller.Reconciler.HandleExistingS3PodAttachment` | cmd/aws-s3-csi-controller/csicontroller/reconciler.go:487-507 | The expectation of the found attachment is cleared, and success means that the workload is attached, with the current time unless it was before |
| `Controller.Reconciler.CreateS3PodAttachmentWithMPPod` | cmd/aws-s3-csi-controller/csicontroller/reconciler.go:732-784 | Success creates an attachment whose only content is a new Mountpoint Pod with the workload and the current time; a failed Create leaves no held Mountpoint Pod |
| `Controller.Reconciler.HandleNewS3PodAttachment` | cmd/aws-s3-csi-controller/csicontroller/reconciler.go:701-729 | An expected attachment is not created again, a created one is expected, and a Running workload creates nothing |
| `Controller.Reconciler.SpawnOrDeleteMountpointPodIfNeeded` | cmd/aws-s3-csi-controller/csicontroller/reconciler.go:305-336 | Whoever is attached meanwhile is this workload, under the tuple that describes it, whatever interleaves. On current reads one call leaves a Pending workload attached unless an expectation without an attachment is in the way; a Running one, terminating or not, attached if there is an attachment and otherwise everything as it was; and one that has ended, or is terminating while Pending, detached |
| `Controller.NeverStaleWhilePromisesAreKept` | cmd/aws-s3-csi-controller/csicontroller/reconciler.go:710-728 | Runs with distinct keys in which the cleaner deletes nothing that is expected meet the condition of that progress |
| `Controller.AttachedExactlyOnce` | cmd/aws-s3-csi-controller/csicontroller/reconciler.go:487-507 | An attached workload is attached in one attachment, to one Mountpoint Pod, at one place |
| `ControllerRun.AttachWorkload` | cmd/aws-s3-csi-controller/csicontroller/reconciler.go:305-336 | On current reads and without lost calls, in a run with distinct keys in which the cleaner deleted nothing that was expected: one Reconcile call leaves a Pending workload attached under its tuple at exactly one place |
| `Removal.CleanedIsExact` | cmd/aws-s3-csi-controller/csicontroller/stale_attachment_cleaner.go:103-133 | The cleaner keeps an attachment iff its Pod exists or its age is at most two minutes, in order, and leaves no empty entry |
| `Removal.CleaningTwiceIsCleaningOnce` | cmd/aws-s3-csi-controller/csicontroller/stale_attachment_cleaner.go:96-141 | For fixed Pods and time, cleaning is idempotent |
| `Removal.ValidAttachments` | cmd/aws-s3-csi-controller/csicontroller/stale_attachment_cleaner.go:105-119 | The inner loop keeps exactly the attachments that are not stale and reports whether any was |
| `Cleaner.StaleAttachmentCleaner.CleanEntry` | cmd/aws-s3-csi-controller/csicontroller/stale_attachment_cleaner.go:103-133 | An entry is filtered, or dropped after its Mountpoint Pod was annotated or found absent |
| `Cleaner.StaleAttachmentCleaner.CleanEntries` | cmd/aws-s3-csi-controller/csicontroller/stale_attachment_cleaner.go:103-133 | The outer loop, for any map order, computes that filter |
| `Cleaner.StaleAttachmentCleaner.CleanupStaleWorkloads` | cmd/aws-s3-csi-controller/csicontroller/stale_attachment_cleaner.go:96-141 | It writes iff something is stale, and then exactly the filtered content, deleting the attachment iff that is empty |
| `Cleaner.StaleAttachmentCleaner.RunCleanup` | cmd/aws-s3-csi-controller/csicontroller/stale_attachment_cleaner.go:53-89 | On current reads every live attachment is filtered that way, and nothing else changes |
| `NodeSearch.NodeFiltersMatchExactly` | pkg/driver/node/mounter/pod_mounter.go:547-559 | The filters of the node match a tuple if and only if that is of this node, PV, volume, file system group and authentication source and, for pod, of this namespace and service account |
| `NodeSearch.NodeSeesTheControllersChoice` | pkg/driver/node/mounter/pod_mounter.go:547-568 | In terms of the workload and the volume: the filters match exactly the tuples that agree with them in all but mount options and role, and so whatever the controller creates for them |
| `NodeSearch.ServingPairIsUnique` | pkg/driver/node/mounter/pod_mounter.go:569-582 | The pair of attachment and Mountpoint Pod that serves a workload with a volume is unique, unless it was attached under two tuples of that volume |
| `NodeSearch.GetS3PodAttachment` | pkg/driver/node/mounter/pod_mounter.go:539-590 | The search over a current listing returns that pair iff it exists, for any list and map order, and the attachment that it finds is of the volume that is asked for, whatever other volumes the workload has |
| `MPPodLocks.OneHolderPerPod` | pkg/driver/node/mounter/mppod_lock.go:37-44 | In every interleaving of any number of threads at most one holds the lock of a Pod name, although lock objects are deleted and made again |
| `MPPodLocks.EntriesCountUsers` | pkg/driver/node/mounter/mppod_lock.go:49-82 | A table entry exists iff some thread is between getting and releasing, and its count is the number of those threads |
| `MPPodLocks.UsersShareTheLock` | pkg/driver/node/mounter/mppod_lock.go:49-61 | Threads use one lock object iff they use the lock of one Pod name |
| `MPPodLocks.NoLostRelease` | pkg/driver/node/mounter/mppod_lock.go:70-75 | The branch for a lock that does not exist is never reached |
| `MPPodLocks.WaitingIsForAHolder` | pkg/driver/node/mounter/mppod_lock.go:37-44 | A waiting thread can go on, or some thread holds that lock and can unlock it |
| `MPPodLocks.UnlockedCanRelease` | pkg/driver/node/mounter/mppod_lock.go:40-43 | A thread can always unlock and release what it holds |
| `MPPodLocks.InvStep` | pkg/driver/node/mounter/mppod_lock.go:37-82 | Every step keeps entries counted, one object per Pod name, and one holder per locked mutex |
| `MPPodLocks.LockTable.GetMPPodLock` | pkg/driver/node/mounter/mppod_lock.go:49-61 | Makes a lock with count one or adds one to the count of the existing object, as the machine does |
| `MPPodLocks.LockTable.ReleaseMPPodLock` | pkg/driver/node/mounter/mppod_lock.go:66-82 | Takes one from the count and deletes the entry at zero, as the machine does |
| `MPPodLocks.LockTable.LockMountpointPod` | pkg/driver/node/mounter/mppod_lock.go:37-44 | When it has returned, the caller holds the lock and nobody else does; as long as it waits, somebody does |
| `MPPodLocks.LockTable.UnlockMountpointPod` | pkg/driver/node/mounter/mppod_lock.go:40-43 | The caller no longer uses the lock |
| `MountModel.NoHealthyMountInUseIsUnmounted` | pkg/driver/node/mounter/pod_unmounter.go:181-216 | In every interleaving of Mount, target unmounts and cleanUnmount, a healthy mount that still has bind mounts is never unmounted at its source path |
| `MountModel.BindMountsAreServedBySource` | pkg/driver/node/mounter/pod_mounter.go:145-183 | A bind mount never refers to a mount that does not serve yet, and as long as its mount is healthy that is what is mounted at the source path |
| `MountModel.OneServingMountPerPod` | pkg/driver/node/mounter/pod_mounter.go:145-172 | No Mountpoint Pod has two healthy mounts with bind mounts |
| `MountModel.UnmountUndoesBind` | pkg/driver/node/mounter/pod_mounter.go:293-315 | A target unmount after a bind mount leaves every target with the mounts it had before |
| `MountModel.CrashedMountIsReplaced` | pkg/driver/node/mounter/pod_mounter.go:146-186 | A run in which the mount of a Mountpoint Pod serves, crashes, and is replaced by the next Mount, which binds the target to the new one |
| `MountModel.SafeStep` | pkg/driver/node/mounter/pod_unmounter.go:131-216 | Every step keeps what each lock holder has learnt about its source path true |
| `PodMounters.Node.CheckSource` | pkg/driver/node/mounter/pod_mounter.go:146-152 | Success leaves nothing or a healthy mount at the source; only a corrupted mount is taken away, and if unmounting works it is; then only a mount that is still starting makes it fail |
| `PodMounters.Node.MountS3AtSource` | pkg/driver/node/mounter/pod_mounter.go:211-288 | Success means a mount of this call that was seen to serve; after a failure nothing is left mounted if unmounting works, and unless a call fails the mount did not serve at the last look |
| `PodMounters.Node.MountLocked` | pkg/driver/node/mounter/pod_mounter.go:142-186 | Success binds the target to what is mounted at the source; failure leaves no mount of this call that nobody serves, and without failing calls means a mount that is still starting or does not come to serve |
| `PodMounters.Node.Mount` | pkg/driver/node/mounter/pod_mounter.go:105-186 | The same between the step of this call that acquires the lock and the one that gives it back, on success and on failure; success means that no call failed, and a target that is mounted already is not bound again |
| `PodMounters.Node.CleanUnmount` | pkg/driver/node/mounter/pod_unmounter.go:144-177 | What is taken away is corrupted or has no bind mounts; without failing calls a corrupted source is unmounted, and one stays only while bind mounts refer to it or it is still starting |
| `PodMounters.Node.UnmountAndRemoveMountpointSource` | pkg/driver/node/mounter/pod_unmounter.go:181-216 | The same for the part that unmounts |
| `PodMounters.Node.WaitUntilMountpointIsUnused` | pkg/driver/node/mounter/pod_unmounter.go:249-270 | Success if and only if no bind mount refers to the mount at the source at the last look |
| `PodMounters.Node.UnmountMountpointPodIfNeeded` | pkg/driver/node/mounter/pod_unmounter.go:131-141 | Without the annotation nothing happens; with it, cleanUnmount between the step of this call that acquires the lock and the one that gives it back |
| `PodMounters.Node.UnmountTarget` | pkg/driver/node/mounter/pod_mounter.go:293-315 | Takes the top mount from the target path, and touches no source path and no other target |
| `Args.ParsePrint` | pkg/mountpoint/args.go:45-98 | Parsing the printed form of a parsed argument gives it back, whatever spaces and equals signs its value has |
| `Args.ParseArgExactly` | pkg/mountpoint/args.go:59-98 | Whatever text: a key without spaces and equals signs, then one of these, then a value, with spaces around and in front of the value, is parsed as that value of the key, with two dashes in front unless it starts with one, or refused exactly for the six options |
| `Args.EveryTextHasParts` | pkg/mountpoint/args.go:62-83 | Every text has such parts, or is a key alone |
| `Args.RoundTrip` | pkg/mountpoint/args.go:59-143 | For every input list, parsing the printed list of the parsed arguments gives the same arguments |
| `Args.PrintingIsInjective` | pkg/mountpoint/args.go:136-143 | Parsed argument sets print alike iff they are equal |
| `Args.SetReplacesExactlyWhenUnique` | pkg/mountpoint/args.go:101-133 | Set leaves just the new value of a key, whatever the iteration order, iff the key had at most one value before |
| `Args.MapAfterSet` | pkg/mountpoint/args.go:101-105 | With distinct keys Set is a map update and keeps keys distinct |
| `Args.Args.Parse` | pkg/mountpoint/args.go:59-98 | The loop collects exactly the arguments that are not disallowed |
| `Args.Args.Find` | pkg/mountpoint/args.go:146-154 | For any iteration order: some argument with the normalised key, iff there is one |
| `Args.Args.Has` | pkg/mountpoint/args.go:121-124 | Whether the normalised key is there |
| `Args.Args.Value` | pkg/mountpoint/args.go:115-118 | The value of the normalised key; with distinct keys that of the map |
| `Args.Args.Remove` | pkg/mountpoint/args.go:127-133 | Removes one argument with the key, if there is one; with distinct keys that is removal from the map |
| `Args.Args.Set` | pkg/mountpoint/args.go:101-105 | With distinct keys it updates the map |
| `Args.Args.SetIfAbsent` | pkg/mountpoint/args.go:108-112 | A given value is kept, an absent one is set |
| `Args.Args.SortedList` | pkg/mountpoint/args.go:136-143 | One line per argument, sorted; for parsed arguments the sorted list of the set of lines |
| `Decimal.FormatParse` | pkg/driver/node/node.go:171-196 | A formatted number parses back if it fits into 64 bits, and not otherwise |
| `Decimal.ParseIntExactly` | pkg/driver/node/node.go:171-173 | Digits with any sign and leading zeros are parsed as their number, or are an error if that does not fit into 64 bits |
| `Decimal.NotANumber` | pkg/driver/node/node.go:171-173 | Anything else is an error |
| `Decimal.FormatIsCanonical` | pkg/driver/node/node.go:196 | A number is printed with a minus sign iff it is negative, and without leading zeros |
| `NodePublish.MountArguments` | pkg/driver/node/node.go:119-198 | A request, also one with several cache sizes, is refused for the first of the reasons in the order of the code; otherwise it is mounted with exactly what is given and what is added, and with cache sizes as specified for some choice of the one that is looked at and of the one that is removed |
| `NodePublish.GivenExactly` | pkg/driver/node/node.go:119-128 | What the user gives is an argument for a read-only volume or access mode, and what the mount flags are parsed as |
| `NodePublish.FilledExactly` | pkg/driver/node/node.go:140-156 | What is added is, where nothing is given, the group with access and modes 770 and 660, or without a group access for root unless others are allowed |
| `NodePublish.RefusedExactlyAboveLimit` | pkg/driver/node/node.go:170-180 | For a limit that is not negative, a size is refused as too large if and only if it has more bytes |
| `NodePublish.AcceptedArguments` | pkg/driver/node/node.go:119-198 | Every accepted request keeps all other arguments of the user, gains no others but the defaults, gives some other user access, and is left with cache sizes of the user or the safe one only; all of the user if none is above the safe one |
| `NodePublish.ClampCacheSize` | pkg/driver/node/node.go:158-198 | The clamp refuses what it has to, and changes cache sizes only, for some choice of the size that is looked at and of the one that is removed |
| `NodePublish.CapIsMetExactly` | pkg/driver/node/node.go:119-198 | Whatever the iteration order, a disk-backed request that is accepted is capped at 95% of its limit, if and only if it has an unsupported flag, or it gives sizes of which none is acceptable; or, with at most one size, the safe size or that one is within the cap; or, with several, all of them are |
| `NodePublish.ClampedIsCappedExactly` | pkg/driver/node/node.go:158-198 | The same of the clamp alone |
| `NodePublish.SafeMeetsCapExactly` | pkg/driver/node/node.go:163-168 | The safe size is within the cap if and only if the limit is not negative, or 95% of it is a whole number of MiB |
| `NodePublish.SafeOfNegative` | pkg/driver/node/node.go:163-168 | For a negative limit the safe size exceeds 95% of it unless that is a whole number of MiB, because the conversion truncates toward zero |
| `NodePublish.CheckUserSize` | pkg/driver/node/node.go:170-187 | A size above the limit is refused, and if the one that is looked at is above the safe size, one is removed, for a disk-backed cache only |
| `NodePublish.AddDefaults` | pkg/driver/node/node.go:140-156 | The given arguments win over the defaults for the file system group and for root |
| `Headroom.HeadroomReconciler.ReconcileWorkloadPod` | cmd/aws-s3-csi-controller/csicontroller/reconciler.go:144-244 | Whichever calls fail, a pass leaves what the specification of a pass says for these failures, and reports success if and only if every call that it made succeeded |
| `Headroom.PassIsOrderly` | cmd/aws-s3-csi-controller/csicontroller/reconciler.go:170-241 | Whichever calls fail: only own Headroom Pods, label and gate change, no Headroom Pod is made without the label, and the label goes only with the last Headroom Pod |
| `Headroom.PassAchieves` | cmd/aws-s3-csi-controller/csicontroller/reconciler.go:170-241 | When nothing fails, a workload past need is left without Headroom Pods and label, and a gated one with a Headroom Pod for each volume |
| `Headroom.HeadroomPodsGoExactlyPastNeed` | cmd/aws-s3-csi-controller/csicontroller/reconciler.go:1079-1092 | When nothing fails, a labelled workload with volumes is left without Headroom Pods and label if and only if it is terminating, or scheduled and Running or ended |
| `Headroom.HeadroomPodsStayWhileNeeded` | cmd/aws-s3-csi-controller/csicontroller/reconciler.go:1079-1092 | Whichever calls fail, one that is not terminating and is not scheduled or still Pending keeps them; for a scheduled one nothing is reserved either |
| `Headroom.ScheduledIsSeenTo` | cmd/aws-s3-csi-controller/csicontroller/reconciler.go:170-190 | Whichever calls fail, Mountpoint Pods are seen to for a scheduled workload only, and if none fails for each of its volumes |
| `Headroom.GateGoesReservedUnlessTerminating` | cmd/aws-s3-csi-controller/csicontroller/reconciler.go:221-231 | Whichever calls fail: when the gate goes, every claim is bound, and a Headroom Pod exists for every volume if and only if the workload is not both terminating and labelled before; otherwise none exists |
| `Headroom.GateGoesExactlyWhenBound` | cmd/aws-s3-csi-controller/csicontroller/reconciler.go:221-231 | When nothing fails, the gate goes if and only if the workload has volumes, no claim is unbound, and it is not scheduled with a volume of this driver |
| `Headroom.GateGoesInRunsExactlyWhenBound` | cmd/aws-s3-csi-controller/csicontroller/reconciler.go:147-231 | In every run such a pass takes the gate away exactly from a workload that has volumes and no unbound claim; one without volumes keeps it |
| `Headroom.GateGoesTooEarly` | cmd/aws-s3-csi-controller/csicontroller/reconciler.go:188-231 | A run in which that happens: labelled while a claim was unbound, then bound and told to terminate, then ungated with nothing reserved |
| `Headroom.OthersKeepTheirHeadroomPods` | cmd/aws-s3-csi-controller/csicontroller/reconciler.go:1035-1043 | A pass leaves the Headroom Pods of other workloads alone |
| `Headroom.HeadroomPodsGoAway` | cmd/aws-s3-csi-controller/csicontroller/reconciler.go:209-241 | In every run, a pass past need in which nothing fails leaves no Headroom Pod of the workload, iff it does not find it gated with volumes and not labelled yet |
| `Headroom.RunIsOwned` | cmd/aws-s3-csi-controller/csicontroller/reconciler.go:188-241 | In every run, each Headroom Pod of a workload is for one of its volumes, and the workload is labelled |
| `Headroom.HeadroomReconciler.GetWorkloadVolumes` | cmd/aws-s3-csi-controller/csicontroller/reconciler.go:247-284 | Exactly the volumes of this driver in order, and whether some claim is unbound |
| `Headroom.HeadroomReconciler.ReconcileVolume` | cmd/aws-s3-csi-controller/csicontroller/reconciler.go:173-219 | What is done for one volume, and for which volumes it is counted |
| `Headroom.HeadroomReconciler.ReconcileVolumes` | cmd/aws-s3-csi-controller/csicontroller/reconciler.go:170-219 | The counts equal the number of volumes exactly when all were reserved, or all removed |
| `Headroom.HeadroomReconciler.CreateHeadroomPodForMountpointPod` | cmd/aws-s3-csi-controller/csicontroller/reconciler.go:987-1013 | Adds the one Pod of that name, and may be called for a labelled workload only |
| `Headroom.NameTellsWorkloadAndVolume` | pkg/podmounter/mppod/headroom.go:112-122 | With UIDs of one length, a name belongs to one workload and volume, and has the prefix |
| `ProcessManagers.OneProcessPerMountId` | cmd/aws-s3-csi-daemonset-mounter/process_manager.go:71-90 | At most one process per mount ID runs or is tracked at any time |
| `ProcessManagers.WaitersDeleteTheirOwn` | cmd/aws-s3-csi-daemonset-mounter/process_manager.go:95-101 | A waiter deletes the handle of its own process, and no other, although it goes by the mount ID |
| `ProcessManagers.ErrorFileIffFailed` | cmd/aws-s3-csi-daemonset-mounter/process_manager.go:103-111 | An error file is attempted once for a process with a nonzero exit code, and for no other |
| `ProcessManagers.DescriptorsAreClosedOnce` | cmd/aws-s3-csi-daemonset-mounter/process_manager.go:46-88 | Launch closes a valid descriptor exactly once, and an invalid one never |
| `ProcessManagers.EveryRunningProcessIsSignalled` | cmd/aws-s3-csi-daemonset-mounter/process_manager.go:118-124 | Every process that runs when Shutdown begins is sent SIGTERM |
| `ProcessManagers.OnlyTrackedAreSignalled` | cmd/aws-s3-csi-daemonset-mounter/process_manager.go:118-124 | And nothing is signalled but the processes that are tracked then |
| `ProcessManagers.NothingIsTrackedAfterShutdown` | cmd/aws-s3-csi-daemonset-mounter/process_manager.go:118-127 | If no Launch is called once Shutdown has begun and those called before are settled by then, nothing runs or is tracked once Shutdown has returned |
| `ProcessManagers.ShutdownIsCleanExactlyWhenSettled` | cmd/aws-s3-csi-daemonset-mounter/process_manager.go:71-127 | When Shutdown begins and Launch is not called again: nothing is tracked whenever Shutdown has returned, on whatever way, if and only if no call is before its start or between start and waiter |
| `ProcessManagers.ProcessManager.LaunchMountpoint` | cmd/aws-s3-csi-daemonset-mounter/process_manager.go:46-115 | A new process is launched unless the descriptor is bad, the start fails, or the mount ID is tracked at the step of this call at which it has the mutex; the descriptor is closed once in all cases |
| `ProcessManagers.ProcessManager.AwaitExit` | cmd/aws-s3-csi-daemonset-mounter/process_manager.go:95-112 | The waiter ends with an error file iff the exit code is not zero, whatever the others do meanwhile |
| `ProcessManagers.ProcessManager.Shutdown` | cmd/aws-s3-csi-daemonset-mounter/process_manager.go:118-127 | When it has returned, nothing is tracked and every process has exited; as long as it has not, some waiter is not done |

## Left out

- GetPod: any earlier state of a Mountpoint Pod may be read, also one older than what was read before.
- CleanerRace: the steps of the cleaner do not ask for the age of an attachment; its methods do.
- FormatParse: stands for `strconv` on 64 bits, base 10.
- SafeMiB: the factor 0.95 is taken as an exact fraction; rounding of the floating-point product is not modelled.
- HeadroomPodNameFor: the SHA-224 hash in the name is taken to be injective and replaced by its input.
- NewSpec: the file system group of a workload is already printed in decimal.
- GetS3PodAttachment: the retry loop and its timeout; one search over a current listing is modelled.
- UnmountTarget: systemd mounts of version 1 and their credentials.
- SpawnOrDeleteMountpointPodIfNeeded: the loop over the volumes of a workload, and requeueing for unbound claims, are in Headroom only.
- ReconcileWorkloadPod: the spawning of Mountpoint Pods is one call that succeeds or fails; the requeue result is not modelled.
- AwaitMutex: fairness of mutexes; a thread may wait for ever while others come and go.
- CleanupDanglingMounts without the lock: mounts whose Mountpoint Pod is gone are unmounted without it, and the claim about mounts in use does not cover them.
- Deletion of succeeded Mountpoint Pods and of stale Headroom Pods, the dispatch in Reconcile, and the periodic timers: they only choose which of the modelled calls is made.
- Building the specs of Mountpoint Pods and Headroom Pods, labels, versions and user agents: copying of fields.
- Kubernetes client, informer and controller-runtime: only as the versioned store, the lagging cache and failing calls.
- FUSE mount and bind mount system calls, sending descriptors, process execution, and the file of the exit signal: only by their outcomes.
- Credential providers: only as a call that may fail.
