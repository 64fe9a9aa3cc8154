# Verification model of the Ceph CSI operator

The operator is a set of Kubernetes controllers. Several of them write one shared
ConfigMap, `ceph-csi-config`: the ClientProfile controller keeps a record for each
profile under `config.json`, the ClientProfileMapping controller rebuilds
`cluster-mapping.json`, the Driver controller adds owner references. This project
models that protocol and the algorithms inside its steps, and proves what they keep.

## How it is organised

- `Protocol.dfy` is the machine of one namespace: a versioned API server (an update
  commits only against the version that was read, a create only when the object is
  missing), one program counter for each reconcile in flight, and users, the garbage
  collector and restarts as further events. `Next` is one event, `After` a run. An
  event that is not possible changes nothing, so "for every sequence of events" is
  "for every interleaving".
- `ProtocolInvariant.dfy` and `ProtocolRuns.dfy` prove its safety: no lost update, no
  orphan record, deletion protection. The lock around the ConfigMap update is not in
  the machine; the results do not need it.
- `ProfileRounds.dfy`, `OtherRounds.dfy` and `Quiescence.dfy` say what one undisturbed
  reconcile does in all, and what any number of them in any order make of the ConfigMap;
  `SecondPass.dfy` what reconciles after that can still change. `OwnerUids.dfy` shows that
  what these results ask of the owner references holds in reachable states.
- `ProfileLife.dfy` follows a profile from its creation to its deletion, in terms of the
  stored objects alone; `UserEdits.dfy` shows that no interleaving loses what users write.
- `Election.dfy` and `ReadyElection.dfy` are the election among replications: the
  reconcile as it sorts and compares, and its effect over whole runs.
- `ConfigMapWriters.dfy`, `ClusterInfo.dfy`, `MappingAggregation.dfy`, `MapText.dfy` and
  `OwnerReferences.dfy` are the edits inside the steps, in place as in the source and
  as the functions the machine uses.
- `KeyedMerge.dfy` and `PodVolumes.dfy` are the merge by key and the volume lists of the
  three pods it is used for; `DriverDefaults.dfy` the defaults; `DriverObjects.dfy` the
  nine objects of a driver and their interleavings; `CsiDriverClaim.dfy` the claim of a
  CSIDriver name; `ConcurrentRun.dfy` the goroutine and channel helper;
  `HelmSubset.dfy` the chart comparison.

`dafny verify dfyconfig.toml` checks the whole project.

## What the code does not do

Some plausible statements are false of the code. Each has its exact condition, or a
family of runs that breaks it.

- "The Ready replication is the oldest of its profile" is not kept by every run. That every
  replication that is Ready, or that a decision in flight is about to make Ready, is the
  oldest at every moment holds if and only if every event respects the order
  (`ReadyElection.OldestWinsThroughout`). For those that are Ready alone the equivalence
  fails, since a restart can drop a decision before it shows
  (`ReadyElection.RestartHidesDisorder`); it holds again when every continuation by the
  replication controller counts (`ReadyElection.ReadyWinsThroughout`). A newcomer
  that is earlier than the Ready one, such as one of the same second with a smaller
  name, becomes Ready as well, and the profile's next reconcile stops with an error
  (`ReadyElection.EarlierNewcomerMakesTwoReady`).
- Two workers of the driver controller could let one driver take a CSIDriver name from
  another (`CsiDriverClaim.SecondWorkerTakesOver`); with one worker a claim never moves.
- "A second reconcile writes nothing" depends on the order in which a map of mount
  options is iterated. With options free of the separators it holds for every further
  reconcile of a profile if and only if neither of its option maps has two entries
  (`SecondPass.FurtherRoundsWriteNothingIffFew`), and for a whole second pass if and only
  if that is so of every profile (`SecondPass.SecondPassWritesNothingIffFew`). Two options
  are enough for a second reconcile that writes (`SecondPass.SecondReconcileWrites`). Up
  to the order of printed options a second pass changes nothing in any case
  (`SecondPass.SecondPassChangesNothing`).
- Printed options parse back for every map but `{"": ""}` and those whose keys or values
  hold a separator (`MapText.PrintParseRoundTrip`).
- A "tls-key" volume that comes with an unnamed mount gives the snapshot-metadata
  container of an rbd driver a mount that names nothing (`PodVolumes.ControllerCloses`).
- Service names are not injective in driver names (`DriverObjects.ServicesCollide`).
- The comparison of chart values is not reflexive where a NaN must agree
  (`HelmSubset.Reflexive`). From a tree it is transitive if and only if no allowed path of
  the tree holds a list or a non-empty mapping, unless such a NaN fails every comparison
  (`HelmSubset.Transitive`), and antisymmetric if and only if the tree reaches no allowed
  path, with the same exception (`HelmSubset.Antisymmetric`).
- A reconcile that skips its write because its snapshot already shows the record leaves
  no record behind if the ConfigMap has been deleted since the snapshot was read, and only
  then (`ProtocolRuns.RecordIsStored`).
- The owner reference of the replication is edited in memory, and the CephConnection is
  what is sent (internal/controller/clientprofile_controller.go:360-369); the machine
  does the same, and nothing is claimed about it.
- When every replication of a profile is deleted between the look-up of the profile and
  the listing, there is no first item to look at
  (internal/controller/clientprofilereplication_controller.go:208); the reconcile is aborted.

## Model

| member | source | states |
|---|---|---|
| ProtocolInvariant.StepKeepsInv | internal/controller/clientprofile_controller.go:190-475 | every event of the machine keeps the invariant: one record for each cluster, every record belongs to an existing profile with the finalizer, snapshots with the current version are current, a clean-up past its write knows its record is gone |
| ProtocolRuns.NoOrphanRecords | internal/controller/clientprofile_controller.go:209-252 | in every reachable state `config.json` has at most one record for each id, and a record for p implies that p exists and holds the cleanup finalizer |
| ProtocolRuns.CommitsKeepToTheirPart | internal/controller/clientprofile_controller.go:401-475 | any commit to the ConfigMap changes, relative to the value it replaces, only the writer's part: its own record, the mapping text, an owner reference |
| ProtocolInvariant.ProfilePut | internal/controller/clientprofile_controller.go:418-472 | a profile's commit sets or removes exactly its record, which describes the inputs the task holds, and leaves mappings and other owners alone |
| ProtocolInvariant.MappingPut | internal/controller/clientprofilemapping_controller.go:130-205 | a mapping commit leaves `config.json` and other owners alone and stores the aggregate of the listed resources |
| ProtocolInvariant.DriverPut | internal/controller/driver_controller.go:440-446 | a driver commit leaves both texts and other owners alone |
| ProtocolRuns.RecordIsNotLost | internal/controller/clientprofile_controller.go:409-416 | no interleaving of other writers changes a profile's record, without the lock |
| ProtocolRuns.RecordIsStored | internal/controller/clientprofile_controller.go:418-472 | a live reconcile that gets past its write, done or skipped, has its record in the list exactly unless it skipped the write for a snapshot whose record is no longer stored |
| ProtocolRuns.WrittenRecordIsThere | internal/controller/clientprofile_controller.go:418-472 | while nobody deletes the ConfigMap, every live reconcile past its write, done or skipped, finds a record of its inputs in the list |
| ProtocolRuns.CommittedRecordIsFound | internal/controller/clientprofile_controller.go:445-452 | the record a live reconcile wrote, or found already written, is found after any further events that are not writes of the same profile |
| ProtocolRuns.MappingIsNotLost | internal/controller/clientprofilemapping_controller.go:130-205 | no interleaving of other writers changes the mapping text |
| ProtocolRuns.OwnerIsNotLost | internal/utils/meta.go:52-64 | an owner reference in the ConfigMap changes only by its own controller |
| ProtocolRuns.ForeignTextStays | internal/controller/clientprofile_controller.go:430-437 | a `config.json` that does not parse is never overwritten, whatever runs |
| UserEdits.UpdatesAreRelative | internal/controller/clientprofile_controller.go:212-297 | in every reachable state a controller's step changes of a connection its own owner reference, of its own profile the finalizer, of its own replication the phase, relative to the current value, and nothing else |
| UserEdits.UserEditsAreNotLost | internal/controller/clientprofile_controller.go:190-247 | over any run a profile keeps its specification, a connection its own, a replication everything but its phase, as long as users leave them alone |
| ProtocolRuns.CleanUpIsChecked | internal/controller/clientprofile_controller.go:376-396 | a clean-up gets past its check only in a state without a referencing replication |
| ProtocolRuns.OnlyCleanUpRemoves | internal/controller/clientprofile_controller.go:238-247 | only a clean-up past its check removes a finalizer or a record |
| ProtocolRuns.ReferencedProfileIsProtected | internal/controller/clientprofile_controller.go:376-396 | as long as any replication refers to p, whatever its phase, p keeps its finalizer and its record |
| ProtocolRuns.RemovalFollowsEmptyListing | internal/controller/clientprofile_controller.go:222-247 | every removal of a finalizer is preceded in the same reconcile by a listing without a reference |
| ProfileRounds.RoundMeaning | internal/controller/clientprofile_controller.go:190-331 | the twelve steps of an undisturbed reconcile together: the edited ConfigMap, the connection's owners, the finalizer, and nothing else |
| ProfileLife.ListLoads | internal/controller/clientprofile_controller.go:299-328 | the listing stops the reconcile exactly when two replications of the profile are Ready, and else loads the Ready one as it is stored, or none |
| ProfileLife.RoundStores | internal/controller/clientprofile_controller.go:479-541 | after an undisturbed reconcile the stored record shows, field by field, the profile and its connection, and announces the remote and the pools of the one Ready replication, or no destination |
| ProfileLife.ReplicationIsAnnounced | internal/controller/clientprofile_controller.go:299-331 | from an empty cluster: a profile, its connection and a replication are created, the replication becomes Ready, and the profile's reconcile stores the one record with its remote as destination, one owner and the finalizer |
| ProfileLife.LeavesNoTrace | internal/controller/clientprofile_controller.go:190-252 | a profile that is reconciled, deleted and reconciled again is gone, and config map, connection and all other objects are what they were |
| ProfileLife.LeavesNoTraceWithReplication | internal/controller/clientprofile_controller.go:190-252 | the same with a replication that is dropped before the deletion |
| ProfileRounds.RoundTogglesReplication | internal/controller/clientprofile_controller.go:355-374 | the toggle of the replication's owners changes no stored object |
| ProfileRounds.RoundPuts | internal/controller/clientprofile_controller.go:401-475 | the ConfigMap is written with the edited value, or left alone when nothing changed |
| ProfileRounds.RoundEnds | internal/controller/clientprofile_controller.go:195-247 | removal of the finalizer and status write: a deleted profile goes away unless another finalizer holds it |
| Quiescence.RoundsMeaning | internal/controller/clientprofile_controller.go:418-472 | any sequence of reconciles of live profiles is a sequence of upserts into the list and changes no inputs |
| Quiescence.Settles | internal/controller/clientprofile_controller.go:418-472 | after reconciling profiles in any order the list maps each to a record of its inputs and every other record is kept, in place |
| Quiescence.OrderDoesNotMatter | internal/controller/clientprofile_controller.go:440-459 | two orders give the same ids as a multiset and the same records but for the order of printed options |
| SecondPass.OneRecordIffFew | internal/controller/clientprofile_controller.go:479-541 | with separator-free options, all records of the same inputs are equal if and only if no option map has two entries |
| SecondPass.FurtherRoundsWriteNothingIffFew | internal/controller/clientprofile_controller.go:418-472 | once a profile is reconciled, every further reconcile leaves the ConfigMap unwritten if and only if no option map of the profile has two entries |
| SecondPass.SecondReconcileWrites | internal/controller/clientprofile_controller.go:486-491 | a profile with two mount options, reconciled twice with nothing in between, writes the ConfigMap twice |
| SecondPass.OwnersAfterRounds | internal/controller/clientprofile_controller.go:419-427 | after reconciling profiles in any order every one of them owns the ConfigMap, if their UIDs identify them |
| SecondPass.SecondPassChangesNothing | internal/controller/clientprofile_controller.go:418-472 | after every profile has been reconciled, any further reconciles keep ids, positions, owners, the mapping text and every record up to the order of printed options, and leave the ConfigMap unwritten when no option map has two entries |
| SecondPass.SecondPassWritesNothingIffFew | internal/controller/clientprofile_controller.go:418-472 | with separator-free options, no second pass writes the ConfigMap if and only if no option map of any profile has two entries |
| OwnerUids.OwnersAreIdentified | internal/utils/meta.go:40-64 | in every reachable state, if the server gives no UID to two objects, a UID recorded in the ConfigMap or a connection is recorded under its own object, so it can be found and removed |
| OwnerUids.ProfilesAreIdentified | internal/utils/meta.go:40-64 | in the same states the UIDs of profiles identify them, as the results on the second pass ask |
| Quiescence.DeletionCompletes | internal/controller/clientprofile_controller.go:238-247 | with nothing in its way a deletion removes the profile's record, no other, and the finalizer |
| OwnerUids.DeletionCompletesInRuns | internal/controller/clientprofile_controller.go:222-247 | after any events with unique UIDs, a deleted profile with a connection and no reference to it loses its record, its owner reference, no other, and its finalizer at its next undisturbed reconcile |
| Quiescence.MissingConnectionBlocks | internal/controller/clientprofile_controller.go:262-275 | without its CephConnection a reconcile changes nothing |
| OtherRounds.MappingRoundMeaning | internal/controller/clientprofilemapping_controller.go:105-208 | an undisturbed mapping reconcile stores the aggregate of the existing resources and its owner, and writes only a change |
| OtherRounds.DriverRoundMeaning | internal/controller/driver_controller.go:432-450 | an undisturbed driver reconcile creates or owns the ConfigMap and leaves both texts alone |
| ReadyElection.StepElects | internal/controller/clientprofilereplication_controller.go:163-227 | one event keeps "whoever is Ready, or about to be, is the oldest" if and only if it respects the order |
| ReadyElection.OldestWinsThroughout | internal/controller/clientprofilereplication_controller.go:193-224 | over a whole run every replication that is Ready, or about to be by a decision in flight, is the oldest of its profile at every moment if and only if every event respects the order |
| ReadyElection.ElectedIffReadySafe | internal/controller/clientprofilereplication_controller.go:137-227 | that holds at a moment if and only if each Ready replication is and stays the oldest of its profile whatever the replication controller does next |
| ReadyElection.ReadyWinsThroughout | internal/controller/clientprofilereplication_controller.go:137-227 | over a whole run the Ready replications are and stay the oldest under every continuation by the replication controller if and only if every event respects the order |
| ReadyElection.RestartHidesDisorder | internal/controller/clientprofilereplication_controller.go:207-224 | for any earlier newcomer and any undelivered decision, a restart leaves a run against the order in which no Ready replication is ever out of place |
| ReadyElection.AtMostOneReady | internal/controller/clientprofile_controller.go:310-328 | in such a run no profile ever has two Ready replications |
| ReadyElection.ListingSucceeds | internal/controller/clientprofile_controller.go:317-324 | so the consumer's "multiple Ready" error is unreachable |
| ReadyElection.OrderlyKeepsOrder | internal/controller/clientprofilereplication_controller.go:81-111 | it is enough that a new replication is later than the existing ones of its profile and that edits keep the profile |
| ReadyElection.RoundMeaning | internal/controller/clientprofilereplication_controller.go:137-227 | an undisturbed reconcile of a replication changes its phase only: Ready for the oldest of an existing profile, else Rejected |
| ReadyElection.ElectionSettles | internal/controller/clientprofilereplication_controller.go:163-227 | after reconciling all replications of a profile in any order the one created first, or first by name among those of the same time, is Ready and the rest are Rejected, all Rejected if the profile is absent |
| ReadyElection.OldestIsFirstCreated | internal/controller/clientprofilereplication_controller.go:195-211 | "oldest" means: no replication of the profile has an earlier creation time, and none of the same time a name that comes before |
| ReadyElection.EmptyListingAborts | internal/controller/clientprofilereplication_controller.go:199-211 | the reconcile ends without a verdict if and only if no replication of the profile is listed |
| ReadyElection.WinnerIsOldest | internal/controller/clientprofilereplication_controller.go:193-211 | the machine's verdict is that of listing, sorting and comparing with the first item, for every listing |
| ReadyElection.EarlierNewcomerMakesTwoReady | internal/controller/clientprofilereplication_controller.go:199-214 | a newcomer earlier than the Ready replication becomes Ready too, and the profile's next listing fails |
| Election.EarlierMeaning | internal/controller/clientprofilereplication_controller.go:195-205 | a resource precedes another if it was created before it, or at the same time and its name ends or has the smaller character where they first differ |
| Election.FirstOfSortedWins | internal/controller/clientprofilereplication_controller.go:193-208 | the first item of any sorted permutation of the list is its one winner |
| Election.SomeoneWins | internal/controller/clientprofilereplication_controller.go:207-208 | every non-empty list has a winner |
| Election.OldestWins | internal/controller/clientprofilereplication_controller.go:193-208 | the winner is the item that no other precedes by creation time or, at the same time, by name |
| Election.Reconcile.SortByAge | internal/controller/clientprofilereplication_controller.go:195-205 | the listed items are sorted in place by creation time and then name, a permutation of what they were |
| Election.Reconcile.ReconcilePhases | internal/controller/clientprofilereplication_controller.go:163-227 | the phase is Ready exactly for the first created item of an existing profile, by name among equals; nothing is decided on an empty list |
| ConfigMapWriters.ConfigMap.EditForProfile | internal/controller/clientprofile_controller.go:418-472 | the in-place edit of the owner list and of the record list is the profile's edit of the value, and fails exactly when that does |
| ConfigMapWriters.ConfigMap.EditForMapping | internal/controller/clientprofilemapping_controller.go:130-205 | the in-place edit of one mapping reconcile is the mapping edit of the value |
| ConfigMapWriters.ConfigMap.EditForDriver | internal/controller/driver_controller.go:440-446 | the in-place edit of one driver reconcile is the driver edit of the value |
| ConfigMapWriters.ProfileEditIsOwn | internal/controller/clientprofile_controller.go:418-472 | a profile's edit sets or removes its record and touches no other record, owner or text |
| ConfigMapWriters.MappingEditIsOwn | internal/controller/clientprofilemapping_controller.go:130-205 | a mapping edit touches no record and no other owner |
| ConfigMapWriters.DriverEditIsOwn | internal/controller/driver_controller.go:440-446 | a driver edit touches no text and no other owner |
| ClusterInfo.ComposeCsiClusterInfoRecord | internal/controller/clientprofile_controller.go:479-541 | the composed record describes the inputs field by field; the destination is announced exactly for a Ready replication |
| ClusterInfo.ComposeDestination | internal/controller/clientprofile_controller.go:520-538 | a pool name that is given twice maps to the id given last |
| ClusterInfo.RemotePoolsMeaning | internal/controller/clientprofile_controller.go:531-535 | a pool name is mapped if and only if some pool pair has it, and to the remote id of the last that has |
| ClusterInfo.UpsertMeaning | internal/controller/clientprofile_controller.go:440-452 | as a map, the list changes at one id; positions stay and ids stay unique |
| ClusterInfo.SwapDeleteMeaning | internal/controller/clientprofile_controller.go:453-459 | as a map, the list loses one id; every other record is kept, once |
| MappingAggregation.Aggregator.Reconcile | internal/controller/clientprofilemapping_controller.go:147-193 | the nested loops with their index map and seen-set compute the aggregate of all mappings |
| MappingAggregation.Aggregator.AddMapping | internal/controller/clientprofilemapping_controller.go:156-191 | one mapping keeps index, seen-set and list in step with the mappings scanned |
| MappingAggregation.AggregateMeaning | internal/controller/clientprofilemapping_controller.go:159-191 | one entry for each pair, no pool pair twice, and exactly the pool pairs given for that pair |
| MappingAggregation.StoredFacts | internal/controller/clientprofilemapping_controller.go:147-193 | the stored list says that a pool of one cluster is a pool of another if and only if some mapping of some resource says so |
| MappingAggregation.AggregateShape | internal/controller/clientprofilemapping_controller.go:159-177 | pairs, and the pool pairs of each, stand by increasing position of their first occurrence in the input |
| MappingAggregation.FirstSeenIsDedup | internal/controller/clientprofilemapping_controller.go:159-191 | no other sequence lists the same elements by increasing first position |
| MappingAggregation.OrderAndSplitDoNotMatter | internal/controller/clientprofilemapping_controller.go:105-120 | the facts in the output depend only on the facts offered, not on order or split |
| MappingAggregation.ListOrderDoesNotMatter | internal/controller/clientprofilemapping_controller.go:105-120 | any permutation of the resources gives the same facts |
| MappingAggregation.SplitMappingIsSameMapping | internal/controller/clientprofilemapping_controller.go:182-191 | dividing one mapping's pool pairs over two mappings changes nothing |
| MappingAggregation.AggregateTwice | internal/controller/clientprofilemapping_controller.go:147-193 | feeding the output back in reproduces it |
| MappingAggregation.RenderIsInjective | internal/controller/clientprofilemapping_controller.go:60-63 | the singleton maps of the stored form lose nothing |
| KeyedMerge.MapMergeByKey | internal/utils/core.go:101-144 | the index-map loop computes the fold of linear upserts that replace the last match |
| KeyedMerge.MergeMeaning | internal/utils/core.go:96-100 | old positions keep their keys, the last accepted source item wins at the last match, new keys are appended once |
| KeyedMerge.MergedItem | internal/utils/core.go:116-142 | under unique keys each position holds the last item that the source gives for its key, else an item of the destination |
| KeyedMerge.UniqueKeysStayUnique | internal/utils/core.go:132-141 | unique keys stay unique |
| KeyedMerge.MergeInTwoParts | internal/utils/core.go:116-142 | merging s1 and then s2 is merging s1 followed by s2 |
| KeyedMerge.MergeTwiceIsMergeOnce | internal/utils/core.go:116-142 | merging twice is merging once, also with repeated keys in the destination |
| KeyedMerge.MergedKeys | internal/utils/core.go:96-100 | the keys of the result are those of the destination and the accepted ones of the source |
| MapText.MapToString | internal/utils/core.go:147-170 | for every iteration order the text is the printing in that order |
| MapText.PrintParseRoundTrip | internal/utils/core.go:147-170 | split and cut undo the printing, whatever the order, exactly for the printable maps |
| MapText.PrintedParts | internal/utils/core.go:155-168 | the parts of the text are, in the iteration order, each key with its value behind the separator, or the bare key when the value is empty |
| MapText.PrintingIsInjective | internal/utils/core.go:147-170 | two printable maps with a common text are equal |
| MapText.OnePrintingIffFew | internal/utils/core.go:147-170 | a separator-free map has only one printing if and only if it has at most one entry |
| OwnerReferences.ObjectMeta.IsOwnedBy | internal/utils/meta.go:40-48 | true exactly when a reference carries the owner's UID |
| OwnerReferences.ObjectMeta.ToggleOwnerReference | internal/utils/meta.go:52-64 | list, "changed" and error are those of the toggle function |
| OwnerReferences.ToggleKeepsOthers | internal/utils/meta.go:52-64 | references to other owners keep content and order, on any list |
| OwnerReferences.ToggleMeaning | internal/utils/meta.go:50-64 | on a well-formed list "changed" is said exactly when the list changed, removal never fails, and the owner is recorded as asked |
| OwnerReferences.OwnersAfterAnyCalls | internal/utils/meta.go:50-64 | after any calls the references are exactly those last toggled on and not superseded by a re-created owner of the same name |
| ConcurrentRun.NoSendOnClosedChannel | internal/utils/core.go:34-56 | in every schedule no goroutine is at or before its send once the channel is closed |
| ConcurrentRun.NoDeadlock | internal/utils/core.go:34-65 | until the consumer has finished some step is possible |
| ConcurrentRun.CollectsEveryResult | internal/utils/core.go:59-65 | the consumer finishes after exactly 4n + 4 steps with a permutation of all results |
| ConcurrentRun.ReceivedInOrder | internal/utils/core.go:59-65 | at any moment the consumer has the results in the order in which they were sent |
| ConcurrentRun.SucceedsIffAllSucceed | internal/controller/driver_controller.go:257-268 | no error is joined if and only if every function returned nil, and else exactly their errors are |
| PodVolumes.ControllerCloses | internal/controller/driver_controller.go:606-1043 | volume names stay distinct; every mount names a volume if and only if the user's named mounts do and a tls-key volume of an rbd driver has a named mount |
| PodVolumes.NodeCloses | internal/controller/driver_controller.go:1450-1717 | volume names stay distinct; every mount names a volume if and only if the user's named mounts do |
| PodVolumes.AddonsCloses | internal/controller/driver_controller.go:1221-1328 | volume names are distinct and every mount names a volume, for all options |
| PodVolumes.VolumesStayDistinct | internal/controller/driver_controller.go:1030-1040 | no user list makes two volumes of a pod have one name |
| PodVolumes.VolumeShown | internal/controller/driver_controller.go:1030-1040 | under a name that the user gives the pod has the last volume given for it, under any other its built-in one |
| PodVolumes.MountShown | internal/controller/driver_controller.go:668-690 | likewise for the mounts of the plugin container |
| PodVolumes.ControllerVolumesAre | internal/controller/driver_controller.go:1007-1043 | which built-in volumes the controller pod has, by option |
| PodVolumes.ControllerMountsAre | internal/controller/driver_controller.go:648-690 | which of them its plugin container mounts, by option |
| PodVolumes.ControllerSidecarsAre | internal/controller/driver_controller.go:692-1003 | which other containers it has, by option, and what each mounts |
| PodVolumes.NodeVolumesAre | internal/controller/driver_controller.go:1659-1717 | which built-in volumes the node pod has, by option |
| PodVolumes.NamesAreDifferent | internal/utils/csi.go:32-223 | the built-in volume names are pairwise different |
| DriverDefaults.MergeDriverSpecs | internal/controller/driver_controller.go:1876-2051 | the specification becomes the left-biased merge, and every object it reaches afterwards, at any depth, it reached before or is new; of the old objects only the specification and its parts are written to |
| DriverDefaults.Node.DeepCopy | api/v1/zz_generated.deepcopy.go:1130-1180 | the copy of a structure of any depth has the same contents and only new objects |
| DriverDefaults.DriverSpec.DeepCopy | api/v1/zz_generated.deepcopy.go:676-768 | so has the copy of a whole specification |
| DriverDefaults.Part.DeepCopy | api/v1/zz_generated.deepcopy.go:507-604 | a copied part has equal fields, and shares no object with the original at any depth |
| DriverDefaults.EveryFieldIsFilled | internal/controller/driver_controller.go:1876-2051 | for every field of the driver and of both plugins: it is set afterwards if and only if the driver set it or the defaults did and it is not one that is skipped, with the driver's value first |
| DriverDefaults.MergeIsLeftBiased | internal/controller/driver_controller.go:1881-1961 | set fields survive, and nothing is set but from the defaults |
| DriverDefaults.MergeLaws | internal/controller/driver_controller.go:1876-2051 | merging is idempotent and associative, skipped fields included |
| DriverObjects.ObjectsAreDistinct | internal/controller/driver_controller.go:245-255 | for every driver name the nine functions write nine different objects |
| DriverObjects.ConcurrentIsSequential | internal/controller/driver_controller.go:257-263 | any interleaving of the nine functions ends as if they had run one after the other |
| DriverObjects.InterleavingsAgree | internal/utils/core.go:34-56 | functions on different objects end in the same state in every interleaving of the same steps |
| DriverObjects.SharedInNamespace | internal/controller/driver_controller.go:1791-1804 | two drivers of a namespace share the ConfigMap, and the liveness service if and only if their sanitized names agree, and nothing else |
| DriverObjects.SharedAcrossNamespaces | internal/controller/driver_controller.go:452-454 | drivers of different namespaces share the CSIDriver of a common name and nothing else |
| DriverObjects.ServicesCollide | internal/controller/driver_controller.go:1798-1804 | two valid driver names have one service name |
| CsiDriverClaim.StepKeepsClaim | internal/controller/driver_controller.go:452-522 | with one worker every event but a user's deletion, or a restart between delete and create, keeps a claim |
| CsiDriverClaim.ClaimNeverMoves | internal/controller/driver_controller.go:459-516 | over any run the owner annotation never moves, also across delete and recreate |
| CsiDriverClaim.NeverBothPass | internal/controller/driver_controller.go:271-303 | while the claim is kept no reconcile of a second driver of that name begins, and the owner's own always may |
| CsiDriverClaim.BeginsIffFreeOrOwn | internal/controller/driver_controller.go:271-303 | a reconcile begins if and only if the name is free or annotated with this very driver |
| CsiDriverClaim.RoundClaims | internal/controller/driver_controller.go:452-522 | an undisturbed reconcile ends with the object stored, annotated and with attachRequired as asked, by create, update or delete and create, if and only if the name was free or its own, and else changes nothing |
| CsiDriverClaim.GivenUpIsFree | internal/controller/driver_controller.go:271-303 | after a user's deletion, or a restart between delete and create, any driver of the name may begin |
| CsiDriverClaim.PutClaims | internal/controller/driver_controller.go:459-489 | a reconcile that creates or updates the object has the claim |
| CsiDriverClaim.SecondWorkerTakesOver | internal/controller/driver_controller.go:271-303 | with two workers the second driver takes the name from the first |
| HelmSubset.LeavesAgree | hack/verify-helm-values-subset.py:51-60 | away from the allowed paths texts pass when they are the same text, and booleans, integers and floats when they are the same number |
| HelmSubset.PassIffAllHeldAlike | hack/verify-helm-values-subset.py:19-61 | where no allowed path is reached a tree passes if and only if at every place of it the maintained tree has a mapping, a list of that length, or a leaf that agrees |
| HelmSubset.TextsAreKept | hack/verify-helm-values-subset.py:19-61 | in particular every text stands unchanged at its place in the maintained tree |
| HelmSubset.OneAllowedPlace | hack/verify-helm-values-subset.py:14-16 | a chart whose keys are not empty and have no dot reaches an allowed path exactly when it sets the priority class of the controller manager |
| HelmSubset.Reflexive | hack/verify-helm-values-subset.py:19-61 | a tree passes against itself if and only if no NaN stands where values must agree |
| HelmSubset.Transitive | hack/verify-helm-values-subset.py:19-61 | from a tree the check is transitive if and only if no allowed path of it holds a list or a non-empty mapping, or a NaN that must agree fails every comparison |
| HelmSubset.MutualPassIsSame | hack/verify-helm-values-subset.py:19-61 | two trees pass both ways if and only if they are the same outside the allowed paths |
| HelmSubset.Antisymmetric | hack/verify-helm-values-subset.py:19-61 | trees that pass both ways with a given one are the same tree if and only if it reaches no allowed path, or a NaN that must agree fails every comparison |
| HelmSubset.AddingKeysKeepsPass | hack/verify-helm-values-subset.py:32-40 | adding keys to any mapping of the maintained tree never turns a pass into a failure |
| HelmSubset.AllowedDiffBreaksTransitivity | hack/verify-helm-values-subset.py:51-55 | at an allowed path the check is not transitive |

## Left out

- The lock around the ConfigMap update: every interleaving is allowed instead, and no result needs it.
- Lagging informer caches: a read returns the value current at that moment; with a lagging cache the "nothing changed, no write" branch could let a clean-up skip a removal.
- Manual edits of the ConfigMap or of the operator's finalizer, and API faults other than a refused write.
- JSON: a text is absent, the encoding of a list, or foreign; a foreign text fails the edit, and null records inside a list are not considered.
- Options that hold a separator: when a second reconcile writes is stated for separator-free mount options.
- Status messages and the phases Pending and Failed of a profile: a status write changes the version of the profile and nothing else in the machine.
- Several namespaces at once in `Protocol`: the controllers keep to the namespace of their request; the cluster-wide CSIDriver has its own machine.
- Protocol.ToggleReplication: the edited owner list is not persisted by the code, so nothing is said about the owners of a replication.
- Pool pairs with fewer than two items in a mapping, on which the code would panic, and pool pairs with more.
- KeyedMerge.MapMergeByKey: returns the merged list; that the caller's slice is overwritten in place is not modelled, the callers use the result only.
- Election.Reconcile.SortByAge: the library's sort is represented by a selection sort; only the sorted permutation is used.
- Functions that never return or that panic in `ConcurrentRun`; a measure bounds the runs in which they return.
- DriverObjects.ConcurrentIsSequential: a function's reads of objects that no reconcile writes are part of its own state, and resource versions are taken per object.
- DriverDefaults.Node.DeepCopy: the shape of each field's type is not fixed; a field is any finite structure of objects.
- Container arguments, images, environment variables, resources, security contexts, the text of the log-rotate file, replica counts: constants and single choices.
- Network-policy ports: for an NFS driver with csi-addons a port is opened without a container behind it, so only an inclusion holds, by a small case split.
- Non-string keys in chart values, and dates.
- Manager set-up, watches, predicates, leader election, RBAC, CRDs, charts, shell scripts.
- The driver's image sets and the order of its validation steps after the CSIDriver check.
