# Verification of the application profile recorder

The repository records what containers do. eBPF gadgets deliver events to a sink, which filters them and
stores them per container. At every interval a collector drains a container's events, folds them into a container
profile, and merges that into the profile stored as a Kubernetes object. A finaliser marks stored profiles as
final, a controller aggregates the profiles of a workload's pods, and a detector watches for RandomX mining.

This project models those parts in Dafny and proves what they guarantee, over every input, every run and every
interleaving of steps. `dafny verify dfyconfig.toml` checks all of it.

| file | models |
|---|---|
| `ProfileTypes.dfy` | profiles, events, configuration |
| `Sequences.dfy`, `Dedup.dfy` | sequences, and the theory of order-preserving duplicate elimination modulo a "subsumed by" relation |
| `Capabilities.dfy` | grouping and merging capabilities |
| `ProfileAlgebra.dfy` | what one collection and one merge compute, and runs of them |
| `CollectedLists.dfy` | the same in terms of paths, flags, names and packet types |
| `IncrementalMerge.dfy`, `IntervalByInterval.dfy`, `ProfileInvariants.dfy` | the theorems about runs of collections of one container |
| `Collector.dfy` | the collector's loops, proved against `ProfileAlgebra` |
| `InMemoryMapDB.dfy` | the event database, with slices that share backing arrays |
| `EventSink.dfy` | filters, channel, worker, buckets, drains |
| `ObjectStore.dfy` | create, compare-and-swap update, merge patch (section 2 of RFC 7396), delete |
| `RecordingProtocol.dfy`, `StepEffects.dfy` | collectors and finalisers over the store, as a state machine, and what each step does |
| `LoadedEvents.dfy`, `Finality.dfy`, `StoredProfiles.dfy`, `AcceptedWrites.dfy`, `ProfileLabels.dfy` | what holds in every interleaving of them |
| `Scenarios.dfy` | concrete runs of them |
| `Lifecycle.dfy` | container starts, stops, timers, collections and sink filters |
| `PodFinalizer.dfy` | the table of finalisation timers |
| `ContainerTracing.dfy` | reference counts and kernel filter entries |
| `RandomxDetector.dfy` | the detector |
| `ResourceVersion.dfy`, `Watcher.dfy` | the watch cursor |
| `Controller.dfy`, `ProfileName.dfy` | aggregation and profile names |

Code that works on mutable state is modelled as methods with loops, on a class where the source has one. Each
is proved equal to a function of its inputs or its old state, and the theorems are about those functions.
Concurrent parts are state machines whose steps are what the source does under one lock, in one API call, or
between two of them; the theorems quantify over all sequences of steps. Time is not modelled: a set timer may fire
at any later step.

States carry history (what was accepted, drained, started) where a property speaks about the past.

## What the code does not give

Some plausible properties are false of the code. Each is stated with what does hold.

- **Execs.** Merging interval by interval gives the same exec sequence as one collection over the whole stream if and
  only if no exec without a path occurs in a batch and again in a later one (`ExecsRefine`): inside a batch such execs skip
  the duplicate test, in a merge they do not.
- **Opens above the cap.** A collection keeps the opens of the longest beginning of its batch that passes the cap by one
  at most. The stored opens are those of these beginnings, up to the interval that passes the cap (`OpensRefine`). They
  are the one-shot opens after every interval if and only if every merge into a list within the cap ends at most one above
  the cap and is either exactly there or cuts nothing new off (`OpensKeepPaceIff`). The bound of twice the cap plus one on stored
  opens is reached (`BoundIsReached`).
- **System calls.** Merging interval by interval gives the same set, and the same sequence if and only if no system call
  occurs in a batch and again in a later one (`SyscallsRefine`).
- **Network lists.** The stored lists are those of the whole stream cut at the cap or at the length that the first
  stored batch had, whichever is larger (`ConnectionsRefine`).
- **Capabilities.** Every append of one merge starts from the same old list, so an existing system call gains only the
  last capability it lacked. The union is achieved if and only if each has at most one new capability
  (`UnionIffAtMostOneNewEach`; stored lists meet its condition by `StoredListsStayOk`). Over a run, the stored pairs are the
  observed ones after every interval if and only if this holds at every interval (`CapsKeepPaceIff`).
- **Failed mark.** A collection at or over the open limit patches the failed mark before its update. Its update stays
  acceptable if and only if the patch did not get through, or the mark was already there and writing it
  again got no new version (`MarkLeavesUpdateAcceptableIff`). A run from the start in which the merge is lost is `MergeLostRun`.
- **Labels.** Removing the partial mark replaces all labels (collector.go:507-510), the namespace label included. In
  every interleaving a stored profile has its creator's namespace label if and only if it was not relabelled
  (`LabelsStayOk`), and so the controller reads the pod name off a profile in the store namespace if and only if it was not
  relabelled or the namespace is empty (`StoredNameParsesIff`). A run from the start that relabels is `RelabelledRun`.
- **Single writer.** Inserting a new id keeps at most one collection past the map test, in every continuation, if and only
  if no collection launched by a stop of that id has still to test the map (`InsertIsSafeIff`). The filters need no such
  condition (`FiltersBelongToMap`).
- **Pod order.** Permuting the pods keeps the entries up to Equals, but not how often each occurs: what the first container
  of a name repeats is repeated in the output. The lists agree with all multiplicities if and only if the two
  first containers repeat the same entries, and are equally long if and only if these have the same surplus
  (`PodOrderIrrelevantIff`). Collected execs without a path make a difference (`PodOrderShows`).
- **Capacity.** The constructor of the in-memory database does not store the capacity it is given.

## Model

| member | source | states |
|---|---|---|
| IncrementalMerge.IncrementalRefinesOneShot | pkg/collector/collector.go:331-645 | For any batches: folding them through collect and merge gives the DNS entries of one collection over the concatenated stream; the opens of the uncut beginnings of the batches up to the interval that passes the cap, and, if no batch is cut, the one-shot opens exactly when the cap is passed by at most one; the same network lists exactly when those fit the cap or the first batch; the same sets of execs and system calls, and the same sequences exactly when no path-less exec, or no system call, recurs across batches |
| IncrementalMerge.DnsRefines | pkg/collector/collector.go:582-588 | Stored DNS entries are always the one-shot ones |
| IncrementalMerge.OpensRefine | pkg/collector/collector.go:612-621 | For any batches: stored opens are the uncapped opens of the batches' uncut beginnings, up to the interval that passes the cap |
| IncrementalMerge.FitBatchesStoreTheSame | pkg/collector/collector.go:384-392 | Cutting every batch to the beginning the cap lets through changes nothing that is stored |
| IncrementalMerge.OpensRefineIff | pkg/collector/collector.go:838-842 | For any batches: stored opens equal the one-shot opens if and only if the opens of the uncut beginnings start those of the stream and reach their end or one above the cap; if no batch is cut, if and only if the cap is passed by at most one |
| IncrementalMerge.CapsLoseNothingIff | pkg/collector/collector.go:616-621 | For any stored list and any batch: the capped merge equals uncapped growth if and only if no uncovered open fell to one of the two cap tests |
| IncrementalMerge.ConnectionsRefine | pkg/collector/collector.go:624-633 | Stored connections are the one-shot ones cut at max(cap, length after the first stored batch) |
| IncrementalMerge.ExecsRefine | pkg/collector/collector.go:573-579 | Stored execs are the one-shot ones as a set; as a sequence if and only if no path-less exec recurs in a later batch |
| IncrementalMerge.SyscallsRefine | pkg/collector/collector.go:564-570 | Stored system calls are the observed ones as a set; as a sequence if and only if none recurs in a later batch |
| IntervalByInterval.OpensKeepPaceIff | pkg/collector/collector.go:616-621 | For any batches: the stored opens are the one-shot opens after every interval if and only if every merge into a list within the cap passes the cap by at most one and, unless it reaches exactly that, cuts no uncovered open off |
| IntervalByInterval.CapsKeepPaceIff | pkg/collector/collector.go:591-609 | For any batches: the stored pairs of system call and capability are the observed ones after every interval if and only if no interval offers a stored system call two new capabilities |
| IntervalByInterval.CapsAreObserved | pkg/collector/collector.go:591-609 | Over any run stored system calls are distinct and every stored pair was observed |
| IncrementalMerge.NothingStoredNothingSeen | pkg/collector/collector.go:326-329 | Nothing is stored if and only if no batch had any event |
| ProfileInvariants.MergeOnlyExtends | pkg/collector/collector.go:563-633 | Every list of a stored container is a prefix of its merged list, capabilities system call by system call, and the name stays |
| ProfileInvariants.MergeTouchesOneContainer | pkg/collector/collector.go:558-644 | Merging changes only the first container of that name, which it extends, or appends a new container; all others stay |
| ProfileInvariants.ConnectionsBounded | pkg/collector/collector.go:624-633 | A merge extends a network list by members of the added list, and never beyond max(old length, cap) |
| ProfileInvariants.OpensStayIrredundantAndBounded | pkg/collector/collector.go:838-869 | Over any run no stored open is subsumed by an earlier one, and there are at most 2 * cap + 1 |
| ProfileInvariants.MergeKeepsOpensInvariant | pkg/collector/collector.go:612-621 | One merge keeps both, even if the mounts changed between collecting and merging |
| ProfileInvariants.ObservedWithinCapRefines | pkg/collector/collector.go:384-392 | If the stored and the collected lists are seen to be within the cap, the stored opens are those of the whole stream |
| ProfileInvariants.OpensStayCovering | pkg/collector/collector.go:804-869 | Then every drained open that no prefix or mount rule ignores has its path and all its flags in a stored open |
| ProfileInvariants.BoundIsReached | pkg/collector/collector.go:838-842 | Two intervals reach 2 * cap + 1 stored opens where one collection keeps cap + 1 |
| ProfileAlgebra.CollectedOpens | pkg/collector/collector.go:384-392 | Collected opens come from events, are not ignored, are irredundant, and are at most cap + 1 |
| ProfileAlgebra.CollectedStayAdmitted | pkg/collector/collector.go:844-866 | The merge's ignore rules drop nothing the collection kept under the same configuration |
| ProfileAlgebra.RelationsAreOrders | pkg/collector/collector.go:770-836 | "Same path and flags a superset" is reflexive and transitive, and so are the other duplicate tests where needed |
| Dedup.GrowSplits | pkg/collector/collector.go:612-621 | For a transitive relation: growing a list by a batch equals de-duplicating the batch first and appending what the list does not cover |
| Dedup.GrowCovers | pkg/collector/collector.go:384-392 | For a reflexive and transitive relation: every entry is covered by the grown list |
| Dedup.GrowIrredundant | pkg/collector/collector.go:384-392 | Growing keeps a list free of entries covered by earlier ones |
| CollectedLists.OpensAre | pkg/collector/collector.go:384-392 | Collected opens have an event's path and flags, start with no ignored prefix, are at most 10001, and none has its path and all its flags in an earlier one |
| CollectedLists.OpensKept | pkg/collector/collector.go:804-869 | Within the cap, every event that is not ignored has its path and all its flags in a collected open |
| CollectedLists.OpensMerged | pkg/collector/collector.go:612-621 | A merge into at most 10000 opens appends exactly the added opens that are not ignored and whose path and flags no stored open has; into more it appends nothing |
| CollectedLists.ExecsKept | pkg/collector/collector.go:337-347 | Every exec is kept: once if it has a path, as often as it occurred if it has none |
| CollectedLists.DnsKept | pkg/collector/collector.go:350-357 | Every name is listed once, with the addresses of its first event |
| CollectedLists.ConnectionsKept | pkg/collector/collector.go:397-415 | HOST packets are the incoming and OUTGOING packets the outgoing connections, once per protocol, port and endpoint |
| CollectedLists.ListsMerged | pkg/collector/collector.go:563-633 | A merge unites execs and system calls, adds DNS entries by name, and unites connections while they are below 10000 |
| Capabilities.GroupIsExact | pkg/collector/collector.go:360-378 | Grouping a batch repeats no system call and no capability and records exactly the batch's pairs |
| Capabilities.EntryGainsLastMissing | pkg/collector/collector.go:594-604 | If the fresh system calls are distinct, each stored one gains exactly the last fresh capability it lacked |
| Capabilities.UnionIffAtMostOneNewEach | pkg/collector/collector.go:591-609 | If system calls are distinct on each side: the merge achieves the union of both sides if and only if every stored system call has at most one new capability |
| Capabilities.KeptIsLastMissing | pkg/collector/collector.go:597-601 | A new capability survives for a stored system call only as the last missing one |
| Capabilities.LastMissingIsLast | pkg/collector/collector.go:597-601 | Behind the capability that survives every other one was there before |
| Capabilities.ExtendAllExtends | pkg/collector/collector.go:592-604 | Stored entries keep their system calls and positions, and their capability lists are only extended |
| Capabilities.MergeKeepsDistinct | pkg/collector/collector.go:605-609 | System calls that are distinct on each side are distinct in the merge |
| Capabilities.ComesFrom | pkg/collector/collector.go:591-609 | Every merged pair of system call and capability is on one of the two sides |
| Collector.ExecEventExists | pkg/collector/collector.go:770-778 | The loop finds an equal exec if there is one |
| Collector.NetworkEventExists | pkg/collector/collector.go:780-788 | The loop finds an equal connection if there is one |
| Collector.DnsEventExists | pkg/collector/collector.go:790-802 | True exactly if the name is present; the list is left as it is |
| Collector.OpenEventExists | pkg/collector/collector.go:804-836 | One flag says whether a listed open has the path, the other whether one has the path and all the event's flags |
| Collector.ShouldIncludeOpenEvent | pkg/collector/collector.go:838-869 | True exactly if the list has at most 10000 opens, the path starts with no ignored prefix or mount, and no listed open has the path and all the event's flags |
| Collector.BuildExecs | pkg/collector/collector.go:337-347 | The loop computes the collected execs |
| Collector.BuildDns | pkg/collector/collector.go:350-357 | The loop computes the collected DNS entries |
| Collector.BuildCapabilities | pkg/collector/collector.go:360-378 | The nested loops compute the grouping |
| Collector.BuildOpens | pkg/collector/collector.go:384-392 | The loop computes the collected opens; within the cap every event that is not ignored has its path and flags in one of them |
| Collector.BuildNetwork | pkg/collector/collector.go:395-420 | The loop computes both connection lists |
| Collector.BuildContainerProfile | pkg/collector/collector.go:331-420 | One interval's profile |
| Collector.FilterSyscalls | pkg/collector/collector.go:564-570 | The system calls to append: those the stored list does not have, repetitions kept |
| Collector.FilterExecs | pkg/collector/collector.go:573-579 | The execs to append |
| Collector.FilterDns | pkg/collector/collector.go:582-588 | The DNS entries to append |
| Collector.ExtendEntry | pkg/collector/collector.go:597-601 | Appending to a copy of the old list, so that only the last append remains |
| Collector.MergeCapabilities | pkg/collector/collector.go:591-609 | The nested loops compute the capability merge |
| Collector.FilterOpens | pkg/collector/collector.go:612-621 | The opens to append: within the cap exactly those that are not ignored and whose path and flags no stored open has, all tested against the list before merging |
| Collector.AppendConnections | pkg/collector/collector.go:624-628 | Appending connections one by one below the cap |
| Collector.MergeContainer | pkg/collector/collector.go:561-633 | All parts of one container |
| Collector.MergeApplicationProfiles | pkg/collector/collector.go:556-645 | The profile's containers after the merge |
| InMemoryMapDB.InMemoryMapDB.Run | pkg/inmemorymapdb/in-memory-map-db.go:19-124 | Over any run of operations the database behaves as a map from keys to sequences, and at the end every slice ever returned still shows what the map held when it was returned, although appends write into shared arrays |
| InMemoryMapDB.InMemoryMapDB.Put | pkg/inmemorymapdb/in-memory-map-db.go:19-30 | Appends to the key's sequence, creating it if absent, in place or in a new array; issued slices keep their contents |
| InMemoryMapDB.InMemoryMapDB.Get | pkg/inmemorymapdb/in-memory-map-db.go:32-37 | Returns a slice showing the key's sequence, or none |
| InMemoryMapDB.InMemoryMapDB.GetNClean | pkg/inmemorymapdb/in-memory-map-db.go:111-124 | Returns it and leaves an empty sequence with the old length as capacity; does nothing for an absent key |
| InMemoryMapDB.InMemoryMapDB.Delete | pkg/inmemorymapdb/in-memory-map-db.go:39-44 | Removes the key; issued slices keep their contents |
| InMemoryMapDB.InMemoryMapDB.Clear | pkg/inmemorymapdb/in-memory-map-db.go:83-88 | Removes all keys; issued slices keep their contents |
| InMemoryMapDB.InMemoryMapDB.constructor | pkg/inmemorymapdb/in-memory-map-db.go:12-17 | Starts empty and ignores the requested capacity |
| InMemoryMapDB.DrainsLoseNothing | pkg/inmemorymapdb/in-memory-map-db.go:111-124 | Without deletes, the values put under a key are, in order, those of its drains followed by what is stored |
| InMemoryMapDB.OperationEffects | pkg/inmemorymapdb/in-memory-map-db.go:19-124 | What each operation returns and leaves for the key it names, and that other keys keep their sequences |
| EventSink.PipelineConserves | pkg/eventsink/es.go:116-287 | In every interleaving of filter changes, sends, channel entries, dequeues, puts and drains, per type and bucket: accepted events in order equal drained, stored, in the worker's hand, in the channel; no channel exceeds 10000; and if the sink filters, everything accepted matches a filter that was added |
| EventSink.DrainedWasAccepted | pkg/eventsink/es.go:180-203 | What a drain returns was accepted, has the drained type and belongs under the drained key |
| EventSink.NextKeepsOk | pkg/eventsink/es.go:96-287 | Every single step keeps that law |
| EventSink.ChannelsAreBounded | pkg/eventsink/es.go:116-287 | In every interleaving no channel holds more than 10000 events, and below that a waiting event enters at the end |
| EventSink.SendEffect | pkg/eventsink/es.go:209-287 | An event is appended to the waiting ones of its type exactly if the sink does not filter or has a filter for its container and its type or all types |
| EventSink.EnterEffect | pkg/eventsink/es.go:209-287 | An event that enters the channel stops waiting, and the others go on waiting in order |
| EventSink.PassesIff | pkg/eventsink/es.go:214-221 | The filter test in terms of the filters present |
| EventSink.AddedEffect | pkg/eventsink/es.go:96-104 | Adding keeps the filters and leaves the added one once |
| EventSink.RemovedEffect | pkg/eventsink/es.go:106-114 | Removing takes out the first filter of the container with that type, or with any if all types are asked for |
| EventSink.BucketKeysDiffer | pkg/eventsink/es.go:116-203 | If namespaces and pod names have no dash, different types and containers have different bucket keys |
| EventSink.DashesCollide | pkg/eventsink/es.go:116-203 | With dashes two pods can share a bucket key |
| EventSink.EventSink.AddFilter | pkg/eventsink/es.go:96-104 | Adds a filter unless an equal one is there |
| EventSink.EventSink.RemoveFilter | pkg/eventsink/es.go:106-114 | Removes the first filter of that container whose type matches or when all types are asked for |
| EventSink.EventSink.SendEvent | pkg/eventsink/es.go:209-287 | Passes the event on if the sink does not filter or some filter matches |
| EventSink.EventSink.EnterChannel | pkg/eventsink/es.go:209-287 | A blocked sender's event enters the channel at its end while there is room |
| EventSink.EventSink.WorkerTurn | pkg/eventsink/es.go:116-159 | Moves the head of the channel under its bucket key |
| EventSink.EventSink.GetEvents | pkg/eventsink/es.go:180-203 | Drains one bucket and returns what was in it |
| ObjectStore.LabelPatchSetsLabel | pkg/collector/pod_finalizer.go:186-187 | Under JSON merge patch the patch the finaliser sends sets that label of the profile document and changes nothing else |
| Finality.FinalityIsStable | pkg/collector/collector.go:430-547 | In every interleaving of any number of collections and finalisers, with failing and lost API calls: a stored profile that is final keeps its containers and the mark as long as it is not deleted |
| StepEffects.FinalizeEffect | pkg/collector/pod_finalizer.go:178-191 | Finalising sets the final label of a stored profile to true and changes no other label, no container and no other profile |
| Scenarios.FinalizedRun | pkg/collector/collector.go:470-487 | A run from the start records, finalises and collects again: the profile is final, the second collection finishes, and the store is unchanged by it |
| Finality.NextKeepsFinal | pkg/collector/collector.go:470-521 | Every step keeps them, the update after the check and the replacement of all labels included |
| Finality.VersionsStayOk | pkg/collector/collector.go:430-487 | Every snapshot a collection may write back is either the stored object or out of date, and was not final |
| Finality.MarkLeavesUpdateAcceptableIff | pkg/collector/collector.go:490-523 | After a collection's own failed-mark patch its update is still acceptable if and only if the patch did not get through, or the mark was there already and got no new version |
| Finality.FreshFailedMarkOutdatesSnapshot | pkg/collector/collector.go:490-497 | Setting the failed mark for the first time makes the collection unable to write in any continuation |
| Scenarios.OverLimitRun | pkg/collector/collector.go:430-497 | A run from the start reaches such a collection, with an acceptable update and an unmarked profile |
| Scenarios.MergeLostRun | pkg/collector/collector.go:490-547 | Marking and updating then leaves the store as marked and the collection rejected |
| Finality.StaleIsNeverWritten | pkg/collector/collector.go:517-523 | Whatever happens afterwards, an out-of-date collection's update changes nothing |
| StepEffects.StoredBesidePodOrTogether | pkg/collector/collector.go:422-427 | The namespace and the name under which a container's profile is stored, in both storage modes |
| StepEffects.PatchIsMergePatch | pkg/collector/pod_finalizer.go:186-187 | The labels a patch leaves are those of the JSON merge patch the code sends |
| StepEffects.BuildEffect | pkg/collector/collector.go:326-329 | A drained collection is built if any of its lists has an event, and is over otherwise |
| StepEffects.GetEffect | pkg/collector/collector.go:430-487 | Get leads to a create if nothing is stored, to the end if the final label is true, and else to a merge into what is stored |
| StepEffects.CreateEffect | pkg/collector/collector.go:431-466 | A created profile has this container alone, is marked partial exactly if attached and failed exactly if it has at least 10000 opens, and has the namespace label exactly in a store namespace |
| StepEffects.LateCreateEffect | pkg/collector/collector.go:461-469 | A create that comes too late changes nothing |
| StepEffects.MarkFailedEffect | pkg/collector/collector.go:490-497 | With at least 10000 collected opens the failed label of the profile is set, and nothing else |
| StepEffects.UpdateEffect | pkg/collector/collector.go:506-522 | An accepted update stores the merge, and keeps the labels unless it removes the partial mark, which leaves that label alone |
| StepEffects.RejectedUpdateEffect | pkg/collector/collector.go:517-537 | An update with an old version changes nothing, and the collection gives up |
| StepEffects.MarkRejectedEffect | pkg/collector/collector.go:538-545 | After a rejected update the failed label is set, and nothing else |
| LoadedEvents.DrainIsAdded | pkg/collector/collector.go:258-307 | What a drain returns is appended, in order, to the collection's events of its type, and to nothing else |
| LoadedEvents.BuiltHoldsAllFive | pkg/collector/collector.go:258-308 | In every interleaving a built collection drained each of its five buckets once, under its own keys, and holds of every type exactly what that drain returned, in order |
| LoadedEvents.AcceptedAreDrainedOrWaiting | pkg/eventsink/es.go:116-287 | In every interleaving of collections and sink, per type and key: accepted events in order are those drained by collections, those stored, the one in the worker's hand and those in the channel |
| LoadedEvents.CollectionsHoldDrains | pkg/collector/collector.go:258-308 | In every interleaving every collection holds exactly what it has drained so far |
| RecordingProtocol.SinkStaysOk | pkg/collector/collector.go:258-308 | The conservation law holds in every interleaving of collections with the sink |
| StoredProfiles.StoredListsStayOk | pkg/collector/collector.go:441-517 | In every interleaving every stored profile has irredundant opens, at most 2 * cap + 1, and capabilities with distinct system calls |
| StoredProfiles.StoredCapabilityUnionIff | pkg/collector/collector.go:591-609 | In every interleaving: merging any batch into a stored container achieves the capability union if and only if every stored system call has at most one new capability |
| StoredProfiles.StoredEntriesHaveProvenance | pkg/collector/collector.go:258-547 | In every interleaving, with failing and lost API calls, every stored exec, open, DNS, capability and network entry comes from an event the sink accepted under a bucket of a container with that name and profile |
| StoredProfiles.FreshIsJustified | pkg/collector/collector.go:331-420 | A collected profile contains nothing that is not in the collection's events |
| StoredProfiles.MergeIsJustified | pkg/collector/collector.go:556-645 | A merge contains nothing that is in neither side |
| StoredProfiles.DrainedIsAccepted | pkg/collector/collector.go:258-308 | Adding what a drain returns to a collection's events adds only events accepted under that collection's own bucket key |
| AcceptedWrites.StoredIsFold | pkg/collector/collector.go:430-547 | In every interleaving the containers stored under a key are the accepted batches since its creation, merged in the order of acceptance: no accepted write is lost, repeated or reordered |
| AcceptedWrites.AcceptedHaveEvents | pkg/collector/collector.go:326-329 | Every accepted batch has events |
| AcceptedWrites.EntryIsStoredAfter | pkg/collector/collector.go:556-645 | With the same mounts throughout, a container's entry in such a merge is the run of its own batches, whatever other containers of the pod write |
| AcceptedWrites.ConcurrentRefinesOneShot | pkg/collector/collector.go:314-645 | So in every interleaving the stored entry of a container refines one collection over the concatenation of its accepted batches |
| ProfileLabels.LabelsStayOk | pkg/collector/collector.go:445-510 | In every interleaving a stored profile has the key of the container that created it, and in the store namespace its namespace label if and only if the partial mark was not removed |
| ProfileLabels.StoredNameParsesIff | pkg/controller/controller.go:107-118 | In every interleaving the controller reads the creator's pod name off a stored profile if and only if profiles are stored beside their pods, or it was not relabelled, or the creator's namespace is empty |
| ProfileLabels.RelabelledRun | pkg/collector/collector.go:506-510 | A run from the start reaches a profile whose pod name is not read off it |
| Scenarios.RelabelRun | pkg/collector/collector.go:506-510 | That run leaves the removed partial mark as the only label |
| Lifecycle.SingleWriter | pkg/collector/collector.go:314-318 | If an id is inserted once, with no stop-launched collection of it pending: in every interleaving at most one collection of it is past its map test |
| Lifecycle.InsertIsSafeIff | pkg/collector/collector.go:179-191 | Inserting a new id keeps that in every continuation if and only if no stop-launched collection of it is pending |
| Lifecycle.FiltersBelongToMap | pkg/eventsink/es.go:96-114 | If ids are inserted once, in any order with their stops, and have distinct ContainerIDs: in every interleaving every sink filter belongs to an id in the map |
| Lifecycle.MapKeepsFilters | pkg/collector/collector.go:179-191 | Conversely every id in the map that is not leaving has its filter |
| Lifecycle.RecordedContainersAreHeard | pkg/eventsink/es.go:209-287 | So a filtering sink passes on the events of every container that is in the map and not leaving, and drops those of a container that is not in the map |
| Lifecycle.NoWriterAfterStop | pkg/collector/collector.go:218-256 | Once an id is out of the map no further collection of it starts, unless it is inserted again |
| Lifecycle.StopForgets | pkg/collector/collector.go:235-236 | A stop and a leaving collection take the id out of the map |
| Lifecycle.RecordedIdCollects | pkg/collector/collector.go:314-320 | While an id is in the map, its timer and a launched collection do collect |
| Lifecycle.TokenMoves | pkg/collector/collector.go:179-256 | How starts, timers and collections of an id follow each other |
| Lifecycle.NextKeepsOneToken | pkg/collector/collector.go:179-256 | Every step keeps at most one start, timer or collection of an id, unless it inserts the id unsafely |
| Lifecycle.RemovalIsComplete | pkg/eventsink/es.go:106-114 | Removing the one matching filter leaves none for that ContainerID and keeps the others |
| Lifecycle.LateInsertBreaksSingleWriter | pkg/collector/collector.go:254-255 | From any state with a collection launched by a stop, inserting the id lets two collections in |
| Lifecycle.StopBeforeInsertRun | pkg/collector/collector.go:218-256 | A run of five steps that does so from the start |
| PodFinalizer.TimersStayTracked | pkg/collector/pod_finalizer.go:112-162 | In every interleaving, since stopTimer was last called for a key the update handler started at most one timer for it, namely the one in the table, and every such timer not stopped is in the table |
| PodFinalizer.NextKeepsTracked | pkg/collector/pod_finalizer.go:112-300 | Every critical section keeps that |
| PodFinalizer.ReadyPodHasTimer | pkg/collector/pod_finalizer.go:138-158 | After an update a ready, recorded pod has a live timer: the one it had, or a new one |
| PodFinalizer.UnreadyPodHasNoTimer | pkg/collector/pod_finalizer.go:159-161 | After an update a recorded pod that is not ready has no live timer |
| PodFinalizer.MarksDecide | pkg/collector/pod_finalizer.go:241-300 | The marks begin and end recording and touch no timer; without recording an update does nothing |
| PodFinalizer.AddingAPod | pkg/collector/pod_finalizer.go:91-109 | A new pod gets an entry without timer or recording; a known one keeps its entry and starts a timer outside the table if ready |
| PodFinalizer.DeletedPodHasNoTimer | pkg/collector/pod_finalizer.go:193-239 | After a pod is deleted no timer of its key is live |
| PodFinalizer.TableKeysDiffer | pkg/collector/pod_finalizer.go:72-74 | If pod names have no dash, different pods have different table keys |
| PodFinalizer.Finalizer.HandlePodAddEvent | pkg/collector/pod_finalizer.go:76-110 | Adds an entry for a new pod, or starts an untracked timer for a known pod that is ready |
| PodFinalizer.Finalizer.HandlePodUpdateEvent | pkg/collector/pod_finalizer.go:112-162 | Does nothing unless recording; then starts the missing timer of a ready pod or stops that of another |
| PodFinalizer.Finalizer.HandlePodDeleteEvent | pkg/collector/pod_finalizer.go:193-202 | Stops the key's timer |
| PodFinalizer.Finalizer.Stop | pkg/collector/pod_finalizer.go:218-239 | Stops and forgets the timer in the table, if any |
| PodFinalizer.Finalizer.MarkPodRecording | pkg/collector/pod_finalizer.go:241-285 | Marks the entry, created if absent, keeping its timer; gives up if an attached pod cannot be looked up |
| PodFinalizer.Finalizer.MarkPodNotRecording | pkg/collector/pod_finalizer.go:287-300 | Unmarks the entry if present, keeping its timer |
| ContainerTracing.CountIsLiftedBalance | pkg/tracing/tracing.go:250-313 | After any starts and stops, successful or cut short, the count of a gadget's namespace is starts minus stops, lifted by its lowest point; its filter entry is 1 exactly when the count is positive |
| ContainerTracing.LowestIsMinimum | pkg/tracing/tracing.go:293-304 | That lowest point is the minimum over all prefixes, the empty one included |
| ContainerTracing.EntryStays | pkg/tracing/tracing.go:301-303 | The filter has an entry for a namespace exactly if it was ever started; stopping leaves it there |
| ContainerTracing.AllKeepsCountsEqual | pkg/tracing/tracing.go:254-259 | Used only with all event types, exec, capabilities and open counts stay equal |
| ContainerTracing.ProcessSlot | pkg/tracing/tracing.go:260-277 | One call changes the slot it reaches once and no other |
| ContainerTracing.AttachmentsAre | pkg/tracing/tracing.go:260-310 | A request makes one attach or detach call for every attachable type it reaches, as asked, and no other |
| ContainerTracing.StartingAContainer | pkg/tracing/tracing.go:250-313 | As the tracer is set up, tracing a container attaches network and DNS to its process and counts exec, capabilities and open once, with filter entry 1 |
| ContainerTracing.Tracer.StartType | pkg/tracing/tracing.go:260-277 | One turn of the starting loop |
| ContainerTracing.Tracer.StopType | pkg/tracing/tracing.go:293-310 | One turn of the stopping loop |
| ContainerTracing.Tracer.HandleTypes | pkg/tracing/tracing.go:260-278 | The loop up to the first untraceable type, with its attach or detach calls |
| ContainerTracing.Tracer.StartTraceContainer | pkg/tracing/tracing.go:250-279 | The start request; refused when not running |
| ContainerTracing.Tracer.StopTraceContainer | pkg/tracing/tracing.go:281-313 | The stop request; refused when not running |
| RandomxDetector.Tracer.Run | pkg/ebpf/gadgets/randomx/tracer/tracer.go:109-189 | Over any record stream, what is reported is in order: each lost-sample warning, the read error that ends it, and an alert exactly at each event that ends the first burst of its namespace |
| RandomxDetector.Tracer.Handle | pkg/ebpf/gadgets/randomx/tracer/tracer.go:131-187 | One event is reported exactly if it ends the first burst of its namespace in the trace so far |
| RandomxDetector.Tracer.Count | pkg/ebpf/gadgets/randomx/tracer/tracer.go:131-156 | Updates the namespace's entry unless it was alerted on |
| RandomxDetector.Tracer.AlertIfDue | pkg/ebpf/gadgets/randomx/tracer/tracer.go:158-187 | Alerts, marks the entry and writes 0 to the filter map exactly if the count passed the target |
| RandomxDetector.AlertedIffBurst | pkg/ebpf/gadgets/randomx/tracer/tracer.go:158-177 | A namespace is alerted on exactly if its own events contain 51 consecutive ones with small wrapping gaps, whatever other namespaces do |
| RandomxDetector.AtMostOneAlert | pkg/ebpf/gadgets/randomx/tracer/tracer.go:153-156 | At most one alert per namespace |
| RandomxDetector.MinusUndoesPlus | pkg/ebpf/gadgets/randomx/tracer/tracer.go:140-140 | The gap is the difference modulo 2 to the 64, and the plain difference if time does not go back |
| RandomxDetector.AlertedIffFiftyOneClose | pkg/ebpf/gadgets/randomx/tracer/tracer.go:138-177 | If a namespace's time does not go back, it is alerted on exactly if it has 51 consecutive events each at most 5000000000 ns after the one before |
| RandomxDetector.FiftyOneEvents | pkg/ebpf/gadgets/randomx/tracer/tracer.go:138-177 | Fifty-one events of a namespace raise exactly one alert, at the last, if they are that close, and none otherwise |
| RandomxDetector.FewEventsDoNotAlert | pkg/ebpf/gadgets/randomx/tracer/tracer.go:159-159 | Fifty events of a namespace raise no alert |
| RandomxDetector.StepIsCorrect | pkg/ebpf/gadgets/randomx/tracer/tracer.go:131-187 | The constant-size cache keeps remembering the trace, and the alerts stay those of the specification |
| RandomxDetector.NoticedLossesAndFailure | pkg/ebpf/gadgets/randomx/tracer/tracer.go:111-127 | Every lost-sample record is warned of, in order, and a read failure is reported once, at the end |
| RandomxDetector.CountIsRunLength | pkg/ebpf/gadgets/randomx/tracer/tracer.go:138-151 | The count is the length of the current run and never exceeds 51; it passes the target exactly when a first burst ends |
| RandomxDetector.LongRunIsBurst | pkg/ebpf/gadgets/randomx/tracer/tracer.go:159-159 | A run of more than 50 events is exactly a burst that ends at the last event |
| ResourceVersion.IsHigherIsShortlex | pkg/watcher/watcher.go:211-230 | On canonical versions the comparison is numeric, and agrees with length-then-lexicographic order |
| ResourceVersion.SameLengthOrder | pkg/watcher/watcher.go:217-229 | For equally long digit strings numeric and lexicographic order agree |
| ResourceVersion.IsHigherMeaning | pkg/watcher/watcher.go:211-230 | Every version is higher than none; otherwise both must be numbers and the first larger |
| ResourceVersion.ParsedNumbers | pkg/watcher/watcher.go:217-227 | Signed decimals within 64 bits are read, longer numbers and other texts are not |
| Watcher.CursorIsMaximum | pkg/watcher/watcher.go:147-193 | After any events the cursor is the numerically largest version since the last 410, or empty if there is none |
| Watcher.PreListNotifiesStrictMaxima | pkg/watcher/watcher.go:67-88 | Pre-listing notifies exactly the left-to-right strict maxima across namespaces and leaves the maximum as cursor |
| Watcher.HandledExactlyOnce | pkg/watcher/watcher.go:113-193 | Over any openings, deliveries, bookmarks and disconnects, the handled events are the log between the initial and the current cursor, in order and once each |
| Watcher.HandledIffBetweenCursors | pkg/watcher/watcher.go:113-193 | A log entry is handled exactly if its version is above the initial and not above the current cursor |
| Watcher.StreamsAreHandledExactlyOnce | pkg/watcher/watcher.go:99-195 | If every received stream was served for the version it was requested at, the changes received are the log between the initial and the final cursor, in order and once each |
| Watcher.NoticesTellChanges | pkg/watcher/watcher.go:154-193 | Every added, modified or deleted object is notified once, in order, by the function of its kind; bookmarks and errors are not |
| Watcher.RequestsAre | pkg/watcher/watcher.go:113-122 | Every stream is requested at the cursor the earlier ones left |
| Watcher.Watcher.ListNamespace | pkg/watcher/watcher.go:74-84 | The loop over one namespace's items |
| Watcher.Watcher.List | pkg/watcher/watcher.go:64-88 | Resets the cursor and lists all namespaces if pre-listing |
| Watcher.Watcher.Handle | pkg/watcher/watcher.go:147-193 | One event moves the cursor and is notified by its type |
| Watcher.Watcher.Receive | pkg/watcher/watcher.go:113-193 | All events of one stream |
| Watcher.Watcher.Watch | pkg/watcher/watcher.go:99-195 | One stream after another, each requested at the cursor its predecessors left |
| Controller.AggregateRepresentsExactly | pkg/controller/controller.go:260-380 | Each output container holds, per list, an Equals-representative of every input entry of that name and nothing that is in no input |
| Controller.PodOrderIrrelevant | pkg/controller/controller.go:262-263 | Permuting the pods changes no container name, and every entry of one result has an Equals in the other |
| Controller.PodOrderIrrelevantIff | pkg/controller/controller.go:262-380 | For each of the seven lists: permuting the pods keeps it up to Equals and order, multiplicities included, if and only if the first containers of that name repeat the same entries; and keeps its length if and only if these have the same surplus |
| Controller.PodOrderIrrelevantWithoutRepeats | pkg/controller/controller.go:262-380 | In particular if no input container of that name repeats an entry |
| Controller.PodOrderShows | pkg/controller/controller.go:376-378 | Two pods with collected profiles whose order decides between one exec and two |
| Controller.UnionOccurrences | pkg/controller/controller.go:284-378 | An entry is in the output as often as in the first input list, or once if only later ones have it |
| Controller.UnionLength | pkg/controller/controller.go:284-378 | The output has one entry per class of input entries plus the surplus of the first input list |
| Controller.AggregateIsUnion | pkg/controller/controller.go:284-378 | Each part of an output container is the first input list grown by the others modulo Equals |
| Controller.UnionIsUnion | pkg/controller/controller.go:292-304 | Such a list represents every entry of every input list, contains nothing else, and has no two Equal entries if no input list has |
| Controller.UnionOrderIrrelevant | pkg/controller/controller.go:292-304 | It does not depend on the order of the lists, up to Equals |
| Controller.EqualsAreEquivalences | pkg/collector/types.go:81-153 | Every Equals is an equivalence, the one of execs although it ignores environment and layer |
| Controller.EqualsMeaning | pkg/collector/types.go:81-153 | Equals ignores the environment and the layer of an exec, and nothing else of anything |
| Controller.AppendMissing | pkg/controller/controller.go:293-304 | The loop grows a list by the entries it has no Equal of |
| Controller.Merge | pkg/controller/controller.go:284-375 | All seven lists of one container |
| Controller.AddPod | pkg/controller/controller.go:282-379 | The loop over one pod's containers |
| Controller.Aggregate | pkg/controller/controller.go:260-380 | The loop over the pods |
| ProfileName.ParseInvertsPrint | pkg/controller/controller.go:107-118 | For every kind without a dash and any name and namespace, parsing the printed name gives the lower-case name, in both storage modes, when the namespace label is present |
| ProfileName.LowerMeaning | pkg/collector/collector.go:889-894 | Capital ASCII letters become small ones and nothing else changes |
| ProfileName.MissingLabelIff | pkg/controller/controller.go:114-117 | Without the label it does so exactly if the namespace is empty |
| ProfileName.DropFirstPart | pkg/controller/controller.go:111-116 | Split, drop and join give the text after the first dash |
| ProfileName.JoinInvertsSplit | pkg/controller/controller.go:111-116 | Join inverts split |

## Left out

- Kubernetes clients, owner lookup, unstructured conversion, JSON encoding, logging: library calls; the API is the object store above.
- eBPF programs, perf readers, gadget start and stop, container-runtime detection: foreign code; the detector starts from decoded records.
- Real time, sleeps, back-off and jitter: a timer may fire at any later step. The jitter must be positive, since `rand.Intn` needs it.
- Data races of the Go memory model, such as the unlocked filter list: every step is atomic.
- Finalisation timers of the add and attach paths: their handles are discarded, so they are counted but not tracked.
- The pod mount cache's fetching and eviction: the mounts are parameters and may differ at every step of the protocol.
- Finality of controller profiles: that patch carries no version, so check and patch are not atomic.
- Slices inside profiles: lists of profiles are values in the collector and the controller, so appends that write into shared spare capacity are not modelled there (they are in the event database).
- The sink's databases: their map behaviour, as proved in InMemoryMapDB, with one database per event type.
- `CleanupContainer`, closing the channels, `Close`, `Len`, `Keys`, `Values`, `IsEmpty`: simple members, or never part of a recording run.
- Provenance of system calls: they are read from the tracer, not from the sink.
- A flush on stop and a perpetual timer: the code gives neither.
- Injective bucket and table keys for names with dashes: parts are joined with dashes, so provenance speaks of bucket keys.
- Failing writes to and capacity of kernel maps, and the attach calls' own errors.
- Integer overflow of reference counts.
- Characters beyond ASCII in `ToLower`.
- The watcher's nil objects, failing list requests and failing restarts: they end or skip the loop.
- Order of the controller's output containers, which follows Go's map iteration.
- The early exits of ContainerStarted and of the controller for existing, final or partial profiles.
