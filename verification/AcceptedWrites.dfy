/**
 What is stored under a key, in every interleaving of collections, finalisers and deletions: exactly the
 accepted writes since the profile was created, merged one after another.  With fixed mounts the entry of one
 container is what `StoredAfter` computes from its accepted batches, so the results about runs of one
 container's collections hold for the concurrent code.
 */
module AcceptedWrites {
  import opened Sequences
  import opened ProfileTypes
  import opened ProfileAlgebra
  import opened ObjectStore
  import opened RecordingProtocol
  import Finality
  import IncrementalMerge

  /** A batch of one container, with the mounts it was collected under and those it was merged under. */
  datatype Batch = Batch(name: string, events: TotalEvents, collectMounts: seq<string>, mergeMounts: seq<string>)

  function ProfileOf(config: Config, b: Batch): ContainerProfile {
    CollectProfile(config, b.collectMounts, b.name, b.events)
  }

  /** Merging the batches one after another into a profile that starts without containers. */
  function Fold(config: Config, batches: seq<Batch>): seq<ContainerProfile> {
    if batches == [] then []
    else
      var last := batches[|batches| - 1];
      MergeContainers(config, last.mergeMounts, Fold(config, batches[..|batches| - 1]), ProfileOf(config, last))
  }

  // ---------- Which writes the store accepts ----------

  predicate CreateAccepted(config: Config, s: State, c: nat, ok: bool, key: ProfileKey) {
    && ok && c in s.collections && s.collections[c].Absent?
    && KeyOf(config, s.collections[c].id) == key && key !in s.store.objects
  }

  predicate MergeAccepted(config: Config, s: State, c: nat, outcome: Outcome, key: ProfileKey) {
    && !outcome.Unsent? && c in s.collections && s.collections[c].Found?
    && (s.collections[c].marked || !OverOpenLimit(config, s.collections[c]))
    && KeyOf(config, s.collections[c].id) == key && UpdateAccepted(s.store, key, s.collections[c].snapshot.version)
  }

  function BatchOf(col: Collection, mergeMounts: seq<string>): Batch
    requires col.Absent? || col.Found?
  {
    Batch(col.id.container, col.events, col.mounts, mergeMounts)
  }

  /** The batches accepted under the key since its creation, after one step more. */
  function AcceptedBy(config: Config, s: State, step: Step, key: ProfileKey, earlier: seq<Batch>): seq<Batch> {
    match step
    case CreateProfile(c, ok) =>
      if CreateAccepted(config, s, c, ok, key) then [BatchOf(s.collections[c], s.collections[c].mounts)] else earlier
    case UpdateProfile(c, outcome, bump, mounts) =>
      if MergeAccepted(config, s, c, outcome, key) then earlier + [BatchOf(s.collections[c], mounts)] else earlier
    case DeleteProfile(k) => if k == key then [] else earlier
    case _ => earlier
  }

  /** The batches accepted under the key since its creation, in the order of acceptance. */
  function Accepted(config: Config, filterEvents: bool, steps: seq<Step>, key: ProfileKey): seq<Batch> {
    if steps == [] then []
    else
      var init := steps[..|steps| - 1];
      AcceptedBy(config, After(config, filterEvents, init), steps[|steps| - 1], key,
          Accepted(config, filterEvents, init, key))
  }

  // ---------- The stored containers are their merge ----------

  ghost predicate IsFold(config: Config, store: Store, key: ProfileKey, batches: seq<Batch>) {
    if key in store.objects then batches != [] && store.objects[key].containers == Fold(config, batches)
    else batches == []
  }

  lemma FoldOfOne(config: Config, b: Batch)
    ensures Fold(config, [b]) == [ProfileOf(config, b)]
  {
    hide CollectProfile, MergeProfile;
    assert [b][..0] == [];
  }

  lemma FoldSnoc(config: Config, batches: seq<Batch>, last: Batch)
    ensures Fold(config, batches + [last])
         == MergeContainers(config, last.mergeMounts, Fold(config, batches), ProfileOf(config, last))
  {
    hide CollectProfile, MergeProfile, MergeContainers;
    assert (batches + [last])[..|batches|] == batches;
  }

  lemma CreateIsFold(config: Config, s: State, c: nat, ok: bool, key: ProfileKey, earlier: seq<Batch>)
    requires IsFold(config, s.store, key, earlier)
    ensures var step := CreateProfile(c, ok);
            IsFold(config, Next(config, s, step).store, key, AcceptedBy(config, s, step, key, earlier))
  {
    hide KeyOf, LabelsForCreate, CollectProfile, Fold;
    if CreateAccepted(config, s, c, ok, key) {
      FoldOfOne(config, BatchOf(s.collections[c], s.collections[c].mounts));
    }
  }

  /** An accepted update writes the merge of its batch into what is stored, not into an older state. */
  lemma UpdateIsFold(
    config: Config, s: State, c: nat, outcome: Outcome, bump: bool, mounts: seq<string>, key: ProfileKey,
    earlier: seq<Batch>)
    requires IsFold(config, s.store, key, earlier) && Finality.VersionsOk(config, s)
    ensures var step := UpdateProfile(c, outcome, bump, mounts);
            IsFold(config, Next(config, s, step).store, key, AcceptedBy(config, s, step, key, earlier))
  {
    hide KeyOf, LabelsForUpdate, CollectProfile, Fold, MergeContainers;
    if MergeAccepted(config, s, c, outcome, key) {
      assert Finality.SnapshotIsCurrentOrStale(config, s.store, s.collections[c]);
      FoldSnoc(config, earlier, BatchOf(s.collections[c], mounts));
    }
  }

  lemma PatchIsFold(
    config: Config, store: Store, patched: ProfileKey, name: string, bump: bool, key: ProfileKey, earlier: seq<Batch>)
    requires IsFold(config, store, key, earlier)
    ensures IsFold(config, PatchLabel(store, patched, name, bump), key, earlier)
  {
    hide Fold;
  }

  lemma NextIsFold(config: Config, s: State, step: Step, key: ProfileKey, earlier: seq<Batch>)
    requires IsFold(config, s.store, key, earlier) && Finality.VersionsOk(config, s)
    ensures IsFold(config, Next(config, s, step).store, key, AcceptedBy(config, s, step, key, earlier))
  {
    hide KeyOf, Fresh, OverOpenLimit, LabelsForCreate, LabelsForUpdate, BucketOf, MergeContainers, Fold,
        Finality.VersionsOk;
    match step {
      case CreateProfile(c, ok) => CreateIsFold(config, s, c, ok, key, earlier);
      case UpdateProfile(c, outcome, bump, mounts) => UpdateIsFold(config, s, c, outcome, bump, mounts, key, earlier);
      case MarkFailed(c, ok, bump) =>
        if c in s.collections {
          PatchIsFold(config, s.store, KeyOf(config, s.collections[c].id), FAILED, bump, key, earlier);
        }
      case MarkRejected(c, ok, bump) =>
        if c in s.collections {
          PatchIsFold(config, s.store, KeyOf(config, s.collections[c].id), FAILED, bump, key, earlier);
        }
      case Finalize(k, ok, bump) => PatchIsFold(config, s.store, k, FINAL, bump, key, earlier);
      case _ =>
    }
  }

  /**
   No accepted write is lost, repeated or reordered: what is stored is the merge of the accepted batches, in order.
   */
  lemma {:induction false} StoredIsFold(config: Config, filterEvents: bool, steps: seq<Step>, key: ProfileKey)
    ensures IsFold(config, After(config, filterEvents, steps).store, key, Accepted(config, filterEvents, steps, key))
  {
    if steps != [] {
      hide Next, AcceptedBy, IsFold, Finality.VersionsOk;
      var init := steps[..|steps| - 1];
      StoredIsFold(config, filterEvents, init, key);
      Finality.VersionsStayOk(config, filterEvents, init);
      NextIsFold(config, After(config, filterEvents, init), steps[|steps| - 1], key,
          Accepted(config, filterEvents, init, key));
    }
  }

  // ---------- Only batches with events are written ----------

  ghost predicate OnlyWithEvents(s: State) {
    forall c ::
      c in s.collections && (s.collections[c].Built? || s.collections[c].Absent? || s.collections[c].Found?) ==>
        ShouldProcess(s.collections[c].events)
  }

  lemma NextKeepsOnlyWithEvents(config: Config, s: State, step: Step)
    requires OnlyWithEvents(s)
    ensures OnlyWithEvents(Next(config, s, step))
  {
    hide KeyOf, OverOpenLimit, LabelsForCreate, LabelsForUpdate, BucketOf, MergeContainers, ShouldProcess, AddDrained;
  }

  lemma {:induction false} AcceptedHaveEvents(config: Config, filterEvents: bool, steps: seq<Step>, key: ProfileKey)
    ensures OnlyWithEvents(After(config, filterEvents, steps))
    ensures forall b :: b in Accepted(config, filterEvents, steps, key) ==> ShouldProcess(b.events)
  {
    if steps != [] {
      hide Next, KeyOf, OverOpenLimit, ShouldProcess;
      var init := steps[..|steps| - 1];
      AcceptedHaveEvents(config, filterEvents, init, key);
      NextKeepsOnlyWithEvents(config, After(config, filterEvents, init), steps[|steps| - 1]);
    }
  }

  // ---------- One container ----------

  /** The batches of one container. */
  function EventsOf(batches: seq<Batch>, name: string): seq<TotalEvents> {
    if batches == [] then []
    else
      var rest := EventsOf(batches[..|batches| - 1], name);
      if batches[|batches| - 1].name == name then rest + [batches[|batches| - 1].events] else rest
  }

  function EntryOf(containers: seq<ContainerProfile>, name: string): Option<ContainerProfile> {
    var i := FindContainer(containers, name);
    if i < |containers| then Some(containers[i]) else None
  }

  /** Only the first entry of its name counts. */
  lemma {:induction false} EntryIs(containers: seq<ContainerProfile>, name: string, i: nat)
    requires i < |containers| && containers[i].name == name
    requires forall j :: 0 <= j < i ==> containers[j].name != name
    ensures FindContainer(containers, name) == i
  {
    if i > 0 {
      EntryIs(containers[1..], name, i - 1);
    }
  }

  lemma {:induction false} NoEntry(containers: seq<ContainerProfile>, name: string)
    requires forall j :: 0 <= j < |containers| ==> containers[j].name != name
    ensures FindContainer(containers, name) == |containers|
  {
    if containers != [] {
      NoEntry(containers[1..], name);
    }
  }

  /** A merge changes the entry of its own name only. */
  lemma MergedEntry(
    config: Config, mounts: seq<string>, containers: seq<ContainerProfile>, added: ContainerProfile, name: string)
    ensures EntryOf(MergeContainers(config, mounts, containers, added), name)
         == if added.name != name then EntryOf(containers, name)
            else match EntryOf(containers, name)
                 case None => Some(added)
                 case Some(stored) => Some(MergeProfile(config, mounts, stored, added))
  {
    var merged := MergeContainers(config, mounts, containers, added);
    var i, k := FindContainer(containers, name), FindContainer(containers, added.name);
    assert k < |containers| ==> merged[k].name == added.name;
    hide MergeProfile, FindContainer;
    if i < |containers| {
      EntryIs(merged, name, i);
    } else if added.name == name {
      EntryIs(merged, name, |containers|);
    } else {
      NoEntry(merged, name);
    }
  }

  /** With the same mounts throughout, the entry of a container is the fold of its own batches. */
  lemma {:induction false} EntryIsStoredAfter(config: Config, mounts: seq<string>, batches: seq<Batch>, name: string)
    requires forall b ::
               b in batches ==> b.collectMounts == mounts && b.mergeMounts == mounts && ShouldProcess(b.events)
    ensures EntryOf(Fold(config, batches), name) == StoredAfter(config, mounts, name, EventsOf(batches, name))
  {
    if batches != [] {
      hide MergeProfile, CollectProfile, MergeContainers, EntryOf;
      var init, last := batches[..|batches| - 1], batches[|batches| - 1];
      assert last in batches && forall b :: b in init ==> b in batches;
      EntryIsStoredAfter(config, mounts, init, name);
      var added := ProfileOf(config, last);
      NameOf(config, last);
      MergedEntry(config, mounts, Fold(config, init), added, name);
      if last.name == name {
        var events := EventsOf(batches, name);
        assert events[..|events| - 1] == EventsOf(init, name);
      }
    } else {
      NoneYet(config, mounts, name);
    }
  }

  lemma NameOf(config: Config, b: Batch)
    ensures ProfileOf(config, b).name == b.name
  {
  }

  lemma NoneYet(config: Config, mounts: seq<string>, name: string)
    ensures EntryOf(Fold(config, []), name) == None == StoredAfter(config, mounts, name, [])
  {
  }

  /**
   In every interleaving: if all batches accepted under a key were collected and merged under the same mounts, the
   entry of a container refines one collection over the concatenation of the batches accepted for it.
   */
  lemma {:induction false} ConcurrentRefinesOneShot(
    config: Config, filterEvents: bool, steps: seq<Step>, key: ProfileKey, mounts: seq<string>, name: string)
    requires key in After(config, filterEvents, steps).store.objects
    requires forall b ::
               b in Accepted(config, filterEvents, steps, key) ==> b.collectMounts == mounts && b.mergeMounts == mounts
    ensures var batches := EventsOf(Accepted(config, filterEvents, steps, key), name);
            var entry := EntryOf(After(config, filterEvents, steps).store.objects[key].containers, name);
            && entry == StoredAfter(config, mounts, name, batches)
            && (entry.Some? ==> IncrementalMerge.RefinesOneShot(config, mounts, name, batches, entry.value))
  {
    hide Next, Accepted, EntryOf, StoredAfter, Fold, ShouldProcess, IncrementalMerge.RefinesOneShot;
    var accepted := Accepted(config, filterEvents, steps, key);
    StoredIsFold(config, filterEvents, steps, key);
    AcceptedHaveEvents(config, filterEvents, steps, key);
    EntryIsStoredAfter(config, mounts, accepted, name);
    var batches := EventsOf(accepted, name);
    if StoredAfter(config, mounts, name, batches).Some? {
      IncrementalMerge.IncrementalRefinesOneShot(config, mounts, name, batches);
    }
  }
}
