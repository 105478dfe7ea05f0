/**
 The namespace label of stored profiles, in every interleaving: it is there exactly until the partial mark is
 removed, and the controller's parsing of the profile's name depends on that.
 */
module ProfileLabels {
  import opened Sequences
  import opened ProfileTypes
  import opened ProfileAlgebra
  import opened ObjectStore
  import opened RecordingProtocol
  import opened AcceptedWrites
  import Finality
  import ProfileName
  import Scenarios

  /**
   The profile is stored where a container of this id stores its own, and has that id's namespace label unless
   relabelled.
   */
  ghost predicate LabeledFor(config: Config, key: ProfileKey, labels: map<string, string>, id: ContainerId) {
    && KeyOf(config, id) == key
    && (config.storeNamespace != "" ==>
          && (NAMESPACE in labels <==> !Relabelled(labels))
          && (NAMESPACE in labels ==> labels[NAMESPACE] == id.namespace))
  }

  predicate Relabelled(labels: map<string, string>) {
    PARTIAL in labels && labels[PARTIAL] == "false"
  }

  // ---------- Who created a stored profile ----------

  function CreatorBy(config: Config, s: State, step: Step, key: ProfileKey, earlier: Option<ContainerId>)
    : Option<ContainerId>
  {
    match step
    case CreateProfile(c, ok) => if CreateAccepted(config, s, c, ok, key) then Some(s.collections[c].id) else earlier
    case DeleteProfile(k) => if k == key then None else earlier
    case _ => earlier
  }

  /** The container whose collection created the profile that is stored under the key, if one is. */
  function Creator(config: Config, filterEvents: bool, steps: seq<Step>, key: ProfileKey): Option<ContainerId> {
    if steps == [] then None
    else
      var init := steps[..|steps| - 1];
      CreatorBy(config, After(config, filterEvents, init), steps[|steps| - 1], key,
          Creator(config, filterEvents, init, key))
  }

  ghost predicate LabeledForCreator(config: Config, store: Store, key: ProfileKey, creator: Option<ContainerId>) {
    && (key in store.objects <==> creator.Some?)
    && (key in store.objects ==> LabeledFor(config, key, store.objects[key].labels, creator.value))
  }

  lemma PatchKeepsLabels(
    config: Config, store: Store, patched: ProfileKey, name: string, bump: bool, key: ProfileKey,
    creator: Option<ContainerId>)
    requires LabeledForCreator(config, store, key, creator) && (name == FINAL || name == FAILED)
    ensures LabeledForCreator(config, PatchLabel(store, patched, name, bump), key, creator)
  {
    hide KeyOf;
  }

  lemma CreateLabels(config: Config, s: State, c: nat, ok: bool, key: ProfileKey, creator: Option<ContainerId>)
    requires LabeledForCreator(config, s.store, key, creator)
    ensures var step := CreateProfile(c, ok);
            LabeledForCreator(config, Next(config, s, step).store, key, CreatorBy(config, s, step, key, creator))
  {
    hide KeyOf, OverOpenLimit, Fresh;
  }

  /** An accepted update started from the stored labels, so it keeps them or removes the partial mark from them. */
  lemma UpdateKeepsLabels(
    config: Config, s: State, c: nat, outcome: Outcome, bump: bool, mounts: seq<string>, key: ProfileKey,
    creator: Option<ContainerId>)
    requires LabeledForCreator(config, s.store, key, creator) && Finality.VersionsOk(config, s)
    ensures LabeledForCreator(config, Next(config, s, UpdateProfile(c, outcome, bump, mounts)).store, key, creator)
  {
    hide KeyOf, OverOpenLimit, Fresh, MergeContainers;
    if c in s.collections && s.collections[c].Found? {
      assert Finality.SnapshotIsCurrentOrStale(config, s.store, s.collections[c]);
    }
  }

  lemma NextKeepsLabels(config: Config, s: State, step: Step, key: ProfileKey, creator: Option<ContainerId>)
    requires LabeledForCreator(config, s.store, key, creator) && Finality.VersionsOk(config, s)
    ensures LabeledForCreator(config, Next(config, s, step).store, key, CreatorBy(config, s, step, key, creator))
  {
    hide KeyOf, OverOpenLimit, LabeledFor, Fresh, MergeContainers, LabelsForUpdate, LabelsForCreate, BucketOf,
         Finality.VersionsOk;
    match step {
      case CreateProfile(c, ok) => CreateLabels(config, s, c, ok, key, creator);
      case UpdateProfile(c, outcome, bump, mounts) =>
        UpdateKeepsLabels(config, s, c, outcome, bump, mounts, key, creator);
      case MarkFailed(c, ok, bump) =>
        if c in s.collections {
          PatchKeepsLabels(config, s.store, KeyOf(config, s.collections[c].id), FAILED, bump, key, creator);
        }
      case MarkRejected(c, ok, bump) =>
        if c in s.collections {
          PatchKeepsLabels(config, s.store, KeyOf(config, s.collections[c].id), FAILED, bump, key, creator);
        }
      case Finalize(k, ok, bump) => PatchKeepsLabels(config, s.store, k, FINAL, bump, key, creator);
      case _ =>
    }
  }

  /** In every interleaving a stored profile has its creator's key and namespace label, the latter unless relabelled. */
  lemma {:induction false} LabelsStayOk(config: Config, filterEvents: bool, steps: seq<Step>, key: ProfileKey)
    ensures LabeledForCreator(
              config, After(config, filterEvents, steps).store, key, Creator(config, filterEvents, steps, key))
  {
    hide Next, CreatorBy, LabeledFor, Finality.VersionsOk;
    if steps != [] {
      var init := steps[..|steps| - 1];
      var s := After(config, filterEvents, init);
      LabelsStayOk(config, filterEvents, init, key);
      Finality.VersionsStayOk(config, filterEvents, init);
      NextKeepsLabels(config, s, steps[|steps| - 1], key, Creator(config, filterEvents, init, key));
    }
  }

  // ---------- What the controller reads off a name ----------

  /** The controller reads the pod's name off the stored profile. */
  predicate NameParses(config: Config, key: ProfileKey, p: Profile, id: ContainerId) {
    ProfileName.Parse(config.storeNamespace, LabelOf(p, NAMESPACE), key.name) == ProfileName.Lower(id.podName)
  }

  /**
   In every interleaving the controller reads off a stored profile the pod name of its creator exactly if profiles
   are stored beside their pods, or the profile was not relabelled, or the creator has no namespace.
   */
  lemma {:induction false} StoredNameParsesIff(config: Config, filterEvents: bool, steps: seq<Step>, key: ProfileKey)
    requires key in After(config, filterEvents, steps).store.objects
    ensures var p := After(config, filterEvents, steps).store.objects[key];
            var creator := Creator(config, filterEvents, steps, key);
            && creator.Some?
            && (NameParses(config, key, p, creator.value)
                <==> config.storeNamespace == "" || !Relabelled(p.labels) || creator.value.namespace == "")
  {
    hide Next, After, Creator, ProfileName.Parse, ProfileName.Print, ProfileName.Lower;
    LabelsStayOk(config, filterEvents, steps, key);
    var p := After(config, filterEvents, steps).store.objects[key];
    var id := Creator(config, filterEvents, steps, key).value;
    if config.storeNamespace == "" {
      ProfileName.ParseInvertsPrint("", id.namespace, "pod", id.podName);
      ProfileName.LabelUnused(LabelOf(p, NAMESPACE), id.namespace, key.name);
    } else if Relabelled(p.labels) {
      ProfileName.MissingLabelIff(config.storeNamespace, id.namespace, "pod", id.podName);
    } else {
      ProfileName.ParseInvertsPrint(config.storeNamespace, id.namespace, "pod", id.podName);
    }
  }

  /** Such a profile is reachable: recorded from an attached container, then seen from the start. */
  lemma RelabelledRun(config: Config, id: ContainerId)
    requires config.storeNamespace != "" && id.namespace != ""
    ensures var store := After(config, false, Scenarios.RelabelSteps(id)).store;
            var key := KeyOf(config, id);
            && key in store.objects && Relabelled(store.objects[key].labels)
            && !NameParses(config, key, store.objects[key], id)
  {
    hide Next, After, Scenarios.RelabelSteps, ProfileName.Parse, ProfileName.Print, ProfileName.Lower;
    Scenarios.RelabelRun(config, id);
    ProfileName.MissingLabelIff(config.storeNamespace, id.namespace, "pod", id.podName);
  }
}
