/**
 A profile marked final keeps its contents and its mark until it is deleted, in every interleaving,
 although collectors check the mark and write in two separate steps and may replace all labels.
 */
module Finality {
  import opened ProfileTypes
  import opened ProfileAlgebra
  import opened ObjectStore
  import opened RecordingProtocol

  /** The version a collection read identifies what it read, and what it read was not final. */
  ghost predicate SnapshotIsCurrentOrStale(config: Config, store: Store, col: Collection) {
    col.Found? ==>
      && !IsFinal(col.snapshot)
      && col.snapshot.version <= store.clock
      && var key := KeyOf(config, col.id);
         (key in store.objects && store.objects[key].version == col.snapshot.version ==>
            store.objects[key] == col.snapshot)
  }

  ghost predicate VersionsOk(config: Config, s: State) {
    && (forall key :: key in s.store.objects ==> s.store.objects[key].version <= s.store.clock)
    && (forall c :: c in s.collections ==> SnapshotIsCurrentOrStale(config, s.store, s.collections[c]))
  }

  /** What a write to one key can do to the store. */
  ghost predicate Advances(a: Store, b: Store) {
    && a.clock <= b.clock
    && (forall key :: key in b.objects ==>
          (key in a.objects && b.objects[key] == a.objects[key]) || a.clock < b.objects[key].version <= b.clock)
  }

  lemma AdvanceKeepsSnapshots(config: Config, a: Store, b: Store, col: Collection)
    requires Advances(a, b) && SnapshotIsCurrentOrStale(config, a, col)
    ensures SnapshotIsCurrentOrStale(config, b, col)
  {
  }

  lemma NextAdvances(config: Config, s: State, step: Step)
    ensures Advances(s.store, Next(config, s, step).store)
  {
    hide KeyOf, Fresh, OverOpenLimit, LabelsForCreate, LabelsForUpdate, BucketOf, MergeContainers;
  }

  lemma NextKeepsVersions(config: Config, s: State, step: Step)
    requires VersionsOk(config, s)
    ensures VersionsOk(config, Next(config, s, step))
  {
    hide KeyOf, Fresh, OverOpenLimit, LabelsForCreate, LabelsForUpdate, BucketOf, MergeContainers;
    var t := Next(config, s, step);
    NextAdvances(config, s, step);
    forall c | c in t.collections
      ensures SnapshotIsCurrentOrStale(config, t.store, t.collections[c])
    {
      if c in s.collections {
        AdvanceKeepsSnapshots(config, s.store, t.store, s.collections[c]);
      }
    }
  }

  lemma {:induction false} VersionsStayOk(config: Config, filterEvents: bool, steps: seq<Step>)
    ensures VersionsOk(config, After(config, filterEvents, steps))
  {
    if steps != [] {
      VersionsStayOk(config, filterEvents, steps[..|steps| - 1]);
      NextKeepsVersions(config, After(config, filterEvents, steps[..|steps| - 1]), steps[|steps| - 1]);
    }
  }

  /** Final in `a` means: gone in `b`, or still final with the same containers. */
  ghost predicate KeepsFinal(a: Store, b: Store, key: ProfileKey) {
    key in a.objects && IsFinal(a.objects[key]) && key in b.objects ==>
      IsFinal(b.objects[key]) && b.objects[key].containers == a.objects[key].containers
  }

  lemma PatchKeepsFinal(s: Store, patched: ProfileKey, name: string, bump: bool, key: ProfileKey)
    requires name == FINAL || name == FAILED
    ensures KeepsFinal(s, PatchLabel(s, patched, name, bump), key)
  {
  }

  lemma UpdateKeepsFinal(
    config: Config, s: State, c: nat, outcome: Outcome, bump: bool, mounts: seq<string>, key: ProfileKey)
    requires VersionsOk(config, s) && c in s.collections && s.collections[c].Found?
    ensures KeepsFinal(s.store, UpdateStep(config, s, c, outcome, bump, mounts).store, key)
  {
    assert SnapshotIsCurrentOrStale(config, s.store, s.collections[c]);
  }

  lemma NextKeepsFinal(config: Config, s: State, step: Step, key: ProfileKey)
    requires VersionsOk(config, s)
    ensures KeepsFinal(s.store, Next(config, s, step).store, key)
  {
    hide KeyOf, Fresh, OverOpenLimit, LabelsForCreate, LabelsForUpdate, BucketOf, MergeContainers;
    match step {
      case MarkFailed(c, ok, bump) =>
        if c in s.collections && s.collections[c].Found? {
          PatchKeepsFinal(s.store, KeyOf(config, s.collections[c].id), FAILED, bump, key);
        }
      case UpdateProfile(c, outcome, bump, mounts) =>
        if c in s.collections && s.collections[c].Found? {
          UpdateKeepsFinal(config, s, c, outcome, bump, mounts, key);
        }
      case MarkRejected(c, ok, bump) =>
        if c in s.collections && s.collections[c].Rejected? {
          PatchKeepsFinal(s.store, KeyOf(config, s.collections[c].id), FAILED, bump, key);
        }
      case Finalize(k, ok, bump) =>
        PatchKeepsFinal(s.store, k, FINAL, bump, key);
      case _ =>
    }
  }

  /** `key` is present after every prefix of the run from `i` to `j` steps. */
  ghost predicate PresentThroughout(
    config: Config, filterEvents: bool, steps: seq<Step>, i: nat, j: nat, key: ProfileKey)
    requires i <= j <= |steps|
  {
    forall k :: i <= k <= j ==> key in After(config, filterEvents, steps[..k]).store.objects
  }

  /** Finality is stable over whole runs. */
  lemma {:induction false} FinalityIsStable(
    config: Config, filterEvents: bool, steps: seq<Step>, i: nat, j: nat, key: ProfileKey)
    requires i <= j <= |steps|
    requires PresentThroughout(config, filterEvents, steps, i, j, key)
    requires IsFinal(After(config, filterEvents, steps[..i]).store.objects[key])
    ensures IsFinal(After(config, filterEvents, steps[..j]).store.objects[key])
    ensures After(config, filterEvents, steps[..j]).store.objects[key].containers
         == After(config, filterEvents, steps[..i]).store.objects[key].containers
    decreases j
  {
    hide Next, IsFinal, VersionsOk;
    if i < j {
      FinalityIsStable(config, filterEvents, steps, i, j - 1, key);
      var before := After(config, filterEvents, steps[..j - 1]);
      assert steps[..j][..j - 1] == steps[..j - 1];
      VersionsStayOk(config, filterEvents, steps[..j - 1]);
      NextKeepsFinal(config, before, steps[j - 1], key);
      assert key in before.store.objects;
    }
  }

  // ---------- A consequence: a fresh failed mark defeats the collection's own update ----------

  /** The stored profile has moved past what the collection read. */
  ghost predicate SnapshotIsStale(config: Config, store: Store, col: Collection) {
    col.Found? && col.snapshot.version <= store.clock
    && var key := KeyOf(config, col.id);
       (key in store.objects ==> store.objects[key].version > col.snapshot.version)
  }

  /** The collection is outdated or past its update. */
  ghost predicate CannotWrite(config: Config, s: State, c: nat) {
    c in s.collections
    && (SnapshotIsStale(config, s.store, s.collections[c]) || s.collections[c].Rejected? || s.collections[c].Finished?)
  }

  lemma CannotWriteStep(config: Config, s: State, step: Step, c: nat)
    requires CannotWrite(config, s, c)
    ensures CannotWrite(config, Next(config, s, step), c)
    ensures step.UpdateProfile? && step.c == c ==> Next(config, s, step).store == s.store
  {
    hide KeyOf, Fresh, OverOpenLimit, LabelsForCreate, LabelsForUpdate, BucketOf, MergeContainers;
    NextAdvances(config, s, step);
  }

  /** Whatever happens next, none of the collection's update attempts changes the store. */
  lemma {:induction false} StaleIsNeverWritten(config: Config, s: State, c: nat, steps: seq<Step>)
    requires CannotWrite(config, s, c)
    ensures CannotWrite(config, Continue(config, s, steps), c)
    ensures steps != [] && steps[|steps| - 1].UpdateProfile? && steps[|steps| - 1].c == c ==>
              Continue(config, s, steps).store == Continue(config, s, steps[..|steps| - 1]).store
  {
    if steps != [] {
      StaleIsNeverWritten(config, s, c, steps[..|steps| - 1]);
      CannotWriteStep(config, Continue(config, s, steps[..|steps| - 1]), steps[|steps| - 1], c);
    }
  }

  /**
   A collection at or over the open limit that sets the failed mark for the first time outdates its own
   snapshot, so its merge is never stored, whatever happens afterwards.
   */
  lemma FreshFailedMarkOutdatesSnapshot(config: Config, s: State, c: nat, bump: bool)
    requires VersionsOk(config, s)
    requires c in s.collections && s.collections[c].Found? && !s.collections[c].marked
    requires OverOpenLimit(config, s.collections[c])
    requires var key := KeyOf(config, s.collections[c].id);
             key in s.store.objects ==> LabelOf(s.store.objects[key], FAILED) != "true"
    ensures var t := Next(config, s, MarkFailed(c, true, bump));
            CannotWrite(config, t, c)
  {
    hide KeyOf, Fresh, OverOpenLimit, LabelsForCreate, LabelsForUpdate, MergeContainers;
    var key := KeyOf(config, s.collections[c].id);
    assert SnapshotIsCurrentOrStale(config, s.store, s.collections[c]);
    if key in s.store.objects {
      assert s.store.objects[key].labels[FAILED := "true"] != s.store.objects[key].labels;
    }
  }

  /**
   When the collection's own failed mark leaves its update acceptable: exactly if the patch did not get through, or
   the mark was already there and writing it again got no new version.
   */
  lemma MarkLeavesUpdateAcceptableIff(config: Config, s: State, c: nat, ok: bool, bump: bool)
    requires VersionsOk(config, s)
    requires c in s.collections && s.collections[c].Found? && !s.collections[c].marked
    requires OverOpenLimit(config, s.collections[c])
    requires UpdateAccepted(s.store, KeyOf(config, s.collections[c].id), s.collections[c].snapshot.version)
    ensures var key := KeyOf(config, s.collections[c].id);
            UpdateAccepted(Next(config, s, MarkFailed(c, ok, bump)).store, key, s.collections[c].snapshot.version)
            <==> !ok || (!bump && LabelOf(s.store.objects[key], FAILED) == "true")
  {
    hide KeyOf, Fresh, OverOpenLimit, LabelsForCreate, LabelsForUpdate, MergeContainers;
    var labels := s.store.objects[KeyOf(config, s.collections[c].id)].labels;
    assert labels[FAILED := "true"] == labels <==> FAILED in labels && labels[FAILED] == "true" by {
      assert labels[FAILED := "true"][FAILED] == "true";
    }
  }
}
