/** What each API step of the recording protocol does to the store and to its collection, label by label. */
module StepEffects {
  import opened ProfileTypes
  import opened ProfileAlgebra
  import opened ObjectStore
  import opened RecordingProtocol
  import ProfileName

  /** Where a container's profile is stored: by pod, in the pod's namespace or in the one store namespace. */
  lemma StoredBesidePodOrTogether(config: Config, id: ContainerId)
    ensures config.storeNamespace == "" ==>
              KeyOf(config, id) == ProfileKey(id.namespace, "pod-" + ProfileName.Lower(id.podName))
    ensures config.storeNamespace != "" ==>
              KeyOf(config, id)
              == ProfileKey(config.storeNamespace, "pod-" + ProfileName.Lower(id.podName) + "-" + id.namespace)
  {
    assert ProfileName.Lower("pod") == "pod" by {
      assert "pod"[1..] == "od" && "pod"[1..][1..] == "d";
    }
    assert "pod" + "-" == "pod-";
  }

  /** One label of one profile becomes "true"; its other labels and its containers, and all other profiles, stay. */
  ghost predicate OnlyLabelSet(a: Store, b: Store, key: ProfileKey, name: string) {
    && b.objects.Keys == a.objects.Keys
    && (forall k :: k in a.objects && k != key ==> b.objects[k] == a.objects[k])
    && (key in a.objects ==>
          && name in b.objects[key].labels && b.objects[key].labels[name] == "true"
          && (forall l :: l != name ==> (l in b.objects[key].labels <==> l in a.objects[key].labels))
          && (forall l :: l != name && l in a.objects[key].labels ==>
                b.objects[key].labels[l] == a.objects[key].labels[l])
          && b.objects[key].containers == a.objects[key].containers)
  }

  lemma PatchSetsOnlyLabel(s: Store, key: ProfileKey, name: string, bump: bool)
    ensures OnlyLabelSet(s, PatchLabel(s, key, name, bump), key, name)
  {
  }

  /** The stored labels after a patch are what the JSON merge patch gives. */
  lemma PatchIsMergePatch(s: Store, key: ProfileKey, name: string, bump: bool, metadata: map<string, Json>, spec: Json)
    requires key in s.objects && "labels" !in metadata
    ensures Document(PatchLabel(s, key, name, bump).objects[key].labels, metadata, spec)
         == MergePatch(Document(s.objects[key].labels, metadata, spec), LabelPatch(name))
  {
    hide Document, MergePatch, LabelPatch;
    LabelPatchSetsLabel(s.objects[key].labels, metadata, spec, name);
  }

  /** Finalising makes a stored profile final, and changes nothing else. */
  lemma FinalizeEffect(config: Config, s: State, key: ProfileKey, bump: bool)
    requires key in s.store.objects
    ensures var t := Next(config, s, Finalize(key, true, bump));
            && OnlyLabelSet(s.store, t.store, key, "kapprofiler.kubescape.io/final")
            && IsFinal(t.store.objects[key])
            && t.sink == s.sink && t.collections == s.collections
  {
    hide OnlyLabelSet;
    PatchSetsOnlyLabel(s.store, key, FINAL, bump);
  }

  lemma MarkFailedEffect(config: Config, s: State, c: nat, bump: bool)
    requires c in s.collections && s.collections[c].Found? && !s.collections[c].marked
    requires |Fresh(config, s.collections[c]).opens| >= 10000
    ensures var t := Next(config, s, MarkFailed(c, true, bump));
            && OnlyLabelSet(s.store, t.store, KeyOf(config, s.collections[c].id), "kapprofiler.kubescape.io/failed")
            && t.sink == s.sink && t.collections == s.collections[c := s.collections[c].(marked := true)]
  {
    hide OnlyLabelSet, KeyOf, Fresh;
    PatchSetsOnlyLabel(s.store, KeyOf(config, s.collections[c].id), FAILED, bump);
  }

  lemma MarkRejectedEffect(config: Config, s: State, c: nat, bump: bool)
    requires c in s.collections && s.collections[c].Rejected?
    ensures var t := Next(config, s, MarkRejected(c, true, bump));
            && OnlyLabelSet(s.store, t.store, KeyOf(config, s.collections[c].id), "kapprofiler.kubescape.io/failed")
            && t.sink == s.sink && t.collections == s.collections[c := Finished(s.collections[c].id)]
  {
    hide OnlyLabelSet, KeyOf;
    PatchSetsOnlyLabel(s.store, KeyOf(config, s.collections[c].id), FAILED, bump);
  }

  /** A collection that drained all buckets is built if it has any event, and is over otherwise. */
  lemma BuildEffect(config: Config, s: State, c: nat, syscalls: seq<string>, mounts: seq<string>)
    requires c in s.collections && s.collections[c].Loading? && s.collections[c].drained == 5
    ensures var col, t := s.collections[c], Next(config, s, Build(c, syscalls, mounts));
            && t.store == s.store && t.sink == s.sink
            && t.collections == s.collections[c :=
                 if col.events.(syscallEvents := syscalls) == NO_EVENTS then Finished(col.id)
                 else Built(col.id, col.attached, col.events.(syscallEvents := syscalls), mounts)]
  {
  }

  /** What Get decides: nothing stored, a final profile, or a snapshot to merge into. */
  lemma GetEffect(config: Config, s: State, c: nat)
    requires c in s.collections && s.collections[c].Built?
    ensures var t, key := Next(config, s, Get(c, true)), KeyOf(config, s.collections[c].id);
            && t.store == s.store && t.sink == s.sink
            && c in t.collections && t.collections == s.collections[c := t.collections[c]]
            && (t.collections[c].Absent? <==> key !in s.store.objects)
            && (t.collections[c].Finished? <==>
                  && key in s.store.objects
                  && "kapprofiler.kubescape.io/final" in s.store.objects[key].labels
                  && s.store.objects[key].labels["kapprofiler.kubescape.io/final"] == "true")
            && (t.collections[c].Absent? || t.collections[c].Finished? || t.collections[c].Found?)
            && (t.collections[c].Found? ==> t.collections[c].snapshot == s.store.objects[key])
  {
    hide KeyOf;
  }

  /** A created profile has this collection's container alone, and labels that say how it was recorded. */
  lemma CreateEffect(config: Config, s: State, c: nat)
    requires c in s.collections && s.collections[c].Absent?
    requires KeyOf(config, s.collections[c].id) !in s.store.objects
    ensures var col := s.collections[c];
            var key := KeyOf(config, col.id);
            var t := Next(config, s, CreateProfile(c, true));
            && t.store.objects.Keys == s.store.objects.Keys + {key}
            && (forall k :: k in s.store.objects ==> t.store.objects[k] == s.store.objects[k])
            && t.store.objects[key].containers == [Fresh(config, col)]
            && Fresh(config, col).name == col.id.container
            && CreatedLabels(config, col, t.store.objects[key].labels)
            && t.collections == s.collections[c := Finished(col.id)]
  {
    hide KeyOf, CollectOpens, CollectExecs, CollectDns, CollectIncoming, CollectOutgoing;
    LabelsAreCreated(config, s.collections[c]);
  }

  ghost predicate CreatedLabels(config: Config, col: Collection, labels: map<string, string>)
    requires col.Absent?
  {
    && ("kapprofiler.kubescape.io/partial" in labels <==> col.attached)
    && ("kapprofiler.kubescape.io/failed" in labels <==> |Fresh(config, col).opens| >= 10000)
    && ("kapprofiler.kubescape.io/namespace" in labels <==> config.storeNamespace != "")
    && (forall l :: l in labels ==>
          || (l == "kapprofiler.kubescape.io/partial" && labels[l] == "true")
          || (l == "kapprofiler.kubescape.io/failed" && labels[l] == "true")
          || (l == "kapprofiler.kubescape.io/namespace" && labels[l] == col.id.namespace))
  }

  lemma LabelsAreCreated(config: Config, col: Collection)
    requires col.Absent?
    ensures CreatedLabels(config, col, LabelsForCreate(config, col))
  {
    hide Fresh;
    assert PARTIAL != FAILED && PARTIAL != NAMESPACE && FAILED != NAMESPACE by {
      assert PARTIAL[|PARTIAL| - 7] == 'p' && FAILED[|FAILED| - 6] == 'f' && |NAMESPACE| > |PARTIAL| > |FAILED|;
    }
  }

  /** A create that comes too late leaves the store as it is. */
  lemma LateCreateEffect(config: Config, s: State, c: nat)
    requires c in s.collections && s.collections[c].Absent?
    requires KeyOf(config, s.collections[c].id) in s.store.objects
    ensures var t := Next(config, s, CreateProfile(c, true));
            t.store == s.store && t.collections == s.collections[c := Finished(s.collections[c].id)]
  {
    hide KeyOf, Fresh, LabelsForCreate;
  }

  /** An accepted update replaces the containers by the merge, and the labels if it removes the partial mark. */
  lemma UpdateEffect(config: Config, s: State, c: nat, bump: bool, mounts: seq<string>)
    requires c in s.collections && s.collections[c].Found?
    requires s.collections[c].marked || |Fresh(config, s.collections[c]).opens| < 10000
    requires UpdateAccepted(s.store, KeyOf(config, s.collections[c].id), s.collections[c].snapshot.version)
    ensures var col := s.collections[c];
            var key := KeyOf(config, col.id);
            var t := Next(config, s, UpdateProfile(c, Answered, bump, mounts));
            && t.store.objects.Keys == s.store.objects.Keys
            && (forall k :: k in s.store.objects && k != key ==> t.store.objects[k] == s.store.objects[k])
            && t.store.objects[key].containers
               == MergeContainers(config, mounts, col.snapshot.containers, Fresh(config, col))
            && t.store.objects[key].labels
               == (if !col.attached && PARTIAL in col.snapshot.labels && col.snapshot.labels[PARTIAL] == "true"
                   then map["kapprofiler.kubescape.io/partial" := "false"] else col.snapshot.labels)
            && t.collections == s.collections[c := Finished(col.id)]
  {
    hide KeyOf, Fresh, MergeContainers;
  }

  /** An update with an old version leaves the store as it is, and the collection gives up. */
  lemma RejectedUpdateEffect(config: Config, s: State, c: nat, outcome: Outcome, bump: bool, mounts: seq<string>)
    requires c in s.collections && s.collections[c].Found?
    requires s.collections[c].marked || |Fresh(config, s.collections[c]).opens| < 10000
    requires var key := KeyOf(config, s.collections[c].id);
             key in s.store.objects ==> s.store.objects[key].version != s.collections[c].snapshot.version
    ensures var t := Next(config, s, UpdateProfile(c, outcome, bump, mounts));
            t.store == s.store && t.collections == s.collections[c := Rejected(s.collections[c].id)]
  {
    hide KeyOf, Fresh, MergeContainers;
  }

  lemma DeleteEffect(config: Config, s: State, key: ProfileKey)
    ensures var t := Next(config, s, DeleteProfile(key));
            && t.store.objects.Keys == s.store.objects.Keys - {key}
            && (forall k :: k in t.store.objects ==> t.store.objects[k] == s.store.objects[k])
            && t.collections == s.collections && t.sink == s.sink
  {
  }
}
