/**
 The part of the Kubernetes API the collectors and finalisers use: create if absent, compare-and-swap
 update on resourceVersion, JSON merge patch of one label, delete.
 */
module ObjectStore {
  import opened ProfileTypes

  const FINAL: string := "kapprofiler.kubescape.io/final"
  const FAILED: string := "kapprofiler.kubescape.io/failed"
  const PARTIAL: string := "kapprofiler.kubescape.io/partial"
  const NAMESPACE: string := "kapprofiler.kubescape.io/namespace"

  datatype ProfileKey = ProfileKey(namespace: string, name: string)
  datatype Profile = Profile(version: nat, labels: map<string, string>, containers: seq<ContainerProfile>)

  /** `clock` is the last version handed out; versions are never reused, not even after a delete. */
  datatype Store = Store(clock: nat, objects: map<ProfileKey, Profile>)

  function LabelOf(p: Profile, name: string): string {
    if name in p.labels then p.labels[name] else ""
  }

  predicate IsFinal(p: Profile) { LabelOf(p, FINAL) == "true" }

  /**
   Write new contents under `key`.  A write that changes nothing may or may not (`bump`) get a new version.
   */
  function Write(
    s: Store, key: ProfileKey, labels: map<string, string>, containers: seq<ContainerProfile>, bump: bool): Store
  {
    if !bump && key in s.objects && s.objects[key].labels == labels && s.objects[key].containers == containers then s
    else Store(s.clock + 1, s.objects[key := Profile(s.clock + 1, labels, containers)])
  }

  function Create(s: Store, key: ProfileKey, labels: map<string, string>, containers: seq<ContainerProfile>): Store {
    if key in s.objects then s else Write(s, key, labels, containers, true)
  }

  predicate UpdateAccepted(s: Store, key: ProfileKey, version: nat) {
    key in s.objects && s.objects[key].version == version
  }

  function Update(
    s: Store, key: ProfileKey, version: nat, labels: map<string, string>, containers: seq<ContainerProfile>, bump: bool)
    : Store
  {
    if UpdateAccepted(s, key, version) then Write(s, key, labels, containers, bump) else s
  }

  /** Set one label to "true" by a merge patch; see `LabelPatchSetsLabel`. */
  function PatchLabel(s: Store, key: ProfileKey, name: string, bump: bool): Store {
    if key in s.objects then Write(s, key, s.objects[key].labels[name := "true"], s.objects[key].containers, bump)
    else s
  }

  function Delete(s: Store, key: ProfileKey): Store { s.(objects := s.objects - {key}) }

  // ---------- JSON merge patch, section 2 of RFC 7396 ----------

  datatype Json = Null | Text(text: string) | Object(fields: map<string, Json>)

  function MergePatch(target: Json, patch: Json): Json
    decreases patch
  {
    if !patch.Object? then patch
    else
      var fields := if target.Object? then target.fields else map[];
      Object(map k | k in fields.Keys + patch.fields.Keys && !(k in patch.fields && patch.fields[k] == Null) ::
               if k in patch.fields then MergePatch(if k in fields then fields[k] else Null, patch.fields[k])
               else fields[k])
  }

  function LabelsDocument(labels: map<string, string>): Json {
    Object(map k | k in labels :: Text(labels[k]))
  }

  /** A profile as a document; a profile without labels has no labels field. */
  function Document(labels: map<string, string>, metadata: map<string, Json>, spec: Json): Json {
    Object(map["metadata" := Object(if labels == map[] then metadata else metadata["labels" := LabelsDocument(labels)]),
               "spec" := spec])
  }

  function LabelPatch(name: string): Json {
    Object(map["metadata" := Object(map["labels" := Object(map[name := Text("true")])])])
  }

  lemma PatchOneField(fields: map<string, Json>, name: string, value: Json)
    requires value != Null
    ensures MergePatch(Object(fields), Object(map[name := value]))
         == Object(fields[name := MergePatch(if name in fields then fields[name] else Null, value)])
  {
    assert MergePatch(Object(fields), Object(map[name := value])).fields
        == fields[name := MergePatch(if name in fields then fields[name] else Null, value)];
  }

  /** The patch the collectors and finalisers send sets that label and touches nothing else, the spec in particular. */
  lemma LabelPatchSetsLabel(labels: map<string, string>, metadata: map<string, Json>, spec: Json, name: string)
    requires "labels" !in metadata
    ensures MergePatch(Document(labels, metadata, spec), LabelPatch(name))
         == Document(labels[name := "true"], metadata, spec)
  {
    var patched := LabelsDocument(labels[name := "true"]);
    var before := LabelsDocument(labels);
    PatchOneField(before.fields, name, Text("true"));
    assert before.fields[name := Text("true")] == patched.fields;
    var patch := Object(map[name := Text("true")]);
    if labels == map[] {
      assert MergePatch(Null, patch) == MergePatch(Object(map[]), patch);
      assert before.fields == map[];
    }
    var meta := if labels == map[] then metadata else metadata["labels" := before];
    PatchOneField(meta, "labels", patch);
    assert meta["labels" := patched] == metadata["labels" := patched];
    var metaPatch := Object(map["labels" := patch]);
    var fields := map["metadata" := Object(meta), "spec" := spec];
    PatchOneField(fields, "metadata", metaPatch);
    assert fields["metadata" := Object(metadata["labels" := patched])]
        == map["metadata" := Object(metadata["labels" := patched]), "spec" := spec];
  }
}
