/**
 Collectors and finalisers over one object store and one event sink, as a state machine.
 Any number of collections may be under way at once; each is broken into the atomic steps between
 which others can act: five drains, building, Get, the failed-label patch, Update or Create, and
 the patch after a rejected Update.  Every API call may fail, and an update may be stored although
 its caller sees an error.
 */
module RecordingProtocol {
  import opened ProfileTypes
  import opened ProfileAlgebra
  import opened ObjectStore
  import ProfileName
  import Sink = EventSink

  function KeyOf(config: Config, id: ContainerId): ProfileKey {
    ProfileKey(if config.storeNamespace != "" then config.storeNamespace else id.namespace,
               ProfileName.Print(config.storeNamespace, id.namespace, "pod", id.podName))
  }

  function BucketOf(kind: EventType, id: ContainerId): string {
    BucketKey(kind, id.namespace, id.podName, id.container)
  }

  /** The order in which a collection drains the five buckets. */
  const DRAIN_ORDER: seq<EventType> :=
    [ExecveEventType, OpenEventType, CapabilitiesEventType, DnsEventType, NetworkEventType]

  const NO_EVENTS: TotalEvents := TotalEvents([], [], [], [], [], [])

  /** A collection past its map guard, by the point it has reached. */
  datatype Collection =
    | Loading(id: ContainerId, attached: bool, events: TotalEvents, drained: nat)
    | Built(id: ContainerId, attached: bool, events: TotalEvents, mounts: seq<string>)
    | Absent(id: ContainerId, attached: bool, events: TotalEvents, mounts: seq<string>)
    | Found(id: ContainerId, attached: bool, events: TotalEvents, mounts: seq<string>, snapshot: Profile, marked: bool)
    | Rejected(id: ContainerId)
    | Finished(id: ContainerId)

  /** What became of an update request: it never got to the server, its answer got lost, or it was answered. */
  datatype Outcome = Unsent | Unanswered | Answered

  datatype State = State(sink: Sink.Sink, store: Store, collections: map<nat, Collection>)

  datatype Step =
    | SinkStep(step: Sink.Step)
    | Begin(c: nat, id: ContainerId, attached: bool)
    | Load(c: nat)
    | Build(c: nat, syscalls: seq<string>, mounts: seq<string>)
    | Get(c: nat, ok: bool)
    | CreateProfile(c: nat, ok: bool)
    | MarkFailed(c: nat, ok: bool, bump: bool)
    | UpdateProfile(c: nat, outcome: Outcome, bump: bool, mounts: seq<string>)
    | MarkRejected(c: nat, ok: bool, bump: bool)
    | Finalize(key: ProfileKey, ok: bool, bump: bool)
    | DeleteProfile(key: ProfileKey)

  /** Add what a drain of one type returned to the collection's events. */
  function AddDrained(t: TotalEvents, drained: seq<SinkEvent>): TotalEvents {
    if drained == [] then t
    else
      var rest := AddDrained(t, drained[..|drained| - 1]);
      match drained[|drained| - 1]
      case Exec(e) => rest.(execEvents := rest.execEvents + [e])
      case Open(e) => rest.(openEvents := rest.openEvents + [e])
      case Capability(e) => rest.(capabilitiesEvents := rest.capabilitiesEvents + [e])
      case Dns(e) => rest.(dnsEvents := rest.dnsEvents + [e])
      case Network(e) => rest.(networkEvents := rest.networkEvents + [e])
  }

  function Fresh(config: Config, col: Collection): ContainerProfile
    requires col.Built? || col.Absent? || col.Found?
  {
    CollectProfile(config, col.mounts, col.id.container, col.events)
  }

  predicate OverOpenLimit(config: Config, col: Collection)
    requires col.Built? || col.Absent? || col.Found?
  {
    |Fresh(config, col).opens| >= MAX_OPEN_EVENTS
  }

  function LabelsForCreate(config: Config, col: Collection): map<string, string>
    requires col.Absent?
  {
    (if col.attached then map[PARTIAL := "true"] else map[])
    + (if OverOpenLimit(config, col) then map[FAILED := "true"] else map[])
    + (if config.storeNamespace != "" then map[NAMESPACE := col.id.namespace] else map[])
  }

  /** Removing the partial mark replaces all the labels. */
  function LabelsForUpdate(col: Collection): map<string, string>
    requires col.Found?
  {
    if !col.attached && LabelOf(col.snapshot, PARTIAL) == "true" then map[PARTIAL := "false"] else col.snapshot.labels
  }

  function SetCollection(s: State, c: nat, col: Collection): State { s.(collections := s.collections[c := col]) }

  /** Drain the collection's bucket of one type. */
  function DrainStep(s: State, c: nat, kind: EventType, key: string): State
    requires c in s.collections && s.collections[c].Loading? && kind in s.sink.pipes
  {
    var col := s.collections[c];
    var events := AddDrained(col.events, Sink.DrainedFrom(s.sink.pipes[kind], key));
    SetCollection(s, c, Loading(col.id, col.attached, events, col.drained + 1))
      .(sink := Sink.Next(s.sink, Sink.Step.Drain(kind, key)))
  }

  function LoadStep(s: State, c: nat): State
    requires c in s.collections && s.collections[c].Loading? && s.collections[c].drained < |DRAIN_ORDER|
  {
    var kind := DRAIN_ORDER[s.collections[c].drained];
    if kind in s.sink.pipes then DrainStep(s, c, kind, BucketOf(kind, s.collections[c].id)) else s
  }

  function GetStep(config: Config, s: State, c: nat, ok: bool): State
    requires c in s.collections && s.collections[c].Built?
  {
    var col := s.collections[c];
    var key := KeyOf(config, col.id);
    if !ok || key !in s.store.objects then
      SetCollection(s, c, Absent(col.id, col.attached, col.events, col.mounts))
    else if IsFinal(s.store.objects[key]) then
      SetCollection(s, c, Finished(col.id))
    else
      SetCollection(s, c, Found(col.id, col.attached, col.events, col.mounts, s.store.objects[key], false))
  }

  function UpdateStep(config: Config, s: State, c: nat, outcome: Outcome, bump: bool, mounts: seq<string>): State
    requires c in s.collections && s.collections[c].Found?
  {
    var col := s.collections[c];
    var key := KeyOf(config, col.id);
    var merged := MergeContainers(config, mounts, col.snapshot.containers, Fresh(config, col));
    if outcome.Unsent? || !UpdateAccepted(s.store, key, col.snapshot.version) then SetCollection(s, c, Rejected(col.id))
    else
      SetCollection(s, c, if outcome.Answered? then Finished(col.id) else Rejected(col.id))
        .(store := Update(s.store, key, col.snapshot.version, LabelsForUpdate(col), merged, bump))
  }

  /** One atomic step; a step that is not enabled changes nothing. */
  function Next(config: Config, s: State, step: Step): State {
    match step
    case SinkStep(step) => if step.Drain? then s else s.(sink := Sink.Next(s.sink, step))
    case Begin(c, id, attached) =>
      if c in s.collections then s else SetCollection(s, c, Loading(id, attached, NO_EVENTS, 0))
    case Load(c) =>
      if c in s.collections && s.collections[c].Loading? && s.collections[c].drained < |DRAIN_ORDER| then LoadStep(s, c)
      else s
    case Build(c, syscalls, mounts) =>
      if c in s.collections && s.collections[c].Loading? && s.collections[c].drained == |DRAIN_ORDER| then
        var col := s.collections[c];
        var events := col.events.(syscallEvents := syscalls);
        if ShouldProcess(events) then SetCollection(s, c, Built(col.id, col.attached, events, mounts))
        else SetCollection(s, c, Finished(col.id))
      else s
    case Get(c, ok) =>
      if c in s.collections && s.collections[c].Built? then GetStep(config, s, c, ok) else s
    case CreateProfile(c, ok) =>
      if c in s.collections && s.collections[c].Absent? then
        var col := s.collections[c];
        var created := Create(s.store, KeyOf(config, col.id), LabelsForCreate(config, col), [Fresh(config, col)]);
        SetCollection(s, c, Finished(col.id)).(store := if ok then created else s.store)
      else s
    case MarkFailed(c, ok, bump) =>
      if c in s.collections && s.collections[c].Found? && !s.collections[c].marked
          && OverOpenLimit(config, s.collections[c]) then
        var col := s.collections[c];
        SetCollection(s, c, col.(marked := true))
          .(store := if ok then PatchLabel(s.store, KeyOf(config, col.id), FAILED, bump) else s.store)
      else s
    case UpdateProfile(c, outcome, bump, mounts) =>
      if && c in s.collections && s.collections[c].Found?
         && (s.collections[c].marked || !OverOpenLimit(config, s.collections[c])) then
        UpdateStep(config, s, c, outcome, bump, mounts)
      else s
    case MarkRejected(c, ok, bump) =>
      if c in s.collections && s.collections[c].Rejected? then
        var id := s.collections[c].id;
        SetCollection(s, c, Finished(id))
          .(store := if ok then PatchLabel(s.store, KeyOf(config, id), FAILED, bump) else s.store)
      else s
    case Finalize(key, ok, bump) =>
      if ok then s.(store := PatchLabel(s.store, key, FINAL, bump)) else s
    case DeleteProfile(key) => s.(store := Delete(s.store, key))
  }

  function Start(filterEvents: bool): State {
    State(Sink.Start(filterEvents), Store(0, map[]), map[])
  }

  /** The state after an interleaving. */
  function After(config: Config, filterEvents: bool, steps: seq<Step>): State {
    if steps == [] then Start(filterEvents)
    else Next(config, After(config, filterEvents, steps[..|steps| - 1]), steps[|steps| - 1])
  }

  /** The state some steps later. */
  function Continue(config: Config, s: State, steps: seq<Step>): State {
    if steps == [] then s else Next(config, Continue(config, s, steps[..|steps| - 1]), steps[|steps| - 1])
  }

  lemma ContinueSnoc(config: Config, s: State, steps: seq<Step>, last: Step)
    ensures Continue(config, s, steps + [last]) == Next(config, Continue(config, s, steps), last)
  {
    hide Next;
    assert (steps + [last])[..|steps|] == steps;
  }

  lemma {:induction false} ContinueConcat(config: Config, s: State, steps: seq<Step>, rest: seq<Step>)
    ensures Continue(config, s, steps + rest) == Continue(config, Continue(config, s, steps), rest)
  {
    hide Next;
    if rest == [] {
      assert steps + rest == steps;
    } else {
      ContinueConcat(config, s, steps, rest[..|rest| - 1]);
      assert (steps + rest)[..|steps + rest| - 1] == steps + rest[..|rest| - 1];
    }
  }

  lemma {:induction false} AfterIsContinue(config: Config, filterEvents: bool, steps: seq<Step>)
    ensures After(config, filterEvents, steps) == Continue(config, Start(filterEvents), steps)
  {
    hide Next;
    if steps != [] {
      AfterIsContinue(config, filterEvents, steps[..|steps| - 1]);
    }
  }

  /** Every step acts on the sink as one sink step or not at all. */
  lemma SinkMovesBySteps(config: Config, s: State, step: Step)
    ensures Next(config, s, step).sink == s.sink
         || exists t :: Next(config, s, step).sink == Sink.Next(s.sink, t)
  {
  }

  lemma {:induction false} SinkStaysOk(config: Config, filterEvents: bool, steps: seq<Step>)
    ensures Sink.SinkOk(After(config, filterEvents, steps).sink)
  {
    if steps == [] {
      Sink.PipelineConserves(filterEvents, []);
    } else {
      var s := After(config, filterEvents, steps[..|steps| - 1]);
      SinkStaysOk(config, filterEvents, steps[..|steps| - 1]);
      SinkMovesBySteps(config, s, steps[|steps| - 1]);
      if Next(config, s, steps[|steps| - 1]).sink != s.sink {
        var t :| Next(config, s, steps[|steps| - 1]).sink == Sink.Next(s.sink, t);
        Sink.NextKeepsOk(s.sink, t);
      }
    }
  }
}
