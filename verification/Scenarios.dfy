/**
 Concrete runs of the recording protocol, from the start: an over-limit collection whose merge is lost to its own
 failed mark, and an attached recording whose profile loses its namespace label.
 */
module Scenarios {
  import opened Sequences
  import opened ProfileTypes
  import opened ProfileAlgebra
  import opened ObjectStore
  import opened RecordingProtocol
  import opened IncrementalMerge
  import opened ProfileInvariants
  import Finality
  import StepEffects
  import Sink = EventSink

  // ---------- A quiet sink ----------

  function Wrapped(opens: seq<OpenEvent>): seq<SinkEvent> {
    if opens == [] then [] else Wrapped(opens[..|opens| - 1]) + [Open(opens[|opens| - 1])]
  }

  ghost predicate Quiet(p: Sink.Pipe) {
    p.waiting == [] && p.channel == [] && p.hand.None?
  }

  /** Nothing is under way, and the buckets of `id` hold these opens and nothing else. */
  ghost predicate Holds(sink: Sink.Sink, id: ContainerId, opens: seq<OpenEvent>) {
    && !sink.filterEvents
    && (forall kind :: kind in sink.pipes <==> IsStored(kind))
    && (forall kind :: kind in sink.pipes ==> Quiet(sink.pipes[kind]))
    && (forall kind :: kind in sink.pipes ==>
          Sink.DrainedFrom(sink.pipes[kind], BucketOf(kind, id))
          == if kind == OpenEventType then Wrapped(opens) else [])
  }

  // ---------- Sending events ----------

  function FeedOne(e: OpenEvent): seq<Step> {
    [SinkStep(Sink.Step.Send(Open(e))), SinkStep(Sink.Step.Enqueue(OpenEventType, 0)),
     SinkStep(Sink.Step.Dequeue(OpenEventType)), SinkStep(Sink.Step.Put(OpenEventType))]
  }

  function Feed(events: seq<OpenEvent>): seq<Step> {
    if events == [] then [] else Feed(events[..|events| - 1]) + FeedOne(events[|events| - 1])
  }

  lemma FourSteps(config: Config, s: State, a: Step, b: Step, c: Step, d: Step)
    ensures Continue(config, s, [a, b, c, d]) == Next(config, Next(config, Next(config, Next(config, s, a), b), c), d)
  {
    hide Next;
    ContinueSnoc(config, s, [], a);
    ContinueSnoc(config, s, [a], b);
    ContinueSnoc(config, s, [a, b], c);
    ContinueSnoc(config, s, [a, b, c], d);
    assert [] + [a] == [a] && [a] + [b] == [a, b] && [a, b] + [c] == [a, b, c] && [a, b, c] + [d] == [a, b, c, d];
  }

  /** The pipe after one event went all the way. */
  function Stored(p: Sink.Pipe, e: OpenEvent): Sink.Pipe {
    Sink.PutIn(Sink.DequeueIn(Sink.EnqueueIn(p.(waiting := p.waiting + [Open(e)]), 0)))
  }

  lemma SinkAfterFeedOne(config: Config, s: State, e: OpenEvent)
    requires !s.sink.filterEvents && OpenEventType in s.sink.pipes
    ensures Continue(config, s, FeedOne(e))
         == s.(sink := s.sink.(pipes := s.sink.pipes[OpenEventType := Stored(s.sink.pipes[OpenEventType], e)]))
  {
    hide Sink.EnqueueIn, Sink.DequeueIn, Sink.PutIn;
    FourSteps(config, s, SinkStep(Sink.Step.Send(Open(e))), SinkStep(Sink.Step.Enqueue(OpenEventType, 0)),
              SinkStep(Sink.Step.Dequeue(OpenEventType)), SinkStep(Sink.Step.Put(OpenEventType)));
  }

  lemma StoredIsDrained(p: Sink.Pipe, e: OpenEvent, key: string)
    requires Quiet(p) && EventBucket(Open(e)) == key
    ensures Quiet(Stored(p, e))
    ensures Sink.DrainedFrom(Stored(p, e), key) == Sink.DrainedFrom(p, key) + [Open(e)]
  {
    hide EventBucket;
    assert p.waiting + [Open(e)] == [Open(e)] && p.channel + [Open(e)] == [Open(e)];
  }

  /** Replacing one pipe by a quiet one. */
  lemma ReplacePipe(
    sink: Sink.Sink, id: ContainerId, opens: seq<OpenEvent>, opens': seq<OpenEvent>, kind: EventType, p: Sink.Pipe)
    requires Holds(sink, id, opens) && kind in sink.pipes && Quiet(p) && (kind != OpenEventType ==> opens' == opens)
    requires Sink.DrainedFrom(p, BucketOf(kind, id)) == if kind == OpenEventType then Wrapped(opens') else []
    ensures Holds(sink.(pipes := sink.pipes[kind := p]), id, opens')
  {
    hide BucketOf, Sink.DrainedFrom, Wrapped, Quiet;
  }

  lemma FeedOneHolds(config: Config, s: State, id: ContainerId, opens: seq<OpenEvent>, e: OpenEvent)
    requires Holds(s.sink, id, opens) && EventBucket(Open(e)) == BucketOf(OpenEventType, id)
    ensures var t := Continue(config, s, FeedOne(e));
            Holds(t.sink, id, opens + [e]) && t.store == s.store && t.collections == s.collections
  {
    hide Next, EventBucket, BucketOf, Sink.DrainedFrom, Stored, FeedOne;
    assert (opens + [e])[..|opens|] == opens;
    assert OpenEventType in s.sink.pipes;
    var p := s.sink.pipes[OpenEventType];
    SinkAfterFeedOne(config, s, e);
    StoredIsDrained(p, e, BucketOf(OpenEventType, id));
    ReplacePipe(s.sink, id, opens, opens + [e], OpenEventType, Stored(p, e));
  }

  lemma {:induction false} FeedHolds(
    config: Config, s: State, id: ContainerId, opens: seq<OpenEvent>, events: seq<OpenEvent>)
    requires Holds(s.sink, id, opens)
    requires forall e :: e in events ==> EventBucket(Open(e)) == BucketOf(OpenEventType, id)
    ensures var t := Continue(config, s, Feed(events));
            Holds(t.sink, id, opens + events) && t.store == s.store && t.collections == s.collections
  {
    hide Next, EventBucket, BucketOf, FeedOne, Holds;
    if events == [] {
      assert opens + events == opens;
    } else {
      var init, last := events[..|events| - 1], events[|events| - 1];
      assert last in events && forall e :: e in init ==> e in events;
      FeedHolds(config, s, id, opens, init);
      ContinueConcat(config, s, Feed(init), FeedOne(last));
      FeedOneHolds(config, Continue(config, s, Feed(init)), id, opens + init, last);
      assert opens + events == (opens + init) + [last];
    }
  }

  // ---------- A collection up to its Get ----------

  /** What the collection has after draining `k` buckets. */
  function Loaded(opens: seq<OpenEvent>, k: nat): TotalEvents {
    if k >= 2 then NO_EVENTS.(openEvents := opens) else NO_EVENTS
  }

  lemma {:induction false} AddWrapped(opens: seq<OpenEvent>)
    ensures AddDrained(NO_EVENTS, Wrapped(opens)) == NO_EVENTS.(openEvents := opens)
  {
    if opens != [] {
      AddWrapped(opens[..|opens| - 1]);
      assert opens == opens[..|opens| - 1] + [opens[|opens| - 1]];
    }
  }

  lemma DrainEmpties(p: Sink.Pipe, key: string)
    ensures Sink.DrainedFrom(Sink.DrainIn(p, key), key) == []
    ensures Quiet(p) ==> Quiet(Sink.DrainIn(p, key))
  {
  }

  ghost predicate LoadedUpTo(
    s: State, t: State, c: nat, id: ContainerId, attached: bool, opens: seq<OpenEvent>, k: nat)

  {
    && Holds(t.sink, id, if k >= 2 then [] else opens)
    && t.store == s.store
    && t.collections == s.collections[c := Loading(id, attached, Loaded(opens, k), k)]
  }

  lemma LoadIsDrain(config: Config, t: State, c: nat)
    requires c in t.collections && t.collections[c].Loading? && t.collections[c].drained < |DRAIN_ORDER|
    requires DRAIN_ORDER[t.collections[c].drained] in t.sink.pipes
    ensures var col := t.collections[c];
            var kind := DRAIN_ORDER[col.drained];
            var key := BucketOf(kind, col.id);
            var events := AddDrained(col.events, Sink.DrainedFrom(t.sink.pipes[kind], key));
            Next(config, t, Load(c))
            == t.(sink := t.sink.(pipes := t.sink.pipes[kind := Sink.DrainIn(t.sink.pipes[kind], key)]),
                  collections := t.collections[c := Loading(col.id, col.attached, events, col.drained + 1)])
  {
    hide BucketOf, Sink.DrainedFrom, Sink.DrainIn, AddDrained;
  }

  lemma LoadOne(
    config: Config, s: State, t: State, c: nat, id: ContainerId, attached: bool, opens: seq<OpenEvent>, k: nat)
    requires LoadedUpTo(s, t, c, id, attached, opens, k) && k < |DRAIN_ORDER|
    ensures LoadedUpTo(s, Next(config, t, Load(c)), c, id, attached, opens, k + 1)
  {
    hide Next, Holds, BucketOf, Sink.DrainedFrom, Sink.DrainIn, AddDrained, Wrapped, Quiet;
    var kind := DRAIN_ORDER[k];
    var key := BucketOf(kind, id);
    var now, later := if k >= 2 then [] else opens, if k + 1 >= 2 then [] else opens;
    BucketHolds(t.sink, id, now, kind);
    DrainEmpties(t.sink.pipes[kind], key);
    LoadIsDrain(config, t, c);
    AddWrapped(opens);
    AddNothing(Loaded(opens, k));
    WrappedNothing();
    ReplacePipe(t.sink, id, now, later, kind, Sink.DrainIn(t.sink.pipes[kind], key));
  }

  lemma BucketHolds(sink: Sink.Sink, id: ContainerId, opens: seq<OpenEvent>, kind: EventType)
    requires Holds(sink, id, opens) && IsStored(kind)
    ensures kind in sink.pipes && Quiet(sink.pipes[kind])
    ensures Sink.DrainedFrom(sink.pipes[kind], BucketOf(kind, id))
         == if kind == OpenEventType then Wrapped(opens) else []
  {
    hide BucketOf, Sink.DrainedFrom, Wrapped, Quiet;
  }

  lemma WrappedNothing()
    ensures Wrapped([]) == []
  {
  }

  lemma AddNothing(t: TotalEvents)
    ensures AddDrained(t, []) == t
  {
  }

  function CollectSteps(c: nat, id: ContainerId, attached: bool, syscalls: seq<string>): seq<Step> {
    [Begin(c, id, attached)] + [Load(c), Load(c), Load(c), Load(c)] + [Load(c), Build(c, syscalls, []), Get(c, true)]
  }

  lemma NothingLoaded(config: Config, s: State, c: nat, id: ContainerId, attached: bool, opens: seq<OpenEvent>)
    requires Holds(s.sink, id, opens) && c !in s.collections
    ensures LoadedUpTo(s, Next(config, s, Begin(c, id, attached)), c, id, attached, opens, 0)
  {
    hide Holds;
  }

  lemma LoadFive(config: Config, s: State, c: nat, id: ContainerId, attached: bool, opens: seq<OpenEvent>)
    requires Holds(s.sink, id, opens) && c !in s.collections
    ensures var t := Continue(config, Next(config, s, Begin(c, id, attached)), [Load(c), Load(c), Load(c), Load(c)]);
            LoadedUpTo(s, Next(config, t, Load(c)), c, id, attached, opens, 5)
  {
    hide Next, LoadedUpTo, Holds;
    var t0 := Next(config, s, Begin(c, id, attached));
    NothingLoaded(config, s, c, id, attached, opens);
    FourSteps(config, t0, Load(c), Load(c), Load(c), Load(c));
    var t1 := Next(config, t0, Load(c));
    var t2 := Next(config, t1, Load(c));
    var t3 := Next(config, t2, Load(c));
    LoadOne(config, s, t0, c, id, attached, opens, 0);
    LoadOne(config, s, t1, c, id, attached, opens, 1);
    LoadOne(config, s, t2, c, id, attached, opens, 2);
    LoadOne(config, s, t3, c, id, attached, opens, 3);
    LoadOne(config, s, Next(config, t3, Load(c)), c, id, attached, opens, 4);
  }

  /** Begin, five drains, build and Get: the collection has the opens and knows what is stored. */
  lemma CollectRun(
    config: Config, s: State, c: nat, id: ContainerId, attached: bool, opens: seq<OpenEvent>, syscalls: seq<string>)
    requires Holds(s.sink, id, opens) && c !in s.collections && (opens != [] || syscalls != [])
    ensures var t := Continue(config, s, CollectSteps(c, id, attached, syscalls));
            var events := NO_EVENTS.(openEvents := opens, syscallEvents := syscalls);
            var key := KeyOf(config, id);
            && Holds(t.sink, id, []) && t.store == s.store
            && t.collections.Keys == s.collections.Keys + {c}
            && (key !in s.store.objects ==> t.collections[c] == Absent(id, attached, events, []))
            && (key in s.store.objects && !IsFinal(s.store.objects[key]) ==>
                  t.collections[c] == Found(id, attached, events, [], s.store.objects[key], false))
            && (key in s.store.objects && IsFinal(s.store.objects[key]) ==> t.collections[c] == Finished(id))
  {
    hide KeyOf, Holds;
    var begin, loads := [Begin(c, id, attached)], [Load(c), Load(c), Load(c), Load(c)];
    var rest := [Load(c), Build(c, syscalls, []), Get(c, true)];
    ContinueConcat(config, s, begin + loads, rest);
    ContinueConcat(config, s, begin, loads);
    ContinueSnoc(config, s, [], Begin(c, id, attached));
    assert [] + begin == begin;
    LoadFive(config, s, c, id, attached, opens);
    var t := Continue(config, s, begin + loads);
    ThreeSteps(config, t, Load(c), Build(c, syscalls, []), Get(c, true));
    LastSteps(config, s, Next(config, t, Load(c)), c, id, attached, opens, syscalls);
  }

  lemma ThreeSteps(config: Config, s: State, a: Step, b: Step, c: Step)
    ensures Continue(config, s, [a, b, c]) == Next(config, Next(config, Next(config, s, a), b), c)
  {
    hide Next;
    ContinueSnoc(config, s, [], a);
    ContinueSnoc(config, s, [a], b);
    ContinueSnoc(config, s, [a, b], c);
    assert [] + [a] == [a] && [a] + [b] == [a, b] && [a, b] + [c] == [a, b, c];
  }

  lemma LastSteps(
    config: Config, s: State, t: State, c: nat, id: ContainerId, attached: bool, opens: seq<OpenEvent>,
    syscalls: seq<string>)
    requires LoadedUpTo(s, t, c, id, attached, opens, 5) && (opens != [] || syscalls != [])
    ensures var u := Next(config, Next(config, t, Build(c, syscalls, [])), Get(c, true));
            var events := NO_EVENTS.(openEvents := opens, syscallEvents := syscalls);
            var key := KeyOf(config, id);
            && Holds(u.sink, id, []) && u.store == s.store
            && u.collections.Keys == s.collections.Keys + {c}
            && (key !in s.store.objects ==> u.collections[c] == Absent(id, attached, events, []))
            && (key in s.store.objects && !IsFinal(s.store.objects[key]) ==>
                  u.collections[c] == Found(id, attached, events, [], s.store.objects[key], false))
            && (key in s.store.objects && IsFinal(s.store.objects[key]) ==> u.collections[c] == Finished(id))
  {
    hide KeyOf, Holds;
  }

  // ---------- The first profile ----------

  function RecordSteps(id: ContainerId, attached: bool): seq<Step> {
    CollectSteps(0, id, attached, ["read"]) + [CreateProfile(0, true)]
  }

  /** A first collection that saw one system call creates a profile. */
  lemma RecordRun(config: Config, id: ContainerId, attached: bool)
    ensures var t := Continue(config, Start(false), RecordSteps(id, attached));
            var key := KeyOf(config, id);
            && Holds(t.sink, id, []) && t.collections.Keys == {0}
            && key in t.store.objects
            && t.store.objects[key].labels
               == (if attached then map[PARTIAL := "true"] else map[])
                + (if config.storeNamespace != "" then map[NAMESPACE := id.namespace] else map[])
  {
    hide Next, KeyOf, Holds, CollectSteps, Start, CollectProfile;
    StartHolds(id);
    var collect := CollectSteps(0, id, attached, ["read"]);
    CollectRun(config, Start(false), 0, id, attached, [], ["read"]);
    ContinueSnoc(config, Start(false), collect, CreateProfile(0, true));
    CreateLabels(config, Continue(config, Start(false), collect), id);
  }

  lemma CreateLabels(config: Config, s: State, id: ContainerId)
    requires 0 in s.collections && s.collections[0].Absent? && s.collections[0].id == id
    requires s.collections[0].mounts == [] && s.collections[0].events.openEvents == []
    requires KeyOf(config, id) !in s.store.objects
    ensures var t := Next(config, s, CreateProfile(0, true));
            var key := KeyOf(config, id);
            && t.sink == s.sink && t.collections.Keys == s.collections.Keys
            && key in t.store.objects
            && t.store.objects[key].labels
               == (if s.collections[0].attached then map[PARTIAL := "true"] else map[])
                + (if config.storeNamespace != "" then map[NAMESPACE := id.namespace] else map[])
  {
    hide KeyOf, CollectOpens, CollectExecs, CollectDns, CollectIncoming, CollectOutgoing;
    NoOpensCollected(config);
    assert !OverOpenLimit(config, s.collections[0]);
  }

  lemma StartHolds(id: ContainerId)
    ensures Holds(Start(false).sink, id, []) && Start(false).store.objects == map[] && Start(false).collections == map[]
  {
  }

  lemma NoOpensCollected(config: Config)
    ensures CollectOpens(config, [], []) == []
  {
  }

  // ---------- Recorded, finalised, and left alone ----------

  /** A container is recorded, its profile is finalised, and the next interval collects again. */
  function FinalizedSteps(config: Config, id: ContainerId): seq<Step> {
    RecordSteps(id, false) + [Finalize(KeyOf(config, id), true, true)]
  }

  /** The profile becomes final, and the next collection finishes without touching the store. */
  lemma FinalizedRun(config: Config, id: ContainerId)
    ensures var s := After(config, false, FinalizedSteps(config, id));
            var t := Continue(config, s, CollectSteps(1, id, false, ["read"]));
            var key := KeyOf(config, id);
            && key in s.store.objects
            && "kapprofiler.kubescape.io/final" in s.store.objects[key].labels
            && s.store.objects[key].labels["kapprofiler.kubescape.io/final"] == "true"
            && 1 in t.collections && t.collections[1] == Finished(id) && t.store == s.store
  {
    hide Next, After, KeyOf, Holds, CollectSteps, RecordSteps, Start, StepEffects.OnlyLabelSet;
    var record, finalize := RecordSteps(id, false), Finalize(KeyOf(config, id), true, true);
    AfterIsContinue(config, false, FinalizedSteps(config, id));
    ContinueSnoc(config, Start(false), record, finalize);
    RecordRun(config, id, false);
    var r := Continue(config, Start(false), record);
    StepEffects.FinalizeEffect(config, r, KeyOf(config, id), true);
    FinalMeans(r.store, Next(config, r, finalize).store, KeyOf(config, id));
    CollectRun(config, Next(config, r, finalize), 1, id, false, [], ["read"]);
  }

  lemma FinalMeans(a: Store, b: Store, key: ProfileKey)
    requires key in a.objects && StepEffects.OnlyLabelSet(a, b, key, "kapprofiler.kubescape.io/final")
    ensures key in b.objects && "kapprofiler.kubescape.io/final" in b.objects[key].labels
    ensures b.objects[key].labels["kapprofiler.kubescape.io/final"] == "true"
  {
  }

  // ---------- The merge lost to the collection's own failed mark ----------

  const HERE: ContainerId := ContainerId("", "", "", "", 0, 0)

  /** A profile is recorded, then one interval sees as many distinct opens as the cap. */
  function OverLimitSteps(): seq<Step> {
    RecordSteps(HERE, false) + Feed(DistinctOpens(0, MAX_OPEN_EVENTS)) + CollectSteps(1, HERE, false, [])
  }

  lemma CollectedDistinct()
    ensures |CollectOpens(PLAIN, [], DistinctOpens(0, MAX_OPEN_EVENTS))| == MAX_OPEN_EVENTS
  {
    hide FullOpens, CollectOpens;
    FullDistinct(0, MAX_OPEN_EVENTS);
    BelowCapUncut(PLAIN, [], DistinctOpens(0, MAX_OPEN_EVENTS));
  }

  lemma OverLimitCollection(col: Collection)
    requires col.Found? && col.mounts == [] && col.events.openEvents == DistinctOpens(0, MAX_OPEN_EVENTS)
    ensures OverOpenLimit(PLAIN, col)
  {
    hide CollectOpens, CollectExecs, CollectDns, CollectIncoming, CollectOutgoing, DistinctOpens;
    CollectedDistinct();
  }

  lemma OverLimitRun()
    ensures var s := After(PLAIN, false, OverLimitSteps());
            && 1 in s.collections && s.collections[1].Found? && !s.collections[1].marked
            && OverOpenLimit(PLAIN, s.collections[1])
            && s.collections[1].id == HERE
            && UpdateAccepted(s.store, KeyOf(PLAIN, HERE), s.collections[1].snapshot.version)
            && s.store.objects[KeyOf(PLAIN, HERE)].labels == map[]
  {
    hide Next, KeyOf, Holds, Feed, CollectSteps, RecordSteps, DistinctOpens, Start, OverOpenLimit, EventBucket,
        BucketOf;
    var events := DistinctOpens(0, MAX_OPEN_EVENTS);
    var record, feed, collect := RecordSteps(HERE, false), Feed(events), CollectSteps(1, HERE, false, []);
    EventsGoHere(events);
    AfterIsContinue(PLAIN, false, OverLimitSteps());
    ContinueConcat(PLAIN, Start(false), record + feed, collect);
    ContinueConcat(PLAIN, Start(false), record, feed);
    RecordRun(PLAIN, HERE, false);
    var s := Continue(PLAIN, Start(false), record);
    FeedHolds(PLAIN, s, HERE, [], events);
    assert [] + events == events;
    var t := Continue(PLAIN, s, feed);
    CollectRun(PLAIN, t, 1, HERE, false, events, []);
    OverLimitCollection(Continue(PLAIN, t, collect).collections[1]);
  }

  lemma EventsGoHere(events: seq<OpenEvent>)
    requires events == DistinctOpens(0, MAX_OPEN_EVENTS)
    ensures |events| == MAX_OPEN_EVENTS
    ensures forall e :: e in events ==> EventBucket(Open(e)) == BucketOf(OpenEventType, HERE)
  {
  }

  /** Marking the profile as failed then makes its update rejected, and its opens are never stored by it. */
  lemma MergeLostRun(bump: bool, mounts: seq<string>)
    ensures var s := After(PLAIN, false, OverLimitSteps());
            var marked := Next(PLAIN, s, MarkFailed(1, true, bump));
            var updated := Next(PLAIN, marked, UpdateProfile(1, Answered, bump, mounts));
            updated.store == marked.store && updated.collections == marked.collections[1 := Rejected(HERE)]
  {
    hide OverLimitSteps, After, KeyOf, Fresh, OverOpenLimit, MergeContainers, LabelsForUpdate, Finality.VersionsOk;
    var s := After(PLAIN, false, OverLimitSteps());
    OverLimitRun();
    Finality.VersionsStayOk(PLAIN, false, OverLimitSteps());
    Finality.MarkLeavesUpdateAcceptableIff(PLAIN, s, 1, true, bump);
  }

  // ---------- The namespace label lost with the partial mark ----------

  /** Recorded first from an attached container, then seen from the start. */
  function RelabelSteps(id: ContainerId): seq<Step> {
    RecordSteps(id, true) + CollectSteps(1, id, false, ["read"]) + [UpdateProfile(1, Answered, true, [])]
  }

  lemma RelabelRun(config: Config, id: ContainerId)
    ensures var t := After(config, false, RelabelSteps(id));
            var key := KeyOf(config, id);
            key in t.store.objects && t.store.objects[key].labels == map[PARTIAL := "false"]
  {
    hide Next, KeyOf, Holds, CollectSteps, RecordSteps, Start, OverOpenLimit;
    var record, collect := RecordSteps(id, true), CollectSteps(1, id, false, ["read"]);
    var update := UpdateProfile(1, Answered, true, []);
    AfterIsContinue(config, false, RelabelSteps(id));
    ContinueSnoc(config, Start(false), record + collect, update);
    ContinueConcat(config, Start(false), record, collect);
    RecordRun(config, id, true);
    var s := Continue(config, Start(false), record);
    CollectRun(config, s, 1, id, false, [], ["read"]);
    UpdateRelabels(config, Continue(config, s, collect), id);
  }

  lemma UpdateRelabels(config: Config, s: State, id: ContainerId)
    requires 1 in s.collections && s.collections[1].Found? && s.collections[1].id == id && !s.collections[1].attached
    requires s.collections[1].mounts == [] && s.collections[1].events.openEvents == []
    requires var key := KeyOf(config, id);
             key in s.store.objects && s.collections[1].snapshot == s.store.objects[key]
             && LabelOf(s.store.objects[key], PARTIAL) == "true"
    ensures var t := Next(config, s, UpdateProfile(1, Answered, true, []));
            var key := KeyOf(config, id);
            key in t.store.objects && t.store.objects[key].labels == map[PARTIAL := "false"]
  {
    hide KeyOf, MergeContainers, CollectOpens;
    NoOpensCollected(config);
  }
}
