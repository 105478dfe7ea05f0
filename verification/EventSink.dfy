/**
 The event sink: filter, bounded channel, worker and keyed buckets, one pipeline per event type.
 The steps are functions of a value state; the class's methods are proved to perform them, and the
 conservation law is proved over every interleaving of steps.
 */
module EventSink {
  import opened Sequences
  import opened ProfileTypes
  import DB = InMemoryMapDB

  const CHANNEL_CAPACITY: nat := 10000

  datatype Filter = Filter(eventType: EventType, containerID: string)

  // ---------- Filters ----------

  /** Index of the first filter that `RemoveFilter` would take, or the length of the list. */
  function FindRemovable(filters: seq<Filter>, filter: Filter): (i: nat)
    ensures i <= |filters|
    ensures i < |filters| ==> Removes(filter, filters[i])
    ensures forall j :: 0 <= j < i ==> !Removes(filter, filters[j])
  {
    if filters == [] then 0
    else if Removes(filter, filters[0]) then 0
    else 1 + FindRemovable(filters[1..], filter)
  }

  predicate Removes(filter: Filter, f: Filter) {
    f.containerID == filter.containerID && (f.eventType == filter.eventType || filter.eventType == AllEventType)
  }

  function Added(filters: seq<Filter>, filter: Filter): seq<Filter> {
    if filter in filters then filters else filters + [filter]
  }

  function Removed(filters: seq<Filter>, filter: Filter): seq<Filter> {
    var i := FindRemovable(filters, filter);
    if i == |filters| then filters else filters[..i] + filters[i + 1..]
  }

  predicate Matches(f: Filter, e: SinkEvent) {
    f.containerID == e.General().containerID && (f.eventType == AllEventType || f.eventType == e.Kind())
  }

  predicate Passes(filterEvents: bool, filters: seq<Filter>, e: SinkEvent) {
    !filterEvents || exists i :: 0 <= i < |filters| && Matches(filters[i], e)
  }

  // ---------- The pipeline of one event type ----------

  /**
   `waiting` are events past the filter whose senders have not got into the channel yet, `hand` is the event
   the worker holds, `accepted` and `drained` are history: what entered the channel, and what was drained by key.
   */
  datatype Pipe = Pipe(
    waiting: seq<SinkEvent>,
    channel: seq<SinkEvent>,
    hand: Option<SinkEvent>,
    db: DB.Contents<SinkEvent>,
    accepted: seq<SinkEvent>,
    drained: map<string, seq<SinkEvent>>)

  const EMPTY_PIPE: Pipe := Pipe([], [], None, map[], [], map[])

  datatype Sink = Sink(filterEvents: bool, filters: seq<Filter>, everAdded: set<Filter>, pipes: map<EventType, Pipe>)

  datatype Step =
    | AddFilter(filter: Filter)
    | RemoveFilter(filter: Filter)
    | Send(event: SinkEvent)
    | Enqueue(kind: EventType, i: nat)
    | Dequeue(kind: EventType)
    | Put(kind: EventType)
    | Drain(kind: EventType, key: string)

  function At(m: map<string, seq<SinkEvent>>, key: string): seq<SinkEvent> {
    if key in m then m[key] else []
  }

  function EnqueueIn(p: Pipe, i: nat): Pipe {
    if i < |p.waiting| && |p.channel| < CHANNEL_CAPACITY then
      p.(waiting := p.waiting[..i] + p.waiting[i + 1..],
         channel := p.channel + [p.waiting[i]],
         accepted := p.accepted + [p.waiting[i]])
    else p
  }

  function DequeueIn(p: Pipe): Pipe {
    if p.hand.None? && p.channel != [] then p.(hand := Some(p.channel[0]), channel := p.channel[1..]) else p
  }

  function PutIn(p: Pipe): Pipe {
    match p.hand
    case None => p
    case Some(e) => p.(hand := None, db := DB.Apply(p.db, DB.Op.Put(EventBucket(e), e)))
  }

  /** What a drain returns. */
  function DrainedFrom(p: Pipe, key: string): seq<SinkEvent> {
    match DB.Output(p.db, DB.Op<SinkEvent>.GetNClean(key))
    case None => []
    case Some(events) => events
  }

  function DrainIn(p: Pipe, key: string): Pipe {
    p.(db := DB.Apply(p.db, DB.Op.GetNClean(key)),
       drained := p.drained[key := At(p.drained, key) + DrainedFrom(p, key)])
  }

  /** One atomic step; a step that is not enabled changes nothing. */
  function Next(s: Sink, step: Step): Sink {
    match step
    case AddFilter(f) => s.(filters := Added(s.filters, f), everAdded := s.everAdded + {f})
    case RemoveFilter(f) => s.(filters := Removed(s.filters, f))
    case Send(e) =>
      if e.Kind() in s.pipes && Passes(s.filterEvents, s.filters, e) then
        var p := s.pipes[e.Kind()];
        s.(pipes := s.pipes[e.Kind() := p.(waiting := p.waiting + [e])])
      else s
    case Enqueue(kind, i) => if kind in s.pipes then s.(pipes := s.pipes[kind := EnqueueIn(s.pipes[kind], i)]) else s
    case Dequeue(kind) => if kind in s.pipes then s.(pipes := s.pipes[kind := DequeueIn(s.pipes[kind])]) else s
    case Put(kind) => if kind in s.pipes then s.(pipes := s.pipes[kind := PutIn(s.pipes[kind])]) else s
    case Drain(kind, key) => if kind in s.pipes then s.(pipes := s.pipes[kind := DrainIn(s.pipes[kind], key)]) else s
  }

  function Start(filterEvents: bool): Sink {
    Sink(filterEvents, [], {}, map kind: EventType | IsStored(kind) :: EMPTY_PIPE)
  }

  function After(filterEvents: bool, steps: seq<Step>): Sink {
    if steps == [] then Start(filterEvents) else Next(After(filterEvents, steps[..|steps| - 1]), steps[|steps| - 1])
  }

  // ---------- What the filters let through ----------

  /** A filter for the container that covers the event's type. */
  predicate FilteredFor(filters: seq<Filter>, e: SinkEvent) {
    Filter(AllEventType, e.General().containerID) in filters || Filter(e.Kind(), e.General().containerID) in filters
  }

  lemma PassesIff(filters: seq<Filter>, e: SinkEvent)
    ensures Passes(true, filters, e) <==> FilteredFor(filters, e)
  {
    if FilteredFor(filters, e) {
      var all := Filter(AllEventType, e.General().containerID);
      var f := if all in filters then all else Filter(e.Kind(), e.General().containerID);
      var i :| 0 <= i < |filters| && filters[i] == f;
      assert Matches(filters[i], e);
    }
    if i :| 0 <= i < |filters| && Matches(filters[i], e) {
      assert filters[i] in filters;
    }
  }

  /** An event is appended to the waiting ones exactly if the sink does not filter or has a filter for it. */
  lemma SendEffect(s: Sink, e: SinkEvent)
    requires e.Kind() in s.pipes
    ensures var t := Next(s, Step.Send(e));
            if !s.filterEvents || FilteredFor(s.filters, e) then
              && t.pipes[e.Kind()] == s.pipes[e.Kind()].(waiting := s.pipes[e.Kind()].waiting + [e])
              && t == s.(pipes := s.pipes[e.Kind() := t.pipes[e.Kind()]])
            else t == s
  {
    hide Matches, FilteredFor;
    PassesIff(s.filters, e);
  }

  /** An event that enters the channel stops waiting; the others go on waiting in order. */
  lemma EnterEffect(p: Pipe, i: nat)
    requires i < |p.waiting| && |p.channel| < 10000
    ensures var q := EnqueueIn(p, i);
            && q.channel == p.channel + [p.waiting[i]] && q.accepted == p.accepted + [p.waiting[i]]
            && |q.waiting| == |p.waiting| - 1
            && (forall j :: 0 <= j < |q.waiting| ==> q.waiting[j] == p.waiting[if j < i then j else j + 1])
            && q.hand == p.hand && q.db == p.db && q.drained == p.drained
  {
  }

  /** Adding keeps what is there and leaves every filter once. */
  lemma AddedEffect(filters: seq<Filter>, filter: Filter)
    ensures filters <= Added(filters, filter) && filter in Added(filters, filter)
    ensures |Added(filters, filter)| == |filters| + if filter in filters then 0 else 1
  {
  }

  /** Removing takes out the first filter of that container, of that type or of any if all types are asked for. */
  lemma RemovedEffect(filters: seq<Filter>, filter: Filter, i: nat)
    requires i < |filters|
    requires forall j :: 0 <= j <= i ==>
               (j == i <==> filters[j].containerID == filter.containerID
                            && (filter.eventType == AllEventType || filters[j].eventType == filter.eventType))
    ensures Removed(filters, filter) == filters[..i] + filters[i + 1..]
  {
    assert Removes(filter, filters[i]);
    assert FindRemovable(filters, filter) == i;
  }

  lemma NothingRemoved(filters: seq<Filter>, filter: Filter)
    requires forall j :: 0 <= j < |filters| ==>
               filters[j].containerID != filter.containerID
               || (filter.eventType != AllEventType && filters[j].eventType != filter.eventType)
    ensures Removed(filters, filter) == filters
  {
  }

  // ---------- Bucket keys ----------

  /** Without dashes in namespaces and pod names, different types and containers have different buckets. */
  lemma BucketKeysDiffer(
    kind: EventType, namespace: string, podName: string, container: string,
    kind': EventType, namespace': string, podName': string, container': string)
    requires IsStored(kind) && IsStored(kind')
    requires '-' !in namespace && '-' !in namespace' && '-' !in podName && '-' !in podName'
    requires BucketKey(kind, namespace, podName, container) == BucketKey(kind', namespace', podName', container')
    ensures kind == kind' && namespace == namespace' && podName == podName' && container == container'
  {
    var prefix, prefix' := Prefix(kind), Prefix(kind');
    var rest, rest' := namespace + "-" + (podName + "-" + container), namespace' + "-" + (podName' + "-" + container');
    assert BucketKey(kind, namespace, podName, container) == prefix + "-" + rest;
    assert BucketKey(kind', namespace', podName', container') == prefix' + "-" + rest';
    DashSplits(prefix, rest, prefix', rest');
    DashSplits(namespace, podName + "-" + container, namespace', podName' + "-" + container');
    DashSplits(podName, container, podName', container');
  }

  function Prefix(kind: EventType): (prefix: string)
    ensures '-' !in prefix
  {
    match kind
    case ExecveEventType => "execve"
    case OpenEventType => "open"
    case CapabilitiesEventType => "capabilities"
    case DnsEventType => "dns"
    case _ => "network"
  }

  /** With dashes two pods can share a bucket. */
  lemma DashesCollide(kind: EventType, container: string)
    ensures BucketKey(kind, "a-b", "c", container) == BucketKey(kind, "a", "b-c", container)
  {
    assert "a-b" + "-" + "c" == "a" + "-" + "b-c";
  }

  // ---------- Conservation ----------

  /** The events of `xs` that belong under `key`, in order. */
  function InBucket(xs: seq<SinkEvent>, key: string): seq<SinkEvent> {
    if xs == [] then []
    else
      var rest := InBucket(xs[..|xs| - 1], key);
      if EventBucket(xs[|xs| - 1]) == key then rest + [xs[|xs| - 1]] else rest
  }

  lemma {:induction false} InBucketConcat(xs: seq<SinkEvent>, ys: seq<SinkEvent>, key: string)
    ensures InBucket(xs + ys, key) == InBucket(xs, key) + InBucket(ys, key)
  {
    if ys == [] {
      assert xs + ys == xs;
    } else {
      InBucketConcat(xs, ys[..|ys| - 1], key);
      assert (xs + ys)[..|xs + ys| - 1] == xs + ys[..|ys| - 1];
    }
  }

  lemma {:induction false} InBucketMembers(xs: seq<SinkEvent>, key: string)
    ensures forall e :: e in InBucket(xs, key) <==> e in xs && EventBucket(e) == key
  {
    if xs != [] {
      InBucketMembers(xs[..|xs| - 1], key);
    }
  }

  function InHand(p: Pipe): seq<SinkEvent> {
    if p.hand.Some? then [p.hand.value] else []
  }

  /** Accepted events under a key are, in order: drained, stored, in the worker's hand, in the channel. */
  ghost predicate Conserves(p: Pipe, key: string) {
    InBucket(p.accepted, key)
    == At(p.drained, key) + At(p.db, key) + InBucket(InHand(p), key) + InBucket(p.channel, key)
  }

  ghost predicate PipeOk(p: Pipe) {
    && |p.channel| <= CHANNEL_CAPACITY
    && forall key :: Conserves(p, key)
  }

  /** An event moves from the head of the channel to the hand. */
  lemma DequeuedConserves(p: Pipe, key: string)
    requires Conserves(p, key) && p.hand.None? && p.channel != []
    ensures Conserves(DequeueIn(p), key)
  {
    hide EventBucket, InBucket;
    NoneInBucket(key);
    assert InHand(p) == [];
    var head, tail := [p.channel[0]], p.channel[1..];
    assert head + tail == p.channel;
    InBucketConcat(head, tail, key);
    assert InHand(DequeueIn(p)) == head;
  }

  /** A waiting event enters the channel and the record of accepted events at the same time. */
  lemma EnqueuedConserves(p: Pipe, i: nat, key: string)
    requires Conserves(p, key) && i < |p.waiting| && |p.channel| < CHANNEL_CAPACITY
    ensures Conserves(EnqueueIn(p, i), key)
  {
    hide EventBucket, InBucket;
    InBucketConcat(p.accepted, [p.waiting[i]], key);
    InBucketConcat(p.channel, [p.waiting[i]], key);
  }

  lemma EnqueueConserves(p: Pipe, i: nat)
    requires PipeOk(p)
    ensures PipeOk(EnqueueIn(p, i))
  {
    hide Conserves;
    if i < |p.waiting| && |p.channel| < CHANNEL_CAPACITY {
      forall key
        ensures Conserves(EnqueueIn(p, i), key)
      {
        EnqueuedConserves(p, i, key);
      }
    }
  }

  lemma DequeueConserves(p: Pipe)
    requires PipeOk(p)
    ensures PipeOk(DequeueIn(p))
  {
    hide Conserves;
    if p.hand.None? && p.channel != [] {
      forall key
        ensures Conserves(DequeueIn(p), key)
      {
        DequeuedConserves(p, key);
      }
    }
  }

  /** The event in the hand moves to the end of its bucket. */
  lemma PuttingConserves(p: Pipe, e: SinkEvent, key: string)
    requires Conserves(p, key) && p.hand == Some(e)
    ensures Conserves(PutIn(p), key)
  {
    hide EventBucket, InBucket;
    var q := PutIn(p);
    OneInBucket(e, key);
    assert At(q.db, key) == At(p.db, key) + InBucket([e], key);
    assert InHand(p) == [e] && InHand(q) == [];
    NoneInBucket(key);
  }

  lemma OneInBucket(e: SinkEvent, key: string)
    ensures InBucket([e], key) == if EventBucket(e) == key then [e] else []
  {
    assert [e][..0] == [];
  }

  lemma NoneInBucket(key: string)
    ensures InBucket([], key) == []
  {
  }

  lemma PutConserves(p: Pipe)
    requires PipeOk(p)
    ensures PipeOk(PutIn(p))
  {
    hide Conserves, EventBucket;
    if p.hand.Some? {
      forall key
        ensures Conserves(PutIn(p), key)
      {
        PuttingConserves(p, p.hand.value, key);
      }
    }
  }

  /** The stored bucket moves to the end of the drained events. */
  lemma DrainedConserves(p: Pipe, drain: string, key: string)
    requires Conserves(p, key)
    ensures Conserves(DrainIn(p, drain), key)
  {
    hide EventBucket, InBucket;
    var q := DrainIn(p, drain);
    assert At(q.drained, key) + At(q.db, key) == At(p.drained, key) + At(p.db, key);
  }

  lemma DrainConserves(p: Pipe, drain: string)
    requires PipeOk(p)
    ensures PipeOk(DrainIn(p, drain))
  {
    hide Conserves;
    forall key
      ensures Conserves(DrainIn(p, drain), key)
    {
      DrainedConserves(p, drain, key);
    }
  }

  /** The event is of this type and, if the sink filters, matches a filter that was added at some time. */
  ghost predicate WasAdmitted(filterEvents: bool, everAdded: set<Filter>, kind: EventType, e: SinkEvent) {
    e.Kind() == kind && (filterEvents ==> exists f :: f in everAdded && Matches(f, e))
  }

  ghost predicate PipeAdmitted(filterEvents: bool, everAdded: set<Filter>, kind: EventType, p: Pipe) {
    && (forall e :: e in p.waiting ==> WasAdmitted(filterEvents, everAdded, kind, e))
    && (forall e :: e in p.accepted ==> WasAdmitted(filterEvents, everAdded, kind, e))
  }

  ghost predicate SinkOk(s: Sink) {
    && (forall kind :: kind in s.pipes <==> IsStored(kind))
    && (forall kind :: kind in s.pipes ==> PipeOk(s.pipes[kind]))
    && (forall kind :: kind in s.pipes ==> PipeAdmitted(s.filterEvents, s.everAdded, kind, s.pipes[kind]))
    && (forall f :: f in s.filters ==> f in s.everAdded)
  }

  /** Replacing one pipe by a sound one keeps the sink sound. */
  lemma ReplacePipe(s: Sink, kind: EventType, p: Pipe)
    requires SinkOk(s) && kind in s.pipes
    requires PipeOk(p) && PipeAdmitted(s.filterEvents, s.everAdded, kind, p)
    ensures SinkOk(s.(pipes := s.pipes[kind := p]))
  {
  }

  lemma SendKeepsOk(s: Sink, e: SinkEvent)
    requires SinkOk(s)
    ensures SinkOk(Next(s, Step.Send(e)))
  {
    if e.Kind() in s.pipes && Passes(s.filterEvents, s.filters, e) {
      var p := s.pipes[e.Kind()];
      var p' := p.(waiting := p.waiting + [e]);
      assert forall key :: Conserves(p, key) ==> Conserves(p', key);
      assert WasAdmitted(s.filterEvents, s.everAdded, e.Kind(), e) by {
        if s.filterEvents {
          var i :| 0 <= i < |s.filters| && Matches(s.filters[i], e);
          assert s.filters[i] in s.everAdded;
        }
      }
      ReplacePipe(s, e.Kind(), p');
    }
  }

  lemma FilterStepKeepsOk(s: Sink, filters: seq<Filter>, everAdded: set<Filter>)
    requires SinkOk(s) && s.everAdded <= everAdded && forall f :: f in filters ==> f in everAdded
    ensures SinkOk(s.(filters := filters, everAdded := everAdded))
  {
    forall kind | kind in s.pipes
      ensures PipeAdmitted(s.filterEvents, everAdded, kind, s.pipes[kind])
    {
      assert forall e ::
        WasAdmitted(s.filterEvents, s.everAdded, kind, e) ==> WasAdmitted(s.filterEvents, everAdded, kind, e);
    }
  }

  lemma NextKeepsOk(s: Sink, step: Step)
    requires SinkOk(s)
    ensures SinkOk(Next(s, step))
  {
    match step {
      case AddFilter(f) =>
        FilterStepKeepsOk(s, Added(s.filters, f), s.everAdded + {f});
      case RemoveFilter(f) =>
        FilterStepKeepsOk(s, Removed(s.filters, f), s.everAdded);
      case Send(e) =>
        SendKeepsOk(s, e);
      case Enqueue(kind, i) =>
        if kind in s.pipes {
          EnqueueConserves(s.pipes[kind], i);
          ReplacePipe(s, kind, EnqueueIn(s.pipes[kind], i));
        }
      case Dequeue(kind) =>
        if kind in s.pipes {
          DequeueConserves(s.pipes[kind]);
          ReplacePipe(s, kind, DequeueIn(s.pipes[kind]));
        }
      case Put(kind) =>
        if kind in s.pipes {
          PutConserves(s.pipes[kind]);
          ReplacePipe(s, kind, PutIn(s.pipes[kind]));
        }
      case Drain(kind, key) =>
        if kind in s.pipes {
          DrainConserves(s.pipes[kind], key);
          ReplacePipe(s, kind, DrainIn(s.pipes[kind], key));
        }
    }
  }

  /** In every interleaving nothing accepted is lost, duplicated or reordered, and no channel overflows. */
  lemma {:induction false} PipelineConserves(filterEvents: bool, steps: seq<Step>)
    ensures SinkOk(After(filterEvents, steps))
  {
    if steps == [] {
      assert forall key :: Conserves(EMPTY_PIPE, key);
    } else {
      PipelineConserves(filterEvents, steps[..|steps| - 1]);
      NextKeepsOk(After(filterEvents, steps[..|steps| - 1]), steps[|steps| - 1]);
    }
  }

  /** No channel ever holds more than 10000 events, and while one holds fewer a waiting sender gets in. */
  lemma {:induction false} ChannelsAreBounded(filterEvents: bool, steps: seq<Step>, kind: EventType, i: nat)
    requires IsStored(kind)
    ensures var s := After(filterEvents, steps);
            && kind in s.pipes && |s.pipes[kind].channel| <= 10000
            && (i < |s.pipes[kind].waiting| && |s.pipes[kind].channel| < 10000 ==>
                  Next(s, Step.Enqueue(kind, i)).pipes[kind].channel
                  == s.pipes[kind].channel + [s.pipes[kind].waiting[i]])
  {
    hide After, Conserves, WasAdmitted;
    PipelineConserves(filterEvents, steps);
  }

  /** Whatever a drain returns was accepted, has the drained type, and belongs under the drained key. */
  lemma DrainedWasAccepted(s: Sink, kind: EventType, key: string, e: SinkEvent)
    requires SinkOk(s) && kind in s.pipes && e in DrainedFrom(s.pipes[kind], key)
    ensures e in s.pipes[kind].accepted && e.Kind() == kind && EventBucket(e) == key
  {
    var p := s.pipes[kind];
    assert Conserves(p, key);
    InBucketMembers(p.accepted, key);
    assert e in At(p.db, key);
    assert e in InBucket(p.accepted, key);
  }

  // ---------- The class ----------

  /** What is really kept for one event type: a pipe without its history. */
  datatype Buffer = Buffer(
    waiting: seq<SinkEvent>,
    channel: seq<SinkEvent>,
    hand: Option<SinkEvent>,
    db: DB.Contents<SinkEvent>)

  function BufferOf(p: Pipe): Buffer { Buffer(p.waiting, p.channel, p.hand, p.db) }

  class EventSink {
    const filterEvents: bool
    var eventFilters: seq<Filter>
    var buffers: map<EventType, Buffer>
    /** The filters and buffers together with their history. */
    ghost var sink: Sink

    ghost predicate Valid()
      reads this
    {
      && sink.filterEvents == filterEvents
      && sink.filters == eventFilters
      && buffers.Keys == sink.pipes.Keys
      && forall kind :: kind in buffers ==> buffers[kind] == BufferOf(sink.pipes[kind])
    }

    constructor (filterEvents: bool)
      ensures Valid() && sink == Start(filterEvents)
    {
      this.filterEvents := filterEvents;
      eventFilters := [];
      buffers := map kind: EventType | IsStored(kind) :: Buffer([], [], None, map[]);
      sink := Start(filterEvents);
    }

    method AddFilter(filter: Filter)
      requires Valid()
      modifies this
      ensures Valid() && sink == Next(old(sink), Step.AddFilter(filter))
    {
      sink := Next(sink, Step.AddFilter(filter));
      for i := 0 to |eventFilters|
        invariant eventFilters == old(eventFilters) && buffers == old(buffers)
        invariant sink == Next(old(sink), Step.AddFilter(filter))
        invariant forall k :: 0 <= k < i ==> eventFilters[k] != filter
      {
        if eventFilters[i].eventType == filter.eventType && eventFilters[i].containerID == filter.containerID {
          return;
        }
      }
      eventFilters := eventFilters + [filter];
    }

    method RemoveFilter(filter: Filter)
      requires Valid()
      modifies this
      ensures Valid() && sink == Next(old(sink), Step.RemoveFilter(filter))
    {
      sink := Next(sink, Step.RemoveFilter(filter));
      for i := 0 to |eventFilters|
        invariant eventFilters == old(eventFilters) && buffers == old(buffers)
        invariant sink == Next(old(sink), Step.RemoveFilter(filter))
        invariant forall k :: 0 <= k < i ==> !Removes(filter, eventFilters[k])
      {
        var f := eventFilters[i];
        if f.containerID == filter.containerID
            && (f.eventType == filter.eventType || filter.eventType == AllEventType) {
          assert FindRemovable(eventFilters, filter) == i;
          eventFilters := eventFilters[..i] + eventFilters[i + 1..];
          return;
        }
      }
    }

    /** The filter test of the five Send methods. */
    method SendEvent(event: SinkEvent)
      requires Valid() && event.Kind() in buffers
      modifies this
      ensures Valid() && sink == Next(old(sink), Step.Send(event))
    {
      var kind := event.Kind();
      sink := Next(sink, Step.Send(event));
      if !filterEvents {
        buffers := buffers[kind := buffers[kind].(waiting := buffers[kind].waiting + [event])];
        return;
      }
      for i := 0 to |eventFilters|
        invariant eventFilters == old(eventFilters) && buffers == old(buffers)
        invariant sink == Next(old(sink), Step.Send(event))
        invariant forall k :: 0 <= k < i ==> !Matches(eventFilters[k], event)
      {
        var filter := eventFilters[i];
        if filter.containerID == event.General().containerID
           && (filter.eventType == AllEventType || filter.eventType == kind) {
          assert Matches(eventFilters[i], event);
          buffers := buffers[kind := buffers[kind].(waiting := buffers[kind].waiting + [event])];
          return;
        }
      }
    }

    /** A blocked sender gets into the channel. */
    method EnterChannel(kind: EventType, i: nat)
      requires Valid() && kind in buffers
      requires i < |buffers[kind].waiting| && |buffers[kind].channel| < CHANNEL_CAPACITY
      modifies this`buffers, this`sink
      ensures Valid() && sink == Next(old(sink), Step.Enqueue(kind, i))
    {
      var b := buffers[kind];
      var event := b.waiting[i];
      b := b.(waiting := b.waiting[..i] + b.waiting[i + 1..]);
      b := b.(channel := b.channel + [event]);
      buffers := buffers[kind := b];
      sink := Next(sink, Step.Enqueue(kind, i));
    }

    /** One turn of a worker: receive, then put under the event's bucket. */
    method WorkerTurn(kind: EventType)
      requires Valid() && kind in buffers && buffers[kind].hand.None? && buffers[kind].channel != []
      modifies this`buffers, this`sink
      ensures Valid() && sink == Next(Next(old(sink), Step.Dequeue(kind)), Step.Put(kind))
    {
      var event := buffers[kind].channel[0];
      var general := event.General();
      var bucket := BucketKey(event.Kind(), general.namespace, general.podName, general.containerName);
      buffers := buffers[kind := buffers[kind].(channel := buffers[kind].channel[1..])];
      buffers := buffers[kind := buffers[kind].(db := DB.Apply(buffers[kind].db, DB.Op.Put(bucket, event)))];
      sink := Next(Next(sink, Step.Dequeue(kind)), Step.Put(kind));
    }

    /** The five Get methods. */
    method GetEvents(kind: EventType, namespace: string, podName: string, container: string)
      returns (events: seq<SinkEvent>)
      requires Valid() && kind in buffers
      modifies this`buffers, this`sink
      ensures var key := BucketKey(kind, namespace, podName, container);
              && Valid() && sink == Next(old(sink), Step.Drain(kind, key))
              && events == DrainedFrom(old(sink).pipes[kind], key)
    {
      var key := BucketKey(kind, namespace, podName, container);
      events := if key in buffers[kind].db then buffers[kind].db[key] else [];
      buffers := buffers[kind := buffers[kind].(db := DB.Apply(buffers[kind].db, DB.Op.GetNClean(key)))];
      sink := Next(sink, Step.Drain(kind, key));
    }
  }
}
