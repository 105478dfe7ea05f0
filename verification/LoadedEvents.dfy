/**
 Between the sink and the batch nothing is lost: in every interleaving a collection holds, type by type and in
 order, exactly what its own drains returned, and the drains under a bucket key together with what is still in
 the sink are exactly the accepted events of that key.
 */
module LoadedEvents {
  import opened Sequences
  import opened ProfileTypes
  import opened ProfileAlgebra
  import opened RecordingProtocol
  import Sink = EventSink

  // ---------- Adding what a drain returned ----------

  /** The events of one type that a collection holds, as the sink knows them. */
  function Held(t: TotalEvents, kind: EventType): seq<SinkEvent> {
    match kind
    case ExecveEventType => seq(|t.execEvents|, i requires 0 <= i < |t.execEvents| => Exec(t.execEvents[i]))
    case OpenEventType => seq(|t.openEvents|, i requires 0 <= i < |t.openEvents| => Open(t.openEvents[i]))
    case CapabilitiesEventType =>
      seq(|t.capabilitiesEvents|, i requires 0 <= i < |t.capabilitiesEvents| => Capability(t.capabilitiesEvents[i]))
    case DnsEventType => seq(|t.dnsEvents|, i requires 0 <= i < |t.dnsEvents| => Dns(t.dnsEvents[i]))
    case NetworkEventType =>
      seq(|t.networkEvents|, i requires 0 <= i < |t.networkEvents| => Network(t.networkEvents[i]))
    case _ => []
  }

  function OfKind(events: seq<SinkEvent>, kind: EventType): seq<SinkEvent> {
    if events == [] then []
    else
      var rest := OfKind(events[..|events| - 1], kind);
      if events[|events| - 1].Kind() == kind then rest + [events[|events| - 1]] else rest
  }

  /** Every drained event is appended to the events of its own type, in order. */
  lemma {:induction false} DrainIsAdded(t: TotalEvents, drained: seq<SinkEvent>, kind: EventType)
    ensures Held(AddDrained(t, drained), kind) == Held(t, kind) + OfKind(drained, kind)
    ensures AddDrained(t, drained).syscallEvents == t.syscallEvents
  {
    if drained == [] {
      assert Held(t, kind) + [] == Held(t, kind);
    } else {
      var init, last := drained[..|drained| - 1], drained[|drained| - 1];
      DrainIsAdded(t, init, kind);
      OneIsAdded(AddDrained(t, init), last, kind);
      if last.Kind() == kind {
        Associative(Held(t, kind), OfKind(init, kind), [last]);
      }
    }
  }

  lemma OneIsAdded(rest: TotalEvents, e: SinkEvent, kind: EventType)
    ensures var t := match e
                     case Exec(x) => rest.(execEvents := rest.execEvents + [x])
                     case Open(x) => rest.(openEvents := rest.openEvents + [x])
                     case Capability(x) => rest.(capabilitiesEvents := rest.capabilitiesEvents + [x])
                     case Dns(x) => rest.(dnsEvents := rest.dnsEvents + [x])
                     case Network(x) => rest.(networkEvents := rest.networkEvents + [x]);
            Held(t, kind) == if e.Kind() == kind then Held(rest, kind) + [e] else Held(rest, kind)
  {
  }

  lemma {:induction false} AllOfKind(events: seq<SinkEvent>, kind: EventType)
    requires forall e :: e in events ==> e.Kind() == kind
    ensures forall k :: OfKind(events, k) == if k == kind then events else []
  {
    if events != [] {
      var init, last := events[..|events| - 1], events[|events| - 1];
      assert last in events && events == init + [last];
      AllOfKind(init, kind);
    }
  }

  // ---------- The drains of a run ----------

  /** One drain by a collection: its type, its bucket key, and what it returned. */
  datatype Drain = Drain(c: nat, kind: EventType, key: string, events: seq<SinkEvent>)

  predicate Loads(s: State, step: Step) {
    && step.Load? && step.c in s.collections && s.collections[step.c].Loading?
    && s.collections[step.c].drained < |DRAIN_ORDER| && DRAIN_ORDER[s.collections[step.c].drained] in s.sink.pipes
  }

  function DrainOf(s: State, step: Step): Drain
    requires Loads(s, step)
  {
    var kind := DRAIN_ORDER[s.collections[step.c].drained];
    var key := BucketOf(kind, s.collections[step.c].id);
    Drain(step.c, kind, key, Sink.DrainedFrom(s.sink.pipes[kind], key))
  }

  function Drains(config: Config, filterEvents: bool, steps: seq<Step>): seq<Drain> {
    if steps == [] then []
    else
      var s := After(config, filterEvents, steps[..|steps| - 1]);
      Drains(config, filterEvents, steps[..|steps| - 1])
      + if Loads(s, steps[|steps| - 1]) then [DrainOf(s, steps[|steps| - 1])] else []
  }

  /** What was drained of one type under one key, by whichever collections. */
  function Under(drains: seq<Drain>, kind: EventType, key: string): seq<SinkEvent> {
    if drains == [] then []
    else
      var last := drains[|drains| - 1];
      Under(drains[..|drains| - 1], kind, key) + if last.kind == kind && last.key == key then last.events else []
  }

  /** What one collection drained of one type. */
  function By(drains: seq<Drain>, c: nat, kind: EventType): seq<SinkEvent> {
    if drains == [] then []
    else
      var last := drains[|drains| - 1];
      By(drains[..|drains| - 1], c, kind) + if last.c == c && last.kind == kind then last.events else []
  }

  /** The types one collection drained, in order. */
  function KindsBy(drains: seq<Drain>, c: nat): seq<EventType> {
    if drains == [] then []
    else
      var last := drains[|drains| - 1];
      KindsBy(drains[..|drains| - 1], c) + if last.c == c then [last.kind] else []
  }

  lemma DrainsSnoc(drains: seq<Drain>, last: Drain, c: nat, kind: EventType, key: string)
    ensures Under(drains + [last], kind, key)
         == Under(drains, kind, key) + if last.kind == kind && last.key == key then last.events else []
    ensures By(drains + [last], c, kind)
         == By(drains, c, kind) + if last.c == c && last.kind == kind then last.events else []
    ensures KindsBy(drains + [last], c) == KindsBy(drains, c) + if last.c == c then [last.kind] else []
  {
    assert (drains + [last])[..|drains|] == drains;
  }

  // ---------- The sink's side ----------

  /** What the sink gave away is what the collections drained. */
  ghost predicate SinkGave(sink: Sink.Sink, drains: seq<Drain>) {
    forall kind, key :: kind in sink.pipes ==> Sink.At(sink.pipes[kind].drained, key) == Under(drains, kind, key)
  }

  lemma LoadIsDrain(config: Config, s: State, step: Step)
    requires Loads(s, step)
    ensures var d := DrainOf(s, step);
            Next(config, s, step).sink == Sink.Next(s.sink, Sink.Step.Drain(d.kind, d.key))
  {
    hide BucketOf, Sink.DrainedFrom, Sink.DrainIn, AddDrained;
  }

  lemma SinkStepDrainsNothing(s: Sink.Sink, step: Sink.Step)
    requires !step.Drain?
    ensures Sink.Next(s, step).pipes.Keys == s.pipes.Keys
    ensures forall kind :: kind in s.pipes ==> Sink.Next(s, step).pipes[kind].drained == s.pipes[kind].drained
  {
    hide EventBucket, Sink.Passes, Sink.Added, Sink.Removed;
  }

  lemma OthersDrainNothing(config: Config, s: State, step: Step)
    requires !Loads(s, step)
    ensures Next(config, s, step).sink.pipes.Keys == s.sink.pipes.Keys
    ensures forall kind :: kind in s.sink.pipes ==>
              Next(config, s, step).sink.pipes[kind].drained == s.sink.pipes[kind].drained
  {
    hide KeyOf, Fresh, OverOpenLimit, LabelsForCreate, LabelsForUpdate, BucketOf, MergeContainers, AddDrained,
         Sink.Next;
    if step.SinkStep? && !step.step.Drain? {
      SinkStepDrainsNothing(s.sink, step.step);
    }
  }

  lemma PipeGives(p: Sink.Pipe, drained: string, key: string)
    ensures Sink.At(Sink.DrainIn(p, drained).drained, key)
         == Sink.At(p.drained, key) + if key == drained then Sink.DrainedFrom(p, drained) else []
  {
    hide Sink.DrainedFrom;
  }

  lemma LoadGives(s: Sink.Sink, drains: seq<Drain>, d: Drain)
    requires SinkGave(s, drains) && d.kind in s.pipes && d.events == Sink.DrainedFrom(s.pipes[d.kind], d.key)
    ensures SinkGave(Sink.Next(s, Sink.Step.Drain(d.kind, d.key)), drains + [d])
  {
    hide Under, Sink.DrainedFrom, Sink.DrainIn, Sink.At;
    var t := Sink.Next(s, Sink.Step.Drain(d.kind, d.key));
    forall kind, key | kind in t.pipes
      ensures Sink.At(t.pipes[kind].drained, key) == Under(drains + [d], kind, key)
    {
      DrainsSnoc(drains, d, 0, kind, key);
      PipeGives(s.pipes[d.kind], d.key, key);
      NothingAdded(Under(drains, kind, key));
    }
  }

  lemma NothingAdded(events: seq<SinkEvent>)
    ensures events + [] == events
  {
  }

  lemma {:induction false} SinkGaveDrains(config: Config, filterEvents: bool, steps: seq<Step>)
    ensures SinkGave(After(config, filterEvents, steps).sink, Drains(config, filterEvents, steps))
  {
    if steps != [] {
      hide Next, Under, DrainOf, Loads;
      var s, step := After(config, filterEvents, steps[..|steps| - 1]), steps[|steps| - 1];
      var drains := Drains(config, filterEvents, steps[..|steps| - 1]);
      SinkGaveDrains(config, filterEvents, steps[..|steps| - 1]);
      if Loads(s, step) {
        LoadIsDrain(config, s, step);
        DrainFacts(s, step);
        LoadGives(s.sink, drains, DrainOf(s, step));
      } else {
        OthersDrainNothing(config, s, step);
        assert drains + [] == drains;
      }
    }
  }

  lemma DrainFacts(s: State, step: Step)
    requires Loads(s, step)
    ensures var d := DrainOf(s, step);
            d.kind in s.sink.pipes && d.events == Sink.DrainedFrom(s.sink.pipes[d.kind], d.key)
  {
  }

  /**
   No accepted event is lost: under every bucket key the accepted events are, in order, those that collections drained,
   those still stored, the one in the worker's hand, and those in the channel.
   */
  lemma {:induction false} AcceptedAreDrainedOrWaiting(
    config: Config, filterEvents: bool, steps: seq<Step>, kind: EventType, key: string)
    requires IsStored(kind)
    ensures var sink := After(config, filterEvents, steps).sink;
            && kind in sink.pipes
            && var p := sink.pipes[kind];
               Sink.InBucket(p.accepted, key)
               == Under(Drains(config, filterEvents, steps), kind, key) + Sink.At(p.db, key)
                + Sink.InBucket(Sink.InHand(p), key) + Sink.InBucket(p.channel, key)
  {
    hide Next, After, Drains, Under, Sink.InBucket;
    SinkStaysOk(config, filterEvents, steps);
    SinkGaveDrains(config, filterEvents, steps);
    var sink := After(config, filterEvents, steps).sink;
    assert kind in sink.pipes && Sink.Conserves(sink.pipes[kind], key);
  }

  // ---------- The collections' side ----------

  predicate Carries(col: Collection) { col.Loading? || col.Built? || col.Absent? || col.Found? }

  /** The collection holds what it drained, drained in the fixed order, and only from its own buckets. */
  ghost predicate HoldsDrains(col: Collection, c: nat, drains: seq<Drain>) {
    && (Carries(col) ==> forall kind :: IsStored(kind) ==> Held(col.events, kind) == By(drains, c, kind))
    && (col.Loading? ==> col.drained <= |DRAIN_ORDER| && KindsBy(drains, c) == DRAIN_ORDER[..col.drained])
    && (!col.Loading? ==> KindsBy(drains, c) == DRAIN_ORDER)
    && (forall d :: d in drains && d.c == c ==> d.key == BucketOf(d.kind, col.id))
  }

  ghost predicate AllHoldDrains(s: State, drains: seq<Drain>) {
    && (forall c :: c in s.collections ==> HoldsDrains(s.collections[c], c, drains))
    && (forall d :: d in drains ==> d.c in s.collections)
  }

  /** Nothing was drained by a collection that does not exist. */
  lemma {:induction false} NoDrainsBy(drains: seq<Drain>, c: nat)
    requires forall d :: d in drains ==> d.c != c
    ensures KindsBy(drains, c) == [] && forall kind :: By(drains, c, kind) == []
  {
    if drains != [] {
      var init, last := drains[..|drains| - 1], drains[|drains| - 1];
      assert last in drains && forall d :: d in init ==> d in drains;
      NoDrainsBy(init, c);
    }
  }

  lemma OwnLoad(s: State, step: Step, drains: seq<Drain>)
    requires Sink.SinkOk(s.sink) && Loads(s, step) && HoldsDrains(s.collections[step.c], step.c, drains)
    ensures var d, col := DrainOf(s, step), s.collections[step.c];
            var more := AddDrained(col.events, d.events);
            HoldsDrains(Loading(col.id, col.attached, more, col.drained + 1), step.c, drains + [d])
  {
    hide Sink.SinkOk, BucketOf, Sink.DrainedFrom, AddDrained, By, KindsBy, Held;
    var d, col := DrainOf(s, step), s.collections[step.c];
    DrainsAreOfKind(s.sink, d.kind, d.key);
    AllOfKind(d.events, d.kind);
    var more := AddDrained(col.events, d.events);
    forall kind | IsStored(kind)
      ensures Held(more, kind) == By(drains + [d], step.c, kind)
    {
      DrainIsAdded(col.events, d.events, kind);
      DrainsSnoc(drains, d, step.c, kind, d.key);
      assert By(drains, step.c, kind) + [] == By(drains, step.c, kind);
    }
    DrainsSnoc(drains, d, step.c, d.kind, d.key);
    assert DRAIN_ORDER[..col.drained + 1] == DRAIN_ORDER[..col.drained] + [d.kind];
  }

  lemma DrainsAreOfKind(sink: Sink.Sink, kind: EventType, key: string)
    requires Sink.SinkOk(sink) && kind in sink.pipes
    ensures forall e :: e in Sink.DrainedFrom(sink.pipes[kind], key) ==> e.Kind() == kind
  {
    hide Sink.SinkOk, Sink.DrainedFrom, EventBucket;
    forall e | e in Sink.DrainedFrom(sink.pipes[kind], key)
      ensures e.Kind() == kind
    {
      Sink.DrainedWasAccepted(sink, kind, key, e);
    }
  }

  lemma OthersLoad(col: Collection, c: nat, drains: seq<Drain>, d: Drain)
    requires HoldsDrains(col, c, drains) && d.c != c
    ensures HoldsDrains(col, c, drains + [d])
  {
    hide By, KindsBy, Held, BucketOf;
    DrainsSnoc(drains, d, c, d.kind, d.key);
    assert KindsBy(drains, c) + [] == KindsBy(drains, c);
    forall kind
      ensures By(drains + [d], c, kind) == By(drains, c, kind)
    {
      DrainsSnoc(drains, d, c, kind, d.key);
      assert By(drains, c, kind) + [] == By(drains, c, kind);
    }
  }

  lemma LoadKeepsHeld(config: Config, s: State, step: Step, drains: seq<Drain>)
    requires Sink.SinkOk(s.sink) && AllHoldDrains(s, drains) && Loads(s, step)
    ensures AllHoldDrains(Next(config, s, step), drains + [DrainOf(s, step)])
  {
    hide Sink.SinkOk, BucketOf, Sink.DrainedFrom, Sink.DrainIn, AddDrained, HoldsDrains;
    var d := DrainOf(s, step);
    OwnLoad(s, step, drains);
    forall c | c in s.collections && c != step.c
      ensures HoldsDrains(s.collections[c], c, drains + [d])
    {
      OthersLoad(s.collections[c], c, drains, d);
    }
  }

  /** What a step that drains nothing does to a collection: it starts it, or keeps its id and what it holds. */
  ghost predicate MovesOn(s: State, t: State, c: nat) {
    && c in t.collections
    && (c !in s.collections ==>
          t.collections[c].Loading? && t.collections[c].events == NO_EVENTS && t.collections[c].drained == 0)
    && (c in s.collections ==>
          var a, b := s.collections[c], t.collections[c];
          && b.id == a.id
          && (b.Loading? ==> b == a)
          && (!b.Loading? && a.Loading? ==> a.drained == |DRAIN_ORDER|)
          && (Carries(b) ==> Carries(a) && b.events.(syscallEvents := []) == a.events.(syscallEvents := [])))
  }

  lemma OthersMoveOn(config: Config, s: State, step: Step)
    requires !Loads(s, step) && forall kind :: kind in s.sink.pipes <==> IsStored(kind)
    ensures forall c :: c in Next(config, s, step).collections ==> MovesOn(s, Next(config, s, step), c)
    ensures forall c :: c in s.collections ==> c in Next(config, s, step).collections
  {
    hide KeyOf, Fresh, OverOpenLimit, LabelsForCreate, LabelsForUpdate, BucketOf, MergeContainers, AddDrained,
         ShouldProcess, Sink.Next;
  }

  lemma MovedOnHolds(s: State, t: State, c: nat, drains: seq<Drain>)
    requires AllHoldDrains(s, drains) && MovesOn(s, t, c)
    ensures HoldsDrains(t.collections[c], c, drains)
  {
    hide By, KindsBy, BucketOf;
    if c in s.collections {
      assert HoldsDrains(s.collections[c], c, drains);
      assert DRAIN_ORDER[..|DRAIN_ORDER|] == DRAIN_ORDER;
      if Carries(t.collections[c]) {
        SameHeld(s.collections[c].events, t.collections[c].events);
      }
    } else {
      NoDrainsBy(drains, c);
      assert DRAIN_ORDER[..0] == [];
    }
  }

  lemma SameHeld(a: TotalEvents, b: TotalEvents)
    ensures a.(syscallEvents := []) == b.(syscallEvents := []) ==> forall kind :: Held(a, kind) == Held(b, kind)
  {
  }

  /** In every interleaving every collection holds exactly what it drained. */
  lemma {:induction false} CollectionsHoldDrains(config: Config, filterEvents: bool, steps: seq<Step>)
    ensures AllHoldDrains(After(config, filterEvents, steps), Drains(config, filterEvents, steps))
  {
    if steps != [] {
      hide Next, DrainOf, Loads, HoldsDrains, MovesOn, Sink.SinkOk;
      var s, step := After(config, filterEvents, steps[..|steps| - 1]), steps[|steps| - 1];
      var drains := Drains(config, filterEvents, steps[..|steps| - 1]);
      CollectionsHoldDrains(config, filterEvents, steps[..|steps| - 1]);
      SinkStaysOk(config, filterEvents, steps[..|steps| - 1]);
      if Loads(s, step) {
        LoadKeepsHeld(config, s, step, drains);
      } else {
        assert drains + [] == drains;
        StoredKinds(s.sink);
        OthersMoveOn(config, s, step);
        forall c | c in Next(config, s, step).collections
          ensures HoldsDrains(Next(config, s, step).collections[c], c, drains)
        {
          MovedOnHolds(s, Next(config, s, step), c, drains);
        }
      }
    }
  }

  lemma StoredKinds(sink: Sink.Sink)
    requires Sink.SinkOk(sink)
    ensures forall kind :: kind in sink.pipes <==> IsStored(kind)
  {
  }

  /**
   In particular a collection that has been built drained each of its five buckets exactly once, and holds of every
   type exactly what that drain returned.
   */
  lemma {:induction false} BuiltHoldsAllFive(config: Config, filterEvents: bool, steps: seq<Step>, c: nat)
    requires c in After(config, filterEvents, steps).collections
    requires var col := After(config, filterEvents, steps).collections[c];
             col.Built? || col.Absent? || col.Found?
    ensures var col, drains := After(config, filterEvents, steps).collections[c], Drains(config, filterEvents, steps);
            && multiset(KindsBy(drains, c))
               == multiset{ExecveEventType, OpenEventType, CapabilitiesEventType, DnsEventType, NetworkEventType}
            && (forall d :: d in drains && d.c == c ==>
                  d.key == BucketKey(d.kind, col.id.namespace, col.id.podName, col.id.container))
            && (forall kind :: IsStored(kind) ==> Held(col.events, kind) == By(drains, c, kind))
  {
    hide Next, After, Drains, By, KindsBy, Held, BucketKey;
    CollectionsHoldDrains(config, filterEvents, steps);
    assert HoldsDrains(After(config, filterEvents, steps).collections[c], c, Drains(config, filterEvents, steps));
  }
}
