/**
 What every stored profile satisfies in every interleaving: bounded, irredundant opens, and no entry
 that does not come from an event the sink accepted under a bucket of that container.
 */
module StoredProfiles {
  import opened Dedup
  import opened Sequences
  import opened ProfileTypes
  import opened ProfileAlgebra
  import opened ProfileInvariants
  import opened ObjectStore
  import opened RecordingProtocol
  import Capabilities
  import Sink = EventSink

  // ---------- An invariant of containers, lifted to the whole state ----------

  /** Opens are irredundant and bounded, and no two capability entries have the same system call. */
  ghost predicate ListsOk(containers: seq<ContainerProfile>) {
    forall i :: 0 <= i < |containers| ==>
      OpensInvariant(containers[i].opens) && Capabilities.DistinctSyscalls(containers[i].capabilities)
  }

  ghost predicate AllListsOk(s: State) {
    && (forall key :: key in s.store.objects ==> ListsOk(s.store.objects[key].containers))
    && (forall c :: c in s.collections && s.collections[c].Found? ==> ListsOk(s.collections[c].snapshot.containers))
  }

  lemma MergeKeepsListsOk(config: Config, mounts: seq<string>, containers: seq<ContainerProfile>, col: Collection)
    requires ListsOk(containers) && col.Found?
    ensures ListsOk(MergeContainers(config, mounts, containers, Fresh(config, col)))
  {
    CollectedOpens(config, col.mounts, col.events.openEvents);
    Capabilities.GroupIsExact(col.events.capabilitiesEvents);
    var i := FindContainer(containers, col.id.container);
    if i < |containers| {
      Capabilities.MergeKeepsDistinct(
        containers[i].capabilities, Capabilities.Group(col.events.capabilitiesEvents));
      MergeKeepsOpensInvariant(config, mounts, containers[i].opens, col.mounts, col.events.openEvents);
    }
  }

  lemma CreateKeepsListsOk(config: Config, s: State, c: nat, ok: bool)
    requires AllListsOk(s) && c in s.collections && s.collections[c].Absent?
    ensures AllListsOk(Next(config, s, CreateProfile(c, ok)))
  {
    CollectedOpens(config, s.collections[c].mounts, s.collections[c].events.openEvents);
    Capabilities.GroupIsExact(s.collections[c].events.capabilitiesEvents);
    assert ListsOk([Fresh(config, s.collections[c])]);
  }

  lemma UpdateKeepsListsOk(config: Config, s: State, c: nat, outcome: Outcome, bump: bool, mounts: seq<string>)
    requires AllListsOk(s) && c in s.collections && s.collections[c].Found?
    ensures AllListsOk(UpdateStep(config, s, c, outcome, bump, mounts))
  {
    MergeKeepsListsOk(config, mounts, s.collections[c].snapshot.containers, s.collections[c]);
  }

  lemma NextKeepsListsOk(config: Config, s: State, step: Step)
    requires AllListsOk(s)
    ensures AllListsOk(Next(config, s, step))
  {
    hide ListsOk, KeyOf, Fresh, OverOpenLimit, LabelsForCreate, LabelsForUpdate, BucketOf, MergeContainers;
    match step {
      case CreateProfile(c, ok) =>
        if c in s.collections && s.collections[c].Absent? {
          CreateKeepsListsOk(config, s, c, ok);
        }
      case UpdateProfile(c, outcome, bump, mounts) =>
        if c in s.collections && s.collections[c].Found? {
          UpdateKeepsListsOk(config, s, c, outcome, bump, mounts);
        }
      case _ =>
    }
  }

  /**
   In every interleaving stored opens stay irredundant and never exceed twice the cap plus one, and stored
   capabilities have distinct system calls.
   */
  lemma {:induction false} StoredListsStayOk(config: Config, filterEvents: bool, steps: seq<Step>)
    ensures AllListsOk(After(config, filterEvents, steps))
  {
    if steps != [] {
      StoredListsStayOk(config, filterEvents, steps[..|steps| - 1]);
      NextKeepsListsOk(config, After(config, filterEvents, steps[..|steps| - 1]), steps[|steps| - 1]);
    }
  }

  /**
   So, for every stored container and every batch: merging its capabilities achieves the union exactly if few are new.
   */
  lemma {:induction false} StoredCapabilityUnionIff(
    config: Config, filterEvents: bool, steps: seq<Step>, key: ProfileKey, i: nat, batch: seq<CapabilitiesEvent>)
    requires key in After(config, filterEvents, steps).store.objects
    requires i < |After(config, filterEvents, steps).store.objects[key].containers|
    ensures var stored := After(config, filterEvents, steps).store.objects[key].containers[i].capabilities;
            Capabilities.UnionAchieved(stored, Capabilities.Group(batch))
            <==> Capabilities.AtMostOneNewEach(stored, Capabilities.Group(batch))
  {
    hide Next, Capabilities.UnionAchieved, Capabilities.AtMostOneNewEach;
    StoredListsStayOk(config, filterEvents, steps);
    Capabilities.GroupIsExact(batch);
    Capabilities.UnionIffAtMostOneNewEach(
      After(config, filterEvents, steps).store.objects[key].containers[i].capabilities, Capabilities.Group(batch));
  }

  // ---------- Provenance ----------

  /** The sink accepted `e` into the bucket that collections of `id` drain. */
  ghost predicate AcceptedFor(sink: Sink.Sink, id: ContainerId, e: SinkEvent) {
    && e.Kind() in sink.pipes
    && e in sink.pipes[e.Kind()].accepted
    && EventBucket(e) == BucketOf(e.Kind(), id)
  }

  /** The sink accepted `e` for some container called `name` whose profile is stored under `key`. */
  ghost predicate AcceptedUnder(config: Config, sink: Sink.Sink, key: ProfileKey, name: string, e: SinkEvent) {
    exists id: ContainerId :: KeyOf(config, id) == key && id.container == name && AcceptedFor(sink, id, e)
  }

  ghost predicate EventsAccepted(sink: Sink.Sink, id: ContainerId, t: TotalEvents) {
    && (forall e :: e in t.execEvents ==> AcceptedFor(sink, id, Exec(e)))
    && (forall e :: e in t.openEvents ==> AcceptedFor(sink, id, Open(e)))
    && (forall e :: e in t.capabilitiesEvents ==> AcceptedFor(sink, id, Capability(e)))
    && (forall e :: e in t.dnsEvents ==> AcceptedFor(sink, id, Dns(e)))
    && (forall e :: e in t.networkEvents ==> AcceptedFor(sink, id, Network(e)))
  }

  ghost predicate ExecFrom(config: Config, sink: Sink.Sink, key: ProfileKey, name: string, x: ExecCalls) {
    exists e :: ExecCall(e) == Some(x) && AcceptedUnder(config, sink, key, name, Exec(e))
  }

  ghost predicate OpenFrom(config: Config, sink: Sink.Sink, key: ProfileKey, name: string, o: OpenCalls) {
    exists e :: OpenCall(e) == o && AcceptedUnder(config, sink, key, name, Open(e))
  }

  ghost predicate DnsFrom(config: Config, sink: Sink.Sink, key: ProfileKey, name: string, d: DnsCalls) {
    exists e :: DnsCall(e) == Some(d) && AcceptedUnder(config, sink, key, name, Dns(e))
  }

  ghost predicate CapabilityFrom(
    config: Config, sink: Sink.Sink, key: ProfileKey, name: string, syscall: string, cap: string)

  {
    exists e: CapabilitiesEvent ::
      e.syscall == syscall && e.capabilityName == cap && AcceptedUnder(config, sink, key, name, Capability(e))
  }

  ghost predicate IncomingFrom(config: Config, sink: Sink.Sink, key: ProfileKey, name: string, n: NetworkCalls) {
    exists e :: IncomingCall(e) == Some(n) && AcceptedUnder(config, sink, key, name, Network(e))
  }

  ghost predicate OutgoingFrom(config: Config, sink: Sink.Sink, key: ProfileKey, name: string, n: NetworkCalls) {
    exists e :: OutgoingCall(e) == Some(n) && AcceptedUnder(config, sink, key, name, Network(e))
  }

  /** Every exec, open, DNS, capability and network entry of the container has an accepted event behind it. */
  ghost predicate Justified(config: Config, sink: Sink.Sink, key: ProfileKey, p: ContainerProfile) {
    && (forall x :: x in p.execs ==> ExecFrom(config, sink, key, p.name, x))
    && (forall o :: o in p.opens ==> OpenFrom(config, sink, key, p.name, o))
    && (forall d :: d in p.dns ==> DnsFrom(config, sink, key, p.name, d))
    && (forall s, c :: Capabilities.Has(p.capabilities, s, c) ==> CapabilityFrom(config, sink, key, p.name, s, c))
    && (forall n :: n in p.networkActivity.incoming ==> IncomingFrom(config, sink, key, p.name, n))
    && (forall n :: n in p.networkActivity.outgoing ==> OutgoingFrom(config, sink, key, p.name, n))
  }

  ghost predicate AllJustified(config: Config, sink: Sink.Sink, key: ProfileKey, containers: seq<ContainerProfile>) {
    forall i :: 0 <= i < |containers| ==> Justified(config, sink, key, containers[i])
  }

  /** Acceptance is never taken back. */
  ghost predicate SinkGrows(a: Sink.Sink, b: Sink.Sink) {
    forall kind :: kind in a.pipes ==> kind in b.pipes && a.pipes[kind].accepted <= b.pipes[kind].accepted
  }

  lemma SinkStepGrows(s: Sink.Sink, step: Sink.Step)
    ensures SinkGrows(s, Sink.Next(s, step))
  {
    hide Sink.Added, Sink.Removed, Sink.Passes;
  }

  lemma AcceptanceIsKept(config: Config, a: Sink.Sink, b: Sink.Sink)
    requires SinkGrows(a, b)
    ensures forall id, e :: AcceptedFor(a, id, e) ==> AcceptedFor(b, id, e)
    ensures forall key, name, e :: AcceptedUnder(config, a, key, name, e) ==> AcceptedUnder(config, b, key, name, e)
  {
    forall id, e | AcceptedFor(a, id, e)
      ensures AcceptedFor(b, id, e)
    {
      assert e.Kind() in a.pipes;
    }
    forall key, name, e | AcceptedUnder(config, a, key, name, e)
      ensures AcceptedUnder(config, b, key, name, e)
    {
      var id: ContainerId :| KeyOf(config, id) == key && id.container == name && AcceptedFor(a, id, e);
      assert AcceptedFor(b, id, e);
    }
  }

  lemma JustificationIsKept(config: Config, a: Sink.Sink, b: Sink.Sink, key: ProfileKey, p: ContainerProfile)
    requires SinkGrows(a, b) && Justified(config, a, key, p)
    ensures Justified(config, b, key, p)
  {
    AcceptanceIsKept(config, a, b);
    forall x | x in p.execs
      ensures ExecFrom(config, b, key, p.name, x)
    {
      assert ExecFrom(config, a, key, p.name, x);
    }
    forall o | o in p.opens
      ensures OpenFrom(config, b, key, p.name, o)
    {
      assert OpenFrom(config, a, key, p.name, o);
    }
    forall d | d in p.dns
      ensures DnsFrom(config, b, key, p.name, d)
    {
      assert DnsFrom(config, a, key, p.name, d);
    }
    forall s, c | Capabilities.Has(p.capabilities, s, c)
      ensures CapabilityFrom(config, b, key, p.name, s, c)
    {
      assert CapabilityFrom(config, a, key, p.name, s, c);
    }
    forall n | n in p.networkActivity.incoming
      ensures IncomingFrom(config, b, key, p.name, n)
    {
      assert IncomingFrom(config, a, key, p.name, n);
    }
    forall n | n in p.networkActivity.outgoing
      ensures OutgoingFrom(config, b, key, p.name, n)
    {
      assert OutgoingFrom(config, a, key, p.name, n);
    }
  }

  /** A drain adds only accepted events of its own bucket. */
  lemma {:induction false} DrainAddsAccepted(sink: Sink.Sink, id: ContainerId, t: TotalEvents, drained: seq<SinkEvent>)
    requires EventsAccepted(sink, id, t)
    requires forall e :: e in drained ==> AcceptedFor(sink, id, e)
    ensures EventsAccepted(sink, id, AddDrained(t, drained))
  {
    if drained != [] {
      DrainAddsAccepted(sink, id, t, drained[..|drained| - 1]);
      assert drained[|drained| - 1] in drained;
    }
  }

  lemma {:induction false} FreshIsJustified(config: Config, sink: Sink.Sink, col: Collection)
    requires col.Built? || col.Absent? || col.Found?
    requires EventsAccepted(sink, col.id, col.events)
    ensures Justified(config, sink, KeyOf(config, col.id), Fresh(config, col))
  {
    var key, name, t := KeyOf(config, col.id), col.id.container, col.events;
    forall e | AcceptedFor(sink, col.id, e)
      ensures AcceptedUnder(config, sink, key, name, e)
    {
    }
    FreshExecs(config, sink, key, name, t);
    FreshOpens(config, sink, key, name, t, col.mounts);
    FreshDns(config, sink, key, name, t);
    FreshCapabilities(config, sink, key, name, t);
    FreshConnections(config, sink, key, name, t);
  }

  lemma FreshExecs(config: Config, sink: Sink.Sink, key: ProfileKey, name: string, t: TotalEvents)
    requires forall e :: e in t.execEvents ==> AcceptedUnder(config, sink, key, name, Exec(e))
    ensures forall x :: x in CollectExecs(t.execEvents) ==> ExecFrom(config, sink, key, name, x)
  {
    SelectIsImage(ExecCall, t.execEvents);
    GrowExtends(SameNamedExec, [], Select(ExecCall, t.execEvents));
    forall x | x in CollectExecs(t.execEvents)
      ensures ExecFrom(config, sink, key, name, x)
    {
      var i :| 0 <= i < |t.execEvents| && ExecCall(t.execEvents[i]) == Some(x);
      assert t.execEvents[i] in t.execEvents;
    }
  }

  lemma FreshOpens(config: Config, sink: Sink.Sink, key: ProfileKey, name: string, t: TotalEvents, mounts: seq<string>)
    requires forall e :: e in t.openEvents ==> AcceptedUnder(config, sink, key, name, Open(e))
    ensures forall o :: o in CollectOpens(config, mounts, t.openEvents) ==> OpenFrom(config, sink, key, name, o)
  {
    CollectedOpens(config, mounts, t.openEvents);
  }

  lemma FreshDns(config: Config, sink: Sink.Sink, key: ProfileKey, name: string, t: TotalEvents)
    requires forall e :: e in t.dnsEvents ==> AcceptedUnder(config, sink, key, name, Dns(e))
    ensures forall d :: d in CollectDns(t.dnsEvents) ==> DnsFrom(config, sink, key, name, d)
  {
    SelectIsImage(DnsCall, t.dnsEvents);
    GrowExtends(SameDnsName, [], Select(DnsCall, t.dnsEvents));
    forall d | d in CollectDns(t.dnsEvents)
      ensures DnsFrom(config, sink, key, name, d)
    {
      var i :| 0 <= i < |t.dnsEvents| && DnsCall(t.dnsEvents[i]) == Some(d);
      assert t.dnsEvents[i] in t.dnsEvents;
    }
  }

  lemma FreshCapabilities(config: Config, sink: Sink.Sink, key: ProfileKey, name: string, t: TotalEvents)
    requires forall e :: e in t.capabilitiesEvents ==> AcceptedUnder(config, sink, key, name, Capability(e))
    ensures forall s, c :: Capabilities.Has(Capabilities.Group(t.capabilitiesEvents), s, c)
                       ==> CapabilityFrom(config, sink, key, name, s, c)
  {
    Capabilities.GroupIsExact(t.capabilitiesEvents);
    forall s, c | Capabilities.Has(Capabilities.Group(t.capabilitiesEvents), s, c)
      ensures CapabilityFrom(config, sink, key, name, s, c)
    {
      var events := t.capabilitiesEvents;
      var k :| 0 <= k < |events| && events[k].syscall == s && events[k].capabilityName == c;
      assert events[k] in events;
    }
  }

  lemma FreshConnections(config: Config, sink: Sink.Sink, key: ProfileKey, name: string, t: TotalEvents)
    requires forall e :: e in t.networkEvents ==> AcceptedUnder(config, sink, key, name, Network(e))
    ensures forall n :: n in CollectIncoming(t.networkEvents) ==> IncomingFrom(config, sink, key, name, n)
    ensures forall n :: n in CollectOutgoing(t.networkEvents) ==> OutgoingFrom(config, sink, key, name, n)
  {
    var events := t.networkEvents;
    SelectIsImage(IncomingCall, events);
    SelectIsImage(OutgoingCall, events);
    GrowExtends(SameConnection, [], Select(IncomingCall, events));
    GrowExtends(SameConnection, [], Select(OutgoingCall, events));
    forall n | n in CollectIncoming(events)
      ensures IncomingFrom(config, sink, key, name, n)
    {
      var i :| 0 <= i < |events| && IncomingCall(events[i]) == Some(n);
      assert events[i] in events;
    }
    forall n | n in CollectOutgoing(events)
      ensures OutgoingFrom(config, sink, key, name, n)
    {
      var i :| 0 <= i < |events| && OutgoingCall(events[i]) == Some(n);
      assert events[i] in events;
    }
  }

  /** Merging adds nothing that is in neither side. */
  lemma MergeIsJustified(
    config: Config, mounts: seq<string>, sink: Sink.Sink, key: ProfileKey, stored: ContainerProfile,
    added: ContainerProfile)
    requires Justified(config, sink, key, stored) && Justified(config, sink, key, added) && stored.name == added.name
    ensures Justified(config, sink, key, MergeProfile(config, mounts, stored, added))
  {
    UncoveredMembers(SameExec, added.execs, stored.execs);
    UncoveredMembers(SameDnsName, added.dns, stored.dns);
    var f := AdmittedOpen(config, mounts);
    UncoveredMembers(OpenSubsumed, Select(f, added.opens), stored.opens);
    SelectIsImage(f, added.opens);
    ConnectionsBounded(stored.networkActivity.incoming, added.networkActivity.incoming);
    ConnectionsBounded(stored.networkActivity.outgoing, added.networkActivity.outgoing);
    var merged := MergeProfile(config, mounts, stored, added);
    forall o | o in merged.opens
      ensures OpenFrom(config, sink, key, stored.name, o)
    {
      assert o in stored.opens || o in added.opens;
    }
    forall s, c | Capabilities.Has(merged.capabilities, s, c)
      ensures CapabilityFrom(config, sink, key, stored.name, s, c)
    {
      Capabilities.ComesFrom(stored.capabilities, added.capabilities, s, c);
    }
  }

  lemma MergeContainersIsJustified(
    config: Config, mounts: seq<string>, sink: Sink.Sink, key: ProfileKey, containers: seq<ContainerProfile>,
    added: ContainerProfile)
    requires AllJustified(config, sink, key, containers) && Justified(config, sink, key, added)
    ensures AllJustified(config, sink, key, MergeContainers(config, mounts, containers, added))
  {
    var i := FindContainer(containers, added.name);
    if i < |containers| {
      MergeIsJustified(config, mounts, sink, key, containers[i], added);
    }
  }

  // ---------- Provenance over every interleaving ----------

  ghost predicate CollectionJustified(config: Config, sink: Sink.Sink, col: Collection) {
    && (col.Loading? || col.Built? || col.Absent? || col.Found? ==> EventsAccepted(sink, col.id, col.events))
    && (col.Found? ==> AllJustified(config, sink, KeyOf(config, col.id), col.snapshot.containers))
  }

  ghost predicate StoreJustified(config: Config, sink: Sink.Sink, store: Store) {
    forall key :: key in store.objects ==> AllJustified(config, sink, key, store.objects[key].containers)
  }

  ghost predicate StateJustified(config: Config, s: State) {
    && Sink.SinkOk(s.sink)
    && StoreJustified(config, s.sink, s.store)
    && (forall c :: c in s.collections ==> CollectionJustified(config, s.sink, s.collections[c]))
  }

  lemma CollectionStaysJustified(config: Config, a: Sink.Sink, b: Sink.Sink, col: Collection)
    requires SinkGrows(a, b) && CollectionJustified(config, a, col)
    ensures CollectionJustified(config, b, col)
  {
    AcceptanceIsKept(config, a, b);
    if col.Found? {
      var key, containers := KeyOf(config, col.id), col.snapshot.containers;
      forall i | 0 <= i < |containers|
        ensures Justified(config, b, key, containers[i])
      {
        JustificationIsKept(config, a, b, key, containers[i]);
      }
    }
  }

  lemma StoreStaysJustified(config: Config, a: Sink.Sink, b: Sink.Sink, store: Store)
    requires SinkGrows(a, b) && StoreJustified(config, a, store)
    ensures StoreJustified(config, b, store)
  {
    forall key | key in store.objects
      ensures AllJustified(config, b, key, store.objects[key].containers)
    {
      var containers := store.objects[key].containers;
      forall i | 0 <= i < |containers|
        ensures Justified(config, b, key, containers[i])
      {
        JustificationIsKept(config, a, b, key, containers[i]);
      }
    }
  }

  /** Moving the sink alone keeps everything justified. */
  lemma SinkMoveKeepsJustified(config: Config, s: State, t: Sink.Step)
    requires StateJustified(config, s)
    ensures StateJustified(config, s.(sink := Sink.Next(s.sink, t)))
  {
    var sink := Sink.Next(s.sink, t);
    Sink.NextKeepsOk(s.sink, t);
    SinkStepGrows(s.sink, t);
    StoreStaysJustified(config, s.sink, sink, s.store);
    forall c | c in s.collections
      ensures CollectionJustified(config, sink, s.collections[c])
    {
      CollectionStaysJustified(config, s.sink, sink, s.collections[c]);
    }
  }

  lemma DrainedIsAccepted(sink: Sink.Sink, id: ContainerId, t: TotalEvents, kind: EventType)
    requires Sink.SinkOk(sink) && kind in sink.pipes && EventsAccepted(sink, id, t)
    ensures EventsAccepted(sink, id, AddDrained(t, Sink.DrainedFrom(sink.pipes[kind], BucketOf(kind, id))))
  {
    var key := BucketOf(kind, id);
    var drained := Sink.DrainedFrom(sink.pipes[kind], key);
    forall e | e in drained
      ensures AcceptedFor(sink, id, e)
    {
      Sink.DrainedWasAccepted(sink, kind, key, e);
    }
    DrainAddsAccepted(sink, id, t, drained);
  }

  lemma ReplaceCollection(config: Config, s: State, c: nat, col: Collection, t: Sink.Step, after: State)
    requires StateJustified(config, s) && CollectionJustified(config, s.sink, col)
    requires after == SetCollection(s, c, col).(sink := Sink.Next(s.sink, t))
    ensures StateJustified(config, after)
  {
    var replaced := SetCollection(s, c, col);
    assert StateJustified(config, replaced);
    SinkMoveKeepsJustified(config, replaced, t);
  }

  lemma DrainStepKeepsJustified(config: Config, s: State, c: nat, kind: EventType, key: string)
    requires StateJustified(config, s)
    requires c in s.collections && s.collections[c].Loading? && kind in s.sink.pipes
    requires key == BucketOf(kind, s.collections[c].id)
    ensures StateJustified(config, DrainStep(s, c, kind, key))
  {
    var col := s.collections[c];
    var events := AddDrained(col.events, Sink.DrainedFrom(s.sink.pipes[kind], key));
    assert EventsAccepted(s.sink, col.id, events) by {
      assert CollectionJustified(config, s.sink, col);
      DrainedIsAccepted(s.sink, col.id, col.events, kind);
    }
    ReplaceCollection(
      config, s, c, Loading(col.id, col.attached, events, col.drained + 1), Sink.Step.Drain(kind, key),
      DrainStep(s, c, kind, key));
  }

  lemma LoadKeepsJustified(config: Config, s: State, c: nat)
    requires StateJustified(config, s)
    requires c in s.collections && s.collections[c].Loading? && s.collections[c].drained < |DRAIN_ORDER|
    ensures StateJustified(config, LoadStep(s, c))
  {
    var kind := DRAIN_ORDER[s.collections[c].drained];
    if kind in s.sink.pipes {
      DrainStepKeepsJustified(config, s, c, kind, BucketOf(kind, s.collections[c].id));
    }
  }

  lemma StoreWriteKeepsJustified(
    config: Config, sink: Sink.Sink, store: Store, key: ProfileKey, labels: map<string, string>,
    containers: seq<ContainerProfile>, bump: bool)
    requires StoreJustified(config, sink, store) && AllJustified(config, sink, key, containers)
    ensures StoreJustified(config, sink, Write(store, key, labels, containers, bump))
  {
  }

  lemma CreateKeepsJustified(config: Config, s: State, c: nat, ok: bool)
    requires StateJustified(config, s) && c in s.collections && s.collections[c].Absent?
    ensures StateJustified(config, Next(config, s, CreateProfile(c, ok)))
  {
    var col := s.collections[c];
    assert CollectionJustified(config, s.sink, col);
    FreshIsJustified(config, s.sink, col);
    var created := [Fresh(config, col)];
    assert AllJustified(config, s.sink, KeyOf(config, col.id), created);
    StoreWriteKeepsJustified(
      config, s.sink, s.store, KeyOf(config, col.id), LabelsForCreate(config, col), created, true);
  }

  lemma UpdateKeepsJustified(config: Config, s: State, c: nat, outcome: Outcome, bump: bool, mounts: seq<string>)
    requires StateJustified(config, s) && c in s.collections && s.collections[c].Found?
    ensures StateJustified(config, UpdateStep(config, s, c, outcome, bump, mounts))
  {
    hide KeyOf, Fresh, LabelsForUpdate, MergeContainers, Justified, Sink.SinkOk, AcceptedFor;
    var col := s.collections[c];
    var key := KeyOf(config, col.id);
    assert CollectionJustified(config, s.sink, col);
    FreshIsJustified(config, s.sink, col);
    MergeContainersIsJustified(config, mounts, s.sink, key, col.snapshot.containers, Fresh(config, col));
    StoreWriteKeepsJustified(
      config, s.sink, s.store, key, LabelsForUpdate(col),
      MergeContainers(config, mounts, col.snapshot.containers, Fresh(config, col)), bump);
  }

  lemma PatchKeepsJustified(config: Config, s: State, key: ProfileKey, name: string, bump: bool)
    requires StateJustified(config, s)
    ensures StoreJustified(config, s.sink, PatchLabel(s.store, key, name, bump))
  {
  }

  lemma NextKeepsJustified(config: Config, s: State, step: Step)
    requires StateJustified(config, s)
    ensures StateJustified(config, Next(config, s, step))
  {
    hide KeyOf, Fresh, OverOpenLimit, LabelsForCreate, LabelsForUpdate, BucketOf, MergeContainers, Sink.SinkOk,
        AcceptedFor;
    match step {
      case SinkStep(t) =>
        SinkMoveKeepsJustified(config, s, t);
      case Begin(c, id, attached) =>
      case Load(c) =>
        if c in s.collections && s.collections[c].Loading? && s.collections[c].drained < |DRAIN_ORDER| {
          LoadKeepsJustified(config, s, c);
        }
      case Build(c, syscalls, mounts) =>
        assert c in s.collections ==> CollectionJustified(config, s.sink, s.collections[c]);
      case Get(c, ok) =>
        assert c in s.collections ==> CollectionJustified(config, s.sink, s.collections[c]);
      case CreateProfile(c, ok) =>
        if c in s.collections && s.collections[c].Absent? {
          CreateKeepsJustified(config, s, c, ok);
        }
      case MarkFailed(c, ok, bump) =>
        if c in s.collections && s.collections[c].Found? {
          assert CollectionJustified(config, s.sink, s.collections[c]);
          PatchKeepsJustified(config, s, KeyOf(config, s.collections[c].id), FAILED, bump);
        }
      case UpdateProfile(c, outcome, bump, mounts) =>
        if c in s.collections && s.collections[c].Found? {
          UpdateKeepsJustified(config, s, c, outcome, bump, mounts);
        }
      case MarkRejected(c, ok, bump) =>
        if c in s.collections && s.collections[c].Rejected? {
          PatchKeepsJustified(config, s, KeyOf(config, s.collections[c].id), FAILED, bump);
        }
      case Finalize(key, ok, bump) =>
        PatchKeepsJustified(config, s, key, FINAL, bump);
      case DeleteProfile(key) =>
    }
  }

  /** Nothing is ever stored that the sink did not accept under a bucket of that container. */
  lemma {:induction false} StoredEntriesHaveProvenance(config: Config, filterEvents: bool, steps: seq<Step>)
    ensures StateJustified(config, After(config, filterEvents, steps))
  {
    if steps == [] {
      Sink.PipelineConserves(filterEvents, []);
    } else {
      StoredEntriesHaveProvenance(config, filterEvents, steps[..|steps| - 1]);
      NextKeepsJustified(config, After(config, filterEvents, steps[..|steps| - 1]), steps[|steps| - 1]);
    }
  }
}
