/**
 What one collection computes (`CollectProfile`), what merging does to a stored profile
 (`MergeProfile`), and the functions of a whole run of collections of one container.
 The collector's loops are proved against these functions in module Collector.
 */
module ProfileAlgebra {
  import opened Dedup
  import opened Sequences
  import opened ProfileTypes
  import Capabilities

  const MAX_OPEN_EVENTS: nat := 10000
  const MAX_NETWORK_EVENTS: nat := 10000

  // ---------- When is an entry already present? ----------

  /** Same path, and every flag of `x` is a flag of `y`. */
  predicate OpenSubsumed(x: OpenCalls, y: OpenCalls) {
    x.path == y.path && forall f :: f in x.flags ==> f in y.flags
  }

  predicate SameExec(x: ExecCalls, y: ExecCalls) { x == y }

  /** Inside one batch an exec without a path is never taken for a duplicate. */
  predicate SameNamedExec(x: ExecCalls, y: ExecCalls) { x == y && x.path != "" }

  predicate SameDnsName(x: DnsCalls, y: DnsCalls) { x.dnsName == y.dnsName }

  predicate SameConnection(x: NetworkCalls, y: NetworkCalls) { x == y }

  // ---------- From events to entries ----------

  predicate HasPrefixIn(path: string, prefixes: seq<string>) {
    exists i :: 0 <= i < |prefixes| && prefixes[i] <= path
  }

  predicate IsIgnored(config: Config, mounts: seq<string>, path: string) {
    HasPrefixIn(path, config.ignorePrefixes) || (config.ignoreMounts && HasPrefixIn(path, mounts))
  }

  function OpenCall(e: OpenEvent): OpenCalls { OpenCalls(e.pathName, e.flags) }

  function AdmittedEvent(config: Config, mounts: seq<string>): OpenEvent -> Option<OpenCalls> {
    (e: OpenEvent) => if IsIgnored(config, mounts, e.pathName) then None else Some(OpenCall(e))
  }

  function AdmittedOpen(config: Config, mounts: seq<string>): OpenCalls -> Option<OpenCalls> {
    (o: OpenCalls) => if IsIgnored(config, mounts, o.path) then None else Some(o)
  }

  function ExecCall(e: ExecveEvent): Option<ExecCalls> { Some(ExecCalls(e.pathName, e.upperLayer, e.args, e.env)) }

  function DnsCall(e: DnsEvent): Option<DnsCalls> { Some(DnsCalls(e.dnsName, e.addresses)) }

  function OutgoingCall(e: NetworkEvent): Option<NetworkCalls> {
    if e.packetType == "OUTGOING" then Some(NetworkCalls(e.protocol, e.port, e.dstEndpoint)) else None
  }

  function IncomingCall(e: NetworkEvent): Option<NetworkCalls> {
    if e.packetType == "HOST" then Some(NetworkCalls(e.protocol, e.port, e.dstEndpoint)) else None
  }

  // ---------- One collection ----------

  function CollectOpens(config: Config, mounts: seq<string>, events: seq<OpenEvent>): seq<OpenCalls> {
    GrowUpTo(MAX_OPEN_EVENTS + 1, OpenSubsumed, [], Select(AdmittedEvent(config, mounts), events))
  }

  function CollectExecs(events: seq<ExecveEvent>): seq<ExecCalls> {
    Grow(SameNamedExec, [], Select(ExecCall, events))
  }

  function CollectDns(events: seq<DnsEvent>): seq<DnsCalls> {
    Grow(SameDnsName, [], Select(DnsCall, events))
  }

  function CollectIncoming(events: seq<NetworkEvent>): seq<NetworkCalls> {
    Grow(SameConnection, [], Select(IncomingCall, events))
  }

  function CollectOutgoing(events: seq<NetworkEvent>): seq<NetworkCalls> {
    Grow(SameConnection, [], Select(OutgoingCall, events))
  }

  function CollectProfile(config: Config, mounts: seq<string>, name: string, events: TotalEvents): ContainerProfile {
    ContainerProfile(
      name,
      CollectExecs(events.execEvents),
      CollectOpens(config, mounts, events.openEvents),
      NetworkActivity(CollectIncoming(events.networkEvents), CollectOutgoing(events.networkEvents)),
      Capabilities.Group(events.capabilitiesEvents),
      CollectDns(events.dnsEvents),
      events.syscallEvents)
  }

  // ---------- One merge ----------

  predicate SameSyscall(x: string, y: string) { x == y }

  function MergeOpens(
    config: Config, mounts: seq<string>, stored: seq<OpenCalls>, added: seq<OpenCalls>): seq<OpenCalls>

  {
    if |stored| > MAX_OPEN_EVENTS then stored
    else stored + Uncovered(OpenSubsumed, Select(AdmittedOpen(config, mounts), added), stored)
  }

  function MergeConnections(stored: seq<NetworkCalls>, added: seq<NetworkCalls>): seq<NetworkCalls> {
    GrowUpTo(MAX_NETWORK_EVENTS, SameConnection, stored, added)
  }

  function MergeProfile(config: Config, mounts: seq<string>, stored: ContainerProfile, added: ContainerProfile)
    : ContainerProfile
  {
    stored.(
      sysCalls := stored.sysCalls + Uncovered(SameSyscall, added.sysCalls, stored.sysCalls),
      execs := stored.execs + Uncovered(SameExec, added.execs, stored.execs),
      dns := stored.dns + Uncovered(SameDnsName, added.dns, stored.dns),
      capabilities := Capabilities.Merge(stored.capabilities, added.capabilities),
      opens := MergeOpens(config, mounts, stored.opens, added.opens),
      networkActivity := NetworkActivity(
        MergeConnections(stored.networkActivity.incoming, added.networkActivity.incoming),
        MergeConnections(stored.networkActivity.outgoing, added.networkActivity.outgoing)))
  }

  /** Index of the first container called `name`, or the length of the list. */
  function FindContainer(containers: seq<ContainerProfile>, name: string): (i: nat)
    ensures i <= |containers|
    ensures i < |containers| ==> containers[i].name == name
    ensures forall j :: 0 <= j < i ==> containers[j].name != name
  {
    if containers == [] then 0
    else if containers[0].name == name then 0
    else 1 + FindContainer(containers[1..], name)
  }

  /** Merge into the first container of the same name, or append as a new container. */
  function MergeContainers(
    config: Config, mounts: seq<string>, containers: seq<ContainerProfile>, added: ContainerProfile)
    : seq<ContainerProfile>
  {
    var i := FindContainer(containers, added.name);
    if i == |containers| then containers + [added]
    else containers[i := MergeProfile(config, mounts, containers[i], added)]
  }

  // ---------- A run of collections ----------

  predicate ShouldProcess(e: TotalEvents) {
    || |e.execEvents| > 0 || |e.openEvents| > 0 || |e.syscallEvents| > 0
    || |e.capabilitiesEvents| > 0 || |e.dnsEvents| > 0 || |e.networkEvents| > 0
  }

  /**
   The stored profile of one container after collecting the batches one at a time; batches without events are skipped.
   */
  function StoredAfter(
    config: Config, mounts: seq<string>, name: string, batches: seq<TotalEvents>): Option<ContainerProfile>
  {
    if batches == [] then None
    else
      var before := StoredAfter(config, mounts, name, batches[..|batches| - 1]);
      var batch := batches[|batches| - 1];
      if !ShouldProcess(batch) then before
      else
        var added := CollectProfile(config, mounts, name, batch);
        match before
        case None => Some(added)
        case Some(stored) => Some(MergeProfile(config, mounts, stored, added))
  }

  function AppendEvents(a: TotalEvents, b: TotalEvents): TotalEvents {
    TotalEvents(
      a.execEvents + b.execEvents,
      a.openEvents + b.openEvents,
      a.syscallEvents + b.syscallEvents,
      a.capabilitiesEvents + b.capabilitiesEvents,
      a.dnsEvents + b.dnsEvents,
      a.networkEvents + b.networkEvents)
  }

  /** All the batches as one. */
  function Stream(batches: seq<TotalEvents>): TotalEvents {
    if batches == [] then TotalEvents([], [], [], [], [], [])
    else AppendEvents(Stream(batches[..|batches| - 1]), batches[|batches| - 1])
  }

  // ---------- Facts about the relations ----------

  lemma RelationsAreOrders()
    ensures Reflexive(OpenSubsumed) && Transitive(OpenSubsumed)
    ensures Transitive(SameNamedExec) && Transitive(SameExec) && Reflexive(SameExec)
    ensures Reflexive(SameDnsName) && Transitive(SameDnsName)
    ensures Reflexive(SameConnection) && Transitive(SameConnection)
  {
    forall x, y, z | OpenSubsumed(x, y) && OpenSubsumed(y, z)
      ensures OpenSubsumed(x, z)
    {
      forall f | f in x.flags
        ensures f in z.flags
      {
        assert f in y.flags;
      }
    }
  }

  /** Entries that were admitted once are admitted again by the merge. */
  lemma {:induction false} AdmittedStays(config: Config, mounts: seq<string>, added: seq<OpenCalls>)
    requires forall o :: o in added ==> !IsIgnored(config, mounts, o.path)
    ensures Select(AdmittedOpen(config, mounts), added) == added
  {
    if added != [] {
      AdmittedStays(config, mounts, added[..|added| - 1]);
      assert added[|added| - 1] in added;
    }
  }

  /** No collected open is ignored, and the list has no subsumed entry and at most one more entry than the cap. */
  lemma CollectedOpens(config: Config, mounts: seq<string>, events: seq<OpenEvent>)
    ensures forall o :: o in CollectOpens(config, mounts, events) ==> !IsIgnored(config, mounts, o.path)
    ensures forall o :: o in CollectOpens(config, mounts, events) ==> exists e :: e in events && OpenCall(e) == o
    ensures Irredundant(OpenSubsumed, CollectOpens(config, mounts, events))
    ensures |CollectOpens(config, mounts, events)| <= MAX_OPEN_EVENTS + 1
  {
    var f := AdmittedEvent(config, mounts);
    var calls := Select(f, events);
    GrowUpToIsCut(MAX_OPEN_EVENTS + 1, OpenSubsumed, [], calls);
    GrowIrredundant(OpenSubsumed, [], calls);
    GrowExtends(OpenSubsumed, [], calls);
    SelectIsImage(f, events);
    forall o | o in CollectOpens(config, mounts, events)
      ensures !IsIgnored(config, mounts, o.path) && exists e :: e in events && OpenCall(e) == o
    {
      assert o in Grow(OpenSubsumed, [], calls);
      var i :| 0 <= i < |events| && f(events[i]) == Some(o);
      assert events[i] in events;
    }
  }

  /** The merge's own ignore test drops nothing that the collection kept under the same configuration. */
  lemma CollectedStayAdmitted(config: Config, mounts: seq<string>, events: seq<OpenEvent>)
    ensures Select(AdmittedOpen(config, mounts), CollectOpens(config, mounts, events))
         == CollectOpens(config, mounts, events)
  {
    CollectedOpens(config, mounts, events);
    AdmittedStays(config, mounts, CollectOpens(config, mounts, events));
  }
}
