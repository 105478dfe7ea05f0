/**
 The collector's loops: duplicate tests with flag variables, building a container profile from
 one batch of events, and merging it in place into a stored application profile.
 Each is proved against the functions of ProfileAlgebra.
 */
module Collector {
  import opened Dedup
  import opened ProfileTypes
  import opened ProfileAlgebra
  import opened CollectedLists
  import Capabilities

  // ---------- Is the entry already there? ----------

  method ExecEventExists(execEvent: ExecveEvent, execCalls: seq<ExecCalls>) returns (found: bool)
    ensures found <==> Covered(SameExec, ExecCall(execEvent).value, execCalls)
    ensures found <==> ExecCalls(execEvent.pathName, execEvent.upperLayer, execEvent.args, execEvent.env) in execCalls
  {
    for i := 0 to |execCalls|
      invariant forall k :: 0 <= k < i ==> execCalls[k] != ExecCall(execEvent).value
    {
      var call := execCalls[i];
      if execEvent.pathName == call.path && execEvent.args == call.args && execEvent.env == call.envs
         && execEvent.upperLayer == call.upperLayer {
        assert SameExec(ExecCall(execEvent).value, execCalls[i]);
        return true;
      }
    }
    return false;
  }

  method NetworkEventExists(dstEndpoint: string, port: Port, protocol: string, networkCalls: seq<NetworkCalls>)
    returns (found: bool)
    ensures found <==> Covered(SameConnection, NetworkCalls(protocol, port, dstEndpoint), networkCalls)
    ensures found <==> NetworkCalls(protocol, port, dstEndpoint) in networkCalls
  {
    for i := 0 to |networkCalls|
      invariant forall k :: 0 <= k < i ==> networkCalls[k] != NetworkCalls(protocol, port, dstEndpoint)
    {
      var call := networkCalls[i];
      if dstEndpoint == call.dstEndpoint && port == call.port && protocol == call.protocol {
        assert SameConnection(NetworkCalls(protocol, port, dstEndpoint), networkCalls[i]);
        return true;
      }
    }
    return false;
  }

  /**
   The addresses of a repeated name are appended to a copy of the entry, which is then dropped:
   the caller's list is an in-parameter here, and only the copy `call` changes.
   */
  method DnsEventExists(dnsEvent: DnsEvent, dnsCalls: seq<DnsCalls>) returns (found: bool)
    ensures found <==> Covered(SameDnsName, DnsCall(dnsEvent).value, dnsCalls)
    ensures found <==> exists i :: 0 <= i < |dnsCalls| && dnsCalls[i].dnsName == dnsEvent.dnsName
  {
    for i := 0 to |dnsCalls|
      invariant forall k :: 0 <= k < i ==> dnsCalls[k].dnsName != dnsEvent.dnsName
    {
      var call := dnsCalls[i];
      if dnsEvent.dnsName == call.dnsName {
        for j := 0 to |dnsEvent.addresses|
          invariant call.dnsName == dnsCalls[i].dnsName
        {
          if dnsEvent.addresses[j] !in call.addresses {
            call := call.(addresses := call.addresses + [dnsEvent.addresses[j]]);
          }
        }
        assert SameDnsName(DnsCall(dnsEvent).value, dnsCalls[i]);
        return true;
      }
    }
    return false;
  }

  method HasAllFlags(wanted: seq<string>, present: seq<string>) returns (all: bool)
    ensures all <==> forall f :: f in wanted ==> f in present
  {
    for i := 0 to |wanted|
      invariant forall k :: 0 <= k < i ==> wanted[k] in present
    {
      var hasFlag := false;
      for j := 0 to |present|
        invariant !hasFlag && forall k :: 0 <= k < j ==> present[k] != wanted[i]
      {
        if wanted[i] == present[j] {
          hasFlag := true;
          break;
        }
      }
      if !hasFlag {
        assert wanted[i] in wanted && wanted[i] !in present;
        return false;
      }
    }
    return true;
  }

  method OpenEventExists(openEvent: OpenEvent, openEvents: seq<OpenCalls>)
    returns (hasSamePath: bool, hasSameFlags: bool)
    ensures hasSamePath <==> exists i :: 0 <= i < |openEvents| && openEvents[i].path == openEvent.pathName
    ensures hasSameFlags <==> Covered(OpenSubsumed, OpenCall(openEvent), openEvents)
    ensures hasSameFlags <==> HasPathAndFlags(openEvents, openEvent.pathName, openEvent.flags)
    ensures hasSameFlags ==> hasSamePath
  {
    hasSamePath, hasSameFlags := false, false;
    for i := 0 to |openEvents|
      invariant !hasSameFlags
      invariant forall k :: 0 <= k < i ==> !OpenSubsumed(OpenCall(openEvent), openEvents[k])
      invariant hasSamePath <==> exists k :: 0 <= k < i && openEvents[k].path == openEvent.pathName
    {
      var element := openEvents[i];
      if element.path == openEvent.pathName {
        hasSamePath := true;
        var hasAllFlags := HasAllFlags(openEvent.flags, element.flags);
        if hasAllFlags {
          hasSameFlags := true;
          assert OpenSubsumed(OpenCall(openEvent), openEvents[i]);
          break;
        }
      }
      if hasSamePath && hasSameFlags {
        break;
      }
    }
  }

  method HasIgnoredPrefix(path: string, prefixes: seq<string>) returns (found: bool)
    ensures found <==> HasPrefixIn(path, prefixes)
    ensures found <==> StartsWithOneOf(path, prefixes)
  {
    for i := 0 to |prefixes|
      invariant forall k :: 0 <= k < i ==> !(prefixes[k] <= path)
    {
      if prefixes[i] <= path {
        return true;
      }
    }
    return false;
  }

  method ShouldIncludeOpenEvent(config: Config, openEvent: OpenEvent, openEvents: seq<OpenCalls>, mounts: seq<string>)
    returns (included: bool)
    ensures included <==>
            && |openEvents| <= MAX_OPEN_EVENTS
            && !IsIgnored(config, mounts, openEvent.pathName)
            && !Covered(OpenSubsumed, OpenCall(openEvent), openEvents)
    ensures included <==>
            && |openEvents| <= 10000
            && !StartsWithOneOf(openEvent.pathName, config.ignorePrefixes)
            && !(config.ignoreMounts && StartsWithOneOf(openEvent.pathName, mounts))
            && !HasPathAndFlags(openEvents, openEvent.pathName, openEvent.flags)
  {
    if |openEvents| > MAX_OPEN_EVENTS {
      return false;
    }
    if |config.ignorePrefixes| > 0 {
      var matched := HasIgnoredPrefix(openEvent.pathName, config.ignorePrefixes);
      if matched {
        return false;
      }
    }
    var hasSamePath, hasSameFlags := OpenEventExists(openEvent, openEvents);
    if hasSamePath && hasSameFlags {
      return false;
    }
    if config.ignoreMounts {
      var matched := HasIgnoredPrefix(openEvent.pathName, mounts);
      if matched {
        return false;
      }
    }
    return true;
  }

  // ---------- Building a container profile from one batch ----------

  method BuildExecs(events: seq<ExecveEvent>) returns (execs: seq<ExecCalls>)
    ensures execs == CollectExecs(events)
  {
    execs := [];
    for i := 0 to |events|
      invariant execs == CollectExecs(events[..i])
    {
      assert events[..i + 1][..i] == events[..i];
      var event := events[i];
      var found := ExecEventExists(event, execs);
      assert Covered(SameNamedExec, ExecCall(event).value, execs) <==> found && event.pathName != "" by {
        if k :| 0 <= k < |execs| && SameExec(ExecCall(event).value, execs[k]) {
          assert event.pathName != "" ==> SameNamedExec(ExecCall(event).value, execs[k]);
        }
        if k :| 0 <= k < |execs| && SameNamedExec(ExecCall(event).value, execs[k]) {
          assert SameExec(ExecCall(event).value, execs[k]);
        }
      }
      if !found || event.pathName == "" {
        execs := execs + [ExecCalls(event.pathName, event.upperLayer, event.args, event.env)];
      }
    }
    assert events[..|events|] == events;
  }

  method BuildDns(events: seq<DnsEvent>) returns (dns: seq<DnsCalls>)
    ensures dns == CollectDns(events)
  {
    dns := [];
    for i := 0 to |events|
      invariant dns == CollectDns(events[..i])
    {
      assert events[..i + 1][..i] == events[..i];
      var found := DnsEventExists(events[i], dns);
      if !found {
        dns := dns + [DnsCalls(events[i].dnsName, events[i].addresses)];
      }
    }
    assert events[..|events|] == events;
  }

  method BuildCapabilities(events: seq<CapabilitiesEvent>) returns (capabilities: seq<CapabilitiesCalls>)
    ensures capabilities == Capabilities.Group(events)
  {
    capabilities := [];
    for n := 0 to |events|
      invariant capabilities == Capabilities.Group(events[..n])
    {
      assert events[..n + 1][..n] == events[..n];
      var event := events[n];
      var syscallExists := false;
      var i := 0;
      while i < |capabilities| && !syscallExists
        invariant 0 <= i <= |capabilities|
        invariant !syscallExists ==> capabilities == Capabilities.Group(events[..n])
        invariant !syscallExists ==> forall k :: 0 <= k < i ==> capabilities[k].syscall != event.syscall
        invariant syscallExists ==> capabilities == Capabilities.Group(events[..n + 1])
        decreases |capabilities| - i, !syscallExists
      {
        var capability := capabilities[i];
        if capability.syscall == event.syscall {
          syscallExists := true;
          assert Capabilities.Find(capabilities, event.syscall) == i;
          if event.capabilityName !in capability.capabilities {
            var extended := capability.capabilities + [event.capabilityName];
            capabilities := capabilities[i := capability.(capabilities := extended)];
          }
        } else {
          i := i + 1;
        }
      }
      if !syscallExists {
        assert Capabilities.Find(capabilities, event.syscall) == |capabilities|;
        capabilities := capabilities + [CapabilitiesCalls([event.capabilityName], event.syscall)];
      }
    }
    assert events[..|events|] == events;
  }

  method BuildOpens(config: Config, mounts: seq<string>, events: seq<OpenEvent>) returns (opens: seq<OpenCalls>)
    ensures opens == CollectOpens(config, mounts, events)
    ensures |opens| <= 10000 ==>
              forall e :: e in events && !Ignored(config, mounts, e.pathName) ==>
                HasPathAndFlags(opens, e.pathName, e.flags)
  {
    opens := [];
    for i := 0 to |events|
      invariant opens == CollectOpens(config, mounts, events[..i])
    {
      assert events[..i + 1][..i] == events[..i];
      var included := ShouldIncludeOpenEvent(config, events[i], opens, mounts);
      if included {
        opens := opens + [OpenCalls(events[i].pathName, events[i].flags)];
      }
    }
    assert events[..|events|] == events;
    OpensKept(config, mounts, events);
  }

  method BuildNetwork(events: seq<NetworkEvent>) returns (network: NetworkActivity)
    ensures network == NetworkActivity(CollectIncoming(events), CollectOutgoing(events))
  {
    var outgoing: seq<NetworkCalls>, incoming: seq<NetworkCalls> := [], [];
    for i := 0 to |events|
      invariant incoming == CollectIncoming(events[..i])
      invariant outgoing == CollectOutgoing(events[..i])
    {
      assert events[..i + 1][..i] == events[..i];
      var e := events[i];
      if e.packetType == "OUTGOING" {
        var found := NetworkEventExists(e.dstEndpoint, e.port, e.protocol, outgoing);
        if !found {
          outgoing := outgoing + [NetworkCalls(e.protocol, e.port, e.dstEndpoint)];
        }
      } else if e.packetType == "HOST" {
        var found := NetworkEventExists(e.dstEndpoint, e.port, e.protocol, incoming);
        if !found {
          incoming := incoming + [NetworkCalls(e.protocol, e.port, e.dstEndpoint)];
        }
      }
    }
    assert events[..|events|] == events;
    network := NetworkActivity(incoming, outgoing);
  }

  method BuildContainerProfile(config: Config, mounts: seq<string>, name: string, totalEvents: TotalEvents)
    returns (profile: ContainerProfile)
    ensures profile == CollectProfile(config, mounts, name, totalEvents)
  {
    var execs := BuildExecs(totalEvents.execEvents);
    var dns := BuildDns(totalEvents.dnsEvents);
    var capabilities := BuildCapabilities(totalEvents.capabilitiesEvents);
    var opens := BuildOpens(config, mounts, totalEvents.openEvents);
    var network := BuildNetwork(totalEvents.networkEvents);
    profile := ContainerProfile(name, execs, opens, network, capabilities, dns, totalEvents.syscallEvents);
  }

  // ---------- Merging in place ----------

  class ApplicationProfile {
    var containers: seq<ContainerProfile>

    constructor (containers: seq<ContainerProfile>)
      ensures this.containers == containers
    {
      this.containers := containers;
    }
  }

  method FilterSyscalls(stored: seq<string>, added: seq<string>) returns (filtered: seq<string>)
    ensures filtered == Uncovered(SameSyscall, added, stored)
  {
    filtered := [];
    for i := 0 to |added|
      invariant filtered == Uncovered(SameSyscall, added[..i], stored)
    {
      assert added[..i + 1][..i] == added[..i];
      assert Covered(SameSyscall, added[i], stored) <==> added[i] in stored by {
        if k :| 0 <= k < |stored| && stored[k] == added[i] { assert SameSyscall(added[i], stored[k]); }
      }
      if added[i] !in stored {
        filtered := filtered + [added[i]];
      }
    }
    assert added[..|added|] == added;
  }

  method FilterExecs(stored: seq<ExecCalls>, added: seq<ExecCalls>) returns (filtered: seq<ExecCalls>)
    ensures filtered == Uncovered(SameExec, added, stored)
  {
    filtered := [];
    for i := 0 to |added|
      invariant filtered == Uncovered(SameExec, added[..i], stored)
    {
      assert added[..i + 1][..i] == added[..i];
      var exec := added[i];
      var found := ExecEventExists(
        ExecveEvent(GeneralEvent("", "", "", ""), exec.path, exec.upperLayer, exec.args, exec.envs), stored);
      if !found {
        filtered := filtered + [exec];
      }
    }
    assert added[..|added|] == added;
  }

  method FilterDns(stored: seq<DnsCalls>, added: seq<DnsCalls>) returns (filtered: seq<DnsCalls>)
    ensures filtered == Uncovered(SameDnsName, added, stored)
  {
    filtered := [];
    for i := 0 to |added|
      invariant filtered == Uncovered(SameDnsName, added[..i], stored)
    {
      assert added[..i + 1][..i] == added[..i];
      var found := DnsEventExists(DnsEvent(GeneralEvent("", "", "", ""), added[i].dnsName, added[i].addresses), stored);
      if !found {
        filtered := filtered + [added[i]];
      }
    }
    assert added[..|added|] == added;
  }

  method FilterOpens(config: Config, mounts: seq<string>, stored: seq<OpenCalls>, added: seq<OpenCalls>)
    returns (filtered: seq<OpenCalls>)
    ensures stored + filtered == MergeOpens(config, mounts, stored, added)
    ensures |stored| <= 10000 ==>
              forall o ::
                o in filtered
                <==> o in added && !Ignored(config, mounts, o.path) && !HasPathAndFlags(stored, o.path, o.flags)
  {
    filtered := [];
    var f := AdmittedOpen(config, mounts);
    for i := 0 to |added|
      invariant filtered == if |stored| > MAX_OPEN_EVENTS then []
                            else Uncovered(OpenSubsumed, Select(f, added[..i]), stored)
    {
      assert added[..i + 1][..i] == added[..i];
      var included :=
        ShouldIncludeOpenEvent(config, OpenEvent(GeneralEvent("", "", "", ""), added[i].path, added[i].flags),
            stored, mounts);
      if f(added[i]).Some? {
        assert Select(f, added[..i + 1])[..|Select(f, added[..i])|] == Select(f, added[..i]);
      }
      if included {
        filtered := filtered + [added[i]];
      }
    }
    assert added[..|added|] == added;
    OpensMerged(config, mounts, stored, added);
  }

  method AppendConnections(stored: seq<NetworkCalls>, added: seq<NetworkCalls>) returns (merged: seq<NetworkCalls>)
    ensures merged == MergeConnections(stored, added)
  {
    merged := stored;
    for i := 0 to |added|
      invariant merged == MergeConnections(stored, added[..i])
    {
      assert added[..i + 1][..i] == added[..i];
      if |merged| < MAX_NETWORK_EVENTS {
        var found := NetworkEventExists(added[i].dstEndpoint, added[i].port, added[i].protocol, merged);
        if !found {
          merged := merged + [added[i]];
        }
      }
    }
    assert added[..|added|] == added;
  }

  /** The loop over the fresh capabilities of one stored entry: every append starts from the stale copy `existing`. */
  method ExtendEntry(stored: seq<CapabilitiesCalls>, i: nat, capability: CapabilitiesCalls)
    returns (extended: seq<CapabilitiesCalls>)
    requires i < |stored| && Capabilities.Find(stored, capability.syscall) == i
    ensures extended == Capabilities.Extend(stored, capability)
  {
    var existing := stored[i];
    extended := stored;
    assert existing.capabilities + [] == existing.capabilities;
    for k := 0 to |capability.capabilities|
      invariant |extended| == |stored|
      invariant extended == stored[i := existing.(capabilities :=
                  existing.capabilities
                      + Capabilities.LastMissing(existing.capabilities, capability.capabilities[..k]))]
    {
      assert capability.capabilities[..k + 1][..k] == capability.capabilities[..k];
      var cap := capability.capabilities[k];
      if cap !in existing.capabilities {
        extended := extended[i := extended[i].(capabilities := existing.capabilities + [cap])];
      }
    }
    assert capability.capabilities[..|capability.capabilities|] == capability.capabilities;
  }

  method MergeCapabilities(stored: seq<CapabilitiesCalls>, added: seq<CapabilitiesCalls>)
    returns (merged: seq<CapabilitiesCalls>)
    ensures merged == Capabilities.Merge(stored, added)
  {
    hide Capabilities.Find, Capabilities.Extend;
    var filtered: seq<CapabilitiesCalls> := [];
    merged := stored;
    for n := 0 to |added|
      invariant merged == Capabilities.ExtendAll(stored, added[..n])
      invariant filtered == Capabilities.NewSyscalls(stored, added[..n])
    {
      assert added[..n + 1][..n] == added[..n];
      Capabilities.ExtendAllExtends(stored, added[..n]);
      var capability := added[n];
      Capabilities.FindDependsOnSyscalls(merged, stored, capability.syscall);
      var i := 0;
      while i < |merged| && merged[i].syscall != capability.syscall
        invariant 0 <= i <= |merged|
        invariant forall k :: 0 <= k < i ==> merged[k].syscall != capability.syscall
      {
        i := i + 1;
      }
      if i < |merged| {
        merged := ExtendEntry(merged, i, capability);
      } else {
        Capabilities.NothingToExtend(merged, capability);
        filtered := filtered + [capability];
      }
    }
    assert added[..|added|] == added;
    merged := merged + filtered;
  }

  method MergeContainer(config: Config, mounts: seq<string>, stored: ContainerProfile, added: ContainerProfile)
    returns (merged: ContainerProfile)
    ensures merged == MergeProfile(config, mounts, stored, added)
  {
    var syscalls := FilterSyscalls(stored.sysCalls, added.sysCalls);
    merged := stored.(sysCalls := stored.sysCalls + syscalls);
    var execs := FilterExecs(merged.execs, added.execs);
    merged := merged.(execs := merged.execs + execs);
    var dns := FilterDns(merged.dns, added.dns);
    merged := merged.(dns := merged.dns + dns);
    var capabilities := MergeCapabilities(merged.capabilities, added.capabilities);
    merged := merged.(capabilities := capabilities);
    var opens := FilterOpens(config, mounts, merged.opens, added.opens);
    merged := merged.(opens := merged.opens + opens);
    var incoming := AppendConnections(merged.networkActivity.incoming, added.networkActivity.incoming);
    merged := merged.(networkActivity := merged.networkActivity.(incoming := incoming));
    var outgoing := AppendConnections(merged.networkActivity.outgoing, added.networkActivity.outgoing);
    merged := merged.(networkActivity := merged.networkActivity.(outgoing := outgoing));
  }

  method MergeApplicationProfiles(
    config: Config, mounts: seq<string>, existing: ApplicationProfile, added: ContainerProfile)
    modifies existing
    ensures existing.containers == MergeContainers(config, mounts, old(existing.containers), added)
  {
    var i := 0;
    while i < |existing.containers|
      invariant 0 <= i <= |existing.containers|
      invariant existing.containers == old(existing.containers)
      invariant forall k :: 0 <= k < i ==> existing.containers[k].name != added.name
    {
      if existing.containers[i].name == added.name {
        var merged := MergeContainer(config, mounts, existing.containers[i], added);
        existing.containers := existing.containers[i := merged];
        return;
      }
      i := i + 1;
    }
    existing.containers := existing.containers + [added];
  }
}
