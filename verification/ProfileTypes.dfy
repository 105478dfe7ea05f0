/** The application profile, the events it is made from, and the parts of the configuration they depend on. */
module ProfileTypes {

  /** Go's uint16. */
  type Port = p: nat | p < 0x1_0000

  datatype ExecCalls = ExecCalls(path: string, upperLayer: bool, args: seq<string>, envs: seq<string>)
  datatype NetworkCalls = NetworkCalls(protocol: string, port: Port, dstEndpoint: string)
  datatype NetworkActivity = NetworkActivity(incoming: seq<NetworkCalls>, outgoing: seq<NetworkCalls>)
  datatype OpenCalls = OpenCalls(path: string, flags: seq<string>)
  datatype CapabilitiesCalls = CapabilitiesCalls(capabilities: seq<string>, syscall: string)
  datatype DnsCalls = DnsCalls(dnsName: string, addresses: seq<string>)

  datatype ContainerProfile = ContainerProfile(
    name: string,
    execs: seq<ExecCalls>,
    opens: seq<OpenCalls>,
    networkActivity: NetworkActivity,
    capabilities: seq<CapabilitiesCalls>,
    dns: seq<DnsCalls>,
    sysCalls: seq<string>)

  /** The part of every event that says where it happened. */
  datatype GeneralEvent = GeneralEvent(containerName: string, containerID: string, podName: string, namespace: string)

  datatype ExecveEvent =
    ExecveEvent(general: GeneralEvent, pathName: string, upperLayer: bool, args: seq<string>, env: seq<string>)
  datatype OpenEvent = OpenEvent(general: GeneralEvent, pathName: string, flags: seq<string>)
  datatype CapabilitiesEvent = CapabilitiesEvent(general: GeneralEvent, syscall: string, capabilityName: string)
  datatype DnsEvent = DnsEvent(general: GeneralEvent, dnsName: string, addresses: seq<string>)
  datatype NetworkEvent =
    NetworkEvent(general: GeneralEvent, packetType: string, protocol: string, port: Port, dstEndpoint: string)

  /** What one collection drains from the event sink, plus the peeked system calls. */
  datatype TotalEvents = TotalEvents(
    execEvents: seq<ExecveEvent>,
    openEvents: seq<OpenEvent>,
    syscallEvents: seq<string>,
    capabilitiesEvents: seq<CapabilitiesEvent>,
    dnsEvents: seq<DnsEvent>,
    networkEvents: seq<NetworkEvent>)

  /** What identifies a container to the collector; the map of containers is keyed by all of it. */
  datatype ContainerId = ContainerId(
    namespace: string, podName: string, container: string, containerID: string, nsMntId: nat, pid: nat)

  datatype Config = Config(ignoreMounts: bool, ignorePrefixes: seq<string>, storeNamespace: string)

  // ---------- Event types, as the sink and the tracer number them ----------

  datatype EventType =
    | ExecveEventType | OpenEventType | CapabilitiesEventType | DnsEventType | NetworkEventType
    | SyscallEventType | RandomXEventType | AllEventType

  /** An event of one of the five types the sink stores. */
  datatype SinkEvent =
    | Exec(exec: ExecveEvent) | Open(open: OpenEvent) | Capability(capability: CapabilitiesEvent)
    | Dns(dns: DnsEvent) | Network(network: NetworkEvent)
  {
    function Kind(): EventType {
      match this
      case Exec(_) => ExecveEventType
      case Open(_) => OpenEventType
      case Capability(_) => CapabilitiesEventType
      case Dns(_) => DnsEventType
      case Network(_) => NetworkEventType
    }

    function General(): GeneralEvent {
      match this
      case Exec(e) => e.general
      case Open(e) => e.general
      case Capability(e) => e.general
      case Dns(e) => e.general
      case Network(e) => e.general
    }
  }

  predicate IsStored(kind: EventType) {
    || kind.ExecveEventType? || kind.OpenEventType? || kind.CapabilitiesEventType?
    || kind.DnsEventType? || kind.NetworkEventType?
  }

  /** The key under which the sink stores the events of a container; the parts are joined without escaping. */
  function BucketKey(kind: EventType, namespace: string, podName: string, container: string): string {
    var prefix := match kind
                  case ExecveEventType => "execve"
                  case OpenEventType => "open"
                  case CapabilitiesEventType => "capabilities"
                  case DnsEventType => "dns"
                  case _ => "network";
    prefix + "-" + namespace + "-" + podName + "-" + container
  }

  function EventBucket(e: SinkEvent): string {
    BucketKey(e.Kind(), e.General().namespace, e.General().podName, e.General().containerName)
  }
}
