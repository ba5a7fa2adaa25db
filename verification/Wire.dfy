/** The wire contract between panel and node: the payload of
    GET /api/internal/node-config. The panel's structs and the node's mirror of
    them carry the same fields, so one set of datatypes stands for both.

    Every string the program only ever compares with constants (protocols,
    outbound types, DNS types, log levels) is an enumeration here, with one extra
    constructor that keeps any other string. */
module Wire {
  import opened Options

  /** A Go uint16. */
  type Port = p: int | 0 <= p < 0x1_0000

  /** The conversion uint16(n) of a Go integer. */
  function AsPort(n: int): Port {
    n % 0x1_0000
  }

  function WrapPorts(ports: seq<int>): (r: seq<Port>)
    ensures |r| == |ports|
  {
    seq(|ports|, i requires 0 <= i < |ports| => AsPort(ports[i]))
  }

  datatype Protocol =
    | Vless | Vmess | Trojan | Shadowsocks | Hysteria2 | Tuic | Snell | AnyTls
    | OtherProtocol(name: string)

  datatype User = User(
    name: string, uuid: string, password: string, flow: string, cipher: string, userKey: string)

  datatype Reality = Reality(
    privateKey: string, shortIds: seq<string>, serverName: string, serverPort: Port)

  datatype Tls = Tls(serverName: string, certificate: string, key: string, reality: Option<Reality>)

  datatype TransportKind = WebSocket | HttpUpgrade | OtherTransport(name: string)

  datatype Transport = Transport(kind: TransportKind, path: string, host: string)

  /** One logical inbound. listenPorts is non-empty only when it serves several ports. */
  datatype Inbound = Inbound(
    tag: string, protocol: Protocol, listenPort: Port, listenPorts: seq<Port>,
    users: seq<User>, tls: Option<Tls>, transport: Option<Transport>,
    obfsPassword: string, upMbps: int, downMbps: int,
    congestionControl: string, zeroRtt: bool, snellPsk: string, snellMode: string)

  datatype OutboundKind =
    | Direct | Block | Socks | Http | SsOut | VmessOut | TrojanOut | VlessOut
    | Hysteria2Out | TuicOut | Selector | UrlTest | AnyTlsOut | Hysteria1Out
    | ShadowTls | SnellOut | Ssh | Tor
    | OtherOutbound(name: string)

  datatype Outbound = Outbound(
    tag: string, kind: OutboundKind, server: string, serverPort: int,
    username: string, password: string, members: seq<string>,
    uuid: string, flow: string, cipher: string, security: string, congestionControl: string,
    version: int, psk: string, obfsMode: string, obfsHost: string, obfs: string,
    upMbps: int, downMbps: int, executablePath: string, dataDirectory: string,
    tlsEnabled: bool, tlsServerName: string, tlsInsecure: bool,
    bindInterface: string, directFallback: bool)

  datatype Rule = Rule(
    inbound: seq<string>, inboundPort: seq<int>,
    domain: seq<string>, domainSuffix: seq<string>, domainKeyword: seq<string>,
    ipCidr: seq<string>, ipIsPrivate: bool, port: seq<int>, portRange: seq<string>,
    network: seq<string>, protocol: seq<string>, outboundTag: string)

  datatype DnsKind = LocalDns | UdpDns | TcpDns | TlsDns | HttpsDns | OtherDns(name: string)

  datatype DnsServer = DnsServer(tag: string, kind: DnsKind, address: string, port: int, path: string)

  datatype LogLevel =
    | UnsetLevel | Trace | Debug | Info | Warn | Error | Fatal | Panic
    | OtherLevel(name: string)

  /** The fleet's core configuration. updatedAt is sent by the panel and hashed into
      the version, but the node's mirror of the struct has no such field. */
  datatype CoreConfig = CoreConfig(
    logLevel: LogLevel, sniff: bool,
    outbounds: seq<Outbound>, rules: seq<Rule>, dnsServers: seq<DnsServer>,
    updatedAt: Option<int>)

  /** SHA-256 of the canonical payload, treated as injective. */
  datatype Version = Sha256(inbounds: seq<Inbound>, core: CoreConfig)

  /** One rendered payload: the response body of the panel. */
  datatype Payload = Payload(version: Version, inbounds: seq<Inbound>, core: CoreConfig)

  function MakePayload(inbounds: seq<Inbound>, core: CoreConfig): Payload {
    Payload(Sha256(inbounds, core), inbounds, core)
  }

  /** What the node reads from a body: every field but updatedAt. */
  function Decode(body: Payload): Payload {
    body.(core := body.core.(updatedAt := None))
  }

  /** A body the panel renders and the node decodes: its version is the hash of what
      was hashed, and the decoded part of that is what the body carries. */
  predicate Genuine(config: Payload) {
    && config.inbounds == config.version.inbounds
    && config.core == config.version.core.(updatedAt := None)
  }

  lemma DecodedIsGenuine(inbounds: seq<Inbound>, core: CoreConfig)
    ensures Genuine(Decode(MakePayload(inbounds, core)))
  {
  }

  /** Every port an inbound listens on. */
  function Ports(inb: Inbound): (ports: seq<Port>)
    ensures |ports| > 0
  {
    if |inb.listenPorts| > 0 then inb.listenPorts else [inb.listenPort]
  }

  /** The same, asked of one port: one of the list, or the only one there is. */
  predicate ListensOn(inb: Inbound, p: Port) {
    if inb.listenPorts == [] then p == inb.listenPort else p in inb.listenPorts
  }

  function Tags(inbounds: seq<Inbound>): set<string> {
    set i | 0 <= i < |inbounds| :: inbounds[i].tag
  }

  predicate NoHash(s: string) {
    '#' !in s
  }

  predicate Distinct<T(==)>(xs: seq<T>) {
    forall i, j | 0 <= i < j < |xs| :: xs[i] != xs[j]
  }

  predicate DistinctTags(inbounds: seq<Inbound>) {
    forall i, j | 0 <= i < j < |inbounds| :: inbounds[i].tag != inbounds[j].tag
  }

  /** The database's guarantee (tags are unique, ports are SELECT DISTINCT) plus the
      program's assumption that no tag contains the separator of derived tags. */
  predicate WellFormed(inbounds: seq<Inbound>) {
    && DistinctTags(inbounds)
    && (forall i | 0 <= i < |inbounds| :: NoHash(inbounds[i].tag) && Distinct(Ports(inbounds[i])))
  }
}
