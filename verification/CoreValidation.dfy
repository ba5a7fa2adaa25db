/** internal/httpapi/coreconfig.go: the structural validation every saved core config
    passes, and what passing it guarantees about the node's compilation. */
module CoreValidation {
  import opened Options
  import opened Wire
  import opened Listeners
  import opened CoreOptions

  /** The types the panel accepts; the node's switches have lists of their own. */
  const OUTBOUND_TYPES: set<OutboundKind> := {
    Direct, Block, Socks, Http, SsOut, VmessOut, TrojanOut, VlessOut, Hysteria2Out, TuicOut, Selector, UrlTest,
    AnyTlsOut, Hysteria1Out, ShadowTls, SnellOut, Ssh, Tor}
  const DNS_TYPES: set<DnsKind> := {LocalDns, UdpDns, TcpDns, TlsDns, HttpsDns}
  const SS_METHODS: set<string> := {
    "none", "aes-128-gcm", "aes-192-gcm", "aes-256-gcm", "chacha20-ietf-poly1305", "xchacha20-ietf-poly1305",
    "2022-blake3-aes-128-gcm", "2022-blake3-aes-256-gcm", "2022-blake3-chacha20-poly1305"}
  const VMESS_SECURITY: set<string> := {"auto", "none", "zero", "aes-128-gcm", "chacha20-poly1305"}
  const CONGESTION_CONTROL: set<string> := {"cubic", "new_reno", "bbr"}
  const SNELL_OBFS: set<string> := {"none", "http", "tls"}
  const NETWORKS: set<string> := {"tcp", "udp", "icmp"}
  const PROTOCOLS: set<string> := {"tls", "http", "quic", "dns", "stun", "bittorrent", "dtls", "ssh", "rdp", "ntp"}
  const IMPLICIT_TAGS: set<string> := {"direct", "block"}

  datatype Defect =
    | InvalidLogLevel
    | ReservedTag(tag: string)
    | DuplicateTag(tag: string)
    | InvalidOutbound(tag: string)
    | UnknownMember(tag: string, missing: string)
    | UnknownTarget(missing: string)
    | InvalidNetwork(name: string)
    | InvalidProtocol(name: string)
    | PortWithoutInbound
    | InvalidInboundPort(port: int)
    | DuplicateInboundPort(port: int)
    | EmptyDnsTag
    | DuplicateDnsTag(tag: string)
    | InvalidDnsServer(tag: string)

  predicate ValidLevel(l: LogLevel) {
    !l.OtherLevel? && l != UnsetLevel
  }

  predicate NeedsServer(k: OutboundKind) {
    k in {Socks, Http, SsOut, VmessOut, TrojanOut, VlessOut, Hysteria2Out, TuicOut, AnyTlsOut, Hysteria1Out,
          ShadowTls, SnellOut, Ssh}
  }

  /** The fields one type requires of itself. */
  predicate TypeFieldsValid(ob: Outbound) {
    match ob.kind
    case SsOut => ob.cipher in SS_METHODS && ob.password != ""
    case VmessOut => ob.uuid != "" && ob.security in VMESS_SECURITY
    case TrojanOut => ob.password != ""
    case VlessOut => ob.uuid != ""
    case Hysteria2Out => ob.password != ""
    case TuicOut =>
      ob.uuid != "" && ob.password != "" && (ob.congestionControl == "" || ob.congestionControl in CONGESTION_CONTROL)
    case AnyTlsOut => ob.password != ""
    case Hysteria1Out => ob.upMbps > 0 && ob.downMbps > 0
    case ShadowTls => 1 <= ob.version <= 3 && (ob.version == 1 || ob.password != "")
    case SnellOut => ob.psk != "" && (ob.obfsMode == "" || ob.obfsMode in SNELL_OBFS)
    case Ssh => ob.username != "" && ob.password != ""
    case _ => true
  }

  /** Everything checked of one outbound by itself, bar its tag. */
  predicate ValidShape(ob: Outbound) {
    && ob.kind in OUTBOUND_TYPES
    && (NeedsServer(ob.kind) ==> ob.server != "" && ob.serverPort != 0)
    && (IsGroupKind(ob.kind) ==> ob.members != [])
    && (ob.directFallback ==> ob.bindInterface != "" && !IsGroupKind(ob.kind) && ob.kind != Block)
    && TypeFieldsValid(ob)
  }

  predicate ValidTag(tag: string) {
    tag != "" && tag !in IMPLICIT_TAGS
  }

  predicate DistinctOutbounds(obs: seq<Outbound>) {
    forall i, j | 0 <= i < j < |obs| :: obs[i].tag != obs[j].tag
  }

  function OutboundTags(obs: seq<Outbound>): set<string> {
    set i | 0 <= i < |obs| :: obs[i].tag
  }

  lemma SnocTags(obs: seq<Outbound>)
    requires obs != []
    ensures OutboundTags(obs) == OutboundTags(obs[..|obs| - 1]) + {obs[|obs| - 1].tag}
  {
    var init := obs[..|obs| - 1];
    assert forall i | 0 <= i < |init| :: obs[i] == init[i];
  }

  /** The tags a routing rule or a group member may name. */
  function Targets(obs: seq<Outbound>): set<string> {
    IMPLICIT_TAGS + OutboundTags(obs)
  }

  predicate ValidOutbounds(obs: seq<Outbound>) {
    && (forall i | 0 <= i < |obs| :: ValidTag(obs[i].tag) && ValidShape(obs[i]))
    && DistinctOutbounds(obs)
  }

  predicate MembersResolve(ob: Outbound, targets: set<string>) {
    forall k | 0 <= k < |ob.members| :: ob.members[k] in targets
  }

  predicate ValidRule(r: Rule, targets: set<string>) {
    && r.outboundTag in targets
    && (forall k | 0 <= k < |r.network| :: r.network[k] in NETWORKS)
    && (forall k | 0 <= k < |r.protocol| :: r.protocol[k] in PROTOCOLS)
    && (r.inboundPort != [] ==> r.inbound != [])
    && (forall k | 0 <= k < |r.inboundPort| :: 1 <= r.inboundPort[k] <= 65535)
    && Distinct(r.inboundPort)
  }

  predicate ValidDns(servers: seq<DnsServer>) {
    && (forall i | 0 <= i < |servers| ::
          && servers[i].tag != "" && servers[i].kind in DNS_TYPES
          && (servers[i].kind != LocalDns ==> servers[i].address != ""))
    && (forall i, j | 0 <= i < j < |servers| :: servers[i].tag != servers[j].tag)
  }

  predicate Valid(c: CoreConfig) {
    && (c.logLevel == UnsetLevel || ValidLevel(c.logLevel))
    && ValidOutbounds(c.outbounds)
    && (forall i | 0 <= i < |c.outbounds| :: MembersResolve(c.outbounds[i], Targets(c.outbounds)))
    && (forall i | 0 <= i < |c.rules| :: ValidRule(c.rules[i], Targets(c.outbounds)))
    && ValidDns(c.dnsServers)
  }

  /** What each message says really is wrong with the config. */
  predicate Explains(d: Defect, c: CoreConfig) {
    match d
    case InvalidLogLevel => c.logLevel.OtherLevel?
    case ReservedTag(t) => !ValidTag(t) && t in OutboundTags(c.outbounds)
    case DuplicateTag(t) => exists i, j :: 0 <= i < j < |c.outbounds| && c.outbounds[i].tag == c.outbounds[j].tag == t
    case InvalidOutbound(t) => exists i :: 0 <= i < |c.outbounds| && c.outbounds[i].tag == t && !ValidShape(c.outbounds[i])
    case UnknownMember(t, m) =>
      m !in Targets(c.outbounds) &&
      exists i :: 0 <= i < |c.outbounds| && c.outbounds[i].tag == t && m in c.outbounds[i].members
    case UnknownTarget(t) =>
      t !in Targets(c.outbounds) && exists i :: 0 <= i < |c.rules| && c.rules[i].outboundTag == t
    case InvalidNetwork(n) => n !in NETWORKS && exists i :: 0 <= i < |c.rules| && n in c.rules[i].network
    case InvalidProtocol(n) => n !in PROTOCOLS && exists i :: 0 <= i < |c.rules| && n in c.rules[i].protocol
    case PortWithoutInbound => exists i :: 0 <= i < |c.rules| && c.rules[i].inboundPort != [] && c.rules[i].inbound == []
    case InvalidInboundPort(p) =>
      !(1 <= p <= 65535) && exists i :: 0 <= i < |c.rules| && p in c.rules[i].inboundPort
    case DuplicateInboundPort(p) =>
      exists i :: 0 <= i < |c.rules| && !Distinct(c.rules[i].inboundPort) && p in c.rules[i].inboundPort
    case EmptyDnsTag => exists i :: 0 <= i < |c.dnsServers| && c.dnsServers[i].tag == ""
    case DuplicateDnsTag(t) =>
      exists i, j :: 0 <= i < j < |c.dnsServers| && c.dnsServers[i].tag == c.dnsServers[j].tag == t
    case InvalidDnsServer(t) =>
      exists i :: 0 <= i < |c.dnsServers| && c.dnsServers[i].tag == t
                  && (c.dnsServers[i].kind !in DNS_TYPES || (c.dnsServers[i].kind != LocalDns && c.dnsServers[i].address == ""))
  }

  // ----- validateCoreConfig -----

  /** validateCoreConfig: silent exactly on valid configs, and right about the others. */
  method ValidateCoreConfig(c: CoreConfig) returns (d: Option<Defect>)
    ensures d == None <==> Valid(c)
    ensures d.Some? ==> Explains(d.value, c)
  {
    if c.logLevel != UnsetLevel && !ValidLevel(c.logLevel) {
      return Some(InvalidLogLevel);
    }
    var outboundDefect, tags := CheckOutbounds(c);
    if outboundDefect != None {
      return outboundDefect;
    }
    var targets := IMPLICIT_TAGS + tags;
    var memberDefect := CheckMembers(c, targets);
    if memberDefect != None {
      return memberDefect;
    }
    for i := 0 to |c.rules|
      invariant forall k | 0 <= k < i :: ValidRule(c.rules[k], targets)
    {
      var ruleDefect := CheckRule(c, i, targets);
      if ruleDefect != None {
        return ruleDefect;
      }
    }
    d := CheckDns(c);
  }

  method CheckOutbounds(c: CoreConfig) returns (d: Option<Defect>, tags: set<string>)
    ensures d == None <==> ValidOutbounds(c.outbounds)
    ensures d == None ==> tags == OutboundTags(c.outbounds)
    ensures d.Some? ==> Explains(d.value, c)
  {
    tags := {};
    for i := 0 to |c.outbounds|
      invariant ValidOutbounds(c.outbounds[..i])
      invariant tags == OutboundTags(c.outbounds[..i])
    {
      var ob := c.outbounds[i];
      if ob.tag == "" || ob.tag in IMPLICIT_TAGS {
        return Some(ReservedTag(ob.tag)), tags;
      }
      if ob.tag in tags {
        return Some(DuplicateTag(ob.tag)), tags;
      }
      tags := tags + {ob.tag};
      if !ValidShape(ob) {
        return Some(InvalidOutbound(ob.tag)), tags;
      }
      assert c.outbounds[..i + 1] == c.outbounds[..i] + [ob];
    }
    assert c.outbounds[..|c.outbounds|] == c.outbounds;
    d := None;
  }

  method CheckMembers(c: CoreConfig, targets: set<string>) returns (d: Option<Defect>)
    requires targets == Targets(c.outbounds)
    ensures d == None <==> forall i | 0 <= i < |c.outbounds| :: MembersResolve(c.outbounds[i], targets)
    ensures d.Some? ==> Explains(d.value, c)
  {
    for i := 0 to |c.outbounds|
      invariant forall k | 0 <= k < i :: MembersResolve(c.outbounds[k], targets)
    {
      var members := c.outbounds[i].members;
      for k := 0 to |members|
        invariant forall n | 0 <= n < k :: members[n] in targets
      {
        if members[k] !in targets {
          return Some(UnknownMember(c.outbounds[i].tag, members[k]));
        }
      }
    }
    return None;
  }

  method CheckRule(c: CoreConfig, i: nat, targets: set<string>) returns (d: Option<Defect>)
    requires i < |c.rules| && targets == Targets(c.outbounds)
    ensures d == None <==> ValidRule(c.rules[i], targets)
    ensures d.Some? ==> Explains(d.value, c)
  {
    var r := c.rules[i];
    if r.outboundTag !in targets {
      return Some(UnknownTarget(r.outboundTag));
    }
    for k := 0 to |r.network|
      invariant forall n | 0 <= n < k :: r.network[n] in NETWORKS
    {
      if r.network[k] !in NETWORKS {
        return Some(InvalidNetwork(r.network[k]));
      }
    }
    for k := 0 to |r.protocol|
      invariant forall n | 0 <= n < k :: r.protocol[n] in PROTOCOLS
    {
      if r.protocol[k] !in PROTOCOLS {
        return Some(InvalidProtocol(r.protocol[k]));
      }
    }
    if |r.inboundPort| > 0 {
      if |r.inbound| == 0 {
        return Some(PortWithoutInbound);
      }
      var seen: set<int> := {};
      for k := 0 to |r.inboundPort|
        invariant forall n | 0 <= n < k :: 1 <= r.inboundPort[n] <= 65535
        invariant seen == set n | 0 <= n < k :: r.inboundPort[n]
        invariant Distinct(r.inboundPort[..k])
      {
        var p := r.inboundPort[k];
        if p < 1 || p > 65535 {
          return Some(InvalidInboundPort(p));
        }
        if p in seen {
          return Some(DuplicateInboundPort(p));
        }
        seen := seen + {p};
      }
      assert r.inboundPort[..|r.inboundPort|] == r.inboundPort;
    }
    return None;
  }

  method CheckDns(c: CoreConfig) returns (d: Option<Defect>)
    ensures d == None <==> ValidDns(c.dnsServers)
    ensures d.Some? ==> Explains(d.value, c)
  {
    var seen: set<string> := {};
    for i := 0 to |c.dnsServers|
      invariant ValidDns(c.dnsServers[..i])
      invariant seen == set n | 0 <= n < i :: c.dnsServers[n].tag
    {
      var s := c.dnsServers[i];
      if s.tag == "" {
        return Some(EmptyDnsTag);
      }
      if s.tag in seen {
        return Some(DuplicateDnsTag(s.tag));
      }
      seen := seen + {s.tag};
      if s.kind !in DNS_TYPES || (s.kind != LocalDns && s.address == "") {
        return Some(InvalidDnsServer(s.tag));
      }
    }
    assert c.dnsServers[..|c.dnsServers|] == c.dnsServers;
    return None;
  }
}
