/** cmd/node/main.go, core half: how the core config becomes outbounds, routing rules,
    DNS servers and fail-open groups. */
module CoreOptions {
  import opened Options
  import opened Wire
  import opened Listeners
  import Seqs

  const DIRECT_OUT := "direct-out"
  const BLOCK_OUT := "block-out"
  const PRIMARY_SUFFIX := "~wg"
  const FALLBACK_SUFFIX := "~direct"

  /** TLS settings of an outbound; the protocols that run over TLS only force it on. */
  datatype DialTls = DialTls(serverName: string, insecure: bool)

  /** How a leaf outbound dials. Fields its type does not use stay blank. */
  datatype Dialer = Dialer(
    kind: OutboundKind, bind: string, server: string, serverPort: Port,
    username: string, password: string, uuid: string, flow: string, cipher: string,
    security: string, congestionControl: string, version: int, psk: string,
    obfsMode: string, obfsHost: string, obfs: string, upMbps: int, downMbps: int,
    executablePath: string, dataDirectory: string, tls: Option<DialTls>)

  datatype OutboundOptions =
    | BlockStub
    | Group(members: seq<string>, default: string, interrupt: bool)
    | Leaf(dialer: Dialer)

  datatype Emitted = Emitted(tag: string, kind: OutboundKind, options: OutboundOptions)

  datatype FallbackGroup = FallbackGroup(group: string, primary: string, fallback: string, iface: string)

  /** The match criteria of a rule besides the inbound. */
  datatype Criteria = Criteria(
    domain: seq<string>, domainSuffix: seq<string>, domainKeyword: seq<string>,
    ipCidr: seq<string>, ipIsPrivate: bool, port: seq<int>, portRange: seq<string>,
    network: seq<string>, protocol: seq<string>)

  /** A compiled rule. An empty inbound list is no inbound criterion at all. */
  datatype CompiledRule = Sniff | Route(inbound: seq<string>, criteria: Criteria, outbound: string)

  datatype DnsOptions =
    | Local(tag: string)
    | Remote(tag: string, kind: DnsKind, address: string, port: Port, path: string)

  /** route.Final is DIRECT_OUT in every build, so it has no field of its own. */
  datatype Core = Core(
    outbounds: seq<Emitted>, rules: seq<CompiledRule>, dns: Option<seq<DnsOptions>>,
    logLevel: LogLevel, fallbacks: seq<FallbackGroup>)

  function Resolve(tag: string): string {
    if tag == "direct" then DIRECT_OUT else if tag == "block" then BLOCK_OUT else tag
  }

  function ResolveAll(tags: seq<string>): (r: seq<string>)
    ensures |r| == |tags|
  {
    seq(|tags|, i requires 0 <= i < |tags| => Resolve(tags[i]))
  }

  // ----- Outbounds -----

  function BlankDialer(kind: OutboundKind): Dialer {
    Dialer(kind, "", "", 0, "", "", "", "", "", "", "", 0, "", "", "", "", 0, 0, "", "", None)
  }

  function DialerTls(ob: Outbound, forced: bool): Option<DialTls> {
    if forced || ob.tlsEnabled then Some(DialTls(ob.tlsServerName, ob.tlsInsecure)) else None
  }

  /** What each type that dials by itself sets on its dialer; None for an unknown type. */
  function Settings(ob: Outbound): Option<Dialer> {
    var plain := BlankDialer(ob.kind);
    var d := plain.(server := ob.server, serverPort := AsPort(ob.serverPort));
    match ob.kind
    case Direct => Some(plain)
    case Socks => Some(d.(username := ob.username, password := ob.password))
    case Http => Some(d.(username := ob.username, password := ob.password))
    case SsOut => Some(d.(cipher := ob.cipher, password := ob.password))
    case VmessOut => Some(d.(uuid := ob.uuid, security := ob.security, tls := DialerTls(ob, false)))
    case TrojanOut => Some(d.(password := ob.password, tls := DialerTls(ob, false)))
    case VlessOut => Some(d.(uuid := ob.uuid, flow := ob.flow, tls := DialerTls(ob, false)))
    case Hysteria2Out => Some(d.(password := ob.password, tls := DialerTls(ob, true)))
    case TuicOut =>
      Some(d.(uuid := ob.uuid, password := ob.password, congestionControl := ob.congestionControl,
              tls := DialerTls(ob, true)))
    case AnyTlsOut => Some(d.(password := ob.password, tls := DialerTls(ob, true)))
    case Hysteria1Out =>
      Some(d.(obfs := ob.obfs, password := ob.password, upMbps := ob.upMbps, downMbps := ob.downMbps,
              tls := DialerTls(ob, true)))
    case ShadowTls => Some(d.(version := ob.version, password := ob.password, tls := DialerTls(ob, true)))
    case SnellOut => Some(d.(version := 4, psk := ob.psk, obfsMode := ob.obfsMode, obfsHost := ob.obfsHost))
    case Ssh => Some(d.(username := ob.username, password := ob.password))
    case Tor => Some(plain.(executablePath := ob.executablePath, dataDirectory := ob.dataDirectory))
    case _ => None
  }

  /** The same, with the sockets pinned to an interface ("" leaves them on the default route). */
  function LeafOptions(ob: Outbound, bind: string): Option<Dialer> {
    match Settings(ob)
    case None => None
    case Some(d) => Some(d.(bind := bind))
  }

  predicate IsGroupKind(k: OutboundKind) {
    k == Selector || k == UrlTest
  }

  /** A type the outbound switch of buildCoreOptions accepts. */
  predicate KnownOutbound(k: OutboundKind) {
    !k.OtherOutbound?
  }

  predicate FailsOpen(ob: Outbound) {
    ob.kind != Block && !IsGroupKind(ob.kind) && ob.directFallback && ob.bindInterface != ""
  }

  function Primary(ob: Outbound): string { ob.tag + PRIMARY_SUFFIX }

  function Fallback(ob: Outbound): string { ob.tag + FALLBACK_SUFFIX }

  /** What one admin outbound is emitted as: itself, or a selector over its bound and
      its unbound twin. */
  function Emit(ob: Outbound): seq<Emitted>
    requires KnownOutbound(ob.kind)
  {
    if ob.kind == Block then [Emitted(ob.tag, Block, BlockStub)]
    else if IsGroupKind(ob.kind) then [Emitted(ob.tag, ob.kind, Group(ResolveAll(ob.members), "", false))]
    else
      var bound := Leaf(LeafOptions(ob, ob.bindInterface).value);
      if !FailsOpen(ob) then [Emitted(ob.tag, ob.kind, bound)]
      else
        [Emitted(Primary(ob), ob.kind, bound),
         Emitted(Fallback(ob), ob.kind, Leaf(LeafOptions(ob, "").value)),
         Emitted(ob.tag, Selector, Group([Primary(ob), Fallback(ob)], Primary(ob), true))]
  }

  const IMPLICIT_OUTBOUNDS := [
    Emitted(DIRECT_OUT, Direct, Leaf(BlankDialer(Direct))),
    Emitted(BLOCK_OUT, Block, BlockStub)]

  predicate AllKnown(obs: seq<Outbound>) {
    forall i | 0 <= i < |obs| :: KnownOutbound(obs[i].kind)
  }

  function EmitAll(obs: seq<Outbound>): seq<Emitted>
    requires AllKnown(obs)
  {
    if obs == [] then IMPLICIT_OUTBOUNDS
    else EmitAll(obs[..|obs| - 1]) + Emit(obs[|obs| - 1])
  }

  function FallbackGroups(obs: seq<Outbound>): seq<FallbackGroup> {
    if obs == [] then []
    else
      var ob := obs[|obs| - 1];
      FallbackGroups(obs[..|obs| - 1]) + GroupsOf(ob)
  }

  function GroupsOf(ob: Outbound): seq<FallbackGroup> {
    if FailsOpen(ob) then [FallbackGroup(ob.tag, Primary(ob), Fallback(ob), ob.bindInterface)] else []
  }

  /** One round of the outbound loop of buildCoreOptions. */
  method EmitOutbound(ob: Outbound) returns (r: Result<(seq<Emitted>, seq<FallbackGroup>)>)
    ensures r.Ok? <==> KnownOutbound(ob.kind)
    ensures r.Ok? ==> r.value.0 == Emit(ob) && r.value.1 == GroupsOf(ob)
    ensures r.Err? ==> r.error == UnknownOutboundType(ob.tag)
  {
    if ob.kind == Block {
      return Ok(([Emitted(ob.tag, ob.kind, BlockStub)], []));
    }
    if IsGroupKind(ob.kind) {
      return Ok(([Emitted(ob.tag, ob.kind, Group(ResolveAll(ob.members), "", false))], []));
    }
    var options := LeafOptions(ob, ob.bindInterface);
    if options == None {
      return Err(UnknownOutboundType(ob.tag));
    }
    if !ob.directFallback || ob.bindInterface == "" {
      return Ok(([Emitted(ob.tag, ob.kind, Leaf(options.value))], []));
    }
    var plain := LeafOptions(ob, "");
    var primary, fallback := ob.tag + PRIMARY_SUFFIX, ob.tag + FALLBACK_SUFFIX;
    return Ok((
      [Emitted(primary, ob.kind, Leaf(options.value)),
       Emitted(fallback, ob.kind, Leaf(plain.value)),
       Emitted(ob.tag, Selector, Group([primary, fallback], primary, true))],
      [FallbackGroup(ob.tag, primary, fallback, ob.bindInterface)]));
  }

  lemma KnownStep(obs: seq<Outbound>, i: nat)
    requires i < |obs|
    ensures AllKnown(obs[..i + 1]) <==> AllKnown(obs[..i]) && KnownOutbound(obs[i].kind)
    ensures AllKnown(obs) ==> KnownOutbound(obs[i].kind)
  {
    assert obs[..i + 1] == obs[..i] + [obs[i]];
  }

  lemma EmitStep(obs: seq<Outbound>, i: nat)
    requires i < |obs| && AllKnown(obs[..i + 1])
    ensures AllKnown(obs[..i])
    ensures EmitAll(obs[..i + 1]) == EmitAll(obs[..i]) + Emit(obs[i])
    ensures FallbackGroups(obs[..i + 1]) == FallbackGroups(obs[..i]) + GroupsOf(obs[i])
  {
    assert obs[..i + 1][..i] == obs[..i];
  }

  method BuildOutbounds(obs: seq<Outbound>) returns (r: Result<(seq<Emitted>, seq<FallbackGroup>)>)
    ensures r.Ok? <==> AllKnown(obs)
    ensures r.Ok? ==> r.value == (EmitAll(obs), FallbackGroups(obs))
    ensures r.Err? ==> exists i :: 0 <= i < |obs| && !KnownOutbound(obs[i].kind) && r.error == UnknownOutboundType(obs[i].tag)
  {
    var outbounds, fallbacks: seq<FallbackGroup> := IMPLICIT_OUTBOUNDS, [];
    for i := 0 to |obs|
      invariant AllKnown(obs[..i])
      invariant outbounds == EmitAll(obs[..i])
      invariant fallbacks == FallbackGroups(obs[..i])
    {
      KnownStep(obs, i);
      var one := EmitOutbound(obs[i]);
      if one.Err? {
        return Err(one.error);
      }
      EmitStep(obs, i);
      outbounds, fallbacks := outbounds + one.value.0, fallbacks + one.value.1;
    }
    assert obs[..|obs|] == obs;
    return Ok((outbounds, fallbacks));
  }

  // ----- Routing rules -----

  predicate Allowed(ports: seq<int>, p: Port) {
    ports == [] || p as int in ports
  }

  /** The listener tags one entry of a rule's inbound list stands for. */
  function EntryTags(tag: string, ports: seq<int>, portsByTag: map<string, seq<Port>>): seq<string> {
    if tag !in portsByTag then [tag]
    else if |portsByTag[tag]| <= 1 then
      if portsByTag[tag] == [] || Allowed(ports, portsByTag[tag][0]) then [tag] else []
    else DerivedTags(tag, ports, portsByTag[tag])
  }

  function DerivedTags(tag: string, ports: seq<int>, listen: seq<Port>): seq<string> {
    if listen == [] then []
    else
      var p := listen[|listen| - 1];
      DerivedTags(tag, ports, listen[..|listen| - 1]) + (if Allowed(ports, p) then [DerivedTag(tag, p)] else [])
  }

  function MatchTags(inbound: seq<string>, ports: seq<int>, portsByTag: map<string, seq<Port>>): seq<string> {
    if inbound == [] then []
    else
      MatchTags(inbound[..|inbound| - 1], ports, portsByTag) + EntryTags(inbound[|inbound| - 1], ports, portsByTag)
  }

  /** inboundMatchTags. */
  method InboundMatchTags(inbound: seq<string>, ports: seq<int>, portsByTag: map<string, seq<Port>>)
    returns (tags: seq<string>)
    ensures tags == MatchTags(inbound, ports, portsByTag)
  {
    tags := [];
    for i := 0 to |inbound|
      invariant tags == MatchTags(inbound[..i], ports, portsByTag)
    {
      var tag := inbound[i];
      assert inbound[..i + 1][..i] == inbound[..i];
      if tag !in portsByTag {
        tags := tags + [tag];
      } else if |portsByTag[tag]| <= 1 {
        if portsByTag[tag] == [] || Allowed(ports, portsByTag[tag][0]) {
          tags := tags + [tag];
        }
      } else {
        var listen := portsByTag[tag];
        var before := tags;
        for k := 0 to |listen|
          invariant tags == before + DerivedTags(tag, ports, listen[..k])
        {
          assert listen[..k + 1][..k] == listen[..k];
          if Allowed(ports, listen[k]) {
            tags := tags + [DerivedTag(tag, listen[k])];
          }
        }
        assert listen[..|listen|] == listen;
      }
    }
    assert inbound[..|inbound|] == inbound;
  }

  /** The criteria of a rule; destination ports pass through a uint16. */
  function CompiledCriteria(r: Rule): Criteria {
    Criteria(r.domain, r.domainSuffix, r.domainKeyword, r.ipCidr, r.ipIsPrivate, WrapPorts(r.port), r.portRange,
             r.network, r.protocol)
  }

  /** A rule whose inbound criterion is left with no listener is dropped. */
  function CompileRule(r: Rule, portsByTag: map<string, seq<Port>>): seq<CompiledRule> {
    var tags := MatchTags(r.inbound, r.inboundPort, portsByTag);
    if r.inbound != [] && tags == [] then []
    else [Route(tags, CompiledCriteria(r), Resolve(r.outboundTag))]
  }

  function CompileRules(sniff: bool, rules: seq<Rule>, portsByTag: map<string, seq<Port>>): seq<CompiledRule> {
    if rules == [] then if sniff then [Sniff] else []
    else CompileRules(sniff, rules[..|rules| - 1], portsByTag) + CompileRule(rules[|rules| - 1], portsByTag)
  }

  lemma RulesStep(sniff: bool, rules: seq<Rule>, i: nat, portsByTag: map<string, seq<Port>>)
    requires i < |rules|
    ensures CompileRules(sniff, rules[..i + 1], portsByTag) ==
            CompileRules(sniff, rules[..i], portsByTag) + CompileRule(rules[i], portsByTag)
  {
    assert rules[..i + 1][..i] == rules[..i];
  }

  method BuildRules(sniff: bool, rules: seq<Rule>, portsByTag: map<string, seq<Port>>)
    returns (compiled: seq<CompiledRule>)
    ensures compiled == CompileRules(sniff, rules, portsByTag)
  {
    compiled := if sniff then [Sniff] else [];
    for i := 0 to |rules|
      invariant compiled == CompileRules(sniff, rules[..i], portsByTag)
    {
      var r := rules[i];
      RulesStep(sniff, rules, i, portsByTag);
      var tags := [];
      if |r.inbound| > 0 {
        tags := InboundMatchTags(r.inbound, r.inboundPort, portsByTag);
        if |tags| == 0 {
          Seqs.EmptyRight(compiled);
          continue;
        }
      }
      compiled := compiled + [Route(tags, CompiledCriteria(r), Resolve(r.outboundTag))];
    }
    assert rules[..|rules|] == rules;
  }

  // ----- DNS -----

  predicate DnsKnown(servers: seq<DnsServer>) {
    forall i | 0 <= i < |servers| :: !servers[i].kind.OtherDns?
  }

  function DnsOption(s: DnsServer): DnsOptions
    requires !s.kind.OtherDns?
  {
    if s.kind == LocalDns then Local(s.tag)
    else Remote(s.tag, s.kind, s.address, AsPort(s.port), if s.kind == HttpsDns then s.path else "")
  }

  function DnsOptionsOf(servers: seq<DnsServer>): seq<DnsOptions>
    requires DnsKnown(servers)
  {
    seq(|servers|, i requires 0 <= i < |servers| => DnsOption(servers[i]))
  }

  method BuildDns(servers: seq<DnsServer>) returns (r: Result<seq<DnsOptions>>)
    ensures r.Ok? <==> DnsKnown(servers)
    ensures r.Ok? ==> r.value == DnsOptionsOf(servers)
    ensures r.Err? ==> exists i :: 0 <= i < |servers| && servers[i].kind.OtherDns? && r.error == UnknownDnsType(servers[i].tag)
  {
    var options := [];
    for i := 0 to |servers|
      invariant DnsKnown(servers[..i])
      invariant |options| == i && forall k | 0 <= k < i :: options[k] == DnsOption(servers[k])
    {
      if servers[i].kind.OtherDns? {
        return Err(UnknownDnsType(servers[i].tag));
      }
      options := options + [DnsOption(servers[i])];
    }
    return Ok(options);
  }

  // ----- The whole core -----

  predicate Compilable(core: CoreConfig) {
    AllKnown(core.outbounds) && DnsKnown(core.dnsServers)
  }

  function CompileCore(core: CoreConfig, portsByTag: map<string, seq<Port>>): Core
    requires Compilable(core)
  {
    Core(EmitAll(core.outbounds),
         CompileRules(core.sniff, core.rules, portsByTag),
         if core.dnsServers == [] then None else Some(DnsOptionsOf(core.dnsServers)),
         core.logLevel,
         FallbackGroups(core.outbounds))
  }

  /** What a request without a core section is compiled as. */
  const EMPTY_CORE := CoreConfig(UnsetLevel, false, [], [], [], None)

  /** buildCoreOptions; core may be missing. */
  method BuildCoreOptions(core: Option<CoreConfig>, portsByTag: map<string, seq<Port>>) returns (r: Result<Core>)
    ensures r.Ok? <==> core == None || Compilable(core.value)
    ensures r.Ok? ==> r.value == CompileCore(if core == None then EMPTY_CORE else core.value, portsByTag)
  {
    if core == None {
      return Ok(Core(IMPLICIT_OUTBOUNDS, [], None, UnsetLevel, []));
    }
    var outbounds := BuildOutbounds(core.value.outbounds);
    if outbounds.Err? {
      return Err(outbounds.error);
    }
    var rules := BuildRules(core.value.sniff, core.value.rules, portsByTag);
    var dns: Option<seq<DnsOptions>> := None;
    if |core.value.dnsServers| > 0 {
      var servers := BuildDns(core.value.dnsServers);
      if servers.Err? {
        return Err(servers.error);
      }
      dns := Some(servers.value);
    }
    return Ok(Core(outbounds.value.0, rules, dns, core.value.logLevel, outbounds.value.1));
  }
}
