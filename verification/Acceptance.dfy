/** What saving a core config checks, spelled out over its fields, and what that gives the
    node that dials. */
module Acceptance {
  import opened Options
  import opened Wire
  import opened CoreOptions
  import opened CoreValidation
  import CompileGuarantees
  import opened DialerGuarantees

  // ----- What is accepted -----

  predicate AcceptableOutbound(ob: Outbound) {
    && !ob.kind.OtherOutbound?
    && (ob.kind !in {Direct, Block, Selector, UrlTest, Tor} ==> ob.server != "" && ob.serverPort != 0)
    && (ob.kind in {VmessOut, VlessOut, TuicOut} ==> ob.uuid != "")
    && (ob.kind in {SsOut, TrojanOut, Hysteria2Out, TuicOut, AnyTlsOut, Ssh} || (ob.kind == ShadowTls && ob.version != 1)
        ==> ob.password != "")
    && (ob.kind == Ssh ==> ob.username != "")
    && (ob.kind == SsOut ==> ClassicCipher(ob.cipher) || Cipher2022(ob.cipher))
    && (ob.kind == VmessOut ==> ob.security in {"auto", "none", "zero", "aes-128-gcm", "chacha20-poly1305"})
    && (ob.kind == TuicOut ==> ob.congestionControl in {"", "cubic", "new_reno", "bbr"})
    && (ob.kind == Hysteria1Out ==> ob.upMbps > 0 && ob.downMbps > 0)
    && (ob.kind == ShadowTls ==> 1 <= ob.version <= 3)
    && (ob.kind == SnellOut ==> ob.psk != "" && ob.obfsMode in {"", "none", "http", "tls"})
    && (ob.kind in {Selector, UrlTest} ==> ob.members != [])
    && (ob.directFallback ==> ob.bindInterface != "" && ob.kind !in {Block, Selector, UrlTest})
  }

  predicate ClassicCipher(cipher: string) {
    cipher in {"none", "aes-128-gcm", "aes-192-gcm", "aes-256-gcm", "chacha20-ietf-poly1305", "xchacha20-ietf-poly1305"}
  }

  predicate Cipher2022(cipher: string) {
    cipher in {"2022-blake3-aes-128-gcm", "2022-blake3-aes-256-gcm", "2022-blake3-chacha20-poly1305"}
  }

  /** A tag that traffic can be sent to. */
  predicate Reachable(c: CoreConfig, tag: string) {
    tag == "direct" || tag == "block" || exists i :: 0 <= i < |c.outbounds| && c.outbounds[i].tag == tag
  }

  predicate AcceptableRule(c: CoreConfig, r: Rule) {
    && Reachable(c, r.outboundTag)
    && (forall k | 0 <= k < |r.network| :: r.network[k] in {"tcp", "udp", "icmp"})
    && (forall k | 0 <= k < |r.protocol| ::
          r.protocol[k] in {"tls", "http", "quic", "dns", "stun", "bittorrent", "dtls", "ssh", "rdp", "ntp"})
    && (r.inboundPort != [] ==> r.inbound != [])
    && (forall k | 0 <= k < |r.inboundPort| :: 1 <= r.inboundPort[k] <= 65535)
    && (forall j, k | 0 <= j < k < |r.inboundPort| :: r.inboundPort[j] != r.inboundPort[k])
  }

  predicate AcceptableDns(s: DnsServer) {
    s.tag != "" && !s.kind.OtherDns? && (s.kind != LocalDns ==> s.address != "")
  }

  predicate Acceptable(c: CoreConfig) {
    && !c.logLevel.OtherLevel?
    && (forall i | 0 <= i < |c.outbounds| ::
          var ob := c.outbounds[i];
          ob.tag != "" && ob.tag != "direct" && ob.tag != "block" && AcceptableOutbound(ob))
    && (forall i, j | 0 <= i < j < |c.outbounds| :: c.outbounds[i].tag != c.outbounds[j].tag)
    && (forall i, k | 0 <= i < |c.outbounds| && 0 <= k < |c.outbounds[i].members| :: Reachable(c, c.outbounds[i].members[k]))
    && (forall i | 0 <= i < |c.rules| :: AcceptableRule(c, c.rules[i]))
    && (forall i | 0 <= i < |c.dnsServers| :: AcceptableDns(c.dnsServers[i]))
    && (forall i, j | 0 <= i < j < |c.dnsServers| :: c.dnsServers[i].tag != c.dnsServers[j].tag)
  }

  lemma ListedCiphers(cipher: string)
    ensures cipher in SS_METHODS <==> ClassicCipher(cipher) || Cipher2022(cipher)
  {
  }

  lemma ShapeExactly(ob: Outbound)
    ensures ValidShape(ob) <==> AcceptableOutbound(ob)
  {
    ListedCiphers(ob.cipher);
    CompileGuarantees.OutboundTypesAgree(ob);
    match ob.kind
    case OtherOutbound(_) =>
    case _ =>
  }

  lemma ReachableExactly(c: CoreConfig, tag: string)
    ensures tag in Targets(c.outbounds) <==> Reachable(c, tag)
  {
  }

  lemma RuleExactly(c: CoreConfig, r: Rule)
    ensures ValidRule(r, Targets(c.outbounds)) <==> AcceptableRule(c, r)
  {
    ReachableExactly(c, r.outboundTag);
  }

  lemma MembersExactly(c: CoreConfig)
    ensures (forall i | 0 <= i < |c.outbounds| :: MembersResolve(c.outbounds[i], Targets(c.outbounds))) <==>
            (forall i, k | 0 <= i < |c.outbounds| && 0 <= k < |c.outbounds[i].members| :: Reachable(c, c.outbounds[i].members[k]))
  {
    forall i, k | 0 <= i < |c.outbounds| && 0 <= k < |c.outbounds[i].members|
      ensures c.outbounds[i].members[k] in Targets(c.outbounds) <==> Reachable(c, c.outbounds[i].members[k])
    {
      ReachableExactly(c, c.outbounds[i].members[k]);
    }
  }

  lemma DnsExactly(s: DnsServer)
    ensures (s.tag != "" && s.kind in DNS_TYPES && (s.kind != LocalDns ==> s.address != "")) <==> AcceptableDns(s)
  {
    CompileGuarantees.DnsTypesAgree(s.kind);
  }

  lemma OutboundsExactly(obs: seq<Outbound>)
    ensures ValidOutbounds(obs) <==>
            && (forall i | 0 <= i < |obs| ::
                  obs[i].tag != "" && obs[i].tag != "direct" && obs[i].tag != "block" && AcceptableOutbound(obs[i]))
            && (forall i, j | 0 <= i < j < |obs| :: obs[i].tag != obs[j].tag)
  {
    forall i | 0 <= i < |obs|
      ensures ValidTag(obs[i].tag) && ValidShape(obs[i]) <==>
              obs[i].tag != "" && obs[i].tag != "direct" && obs[i].tag != "block" && AcceptableOutbound(obs[i])
    {
      ShapeExactly(obs[i]);
    }
  }

  /** Saving accepts exactly these configs: nothing on the list is let through without, and
      nothing else is asked. */
  lemma AcceptedExactly(c: CoreConfig)
    ensures Valid(c) <==> Acceptable(c)
  {
    OutboundsExactly(c.outbounds);
    MembersExactly(c);
    forall i | 0 <= i < |c.rules|
      ensures ValidRule(c.rules[i], Targets(c.outbounds)) <==> AcceptableRule(c, c.rules[i])
    {
      RuleExactly(c, c.rules[i]);
    }
    forall i | 0 <= i < |c.dnsServers|
      ensures (c.dnsServers[i].tag != "" && c.dnsServers[i].kind in DNS_TYPES && (c.dnsServers[i].kind != LocalDns ==> c.dnsServers[i].address != ""))
              <==> AcceptableDns(c.dnsServers[i])
    {
      DnsExactly(c.dnsServers[i]);
    }
  }

  // ----- What it gives the node -----

  /** A dialer that has what its protocol cannot do without. */
  predicate Complete(d: Dialer) {
    && (d.kind !in {Direct, Tor} ==> d.server != "")
    && (d.kind in {VmessOut, VlessOut, TuicOut} ==> d.uuid != "")
    && (d.kind in {SsOut, TrojanOut, Hysteria2Out, TuicOut, AnyTlsOut, Ssh} || (d.kind == ShadowTls && d.version >= 2)
        ==> d.password != "")
    && (d.kind == Ssh ==> d.username != "")
    && (d.kind == SsOut ==> ClassicCipher(d.cipher) || Cipher2022(d.cipher))
    && (d.kind == VmessOut ==> d.security in {"auto", "none", "zero", "aes-128-gcm", "chacha20-poly1305"})
    && (d.kind == TuicOut ==> d.congestionControl in {"", "cubic", "new_reno", "bbr"})
    && (d.kind == Hysteria1Out ==> d.upMbps > 0 && d.downMbps > 0)
    && (d.kind == ShadowTls ==> 1 <= d.version <= 3)
    && (d.kind == SnellOut ==> d.psk != "" && d.obfsMode in {"", "none", "http", "tls"})
    && (d.kind in {Hysteria2Out, TuicOut, AnyTlsOut, Hysteria1Out, ShadowTls} ==> d.tls.Some?)
  }

  lemma AcceptableDials(ob: Outbound, d: Dialer, bind: string)
    requires AcceptableOutbound(ob) && DialsFor(d, ob, bind) && ob.kind !in {Block, Selector, UrlTest}
    ensures Complete(d)
  {
  }

  /** Every dialer a node runs of an accepted config is complete. */
  lemma AcceptedDialersAreComplete(c: CoreConfig, e: Emitted)
    requires Valid(c) && AllKnown(c.outbounds) && e in EmitAll(c.outbounds) && e.options.Leaf?
    ensures Complete(e.options.dialer)
  {
    AcceptedExactly(c);
    var i := EmittedDialers(c.outbounds, e);
    if i != -1 {
      var ob := c.outbounds[i];
      if DialsFor(e.options.dialer, ob, ob.bindInterface) {
        AcceptableDials(ob, e.options.dialer, ob.bindInterface);
      } else {
        AcceptableDials(ob, e.options.dialer, "");
      }
    }
  }
}
