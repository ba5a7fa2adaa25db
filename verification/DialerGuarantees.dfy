/** What the node dials, asks and logs of what the admin configured, field by field. */
module DialerGuarantees {
  import opened Options
  import opened Wire
  import opened CoreOptions
  import opened CoreValidation
  import opened CompileGuarantees
  import Routing

  /** A dialer of an outbound, read from the dialer's side: which fields its type uses, and
      that each holds what the admin put in the field of that name. */
  predicate DialsFor(d: Dialer, ob: Outbound, bind: string) {
    && d.kind == ob.kind && d.bind == bind
    && d.server == (if ob.kind in {Direct, Tor} then "" else ob.server)
    && d.serverPort as int == (if ob.kind in {Direct, Tor} then 0 else ob.serverPort % 0x1_0000)
    && d.username == (if ob.kind in {Socks, Http, Ssh} then ob.username else "")
    && d.password == (if ob.kind in {Socks, Http, SsOut, TrojanOut, Hysteria2Out, TuicOut, AnyTlsOut, Hysteria1Out, ShadowTls, Ssh}
                      then ob.password else "")
    && d.uuid == (if ob.kind in {VmessOut, VlessOut, TuicOut} then ob.uuid else "")
    && d.flow == (if ob.kind == VlessOut then ob.flow else "")
    && d.cipher == (if ob.kind == SsOut then ob.cipher else "")
    && d.security == (if ob.kind == VmessOut then ob.security else "")
    && d.congestionControl == (if ob.kind == TuicOut then ob.congestionControl else "")
    && d.version == (if ob.kind == ShadowTls then ob.version else if ob.kind == SnellOut then 4 else 0)
    && d.psk == (if ob.kind == SnellOut then ob.psk else "")
    && d.obfsMode == (if ob.kind == SnellOut then ob.obfsMode else "")
    && d.obfsHost == (if ob.kind == SnellOut then ob.obfsHost else "")
    && d.obfs == (if ob.kind == Hysteria1Out then ob.obfs else "")
    && d.upMbps == (if ob.kind == Hysteria1Out then ob.upMbps else 0)
    && d.downMbps == (if ob.kind == Hysteria1Out then ob.downMbps else 0)
    && d.executablePath == (if ob.kind == Tor then ob.executablePath else "")
    && d.dataDirectory == (if ob.kind == Tor then ob.dataDirectory else "")
    && d.tls == (if OverTls(ob) then Some(DialTls(ob.tlsServerName, ob.tlsInsecure)) else None)
  }

  /** Five types always run over TLS, three do where the admin says so. */
  predicate OverTls(ob: Outbound) {
    || ob.kind in {Hysteria2Out, TuicOut, AnyTlsOut, Hysteria1Out, ShadowTls}
    || (ob.kind in {VmessOut, TrojanOut, VlessOut} && ob.tlsEnabled)
  }

  lemma LeafDialsFor(ob: Outbound, bind: string)
    requires LeafOptions(ob, bind).Some?
    ensures DialsFor(LeafOptions(ob, bind).value, ob, bind)
  {
  }

  lemma LeafOfEmit(ob: Outbound, e: Emitted)
    requires KnownOutbound(ob.kind) && e in Emit(ob) && e.options.Leaf?
    ensures ob.kind !in {Block, Selector, UrlTest}
    ensures LeafOptions(ob, ob.bindInterface).Some? && LeafOptions(ob, "").Some?
    ensures || e.options.dialer == LeafOptions(ob, ob.bindInterface).value
            || (ob.directFallback && e.options.dialer == LeafOptions(ob, "").value)
  {
  }

  /** Every dialer a node runs is the plain one behind "direct", or dials for an outbound of
      the admin's, bound as configured or, as a fallback, not bound. */
  lemma EmittedDialers(obs: seq<Outbound>, e: Emitted) returns (i: int)
    requires AllKnown(obs) && e in EmitAll(obs) && e.options.Leaf?
    ensures -1 <= i < |obs|
    ensures i == -1 ==> e.tag == "direct-out" && e.options.dialer == BlankDialer(Direct)
    ensures i != -1 ==> obs[i].kind !in {Block, Selector, UrlTest}
    ensures i != -1 ==>
              || DialsFor(e.options.dialer, obs[i], obs[i].bindInterface)
              || (obs[i].directFallback && DialsFor(e.options.dialer, obs[i], ""))
  {
    i := EmittedFrom(obs, e);
    if i != -1 {
      LeafOfEmit(obs[i], e);
      LeafDialsFor(obs[i], obs[i].bindInterface);
      LeafDialsFor(obs[i], "");
    }
  }

  /** What each outbound runs as: a block, a group, a dialer under its own tag, or, when it
      is to fail open, a bound and an unbound dialer behind a selector of its tag that starts
      on the bound one and drops connections when it switches. */
  lemma EmitsExactly(ob: Outbound)
    requires KnownOutbound(ob.kind)
    ensures var es, open := Emit(ob), ob.directFallback && ob.bindInterface != "";
            && (ob.kind == Block ==> es == [Emitted(ob.tag, Block, BlockStub)])
            && (ob.kind !in {Block, Selector, UrlTest} && !open ==>
                  && |es| == 1 && es[0].tag == ob.tag && es[0].kind == ob.kind && es[0].options.Leaf?
                  && DialsFor(es[0].options.dialer, ob, ob.bindInterface))
            && (ob.kind !in {Block, Selector, UrlTest} && open ==>
                  && |es| == 3 && es[0].options.Leaf? && es[1].options.Leaf? && es[0].kind == es[1].kind == ob.kind
                  && es[0].tag == ob.tag + "~wg" && DialsFor(es[0].options.dialer, ob, ob.bindInterface)
                  && es[1].tag == ob.tag + "~direct" && DialsFor(es[1].options.dialer, ob, "")
                  && es[2] == Emitted(ob.tag, Selector, Group([ob.tag + "~wg", ob.tag + "~direct"], ob.tag + "~wg", true)))
  {
    if ob.kind !in {Block, Selector, UrlTest} {
      OutboundTypesAgree(ob);
      LeafDialsFor(ob, ob.bindInterface);
      LeafDialsFor(ob, "");
    }
  }

  /** Every outbound that is to fail open is handed to the supervisor, and no other is. */
  lemma {:induction false} SupervisedExactly(obs: seq<Outbound>, g: FallbackGroup)
    ensures g in FallbackGroups(obs) <==> exists i :: 0 <= i < |obs| && FailsOpenAs(obs[i], g)
  {
    if obs != [] {
      var n := |obs| - 1;
      SupervisedExactly(obs[..n], g);
      if i :| 0 <= i < n && FailsOpenAs(obs[..n][i], g) {
        assert FailsOpenAs(obs[i], g);
      }
      if i :| 0 <= i < |obs| && FailsOpenAs(obs[i], g) {
        assert i < n ==> FailsOpenAs(obs[..n][i], g);
      }
      assert g in GroupsOf(obs[n]) <==> FailsOpenAs(obs[n], g);
    }
  }

  predicate FailsOpenAs(ob: Outbound, g: FallbackGroup) {
    && ob.kind !in {Block, Selector, UrlTest} && ob.directFallback && ob.bindInterface != ""
    && g == FallbackGroup(ob.tag, ob.tag + "~wg", ob.tag + "~direct", ob.bindInterface)
  }

  /** A group keeps the admin's members, in order, under the tags they run as. */
  lemma GroupKeepsMembers(ob: Outbound)
    requires ob.kind == Selector || ob.kind == UrlTest
    ensures |Emit(ob)| == 1 && Emit(ob)[0].tag == ob.tag && Emit(ob)[0].kind == ob.kind && Emit(ob)[0].options.Group?
    ensures var members := Emit(ob)[0].options.members;
            |members| == |ob.members| && forall k | 0 <= k < |members| :: Routing.SameTarget(members[k], ob.members[k])
  {
  }

  /** The rest of the core: one DNS server per configured one, asked where and how it says,
      and the configured log level. */
  lemma CoreKeepsDns(core: CoreConfig, portsByTag: map<string, seq<Port>>)
    requires Compilable(core)
    ensures var c := CompileCore(core, portsByTag);
            && c.logLevel == core.logLevel
            && (c.dns == None <==> core.dnsServers == [])
            && (c.dns.Some? ==>
                  && |c.dns.value| == |core.dnsServers|
                  && forall k | 0 <= k < |c.dns.value| :: Asks(c.dns.value[k], core.dnsServers[k]))
  {
  }

  predicate Asks(o: DnsOptions, s: DnsServer) {
    match o
    case Local(tag) => s.kind == LocalDns && tag == s.tag
    case Remote(tag, kind, address, port, path) =>
      && s.kind != LocalDns && tag == s.tag && kind == s.kind && address == s.address
      && port as int == s.port % 0x1_0000 && path == (if s.kind == HttpsDns then s.path else "")
  }
}
