/** What a core config's routing rules mean for a connection, before and after
    compilation, and when the two agree. */
module Routing {
  import opened Options
  import opened Wire
  import opened Listeners
  import opened CoreOptions
  import Seqs

  /** A connection that arrived on one local port of one inbound. */
  datatype Conn = Conn(
    inbound: string, localPort: Port, destination: string, destPort: Port, network: string, protocol: string)

  /** The core's own matching of everything but inbound and port, for any such core: of
      domains, domain suffixes, domain keywords, networks of addresses, whether private
      addresses are meant, networks and protocols, in this order. The flag says whether the
      connection has been sniffed yet. */
  datatype Matcher = Matcher(
    address: (seq<string>, seq<string>, seq<string>, seq<string>, bool, seq<string>, seq<string>, Conn, bool) -> bool,
    portRange: (seq<string>, Port) -> bool)

  // ----- What a saved rule says -----

  /** A rule looks at the inbound's own tag and the local port. inbound_port only narrows a
      non-empty inbound list. */
  predicate SourceAdmits(r: Rule, tag: string, port: Port) {
    r.inbound == [] || (tag in r.inbound && (r.inboundPort == [] || port as int in r.inboundPort))
  }

  predicate SourceCriteria(m: Matcher, r: Rule, conn: Conn, sniffed: bool) {
    && m.address(r.domain, r.domainSuffix, r.domainKeyword, r.ipCidr, r.ipIsPrivate, r.network, r.protocol, conn, sniffed)
    && ((r.port == [] && r.portRange == []) || conn.destPort as int in r.port || m.portRange(r.portRange, conn.destPort))
  }

  predicate SourceMatch(m: Matcher, r: Rule, conn: Conn, sniffed: bool) {
    SourceAdmits(r, conn.inbound, conn.localPort) && SourceCriteria(m, r, conn, sniffed)
  }

  /** First match, in the admin's terms. */
  function SourceTarget(m: Matcher, rules: seq<Rule>, conn: Conn, sniffed: bool): string {
    if rules == [] then "direct"
    else if SourceMatch(m, rules[0], conn, sniffed) then rules[0].outboundTag
    else SourceTarget(m, rules[1..], conn, sniffed)
  }

  // ----- What a compiled rule does -----

  predicate CriteriaMatch(m: Matcher, c: Criteria, conn: Conn, sniffed: bool) {
    && m.address(c.domain, c.domainSuffix, c.domainKeyword, c.ipCidr, c.ipIsPrivate, c.network, c.protocol, conn, sniffed)
    && ((c.port == [] && c.portRange == []) || conn.destPort as int in c.port || m.portRange(c.portRange, conn.destPort))
  }

  /** The tag a target of the admin's runs under: "direct" and "block" are names for the two
      outbounds every node has. */
  predicate SameTarget(running: string, target: string) {
    running == (if target == "direct" then "direct-out" else if target == "block" then "block-out" else target)
  }

  /** First match as the core runs it: a compiled rule looks at the listener's tag, and
      a sniff rule is not final. */
  function CompiledTarget(m: Matcher, rules: seq<CompiledRule>, listener: string, conn: Conn, sniffed: bool): string {
    if rules == [] then DIRECT_OUT
    else
      match rules[0]
      case Sniff => CompiledTarget(m, rules[1..], listener, conn, true)
      case Route(tags, criteria, outbound) =>
        if (tags == [] || listener in tags) && CriteriaMatch(m, criteria, conn, sniffed) then outbound
        else CompiledTarget(m, rules[1..], listener, conn, sniffed)
  }

  // ----- Inbound criterion -----

  /** A rule hijacks a listener when its inbound list spells that listener's derived tag
      literally, as the name of an inbound this config does not define, although the
      rule does not admit the listener's inbound and port. */
  predicate Hijacks(r: Rule, inb: Inbound, port: Port) {
    |Ports(inb)| > 1 && DerivedTag(inb.tag, port) in r.inbound && !SourceAdmits(r, inb.tag, port)
  }

  lemma {:induction false} DerivedTagsMember(tag: string, ports: seq<int>, listen: seq<Port>, p: Port)
    requires NoHash(tag)
    ensures DerivedTag(tag, p) in DerivedTags(tag, ports, listen) <==> p in listen && Allowed(ports, p)
  {
    if listen != [] {
      var n := |listen| - 1;
      DerivedTagsMember(tag, ports, listen[..n], p);
      if DerivedTag(tag, listen[n]) == DerivedTag(tag, p) {
        DerivedTagInjective(tag, listen[n], tag, p);
      }
      assert listen == listen[..n] + [listen[n]];
    }
  }

  lemma {:induction false} DerivedTagsShape(tag: string, ports: seq<int>, listen: seq<Port>, t: string)
    requires t in DerivedTags(tag, ports, listen)
    ensures exists p :: p in listen && t == DerivedTag(tag, p)
  {
    if listen != [] {
      var n := |listen| - 1;
      if t in DerivedTags(tag, ports, listen[..n]) {
        DerivedTagsShape(tag, ports, listen[..n], t);
        var p :| p in listen[..n] && t == DerivedTag(tag, p);
        assert p in listen;
      } else {
        assert t == DerivedTag(tag, listen[n]);
      }
    }
  }

  lemma {:induction false} MatchTagsMember(inbound: seq<string>, ports: seq<int>, portsByTag: map<string, seq<Port>>, t: string)
    ensures t in MatchTags(inbound, ports, portsByTag) <==>
            exists k :: 0 <= k < |inbound| && t in EntryTags(inbound[k], ports, portsByTag)
  {
    if inbound != [] {
      var n := |inbound| - 1;
      MatchTagsMember(inbound[..n], ports, portsByTag, t);
    }
  }

  lemma OwnEntryAdmits(inb: Inbound, port: Port, ports: seq<int>, portsByTag: map<string, seq<Port>>)
    requires NoHash(inb.tag) && port in Ports(inb) && inb.tag in portsByTag && portsByTag[inb.tag] == Ports(inb)
    ensures ListenerTag(inb, port) in EntryTags(inb.tag, ports, portsByTag) <==> Allowed(ports, port)
  {
    if |Ports(inb)| > 1 {
      DerivedTagsMember(inb.tag, ports, Ports(inb), port);
    } else {
      assert port == Ports(inb)[0];
    }
  }

  lemma OtherEntryAdmits(inbounds: seq<Inbound>, i: nat, port: Port, j: nat, ports: seq<int>, portsByTag: map<string, seq<Port>>)
    requires WellFormed(inbounds) && i < |inbounds| && j < |inbounds| && i != j && port in Ports(inbounds[i])
    requires inbounds[j].tag in portsByTag && portsByTag[inbounds[j].tag] == Ports(inbounds[j])
    ensures ListenerTag(inbounds[i], port) !in EntryTags(inbounds[j].tag, ports, portsByTag)
  {
    var listener, entry := ListenerTag(inbounds[i], port), inbounds[j].tag;
    var listen := Ports(inbounds[j]);
    DerivedTagHasHash(inbounds[i].tag, port);
    if |listen| > 1 && listener in EntryTags(entry, ports, portsByTag) {
      DerivedTagsShape(entry, ports, listen, listener);
      var q :| q in listen && listener == DerivedTag(entry, q);
      ListenerTagInjective(inbounds, i, port, j, q);
    }
  }

  /** What one entry of a rule's inbound list contributes for a served listener. */
  lemma EntryAdmits(inbounds: seq<Inbound>, i: nat, port: Port, entry: string, ports: seq<int>)
    requires WellFormed(inbounds) && i < |inbounds| && port in Ports(inbounds[i])
    ensures ListenerTag(inbounds[i], port) in EntryTags(entry, ports, PortsByTag(inbounds)) <==>
            (entry == inbounds[i].tag && Allowed(ports, port)) || (|Ports(inbounds[i])| > 1 && entry == DerivedTag(inbounds[i].tag, port))
  {
    PortsByTagLookup(inbounds);
    DerivedTagHasHash(inbounds[i].tag, port);
    if entry in Tags(inbounds) {
      var j :| 0 <= j < |inbounds| && inbounds[j].tag == entry;
      if j == i {
        OwnEntryAdmits(inbounds[i], port, ports, PortsByTag(inbounds));
      } else {
        OtherEntryAdmits(inbounds, i, port, j, ports, PortsByTag(inbounds));
      }
    } else {
      assert inbounds[i].tag in Tags(inbounds);
    }
  }

  /** The compiled inbound criterion admits a served listener exactly when the source
      rule admits its inbound and port, or the rule hijacks it. */
  lemma InboundCriterion(inbounds: seq<Inbound>, i: nat, port: Port, r: Rule)
    requires WellFormed(inbounds) && i < |inbounds| && port in Ports(inbounds[i]) && r.inbound != []
    ensures ListenerTag(inbounds[i], port) in MatchTags(r.inbound, r.inboundPort, PortsByTag(inbounds)) <==>
            SourceAdmits(r, inbounds[i].tag, port) || Hijacks(r, inbounds[i], port)
  {
    var inb := inbounds[i];
    var table := PortsByTag(inbounds);
    var t := ListenerTag(inb, port);
    MatchTagsMember(r.inbound, r.inboundPort, table, t);
    forall k | 0 <= k < |r.inbound|
      ensures t in EntryTags(r.inbound[k], r.inboundPort, table) <==>
              (r.inbound[k] == inb.tag && Allowed(r.inboundPort, port)) || (|Ports(inb)| > 1 && r.inbound[k] == DerivedTag(inb.tag, port))
    {
      EntryAdmits(inbounds, i, port, r.inbound[k], r.inboundPort);
    }
    if SourceAdmits(r, inb.tag, port) {
      var k :| 0 <= k < |r.inbound| && r.inbound[k] == inb.tag;
      assert t in EntryTags(r.inbound[k], r.inboundPort, table);
    }
    if Hijacks(r, inb, port) {
      var k :| 0 <= k < |r.inbound| && r.inbound[k] == DerivedTag(inb.tag, port);
      assert t in EntryTags(r.inbound[k], r.inboundPort, table);
    }
  }

  // ----- Destination ports -----

  /** Truncating the rule's destination ports to 16 bits names no port it did not name. */
  predicate PortsSurvive(r: Rule) {
    forall k | 0 <= k < |r.port| :: r.port[k] % 0x1_0000 in r.port
  }

  /** The compiled destination criteria mean what the admin wrote, for every core and
      every connection, exactly when the port list survives the truncation. */
  lemma CriteriaPreserved(r: Rule)
    ensures (forall m: Matcher, conn, sniffed ::
               CriteriaMatch(m, CompiledCriteria(r), conn, sniffed) == SourceCriteria(m, r, conn, sniffed))
            <==> PortsSurvive(r)
  {
    if PortsSurvive(r) {
      forall m: Matcher, conn: Conn, sniffed
        ensures CriteriaMatch(m, CompiledCriteria(r), conn, sniffed) == SourceCriteria(m, r, conn, sniffed)
      {
        SurvivingCriteria(m, r, conn, sniffed);
      }
    } else {
      var m, conn := LostPort(r, "", 0);
    }
  }

  lemma SurvivingPort(r: Rule, port: Port)
    requires PortsSurvive(r)
    ensures port in WrapPorts(r.port) <==> port as int in r.port
  {
    var compiled := WrapPorts(r.port);
    if k :| 0 <= k < |r.port| && r.port[k] == port as int {
      assert compiled[k] == AsPort(r.port[k]) == port;
    }
    if k :| 0 <= k < |compiled| && compiled[k] == port {
      assert compiled[k] == AsPort(r.port[k]);
      assert r.port[k] % 0x1_0000 in r.port;
    }
  }

  lemma SurvivingCriteria(m: Matcher, r: Rule, conn: Conn, sniffed: bool)
    requires PortsSurvive(r)
    ensures CriteriaMatch(m, CompiledCriteria(r), conn, sniffed) == SourceCriteria(m, r, conn, sniffed)
  {
    SurvivingPort(r, conn.destPort);
  }

  // ----- The whole rule list -----

  /** A rule whose compilation is faithful on one served listener. */
  predicate FaithfulRule(r: Rule, inb: Inbound, port: Port) {
    !Hijacks(r, inb, port) && (SourceAdmits(r, inb.tag, port) ==> PortsSurvive(r))
  }

  predicate Faithful(rules: seq<Rule>, inb: Inbound, port: Port) {
    forall k | 0 <= k < |rules| :: FaithfulRule(rules[k], inb, port)
  }

  /** What a rule compiled to fires on a connection. */
  predicate Fires(m: Matcher, compiled: seq<CompiledRule>, listener: string, conn: Conn, sniffed: bool) {
    && compiled != [] && compiled[0].Route?
    && (compiled[0].inbound == [] || listener in compiled[0].inbound)
    && CriteriaMatch(m, compiled[0].criteria, conn, sniffed)
  }

  lemma FiresExactly(m: Matcher, inbounds: seq<Inbound>, i: nat, r: Rule, conn: Conn, sniffed: bool)
    requires WellFormed(inbounds) && i < |inbounds|
    requires conn.inbound == inbounds[i].tag && conn.localPort in Ports(inbounds[i])
    ensures Fires(m, CompileRule(r, PortsByTag(inbounds)), ListenerTag(inbounds[i], conn.localPort), conn, sniffed) <==>
            (SourceAdmits(r, conn.inbound, conn.localPort) || Hijacks(r, inbounds[i], conn.localPort))
            && CriteriaMatch(m, CompiledCriteria(r), conn, sniffed)
  {
    if r.inbound != [] {
      InboundCriterion(inbounds, i, conn.localPort, r);
    }
  }

  /** What a rule compiled to fires on a connection exactly when the rule matches it. */
  predicate SameMeaning(m: Matcher, inbounds: seq<Inbound>, i: nat, r: Rule, conn: Conn, sniffed: bool)
    requires i < |inbounds|
  {
    Fires(m, CompileRule(r, PortsByTag(inbounds)), ListenerTag(inbounds[i], conn.localPort), conn, sniffed)
    <==> SourceMatch(m, r, conn, sniffed)
  }

  lemma FaithfulMeansSame(m: Matcher, inbounds: seq<Inbound>, i: nat, r: Rule, conn: Conn, sniffed: bool)
    requires WellFormed(inbounds) && i < |inbounds|
    requires conn.inbound == inbounds[i].tag && conn.localPort in Ports(inbounds[i])
    requires FaithfulRule(r, inbounds[i], conn.localPort)
    ensures SameMeaning(m, inbounds, i, r, conn, sniffed)
  {
    FiresExactly(m, inbounds, i, r, conn, sniffed);
    if PortsSurvive(r) {
      SurvivingCriteria(m, r, conn, sniffed);
    }
  }

  lemma UnfaithfulDiffers(inbounds: seq<Inbound>, i: nat, port: Port, r: Rule) returns (m: Matcher, conn: Conn)
    requires WellFormed(inbounds) && i < |inbounds| && port in Ports(inbounds[i])
    requires !FaithfulRule(r, inbounds[i], port)
    ensures conn.inbound == inbounds[i].tag && conn.localPort == port
    ensures !SameMeaning(m, inbounds, i, r, conn, false)
  {
    if Hijacks(r, inbounds[i], port) {
      m := Matcher((domain, suffix, keyword, cidr, private, network, protocol, conn, sniffed) => true, (ranges, q) => true);
      conn := Conn(inbounds[i].tag, port, "", if r.port == [] then 0 else WrapPorts(r.port)[0], "", "");
    } else {
      m, conn := LostPort(r, inbounds[i].tag, port);
    }
    FiresExactly(m, inbounds, i, r, conn, false);
  }

  /** A rule keeps its meaning on a served listener, for every core and every connection
      that arrives there, if and only if it does not hijack the listener and, should it
      admit it, its destination ports survive the truncation. */
  lemma RuleExact(inbounds: seq<Inbound>, i: nat, port: Port, r: Rule)
    requires WellFormed(inbounds) && i < |inbounds| && port in Ports(inbounds[i])
    ensures (forall m: Matcher, conn: Conn, sniffed | conn.inbound == inbounds[i].tag && conn.localPort == port :: SameMeaning(m, inbounds, i, r, conn, sniffed))
            <==> FaithfulRule(r, inbounds[i], port)
  {
    if FaithfulRule(r, inbounds[i], port) {
      forall m: Matcher, conn: Conn, sniffed | conn.inbound == inbounds[i].tag && conn.localPort == port
        ensures SameMeaning(m, inbounds, i, r, conn, sniffed)
      {
        FaithfulMeansSame(m, inbounds, i, r, conn, sniffed);
      }
    } else {
      var m, conn := UnfaithfulDiffers(inbounds, i, port, r);
    }
  }

  /** A destination port only the truncated rule names. */
  lemma LostPort(r: Rule, tag: string, port: Port) returns (m: Matcher, conn: Conn)
    requires !PortsSurvive(r)
    ensures conn.inbound == tag && conn.localPort == port
    ensures CriteriaMatch(m, CompiledCriteria(r), conn, false) && !SourceCriteria(m, r, conn, false)
  {
    var k :| 0 <= k < |r.port| && r.port[k] % 0x1_0000 !in r.port;
    var p := AsPort(r.port[k]);
    m := Matcher((domain, suffix, keyword, cidr, private, network, protocol, conn, sniffed) => true, (ranges, q) => false);
    conn := Conn(tag, port, "", p, "", "");
    assert WrapPorts(r.port)[k] == p;
  }

  /** One compiled rule fires on a connection exactly when its source does, and then
      sends it to the same place. */
  lemma RuleStep(m: Matcher, inbounds: seq<Inbound>, i: nat, r: Rule, rest: seq<CompiledRule>, conn: Conn, sniffed: bool)
    requires WellFormed(inbounds) && i < |inbounds|
    requires conn.inbound == inbounds[i].tag && conn.localPort in Ports(inbounds[i])
    requires FaithfulRule(r, inbounds[i], conn.localPort)
    ensures CompiledTarget(m, CompileRule(r, PortsByTag(inbounds)) + rest, ListenerTag(inbounds[i], conn.localPort), conn, sniffed) ==
            if SourceMatch(m, r, conn, sniffed) then Resolve(r.outboundTag)
            else CompiledTarget(m, rest, ListenerTag(inbounds[i], conn.localPort), conn, sniffed)
  {
    var compiled := CompileRule(r, PortsByTag(inbounds));
    FiresExactly(m, inbounds, i, r, conn, sniffed);
    if PortsSurvive(r) {
      SurvivingCriteria(m, r, conn, sniffed);
    }
    if compiled == [] {
      assert compiled + rest == rest;
    } else {
      assert compiled + rest == [compiled[0]] + rest;
      assert (compiled + rest)[1..] == rest;
    }
  }

  /** Compiled rules from the front, to match first-match evaluation. */
  function CompileFront(rules: seq<Rule>, portsByTag: map<string, seq<Port>>): seq<CompiledRule> {
    if rules == [] then [] else CompileRule(rules[0], portsByTag) + CompileFront(rules[1..], portsByTag)
  }

  lemma {:induction false} CompileFrontSnoc(rules: seq<Rule>, r: Rule, portsByTag: map<string, seq<Port>>)
    ensures CompileFront(rules + [r], portsByTag) == CompileFront(rules, portsByTag) + CompileRule(r, portsByTag)
  {
    var last := CompileRule(r, portsByTag);
    var all := rules + [r];
    if rules == [] {
      assert all == [r] && all[1..] == [];
      Seqs.EmptyRight(last);
      assert [] + last == last;
    } else {
      CompileFrontSnoc(rules[1..], r, portsByTag);
      assert all[0] == rules[0] && all[1..] == rules[1..] + [r];
      Seqs.Regroup(CompileRule(rules[0], portsByTag), CompileFront(rules[1..], portsByTag), last);
    }
  }

  lemma {:induction false} CompiledInOrder(sniff: bool, rules: seq<Rule>, portsByTag: map<string, seq<Port>>)
    ensures CompileRules(sniff, rules, portsByTag) == (if sniff then [Sniff] else []) + CompileFront(rules, portsByTag)
  {
    var head: seq<CompiledRule> := if sniff then [Sniff] else [];
    if rules == [] {
      Seqs.EmptyRight(head);
    } else {
      var n := |rules| - 1;
      var front, last := CompileFront(rules[..n], portsByTag), CompileRule(rules[n], portsByTag);
      CompiledInOrder(sniff, rules[..n], portsByTag);
      CompileFrontSnoc(rules[..n], rules[n], portsByTag);
      Seqs.InitAndLast(rules);
      Seqs.Regroup(head, front, last);
    }
  }

  lemma {:induction false} FrontPreserved(m: Matcher, inbounds: seq<Inbound>, i: nat, rules: seq<Rule>, conn: Conn, sniffed: bool)
    requires WellFormed(inbounds) && i < |inbounds|
    requires conn.inbound == inbounds[i].tag && conn.localPort in Ports(inbounds[i])
    requires Faithful(rules, inbounds[i], conn.localPort)
    ensures CompiledTarget(m, CompileFront(rules, PortsByTag(inbounds)), ListenerTag(inbounds[i], conn.localPort), conn, sniffed) ==
            Resolve(SourceTarget(m, rules, conn, sniffed))
    decreases |rules|
  {
    if rules != [] {
      assert Faithful(rules[1..], inbounds[i], conn.localPort);
      FrontPreserved(m, inbounds, i, rules[1..], conn, sniffed);
      RuleStep(m, inbounds, i, rules[0], CompileFront(rules[1..], PortsByTag(inbounds)), conn, sniffed);
    }
  }

  /** Routing survives compilation: for every core, every connection that arrives on a
      served port, and every faithful rule list, the first compiled rule that matches
      sends it where the first matching source rule does, sniffing included. */
  lemma RoutingPreserved(m: Matcher, inbounds: seq<Inbound>, i: nat, core: CoreConfig, conn: Conn)
    requires WellFormed(inbounds) && i < |inbounds| && Compilable(core)
    requires conn.inbound == inbounds[i].tag && conn.localPort in Ports(inbounds[i])
    requires Faithful(core.rules, inbounds[i], conn.localPort)
    ensures SameTarget(CompiledTarget(m, CompileCore(core, PortsByTag(inbounds)).rules,
                                      ListenerTag(inbounds[i], conn.localPort), conn, false),
                       SourceTarget(m, core.rules, conn, core.sniff))
  {
    var table := PortsByTag(inbounds);
    var listener := ListenerTag(inbounds[i], conn.localPort);
    CompiledInOrder(core.sniff, core.rules, table);
    FrontPreserved(m, inbounds, i, core.rules, conn, core.sniff);
    var front := CompileFront(core.rules, table);
    if core.sniff {
      assert ([Sniff] + front)[1..] == front;
    } else {
      assert [] + front == front;
    }
  }

  // ----- A hijack -----

  const MAIN := Inbound("main", Vless, 443, [443, 8443], [], None, None, "", 0, 0, "", false, "", "")
  const TO_MAIN := Conn("main", 443, "", 80, "", "")

  function BlockOnly(tag: string): Rule {
    Rule([tag], [], [], [], [], [], false, [], [], [], [], "block")
  }

  /** A core all of whose address criteria hold. */
  ghost predicate MatchesAll(m: Matcher) {
    forall domain, suffix, keyword, cidr, private, network, protocol, conn, sniffed ::
      m.address(domain, suffix, keyword, cidr, private, network, protocol, conn, sniffed)
  }

  lemma HijackIsThere()
    ensures WellFormed([MAIN]) && Hijacks(BlockOnly(DerivedTag("main", 443)), MAIN, 443)
  {
    DerivedTagHasHash("main", 443);
    assert NoHash("main");
  }

  lemma OnlyRule(r: Rule, portsByTag: map<string, seq<Port>>)
    requires MatchTags(r.inbound, r.inboundPort, portsByTag) != []
    ensures CompileFront([r], portsByTag) ==
            [Route(MatchTags(r.inbound, r.inboundPort, portsByTag), CompiledCriteria(r), Resolve(r.outboundTag))]
  {
    assert [r][1..] == [];
    Seqs.EmptyRight(CompileRule(r, portsByTag));
  }

  lemma BlocksAll(m: Matcher, tag: string, conn: Conn)
    requires MatchesAll(m)
    ensures CriteriaMatch(m, CompiledCriteria(BlockOnly(tag)), conn, false)
  {
  }

  /** Without the condition the meaning can change: a rule that names an inbound this
      node does not serve takes over a port of one it does. */
  lemma HijackChangesRouting(m: Matcher)
    requires MatchesAll(m)
    ensures var r := BlockOnly(DerivedTag("main", 443));
            && WellFormed([MAIN]) && PortsSurvive(r) && Hijacks(r, MAIN, 443)
            && SourceTarget(m, [r], TO_MAIN, false) == "direct"
            && CompiledTarget(m, CompileFront([r], PortsByTag([MAIN])), ListenerTag(MAIN, 443), TO_MAIN, false) == BLOCK_OUT
  {
    var r := BlockOnly(DerivedTag("main", 443));
    HijackIsThere();
    assert [r][1..] == [] && !SourceMatch(m, r, TO_MAIN, false);
    InboundCriterion([MAIN], 0, 443, r);
    OnlyRule(r, PortsByTag([MAIN]));
    BlocksAll(m, DerivedTag("main", 443), TO_MAIN);
  }
}
