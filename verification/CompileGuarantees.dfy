/** What a config that passed validation is guaranteed when a node compiles it. */
module CompileGuarantees {
  import opened Options
  import opened Wire
  import opened CoreOptions
  import opened CoreValidation

  function EmittedTags(es: seq<Emitted>): set<string> {
    set i | 0 <= i < |es| :: es[i].tag
  }

  /** The tags one admin outbound makes the compiler generate besides its own. */
  function GeneratedBy(ob: Outbound): set<string> {
    if FailsOpen(ob) then {Primary(ob), Fallback(ob)} else {}
  }

  /** Every tag the compiler generates besides the admin's own. */
  function Generated(obs: seq<Outbound>): set<string> {
    if obs == [] then {DIRECT_OUT, BLOCK_OUT}
    else Generated(obs[..|obs| - 1]) + GeneratedBy(obs[|obs| - 1])
  }

  lemma EmitOneTags(ob: Outbound)
    requires KnownOutbound(ob.kind)
    ensures EmittedTags(Emit(ob)) == {ob.tag} + GeneratedBy(ob)
  {
    var es := Emit(ob);
    if FailsOpen(ob) {
      assert es[0].tag == Primary(ob) && es[1].tag == Fallback(ob) && es[2].tag == ob.tag && |es| == 3;
      assert forall t | t in {ob.tag} + GeneratedBy(ob) :: t in EmittedTags(es);
    } else {
      assert |es| == 1 && es[0].tag == ob.tag;
    }
  }

  lemma ConcatTags(a: seq<Emitted>, b: seq<Emitted>)
    ensures EmittedTags(a + b) == EmittedTags(a) + EmittedTags(b)
  {
    forall t | t in EmittedTags(a) + EmittedTags(b)
      ensures t in EmittedTags(a + b)
    {
      if i :| 0 <= i < |a| && a[i].tag == t {
        assert (a + b)[i].tag == t;
      } else {
        var j :| 0 <= j < |b| && b[j].tag == t;
        assert (a + b)[|a| + j].tag == t;
      }
    }
  }

  /** Emitted tags are the admin's tags and the generated ones. */
  lemma {:induction false} EmittedTagsOf(obs: seq<Outbound>)
    requires AllKnown(obs)
    ensures EmittedTags(EmitAll(obs)) == OutboundTags(obs) + Generated(obs)
  {
    if obs == [] {
      assert IMPLICIT_OUTBOUNDS[0].tag == DIRECT_OUT && IMPLICIT_OUTBOUNDS[1].tag == BLOCK_OUT;
    } else {
      var init, last := obs[..|obs| - 1], obs[|obs| - 1];
      EmittedTagsOf(init);
      EmitOneTags(last);
      ConcatTags(EmitAll(init), Emit(last));
      SnocTags(obs);
    }
  }

  /** The panel's list of outbound types is the node's switch: no type passes one and
      fails the other. */
  lemma OutboundTypesAgree(ob: Outbound)
    ensures ob.kind in OUTBOUND_TYPES <==> ob.kind == Block || IsGroupKind(ob.kind) || Settings(ob).Some?
    ensures ob.kind in OUTBOUND_TYPES <==> KnownOutbound(ob.kind)
  {
    match ob.kind
    case OtherOutbound(_) =>
    case _ =>
  }

  lemma DnsTypesAgree(k: DnsKind)
    ensures k in DNS_TYPES <==> !k.OtherDns?
  {
    match k
    case OtherDns(_) =>
    case _ =>
  }

  /** What a node can compile is decided by the panel's two lists of types alone. */
  lemma CompilesExactly(c: CoreConfig)
    ensures Compilable(c) <==>
            && (forall i | 0 <= i < |c.outbounds| :: c.outbounds[i].kind in OUTBOUND_TYPES)
            && (forall i | 0 <= i < |c.dnsServers| :: c.dnsServers[i].kind in DNS_TYPES)
  {
    forall i | 0 <= i < |c.outbounds|
      ensures c.outbounds[i].kind in OUTBOUND_TYPES <==> KnownOutbound(c.outbounds[i].kind)
    {
      OutboundTypesAgree(c.outbounds[i]);
    }
    forall i | 0 <= i < |c.dnsServers|
      ensures c.dnsServers[i].kind in DNS_TYPES <==> !c.dnsServers[i].kind.OtherDns?
    {
      DnsTypesAgree(c.dnsServers[i].kind);
    }
  }

  /** So a validated config always compiles. */
  lemma ValidCompiles(c: CoreConfig)
    requires Valid(c)
    ensures Compilable(c)
  {
    CompilesExactly(c);
    assert forall i | 0 <= i < |c.outbounds| :: ValidShape(c.outbounds[i]);
  }

  lemma {:induction false} ImplicitGenerated(obs: seq<Outbound>)
    ensures DIRECT_OUT in Generated(obs) && BLOCK_OUT in Generated(obs)
  {
    if obs != [] {
      ImplicitGenerated(obs[..|obs| - 1]);
    }
  }

  /** A validated reference names an outbound the node really runs. */
  lemma TargetIsEmitted(obs: seq<Outbound>, tag: string)
    requires AllKnown(obs) && tag in Targets(obs)
    ensures Resolve(tag) in EmittedTags(EmitAll(obs))
  {
    EmittedTagsOf(obs);
    ImplicitGenerated(obs);
  }

  /** Every rule a validated config compiles to, on any set of inbounds, sends its
      traffic to an emitted outbound. */
  lemma {:induction false} RouteTargetsExist(obs: seq<Outbound>, sniff: bool, rules: seq<Rule>,
                                             portsByTag: map<string, seq<Port>>, cr: CompiledRule)
    requires AllKnown(obs)
    requires forall i | 0 <= i < |rules| :: ValidRule(rules[i], Targets(obs))
    requires cr in CompileRules(sniff, rules, portsByTag) && cr.Route?
    ensures cr.outbound in EmittedTags(EmitAll(obs))
  {
    if rules != [] {
      var n := |rules| - 1;
      if cr in CompileRules(sniff, rules[..n], portsByTag) {
        RouteTargetsExist(obs, sniff, rules[..n], portsByTag, cr);
      } else {
        assert ValidRule(rules[n], Targets(obs));
        TargetIsEmitted(obs, rules[n].outboundTag);
      }
    }
  }

  lemma {:induction false} EmittedFrom(obs: seq<Outbound>, e: Emitted) returns (i: int)
    requires AllKnown(obs) && e in EmitAll(obs)
    ensures i == -1 ==> e in IMPLICIT_OUTBOUNDS
    ensures i != -1 ==> 0 <= i < |obs| && e in Emit(obs[i])
    ensures -1 <= i
  {
    if obs == [] {
      i := -1;
    } else {
      var n := |obs| - 1;
      if e in EmitAll(obs[..n]) {
        i := EmittedFrom(obs[..n], e);
      } else {
        i := n;
      }
    }
  }

  lemma EmitAllSnoc(obs: seq<Outbound>, e: Emitted)
    requires AllKnown(obs) && obs != []
    ensures AllKnown(obs[..|obs| - 1])
    ensures e in EmitAll(obs) <==> e in EmitAll(obs[..|obs| - 1]) || e in Emit(obs[|obs| - 1])
  {
  }

  lemma {:induction false} EmitIsEmitted(obs: seq<Outbound>, i: nat, e: Emitted)
    requires AllKnown(obs) && i < |obs| && e in Emit(obs[i])
    ensures e in EmitAll(obs)
  {
    EmitAllSnoc(obs, e);
    if i < |obs| - 1 {
      EmitIsEmitted(obs[..|obs| - 1], i, e);
    }
  }

  /** The groups among what one outbound emits. */
  lemma GroupOfEmit(ob: Outbound, e: Emitted)
    requires KnownOutbound(ob.kind) && e in Emit(ob) && e.options.Group?
    ensures FailsOpen(ob) ==> Emit(ob) == [Emit(ob)[0], Emit(ob)[1], e] && e.options.members == [Emit(ob)[0].tag, Emit(ob)[1].tag]
    ensures !FailsOpen(ob) ==> IsGroupKind(ob.kind) && e.options.members == ResolveAll(ob.members)
  {
  }

  /** Every member of every emitted group is itself emitted. */
  lemma GroupMembersExist(c: CoreConfig, e: Emitted, k: nat)
    requires Valid(c) && Compilable(c)
    requires e in EmitAll(c.outbounds) && e.options.Group? && k < |e.options.members|
    ensures e.options.members[k] in EmittedTags(EmitAll(c.outbounds))
  {
    var i := EmittedFrom(c.outbounds, e);
    var ob := c.outbounds[i];
    GroupOfEmit(ob, e);
    if FailsOpen(ob) {
      EmitIsEmitted(c.outbounds, i, Emit(ob)[k]);
    } else {
      assert MembersResolve(ob, Targets(c.outbounds)) && ob.members[k] in Targets(c.outbounds);
      TargetIsEmitted(c.outbounds, ob.members[k]);
    }
  }

  lemma {:induction false} GroupFrom(obs: seq<Outbound>, g: FallbackGroup) returns (i: nat)
    requires g in FallbackGroups(obs)
    ensures i < |obs| && FailsOpen(obs[i]) && g == FallbackGroup(obs[i].tag, Primary(obs[i]), Fallback(obs[i]), obs[i].bindInterface)
  {
    var n := |obs| - 1;
    if g in FallbackGroups(obs[..n]) {
      i := GroupFrom(obs[..n], g);
    } else {
      i := n;
    }
  }

  /** Each fail-open group the supervisor is given belongs to an admin outbound whose
      tag is a selector over exactly a bound and an unbound dialer of that outbound,
      starting on the bound one. */
  lemma {:induction false} FallbackGroupsWork(obs: seq<Outbound>, g: FallbackGroup) returns (i: nat)
    requires AllKnown(obs) && g in FallbackGroups(obs)
    ensures i < |obs| && g.group == obs[i].tag && g.iface == obs[i].bindInterface != "" && LeafOptions(obs[i], g.iface).Some?
    ensures Emitted(g.group, Selector, Group([g.primary, g.fallback], g.primary, true)) in EmitAll(obs)
    ensures Emitted(g.primary, obs[i].kind, Leaf(LeafOptions(obs[i], g.iface).value)) in EmitAll(obs)
    ensures Emitted(g.fallback, obs[i].kind, Leaf(LeafOptions(obs[i], g.iface).value.(bind := ""))) in EmitAll(obs)
  {
    i := GroupFrom(obs, g);
    var ob := obs[i];
    EmitIsEmitted(obs, i, Emit(ob)[0]);
    EmitIsEmitted(obs, i, Emit(ob)[1]);
    EmitIsEmitted(obs, i, Emit(ob)[2]);
  }

  /** A dialer reaches the admin's server port exactly when it fits sixteen bits;
      validation only requires it to be non-zero. */
  lemma DialsAdminPort(ob: Outbound, bind: string)
    requires NeedsServer(ob.kind)
    ensures LeafOptions(ob, bind).Some? && LeafOptions(ob, bind).value.server == ob.server
    ensures LeafOptions(ob, bind).value.serverPort as int == ob.serverPort <==> 0 <= ob.serverPort < 0x1_0000
  {
  }

  function Plain(tag: string, kind: OutboundKind, server: string, port: int): Outbound {
    Outbound(tag, kind, server, port, "", "", [], "", "", "", "", "", 0, "", "", "", "", 0, 0, "", "",
             false, "", false, "", false)
  }

  lemma EmitOnly(ob: Outbound)
    requires KnownOutbound(ob.kind)
    ensures AllKnown([ob]) && EmitAll([ob]) == IMPLICIT_OUTBOUNDS + Emit(ob)
  {
    assert [ob][..0] == [];
  }

  /** A proxy said to be on port 65979 validates, and the node dials port 443 of its server. */
  lemma DialPortWraps()
    ensures var ob := Plain("exit", Socks, "proxy.example", 65979);
            var c := CoreConfig(Warn, false, [ob], [], [], None);
            && Valid(c)
            && Compilable(c)
            && EmitAll(c.outbounds)[2] == Emitted("exit", Socks, Leaf(BlankDialer(Socks).(server := "proxy.example", serverPort := 443)))
  {
    var ob := Plain("exit", Socks, "proxy.example", 65979);
    EmitOnly(ob);
    assert |"exit"| == 4 && |"direct"| == 6 && |"block"| == 5;
    assert AsPort(65979) == 443;
    assert EmitAll([ob])[2] == Emit(ob)[0];
  }

  /** A rule for destination port 65979, which no connection has, validates, and compiles
      to one that matches connections to port 443. */
  lemma RulePortWraps(portsByTag: map<string, seq<Port>>)
    ensures var r := Rule([], [], [], [], [], [], false, [65979], [], [], [], "block");
            var c := CoreConfig(Warn, false, [], [r], [], None);
            && Valid(c)
            && Compilable(c)
            && CompileCore(c, portsByTag).rules == [Route([], Criteria([], [], [], [], false, [443], [], [], []), BLOCK_OUT)]
  {
    var r := Rule([], [], [], [], [], [], false, [65979], [], [], [], "block");
    assert AsPort(65979) == 443;
    assert WrapPorts(r.port) == [443];
    assert [r][..0] == [];
    assert CompileRules(false, [r], portsByTag) == CompileRules(false, [], portsByTag) + CompileRule(r, portsByTag);
    assert "block" in IMPLICIT_TAGS;
  }

  // ----- When are the emitted tags distinct? -----

  predicate DistinctEmitted(es: seq<Emitted>) {
    forall i, j | 0 <= i < j < |es| :: es[i].tag != es[j].tag
  }

  lemma DistinctConcat(a: seq<Emitted>, b: seq<Emitted>)
    ensures DistinctEmitted(a + b) <==> DistinctEmitted(a) && DistinctEmitted(b) && EmittedTags(a) !! EmittedTags(b)
  {
    var c := a + b;
    if DistinctEmitted(c) {
      forall i, j | 0 <= i < j < |a|
        ensures a[i].tag != a[j].tag
      {
        assert c[i] == a[i] && c[j] == a[j];
      }
      forall i, j | 0 <= i < j < |b|
        ensures b[i].tag != b[j].tag
      {
        assert c[|a| + i] == b[i] && c[|a| + j] == b[j];
      }
      forall i, j | 0 <= i < |a| && 0 <= j < |b|
        ensures a[i].tag != b[j].tag
      {
        assert c[i] == a[i] && c[|a| + j] == b[j];
      }
    } else {
      var i, j :| 0 <= i < j < |c| && c[i].tag == c[j].tag;
      if i < |a| && |a| <= j {
        assert a[i].tag in EmittedTags(a) && b[j - |a|].tag in EmittedTags(b);
      }
    }
  }

  lemma SuffixesDiffer(a: Outbound, b: Outbound)
    ensures Primary(a) != Fallback(b)
    ensures a.tag != b.tag ==> Primary(a) != Primary(b) && Fallback(a) != Fallback(b)
    ensures Primary(a) != a.tag && Fallback(a) != a.tag
    ensures Primary(a) !in {DIRECT_OUT, BLOCK_OUT} && Fallback(a) !in {DIRECT_OUT, BLOCK_OUT}
  {
    var p, f := Primary(a), Fallback(b);
    assert p[|p| - 1] == 'g' && f[|f| - 1] == 't';
    assert Fallback(a)[|a.tag|] == '~' && Primary(a)[|a.tag|] == '~';
    assert Fallback(a)[|Fallback(a)| - 2] == 'c';
    assert Primary(a)[..|a.tag|] == a.tag && Primary(b)[..|b.tag|] == b.tag;
    assert Fallback(a)[..|a.tag|] == a.tag && Fallback(b)[..|b.tag|] == b.tag;
    assert DIRECT_OUT[|DIRECT_OUT| - 1] == 't' && DIRECT_OUT[|DIRECT_OUT| - 2] == 'u';
    assert BLOCK_OUT[|BLOCK_OUT| - 1] == 't' && BLOCK_OUT[|BLOCK_OUT| - 2] == 'u';
  }

  lemma {:induction false} GeneratedDisjoint(obs: seq<Outbound>, last: Outbound)
    requires forall i | 0 <= i < |obs| :: obs[i].tag != last.tag
    ensures Generated(obs) !! GeneratedBy(last)
  {
    if obs == [] {
      SuffixesDiffer(last, last);
    } else {
      var n := |obs| - 1;
      GeneratedDisjoint(obs[..n], last);
      SuffixesDiffer(obs[n], last);
      SuffixesDiffer(last, obs[n]);
    }
  }

  lemma EmitDistinct(ob: Outbound)
    requires KnownOutbound(ob.kind)
    ensures DistinctEmitted(Emit(ob)) && ob.tag !in GeneratedBy(ob)
  {
    SuffixesDiffer(ob, ob);
  }

  /** The tags the node registers are distinct exactly when no admin tag is one of the
      generated ones. Validation reserves only "direct" and "block", so it does not
      rule this out by itself. */
  lemma {:induction false} EmittedDistinct(obs: seq<Outbound>)
    requires AllKnown(obs) && DistinctOutbounds(obs)
    ensures DistinctEmitted(EmitAll(obs)) <==> OutboundTags(obs) !! Generated(obs)
  {
    if obs != [] {
      var n := |obs| - 1;
      var init, last := obs[..n], obs[n];
      EmittedDistinct(init);
      EmittedTagsOf(init);
      EmitOneTags(last);
      EmitDistinct(last);
      DistinctConcat(EmitAll(init), Emit(last));
      GeneratedDisjoint(init, last);
      SnocTags(obs);
    } else {
      var es := IMPLICIT_OUTBOUNDS;
      assert es[0].tag[0] == 'd' && es[1].tag[0] == 'b';
    }
  }

  /** Such a collision gets through: an outbound tagged "direct-out" validates. */
  lemma CollisionValidates()
    ensures var ob := Plain("direct-out", Direct, "", 0);
            var c := CoreConfig(Warn, false, [ob], [], [], None);
            Valid(c) && Compilable(c) && !DistinctEmitted(EmitAll(c.outbounds))
  {
    var ob := Plain("direct-out", Direct, "", 0);
    var tag := "direct-out";
    assert |tag| == 10 && |"direct"| == 6 && |"block"| == 5;
    EmitOnly(ob);
    assert EmitAll([ob])[0].tag == DIRECT_OUT && EmitAll([ob])[2].tag == DIRECT_OUT;
  }
}
