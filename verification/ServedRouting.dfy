/** From the panel's save buttons to a connection on a node: what the saved rules say is
    what the served core does. */
module ServedRouting {
  import opened Options
  import opened Wire
  import opened Listeners
  import opened CoreOptions
  import opened HotApply
  import opened Routing
  import opened Overrides
  import opened NodeProfile
  import opened FleetSnapshot
  import NodeAgent
  import NodeRuns
  import PanelCache
  import ConfigSaves
  import CoreValidation
  import opened ConfigSync

  // ----- No stored rule hijacks a listener, as long as tags are plain -----

  lemma PlainNeverHijacks(rules: seq<Rule>, inb: Inbound, port: Port)
    requires ConfigSaves.PlainRules(rules)
    ensures forall k | 0 <= k < |rules| :: !Hijacks(rules[k], inb, port)
  {
    DerivedTagHasHash(inb.tag, port);
  }

  /** What a node is told to run of the panel's rows. */
  function MergedCore(s: ConfigSaves.State, n: int): CoreConfig
    requires n in s.nodes && s.nodes[n].Readable?
  {
    Applied(s.nodes[n].overrides, s.fleet)
  }

  lemma MergedIsPlain(s: ConfigSaves.State, n: int)
    requires ConfigSaves.Plain(s) && n in s.nodes && s.nodes[n].Readable?
    ensures ConfigSaves.PlainRules(MergedCore(s, n).rules)
  {
    assert ConfigSaves.PlainNode(s.nodes[n]);
  }

  /** Over any sequence of saves on a panel whose inbound tags are free of the separator,
      no rule any node is served hijacks a listener of any inbound. */
  lemma StoredRulesNeverHijack(s: ConfigSaves.State, commands: seq<ConfigSaves.Command>, n: int, inb: Inbound, port: Port)
    requires ConfigSaves.Plain(s) && ConfigSaves.PlainInbounds(commands)
    requires var t := ConfigSaves.Run(s, commands); n in t.nodes && t.nodes[n].Readable?
    ensures var rules := MergedCore(ConfigSaves.Run(s, commands), n).rules;
            forall k | 0 <= k < |rules| :: !Hijacks(rules[k], inb, port)
  {
    ConfigSaves.RunStaysPlain(s, commands);
    var t := ConfigSaves.Run(s, commands);
    MergedIsPlain(t, n);
    PlainNeverHijacks(MergedCore(t, n).rules, inb, port);
  }

  lemma SavedRule(tag: string, tags: set<string>)
    requires tag in tags
    ensures var empty := ConfigSaves.State(CoreConfig(Warn, false, [], [], [], None), map[], {});
            && ConfigSaves.Sound(empty)
            && ConfigSaves.Run(empty, [ConfigSaves.SetInbounds(tags), ConfigSaves.SaveFleet(CoreConfig(Warn, false, [], [BlockOnly(tag)], [], None), 0)]).fleet.rules == [BlockOnly(tag)]
  {
    var empty := ConfigSaves.State(CoreConfig(Warn, false, [], [], [], None), map[], {});
    var first, second := ConfigSaves.SetInbounds(tags), ConfigSaves.SaveFleet(CoreConfig(Warn, false, [], [BlockOnly(tag)], [], None), 0);
    var s := ConfigSaves.Step(empty, first);
    assert [first, second][1..] == [second] && [second][1..] == [];
    assert "block" in CoreValidation.IMPLICIT_TAGS;
    assert ConfigSaves.FleetAccepted(s, ConfigSaves.Normalized(second.dto, 0));
    assert ConfigSaves.Run(empty, [first, second]) == ConfigSaves.Run(s, [second]) == ConfigSaves.Run(ConfigSaves.Step(s, second), []);
  }

  lemma OnlyMain(other: Inbound)
    requires other.tag != "main"
    ensures Filter(Profile(["main"], [], NO_OVERRIDES), [MAIN, other]) == [MAIN]
  {
    var p := Profile(["main"], [], NO_OVERRIDES);
    KeepsAll(p, Ports(MAIN));
    assert [MAIN, other][..1] == [MAIN] && [MAIN][..0] == [];
    assert "main" in p.tags && other.tag !in p.tags;
    assert Filter(p, [MAIN]) == Filter(p, []) + FilterOne(p, MAIN) == [MAIN];
  }

  /** With such a tag it goes wrong, although every check passes. Beside inbound "main" on
      two ports there is one whose tag is spelled like the listener of main's first port;
      a rule that blocks that inbound is saved; and a node whose profile serves main alone
      blocks main's connections on that port, which the rule does not name. */
  lemma AcceptedHijack(m: Matcher, other: Inbound)
    requires MatchesAll(m)
    requires other.tag == DerivedTag("main", 443)
    ensures var empty := ConfigSaves.State(CoreConfig(Warn, false, [], [], [], None), map[], {});
            var t := ConfigSaves.Run(empty, [ConfigSaves.SetInbounds({"main", other.tag}), ConfigSaves.SaveFleet(CoreConfig(Warn, false, [], [BlockOnly(other.tag)], [], None), 0)]);
            var served := Filter(Profile(["main"], [], NO_OVERRIDES), [MAIN, other]);
            && ConfigSaves.Sound(empty) && t.fleet.rules == [BlockOnly(other.tag)] && served == [MAIN]
            && SourceTarget(m, t.fleet.rules, TO_MAIN, false) == "direct"
            && CompiledTarget(m, CompileFront(t.fleet.rules, PortsByTag(served)), ListenerTag(MAIN, 443), TO_MAIN, false) == BLOCK_OUT
  {
    DerivedTagHasHash("main", 443);
    assert NoHash("main");
    SavedRule(other.tag, {"main", other.tag});
    OnlyMain(other);
    HijackChangesRouting(m);
  }

  // ----- End to end -----

  /** The panel's rows are what the saves left, and the node that ticks is one of them. */
  predicate Holds(s: System, saved: ConfigSaves.State, n: int)
    requires |s.panel.db| > 0
  {
    && Answered(s) && n in saved.nodes && saved.nodes[n].Readable?
    && s.panel.db[|s.panel.db| - 1].core == saved.fleet
    && s.tick.value.profile.overrides == saved.nodes[n].overrides
  }

  /** The inbounds the node that ticks is to serve. */
  function ServedNow(s: System): seq<Inbound>
    requires |s.panel.db| > 0 && Answered(s)
  {
    var now := s.panel.db[|s.panel.db| - 1];
    Filter(s.tick.value.profile, Fleet(now.inbounds, now.proxies))
  }

  lemma CurrentIsServed(s: System, saved: ConfigSaves.State, n: int)
    requires |s.panel.db| > 0 && Holds(s, saved, n)
    ensures Current(s).inbounds == ServedNow(s) && Current(s).core == MergedCore(saved, n).(updatedAt := None)
  {
  }

  lemma SavedCanBuild(ciphers: set<string>, s: System, saved: ConfigSaves.State, n: int)
    requires |s.panel.db| > 0 && Holds(s, saved, n) && ConfigSaves.Sound(saved)
    requires CiphersRun(ciphers, ServedNow(s))
    ensures CanBuild(ciphers, Current(s))
  {
    var now := s.panel.db[|s.panel.db| - 1];
    ConfigSaves.ServedConfigsCompile(saved, [], n, map[], Sniff);
    BuildableIffCiphersRun(ciphers, now, s.tick.value.profile);
  }

  predicate PortsFit(rules: seq<Rule>) {
    forall k | 0 <= k < |rules| :: PortsSurvive(rules[k])
  }

  /** A running config routes each connection as its rules say. */
  lemma RunningRoutes(ciphers: set<string>, s: NodeAgent.NodeState, c: Payload, m: Matcher, i: nat, conn: Conn)
    requires NodeRuns.Runs(ciphers, s, c) && CanBuild(ciphers, c) && WellFormed(c.inbounds) && i < |c.inbounds|
    requires conn.inbound == c.inbounds[i].tag && conn.localPort in Ports(c.inbounds[i])
    requires ConfigSaves.PlainRules(c.core.rules) && PortsFit(c.core.rules)
    ensures s.node.Some? && Supported(c)
    ensures Known(c.inbounds[i].protocol) ==> MakeListener(c.inbounds[i], conn.localPort) in s.node.value.listeners
    ensures SameTarget(CompiledTarget(m, s.node.value.core.rules, ListenerTag(c.inbounds[i], conn.localPort), conn, false),
                       SourceTarget(m, c.core.rules, conn, c.core.sniff))
  {
    BuildableSupported(ciphers, c);
    PlainNeverHijacks(c.core.rules, c.inbounds[i], conn.localPort);
    RoutingPreserved(m, c.inbounds, i, c.core, conn);
    if Known(c.inbounds[i].protocol) {
      ServedIsListener(c.inbounds, i, conn.localPort);
      assert MakeListener(c.inbounds[i], conn.localPort) in multiset(s.node.value.listeners);
    }
  }

  /** A tick that can only end well, and a connection to a port its node is to serve. */
  predicate Due(ciphers: set<string>, s: System, env: NodeAgent.Env, saved: ConfigSaves.State, n: int, i: nat, conn: Conn)
    requires |s.panel.db| > 0
  {
    && Settled(s) && Holds(s, saved, n) && Cooperates(env, Current(s)) && CiphersRun(ciphers, ServedNow(s))
    && i < |ServedNow(s)| && conn.inbound == ServedNow(s)[i].tag && conn.localPort in Ports(ServedNow(s)[i])
    && PortsFit(MergedCore(saved, n).rules)
  }

  /** The node listens on the connection's port, and sends it where the first matching
      rule of the saved rules does. */
  predicate RoutesAsSaved(node: Option<Running>, inb: Inbound, core: CoreConfig, m: Matcher, conn: Conn) {
    && node.Some? && TransportSupported(inb.transport)
    && (Known(inb.protocol) ==> MakeListener(inb, conn.localPort) in node.value.listeners)
    && SameTarget(CompiledTarget(m, node.value.core.rules, ListenerTag(inb, conn.localPort), conn, false),
                  SourceTarget(m, core.rules, conn, core.sniff))
  }

  lemma DueTickRoutes(ciphers: set<string>, s: System, env: NodeAgent.Env, saved: ConfigSaves.State, n: int,
                      m: Matcher, i: nat, conn: Conn)
    requires ConfigSync.Inv(ciphers, s) && ConfigSaves.Sound(saved) && ConfigSaves.Plain(saved)
    requires Due(ciphers, s, env, saved, n, i, conn)
    ensures RoutesAsSaved(Step(ciphers, s, Receive(env)).agent.state.node, ServedNow(s)[i], MergedCore(saved, n), m, conn)
  {
    MergedIsPlain(saved, n);
    CurrentIsServed(s, saved, n);
    SavedCanBuild(ciphers, s, saved, n);
    SettledTickConverges(ciphers, s, env);
    SettledAnswerIsCurrent(ciphers, s);
    RunningRoutes(ciphers, Step(ciphers, s, Receive(env)).agent.state, Current(s), m, i, conn);
  }

  /** End to end: on any reachable, plainly tagged panel whose database has stopped
      changing, one answered tick on a core that cooperates leaves the node with a listener
      on every port its profile admits, and every connection there goes where the first
      matching rule of the saved node rules and fleet rules sends it. */
  lemma QuietPanelRoutesAsSaved(ciphers: set<string>, t: PanelCache.Tables, events: seq<Event>, env: NodeAgent.Env,
                                start: ConfigSaves.State, commands: seq<ConfigSaves.Command>, n: int,
                                m: Matcher, i: nat, conn: Conn)
    requires TablesOk(t) && WritesOk(events)
    requires ConfigSaves.Sound(start) && ConfigSaves.Plain(start) && ConfigSaves.PlainInbounds(commands)
    requires Due(ciphers, Run(ciphers, Initial(t), events), env, ConfigSaves.Run(start, commands), n, i, conn)
    ensures var s, saved := Run(ciphers, Initial(t), events), ConfigSaves.Run(start, commands);
            RoutesAsSaved(Step(ciphers, s, Receive(env)).agent.state.node, ServedNow(s)[i], MergedCore(saved, n), m, conn)
  {
    var s, saved := Run(ciphers, Initial(t), events), ConfigSaves.Run(start, commands);
    ConfigSaves.RunStaysSound(start, commands);
    ConfigSaves.RunStaysPlain(start, commands);
    RunKeeps(ciphers, Initial(t), events);
    DueTickRoutes(ciphers, s, env, saved, n, m, i, conn);
  }
}
