/** The whole loop: a node's ticks against a panel that serves any number of other
    polls while its database changes. A tick sends a conditional request, the panel's
    poll runs in its own time, and the answer is a 304, a config, or lost on the way. */
module ConfigSync {
  import opened Options
  import opened Wire
  import opened Listeners
  import opened CoreOptions
  import opened HotApply
  import opened HotRefinement
  import opened NodeAgent
  import NodeRuns
  import Overrides
  import opened NodeProfile
  import opened FleetSnapshot
  import PanelCache

  /** A tick under way: its poll on the panel, the version and profile it began with,
      the condition it carries, and the node as it was when the request left. */
  datatype Tick = Tick(poll: nat, since: nat, profile: Profile, condition: Option<Version>, sent: NodeRuns.Traced)

  datatype System = System(panel: PanelCache.Panel, agent: NodeRuns.Traced, tick: Option<Tick>)

  datatype Event =
    | PanelStep(i: nat, a: PanelCache.Action)
    | Send(profile: Profile)
    | Receive(env: Env)
    | Lost
    | Stop(env: Env)

  function Condition(s: NodeState): Option<Version> {
    if RunningLastPulled(s) then Some(s.lastPulled.value.version) else None
  }

  /** The poll of the tick under way has finished with an entry. */
  predicate Answered(s: System) {
    s.tick.Some? && s.tick.value.poll < |s.panel.polls| && s.panel.polls[s.tick.value.poll].stage.Done?
  }

  function Answer(s: System): Payload
    requires Answered(s)
  {
    s.panel.polls[s.tick.value.poll].stage.entry.body
  }

  /** The panel answers 304: the condition names the version it would send. */
  predicate NotModified(s: System)
    requires Answered(s)
  {
    s.tick.value.condition == Some(Answer(s).version)
  }

  function Step(ciphers: set<string>, s: System, e: Event): System
    requires |s.panel.db| > 0
  {
    match e
    case PanelStep(i, a) => s.(panel := PanelCache.Step(s.panel, i, a))
    case Send(p) =>
      if s.tick.Some? then s
      else System(PanelCache.Step(s.panel, 0, PanelCache.Begin(p)), s.agent,
                  Some(Tick(|s.panel.polls|, |s.panel.db| - 1, p, Condition(s.agent.state), s.agent)))
    case Receive(env) =>
      if !Answered(s) then s
      else if NotModified(s) then s.(tick := None)
      else s.(agent := NodeRuns.Step(ciphers, s.agent, NodeRuns.Answer(Decode(Answer(s)), env)), tick := None)
    case Lost => s.(tick := None)
    case Stop(env) => s.(agent := NodeRuns.Step(ciphers, s.agent, NodeRuns.StopRequest(env)))
  }

  function Run(ciphers: set<string>, s: System, events: seq<Event>): (t: System)
    requires |s.panel.db| > 0
    ensures |t.panel.db| > 0
    decreases |events|
  {
    if events == [] then s else Run(ciphers, Step(ciphers, s, events[0]), events[1..])
  }

  /** The database's guarantees about every state it is ever in, and the program's
      assumption, which nothing checks, that no inbound tag holds the separator of derived
      tags. */
  predicate TablesOk(t: PanelCache.Tables) {
    && (forall i | 0 <= i < |t.inbounds| :: RowPorts(t.inbounds[i]) && NoHash(t.inbounds[i].tag))
    && (forall i, j | 0 <= i < j < |t.inbounds| :: t.inbounds[i].tag != t.inbounds[j].tag)
  }

  predicate WritesOk(events: seq<Event>) {
    forall k | 0 <= k < |events| && events[k].PanelStep? && events[k].a.Write? :: TablesOk(events[k].a.tables)
  }

  function Initial(t: PanelCache.Tables): System {
    System(PanelCache.Initial(t), NodeRuns.START, None)
  }

  // ----- The invariant -----

  predicate LastGenuine(s: NodeState) {
    s.lastPulled.Some? ==> Genuine(s.lastPulled.value)
  }

  ghost predicate AgentOk(ciphers: set<string>, t: NodeRuns.Traced) {
    NodeRuns.Inv(ciphers, t) && LastGenuine(t.state)
  }

  ghost predicate TickOk(ciphers: set<string>, panel: PanelCache.Panel, k: Tick) {
    && k.poll < |panel.polls|
    && panel.polls[k.poll].since == k.since && panel.polls[k.poll].profile == k.profile
    && AgentOk(ciphers, k.sent) && k.condition == Condition(k.sent.state)
  }

  ghost predicate Inv(ciphers: set<string>, s: System) {
    && PanelCache.Inv(s.panel)
    && (forall v | 0 <= v < |s.panel.db| :: TablesOk(s.panel.db[v]))
    && AgentOk(ciphers, s.agent)
    && (s.tick.Some? ==> TickOk(ciphers, s.panel, s.tick.value))
  }

  /** Whatever mix of versions its tables were read at, a body's inbounds are well formed. */
  lemma BodyWellFormed(db: seq<PanelCache.Tables>, since: nat, p: Profile, body: Payload)
    requires (forall v | 0 <= v < |db| :: TablesOk(db[v])) && PanelCache.BodySince(db, since, p, body)
    ensures WellFormed(body.inbounds) && Genuine(Decode(body))
  {
    var fleet, core :| PanelCache.Renders(body, p, fleet, core) && PanelCache.FleetSince(db, since, fleet) && PanelCache.CoreSince(db, since, core);
    assert body.inbounds == Filter(p, fleet);
    FleetSinceWellFormed(db, since, fleet);
    FilterWellFormed(p, fleet);
    DecodedIsGenuine(Filter(p, fleet), Overrides.Applied(p.overrides, core));
  }

  lemma FleetSinceWellFormed(db: seq<PanelCache.Tables>, since: nat, fleet: seq<Inbound>)
    requires (forall v | 0 <= v < |db| :: TablesOk(db[v])) && PanelCache.FleetSince(db, since, fleet)
    ensures WellFormed(fleet)
  {
    var rows, proxies :| PanelCache.RowsSince(db, since, rows) && PanelCache.UsersSince(db, since, proxies) && fleet == Fleet(rows, proxies);
    var r :| since <= r < |db| && db[r].inbounds == rows;
    assert TablesOk(db[r]);
    FleetWellFormed(rows, proxies);
  }

  lemma AnswerIsSince(ciphers: set<string>, s: System)
    requires Inv(ciphers, s) && Answered(s)
    ensures PanelCache.BodySince(s.panel.db, s.tick.value.since, s.tick.value.profile, Answer(s))
    ensures WellFormed(Answer(s).inbounds) && Genuine(Decode(Answer(s)))
  {
    var k := s.tick.value;
    assert PanelCache.PollOk(s.panel.db, s.panel.polls[k.poll]);
    BodyWellFormed(s.panel.db, k.since, k.profile, Answer(s));
  }

  lemma AgentStepOk(ciphers: set<string>, t: NodeRuns.Traced, e: NodeRuns.Event)
    requires AgentOk(ciphers, t)
    requires e.Answer? ==> WellFormed(e.config.inbounds) && Genuine(e.config)
    ensures AgentOk(ciphers, NodeRuns.Step(ciphers, t, e))
  {
    if e.Answer? {
      NodeRuns.AnswerInv(ciphers, t, e.config, e.env);
    }
  }

  lemma PanelMoves(ciphers: set<string>, s: System, panel: PanelCache.Panel)
    requires Inv(ciphers, s) && PanelCache.Inv(panel) && forall v | 0 <= v < |panel.db| :: TablesOk(panel.db[v])
    requires s.tick.Some? ==> PanelCache.SameIdentity(s.panel, panel, s.tick.value.poll)
    ensures Inv(ciphers, s.(panel := panel))
  {
  }

  lemma PanelStepKeeps(ciphers: set<string>, s: System, i: nat, a: PanelCache.Action)
    requires Inv(ciphers, s) && (a.Write? ==> TablesOk(a.tables))
    ensures Inv(ciphers, s.(panel := PanelCache.Step(s.panel, i, a)))
  {
    PanelCache.StepKeeps(s.panel, i, a);
    PanelCache.StepDb(s.panel, i, a);
    if s.tick.Some? {
      PanelCache.PollsKeepIdentity(s.panel, i, a, s.tick.value.poll);
    }
    PanelMoves(ciphers, s, PanelCache.Step(s.panel, i, a));
  }

  lemma SendKeeps(ciphers: set<string>, s: System, p: Profile)
    requires Inv(ciphers, s)
    ensures Inv(ciphers, Step(ciphers, s, Send(p)))
  {
    PanelStepKeeps(ciphers, s, 0, PanelCache.Begin(p));
    var polls := PanelCache.Step(s.panel, 0, PanelCache.Begin(p)).polls;
    assert polls[|s.panel.polls|].profile == p;
  }

  lemma ReceiveKeeps(ciphers: set<string>, s: System, env: Env)
    requires Inv(ciphers, s)
    ensures Inv(ciphers, Step(ciphers, s, Receive(env)))
  {
    if Answered(s) && !NotModified(s) {
      AnswerIsSince(ciphers, s);
      AgentStepOk(ciphers, s.agent, NodeRuns.Answer(Decode(Answer(s)), env));
    }
  }

  lemma StepKeeps(ciphers: set<string>, s: System, e: Event)
    requires Inv(ciphers, s)
    requires e.PanelStep? && e.a.Write? ==> TablesOk(e.a.tables)
    ensures Inv(ciphers, Step(ciphers, s, e))
  {
    match e
    case PanelStep(i, a) => PanelStepKeeps(ciphers, s, i, a);
    case Send(p) => SendKeeps(ciphers, s, p);
    case Receive(env) => ReceiveKeeps(ciphers, s, env);
    case Lost =>
    case Stop(env) => AgentStepOk(ciphers, s.agent, NodeRuns.StopRequest(env));
  }

  lemma {:induction false} RunKeeps(ciphers: set<string>, s: System, events: seq<Event>)
    requires Inv(ciphers, s) && WritesOk(events)
    ensures Inv(ciphers, Run(ciphers, s, events))
    decreases |events|
  {
    if events != [] {
      StepKeeps(ciphers, s, events[0]);
      RunKeeps(ciphers, Step(ciphers, s, events[0]), events[1..]);
    }
  }

  // ----- A 304 is sound -----

  /** Genuine configs of one version are one config. */
  lemma SameVersionSameConfig(a: Payload, b: Payload)
    requires Genuine(a) && Genuine(b) && a.version == b.version
    ensures a == b
  {
  }

  lemma NotModifiedIsSound(ciphers: set<string>, s: System)
    requires Inv(ciphers, s) && Answered(s) && NotModified(s) && s.tick.value.sent.failed == []
    ensures NodeRuns.Runs(ciphers, s.tick.value.sent.state, Decode(Answer(s)))
    ensures s.tick.value.sent.state.lastPulled == Some(Decode(Answer(s)))
  {
    AnswerIsSince(ciphers, s);
    var sent := s.tick.value.sent;
    SameVersionSameConfig(sent.state.lastPulled.value, Decode(Answer(s)));
    NodeRuns.InvRuns(ciphers, sent);
  }

  /** Conditional polling is sound end to end: in every run, a 304 for a request that
      left while no failed hot apply was waiting tells the node something true. The core
      it ran when the request left is the compilation of a payload each of whose tables
      was read no earlier than the poll began. */
  lemma ConditionalPollingIsSound(ciphers: set<string>, t: PanelCache.Tables, events: seq<Event>)
    requires TablesOk(t) && WritesOk(events)
    ensures var s := Run(ciphers, Initial(t), events);
            Answered(s) && NotModified(s) && s.tick.value.sent.failed == [] ==>
              && NodeRuns.Runs(ciphers, s.tick.value.sent.state, Decode(Answer(s)))
              && PanelCache.BodySince(s.panel.db, s.tick.value.since, s.tick.value.profile, Answer(s))
  {
    RunKeeps(ciphers, Initial(t), events);
    var s := Run(ciphers, Initial(t), events);
    if Answered(s) && NotModified(s) && s.tick.value.sent.failed == [] {
      AnswerIsSince(ciphers, s);
      NotModifiedIsSound(ciphers, s);
    }
  }

  // ----- Convergence -----

  /** A core that is created, starts and takes every update it can. */
  predicate Cooperates(env: Env, c: Payload) {
    && env.creates && env.starts
    && forall j, p | 0 <= j < |c.inbounds| && p in Ports(c.inbounds[j]) :: env.accepts(ListenerTag(c.inbounds[j], p))
  }

  lemma SlotUpdates(ls: seq<Listener>, plan: Plan, c: Payload, j: nat, p: Port, env: Env)
    requires Ready(ls, plan, c) && Cooperates(env, c) && j < |c.inbounds| && p in Ports(c.inbounds[j]) && Known(c.inbounds[j].protocol)
    ensures Updates(ls, ListenerTag(c.inbounds[j], p), c.inbounds[j].protocol, env.accepts)
  {
    assert Filled(ls, c.inbounds, j, p);
    var l :| l in ls && l.tag == ListenerTag(c.inbounds[j], p);
    var i :| 0 <= i < |ls| && ls[i] == l;
    var j', p' := FrameOfIndex(ls, c, i);
    ListenerTagInjective(c.inbounds, j, p, j', p');
    assert Takes(ls[i], ListenerTag(c.inbounds[j], p), c.inbounds[j].protocol, env.accepts);
  }

  lemma HotInbound(prev: Payload, next: Payload, k: nat) returns (j: nat)
    requires Compatible(prev, next) && DistinctTags(prev.inbounds) && k < |DiffHot(prev, next)|
    ensures j < |next.inbounds| && DiffHot(prev, next)[k] == UserUpdate(next.inbounds[j].tag, next.inbounds[j].protocol)
    ensures Known(next.inbounds[j].protocol)
  {
    var hot := DiffHot(prev, next);
    HotListExact(ByTag(prev.inbounds), next.inbounds, hot[k]);
    j :| 0 <= j < |next.inbounds| && UsersChanged(ByTag(prev.inbounds), next.inbounds[j])
         && hot[k] == UserUpdate(next.inbounds[j].tag, next.inbounds[j].protocol);
    ByTagLookup(prev.inbounds);
    CompatibleSymmetric(prev, next);
    var i := Counterpart(next, prev, j);
  }

  /** Such a core takes every hot list a compatible config asks for. */
  lemma CooperatingTakesAll(ls: seq<Listener>, plan: Plan, prev: Payload, next: Payload, env: Env)
    requires Ready(ls, plan, next) && Compatible(prev, next) && DistinctTags(prev.inbounds) && Cooperates(env, next)
    ensures AllUpdate(ls, plan, DiffHot(prev, next), env.accepts)
  {
    var hot := DiffHot(prev, next);
    forall k, t | 0 <= k < |hot| && t in plan.ListenerTags(hot[k].tag)
      ensures Updates(ls, t, hot[k].protocol, env.accepts)
    {
      var j := HotInbound(prev, next, k);
      var p := TagIsOfPort(next.inbounds[j], t);
      SlotUpdates(ls, plan, next, j, p, env);
    }
  }

  lemma TagIsOfPort(inb: Inbound, t: string) returns (p: Port)
    requires t in TagsOfInbound(inb)
    ensures p in Ports(inb) && t == ListenerTag(inb, p)
  {
    var k :| 0 <= k < |TagsOfInbound(inb)| && TagsOfInbound(inb)[k] == t;
    p := Ports(inb)[k];
  }

  /** No hot apply has failed that this config does not retry. */
  predicate OnlyAwaits(t: NodeRuns.Traced, c: Payload) {
    t.failed == [] || (NodeRuns.AllSame(t.failed, c) && !Ignored(t.state, c))
  }

  /** One answer a cooperating core can build makes the core that answer's compilation. */
  lemma AnswerConverges(ciphers: set<string>, t: NodeRuns.Traced, c: Payload, env: Env)
    requires AgentOk(ciphers, t) && OnlyAwaits(t, c) && WellFormed(c.inbounds) && Genuine(c)
    requires CanBuild(ciphers, c) && Cooperates(env, c)
    ensures var t' := NodeRuns.Step(ciphers, t, NodeRuns.Answer(c, env));
            t'.failed == [] && t'.state.lastPulled == Some(c) && NodeRuns.Runs(ciphers, t'.state, c)
  {
    var t' := NodeRuns.Step(ciphers, t, NodeRuns.Answer(c, env));
    NodeRuns.AnswerInv(ciphers, t, c, env);
    if Ignored(t.state, c) {
      SameVersionSameConfig(t.state.lastPulled.value, c);
      NodeRuns.InvRuns(ciphers, t);
    } else if Hot(t.state, c) {
      NodeRuns.HotKeepsConfig(ciphers, t.state, c, env);
      CompatibleSymmetric(t.state.lastPulled.value, c);
      CooperatingTakesAll(t.state.node.value.listeners, t.state.plan, t.state.lastPulled.value, c, env);
      NodeRuns.InvRuns(ciphers, t');
    }
  }

  /** A tick that began at the current version, on a node nobody stopped meanwhile, where
      no hot apply has failed that the answer does not retry. */
  predicate Settled(s: System)
    requires |s.panel.db| > 0
  {
    && Answered(s) && s.tick.value.since == |s.panel.db| - 1
    && s.agent == s.tick.value.sent && OnlyAwaits(s.agent, Decode(Answer(s)))
  }

  /** The current payload of the node that ticks, as the node reads it. */
  function Current(s: System): Payload
    requires |s.panel.db| > 0 && Answered(s)
  {
    Decode(PanelCache.Fresh(s.panel.db[|s.panel.db| - 1], s.tick.value.profile))
  }

  predicate UpToDate(ciphers: set<string>, t: NodeRuns.Traced, c: Payload) {
    t.failed == [] && t.state.lastPulled == Some(c) && NodeRuns.Runs(ciphers, t.state, c)
  }

  lemma SettledAnswerIsCurrent(ciphers: set<string>, s: System)
    requires Inv(ciphers, s) && Settled(s)
    ensures Decode(Answer(s)) == Current(s) && WellFormed(Current(s).inbounds) && Genuine(Current(s))
  {
    AnswerIsSince(ciphers, s);
    PanelCache.SinceNowIsFresh(s.panel.db, s.tick.value.profile, Answer(s));
  }

  lemma SettledTickConverges(ciphers: set<string>, s: System, env: Env)
    requires Inv(ciphers, s) && Settled(s) && CanBuild(ciphers, Current(s)) && Cooperates(env, Current(s))
    ensures UpToDate(ciphers, Step(ciphers, s, Receive(env)).agent, Current(s))
  {
    SettledAnswerIsCurrent(ciphers, s);
    if NotModified(s) {
      NotModifiedIsSound(ciphers, s);
    } else {
      AnswerConverges(ciphers, s.agent, Current(s), env);
    }
  }

  /** Once the database stops changing, one successful tick brings the node up to date:
      it ends with the core running the compilation of what a fresh build of the node's
      profile gives, whether the panel answers 304 or sends the config. */
  lemma OneTickConverges(ciphers: set<string>, t: PanelCache.Tables, events: seq<Event>, env: Env)
    requires TablesOk(t) && WritesOk(events)
    ensures var s := Run(ciphers, Initial(t), events);
            Settled(s) && CanBuild(ciphers, Current(s)) && Cooperates(env, Current(s)) ==>
              UpToDate(ciphers, Step(ciphers, s, Receive(env)).agent, Current(s))
  {
    RunKeeps(ciphers, Initial(t), events);
    var s := Run(ciphers, Initial(t), events);
    if Settled(s) && CanBuild(ciphers, Current(s)) && Cooperates(env, Current(s)) {
      SettledTickConverges(ciphers, s, env);
    }
  }

  lemma RowTransport(row: InboundRow, users: seq<User>)
    ensures TransportSupported(InboundOf(row, users).transport)
  {
  }

  lemma FleetTransport(rows: seq<InboundRow>, proxies: seq<ProxyRow>, k: nat)
    requires k < |rows|
    ensures TransportSupported(Fleet(rows, proxies)[k].transport)
  {
    RowTransport(rows[k], Listed(KeyOfRow(rows[k]), proxies));
  }

  lemma FilteredTransport(p: Profile, fleet: seq<Inbound>, i: nat)
    requires i < |Filter(p, fleet)| && forall k | 0 <= k < |fleet| :: TransportSupported(fleet[k].transport)
    ensures TransportSupported(Filter(p, fleet)[i].transport)
  {
    var k := FilterKeepsConsistency(p, fleet, i);
  }

  predicate CiphersRun(ciphers: set<string>, inbounds: seq<Inbound>) {
    forall i | 0 <= i < |inbounds| && inbounds[i].protocol == Shadowsocks :: CipherOf(inbounds[i].users) in ciphers
  }

  lemma BuildableIff(ciphers: set<string>, inbounds: seq<Inbound>)
    requires forall i | 0 <= i < |inbounds| :: TransportSupported(inbounds[i].transport)
    ensures Buildable(ciphers, inbounds) <==> CiphersRun(ciphers, inbounds)
  {
    if Buildable(ciphers, inbounds) {
      forall i | 0 <= i < |inbounds| && inbounds[i].protocol == Shadowsocks
        ensures CipherOf(inbounds[i].users) in ciphers
      {
        assert InboundError(ciphers, inbounds[i]) == None;
      }
    }
  }

  /** Every transport the panel sends is one the node can serve, so what a payload's
      build can fail on is the core config and the shadowsocks ciphers. */
  lemma BuildableIffCiphersRun(ciphers: set<string>, t: PanelCache.Tables, p: Profile)
    ensures CanBuild(ciphers, Decode(PanelCache.Fresh(t, p))) <==>
            Compilable(Overrides.Applied(p.overrides, t.core)) && CiphersRun(ciphers, Filter(p, Fleet(t.inbounds, t.proxies)))
  {
    var fleet := Fleet(t.inbounds, t.proxies);
    var inbounds := Filter(p, fleet);
    forall k | 0 <= k < |fleet|
      ensures TransportSupported(fleet[k].transport)
    {
      FleetTransport(t.inbounds, t.proxies, k);
    }
    forall i | 0 <= i < |inbounds|
      ensures TransportSupported(inbounds[i].transport)
    {
      FilteredTransport(p, fleet, i);
    }
    BuildableIff(ciphers, inbounds);
  }
}
