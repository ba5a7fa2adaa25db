/** What holds over every run of a node: ticks, stops and failures in any order. Runs
    exclude the manual POST /start and PUT /inbounds/{tag}/users, which change the
    running core behind the pull loop's back. */
module NodeRuns {
  import opened Options
  import opened Wire
  import opened Listeners
  import opened CoreOptions
  import opened HotApply
  import opened HotRefinement
  import opened NodeAgent

  /** Configs whose hot apply failed and was not retried to success since the core was
      last started, next to the node's own state. */
  datatype Traced = Traced(state: NodeState, failed: seq<Payload>)

  const START := Traced(IDLE, [])

  datatype Event =
    | Answer(config: Payload, env: Env)  // a tick that ends in a 200
    | NoAnswer                           // a tick that ends in a 304 or an error
    | StopRequest(env: Env)

  predicate SameContent(a: Payload, b: Payload) {
    a.inbounds == b.inbounds && a.core == b.core
  }

  predicate AllSame(failed: seq<Payload>, c: Payload) {
    forall k | 0 <= k < |failed| :: SameContent(failed[k], c)
  }

  function FailedAfter(ciphers: set<string>, t: Traced, c: Payload, env: Env): seq<Payload> {
    if Ignored(t.state, c) then t.failed
    else if !Hot(t.state, c) then []
    else if !HotTaken(t.state, c, env.accepts) then t.failed + [c]
    else if AllSame(t.failed, c) then [] else t.failed
  }

  function Step(ciphers: set<string>, t: Traced, e: Event): Traced {
    match e
    case Answer(c, env) => Traced(Received(ciphers, t.state, c, env), FailedAfter(ciphers, t, c, env))
    case NoAnswer => t
    case StopRequest(_) => if t.state.node == None then t else Traced(Stopped(t.state), [])
  }

  function Run(ciphers: set<string>, t: Traced, events: seq<Event>): Traced
    decreases |events|
  {
    if events == [] then t else Run(ciphers, Step(ciphers, t, events[0]), events[1..])
  }

  /** The panel's guarantee about every config it sends. */
  predicate Sane(events: seq<Event>) {
    forall k | 0 <= k < |events| && events[k].Answer? :: WellFormed(events[k].config.inbounds)
  }

  predicate Good(ciphers: set<string>, c: Payload) {
    WellFormed(c.inbounds) && CanBuild(ciphers, c)
  }

  /** A listener as config c would build it. */
  predicate BuiltBy(ciphers: set<string>, c: Payload, l: Listener) {
    CanBuild(ciphers, c) && l in Build(ciphers, c).listeners
  }

  predicate Explained(ciphers: set<string>, t: Traced, l: Listener)
    requires t.state.lastPulled.Some?
  {
    || BuiltBy(ciphers, t.state.lastPulled.value, l)
    || exists k :: 0 <= k < |t.failed| && BuiltBy(ciphers, t.failed[k], l)
  }

  ghost predicate RunsConfig(ciphers: set<string>, run: Running, plan: Plan, c: Payload) {
    && Good(ciphers, c)
    && run.core == Build(ciphers, c).core
    && PlanFits(plan, c.inbounds)
    && Supported(c)
    && FramedBy(run.listeners, c.inbounds)
  }

  /** The run invariant. A running core is lastPulled's in every respect but users, and
      each listener's users are those of lastPulled or of a failed config. */
  ghost predicate Inv(ciphers: set<string>, t: Traced) {
    var s := t.state;
    && (s.node == None ==> t.failed == [])
    && (s.node.Some? ==>
          && s.lastPulled.Some?
          && RunsConfig(ciphers, s.node.value, s.plan, s.lastPulled.value)
          && (forall k | 0 <= k < |t.failed| :: Good(ciphers, t.failed[k]) && Compatible(s.lastPulled.value, t.failed[k]))
          && (forall l | l in s.node.value.listeners :: Explained(ciphers, t, l)))
  }

  lemma StartedInv(ciphers: set<string>, t: Traced, c: Payload, env: Env)
    requires WellFormed(c.inbounds) && Starts(ciphers, c, env)
    ensures Inv(ciphers, Traced(AppliedFull(ciphers, t.state, c, env), []))
  {
    BuildableSupported(ciphers, c);
    BuiltIsFramed(c);
    PlanDerived(c.inbounds);
  }

  /** A hot apply, taken or not, keeps everything but the users. */
  lemma HotKeepsConfig(ciphers: set<string>, s: NodeState, c: Payload, env: Env)
    requires s.node.Some? && s.lastPulled.Some? && RunsConfig(ciphers, s.node.value, s.plan, s.lastPulled.value)
    requires WellFormed(c.inbounds) && Hot(s, c)
    ensures Compatible(s.lastPulled.value, c) && Good(ciphers, c)
    ensures Supported(c) && Ready(s.node.value.listeners, s.plan, c)
    ensures var after := s.node.value.(listeners := HotListeners(s.node.value.listeners, s.plan, s.lastPulled.value, c, env.accepts));
            RunsConfig(ciphers, after, s.plan, c) && RunsConfig(ciphers, after, s.plan, s.lastPulled.value)
  {
    var last, run := s.lastPulled.value, s.node.value;
    RestartExact(last, c);
    CompatibleBuilds(ciphers, last, c);
    CompatibleCores(last, c);
    BuildableSupported(ciphers, c);
    FramesCarryOver(run.listeners, last, c);
    PlanFitsCompatible(s.plan, last, c);
    var after := HotListeners(run.listeners, s.plan, last, c, env.accepts);
    AppliedKeepsFrame(run.listeners, s.plan, last, c, env.accepts, after);
    CompatibleSymmetric(last, c);
    FramesCarryOver(after, c, last);
  }

  /** After a hot apply each listener is as before, or as the new config builds it. */
  lemma HotListenerOrigin(ciphers: set<string>, s: NodeState, c: Payload, env: Env, i: nat)
    requires s.node.Some? && s.lastPulled.Some? && RunsConfig(ciphers, s.node.value, s.plan, s.lastPulled.value)
    requires WellFormed(c.inbounds) && Hot(s, c) && i < |s.node.value.listeners|
    ensures var after := HotListeners(s.node.value.listeners, s.plan, s.lastPulled.value, c, env.accepts);
            after[i] == s.node.value.listeners[i] || BuiltBy(ciphers, c, after[i])
  {
    HotKeepsConfig(ciphers, s, c, env);
    var ls := s.node.value.listeners;
    var j, p := FrameOfIndex(ls, c, i);
    AppliedListener(ls, s.plan, s.lastPulled.value, c, env.accepts, HotListeners(ls, s.plan, s.lastPulled.value, c, env.accepts), i, j, p);
    ServedIsListener(c.inbounds, j, p);
  }

  lemma FailedHotInv(ciphers: set<string>, t: Traced, c: Payload, env: Env)
    requires Inv(ciphers, t) && WellFormed(c.inbounds)
    requires !Ignored(t.state, c) && Hot(t.state, c) && !HotTaken(t.state, c, env.accepts)
    ensures Inv(ciphers, Step(ciphers, t, Answer(c, env)))
  {
    var s, t' := t.state, Step(ciphers, t, Answer(c, env));
    HotKeepsConfig(ciphers, s, c, env);
    var ls, after := s.node.value.listeners, t'.state.node.value.listeners;
    forall i | 0 <= i < |after|
      ensures Explained(ciphers, t', after[i])
    {
      HotListenerOrigin(ciphers, s, c, env, i);
      if after[i] == ls[i] {
        assert Explained(ciphers, t, ls[i]);
        ExplainedGrows(ciphers, t, t', after[i]);
      } else {
        assert t'.failed[|t.failed|] == c;
      }
    }
  }

  lemma ExplainedGrows(ciphers: set<string>, t: Traced, t': Traced, l: Listener)
    requires t.state.lastPulled.Some? && t.state.lastPulled == t'.state.lastPulled && t.failed <= t'.failed
    requires Explained(ciphers, t, l)
    ensures Explained(ciphers, t', l)
  {
    if k :| 0 <= k < |t.failed| && BuiltBy(ciphers, t.failed[k], l) {
      assert t'.failed[k] == t.failed[k];
    }
  }

  /** A listener a taken hot apply left alone, and that the old config built, is one the
      new config builds. */
  lemma KeptFromLast(ciphers: set<string>, s: NodeState, c: Payload, env: Env, i: nat)
    requires s.node.Some? && s.lastPulled.Some? && RunsConfig(ciphers, s.node.value, s.plan, s.lastPulled.value)
    requires WellFormed(c.inbounds) && Hot(s, c) && HotTaken(s, c, env.accepts) && i < |s.node.value.listeners|
    requires BuiltBy(ciphers, s.lastPulled.value, s.node.value.listeners[i])
    ensures BuiltBy(ciphers, c, HotListeners(s.node.value.listeners, s.plan, s.lastPulled.value, c, env.accepts)[i])
  {
    HotKeepsConfig(ciphers, s, c, env);
    var ls, last := s.node.value.listeners, s.lastPulled.value;
    var j, p := FrameOfIndex(ls, c, i);
    UnchangedIsUpToDate(last, c, ls[i], j, p);
    ExactAt(ls, s.plan, last, c, env.accepts, HotListeners(ls, s.plan, last, c, env.accepts), i, j, p);
  }

  lemma TakenHotInv(ciphers: set<string>, t: Traced, c: Payload, env: Env)
    requires Inv(ciphers, t) && WellFormed(c.inbounds)
    requires !Ignored(t.state, c) && Hot(t.state, c) && HotTaken(t.state, c, env.accepts)
    ensures Inv(ciphers, Step(ciphers, t, Answer(c, env)))
  {
    var s, t' := t.state, Step(ciphers, t, Answer(c, env));
    HotKeepsConfig(ciphers, s, c, env);
    var last := s.lastPulled.value;
    forall k | 0 <= k < |t'.failed|
      ensures Good(ciphers, t'.failed[k]) && Compatible(c, t'.failed[k])
    {
      CompatibleSymmetric(last, c);
      CompatibleTransitive(c, last, t.failed[k]);
    }
    forall i | 0 <= i < |t'.state.node.value.listeners|
      ensures Explained(ciphers, t', t'.state.node.value.listeners[i])
    {
      TakenListener(ciphers, t, c, env, i);
    }
  }

  /** A listener no update reached is still explained once the hot apply was taken. */
  lemma KeptListener(ciphers: set<string>, t: Traced, c: Payload, env: Env, i: nat)
    requires Inv(ciphers, t) && WellFormed(c.inbounds)
    requires !Ignored(t.state, c) && Hot(t.state, c) && HotTaken(t.state, c, env.accepts)
    requires i < |t.state.node.value.listeners|
    requires var s := t.state;
             HotListeners(s.node.value.listeners, s.plan, s.lastPulled.value, c, env.accepts)[i] == s.node.value.listeners[i]
    ensures BuiltBy(ciphers, c, t.state.node.value.listeners[i])
            || (!AllSame(t.failed, c) && exists k :: 0 <= k < |t.failed| && BuiltBy(ciphers, t.failed[k], t.state.node.value.listeners[i]))
  {
    var l := t.state.node.value.listeners[i];
    assert Explained(ciphers, t, l);
    if BuiltBy(ciphers, t.state.lastPulled.value, l) {
      KeptFromLast(ciphers, t.state, c, env, i);
    } else {
      var k :| 0 <= k < |t.failed| && BuiltBy(ciphers, t.failed[k], l);
      if AllSame(t.failed, c) {
        assert SameContent(t.failed[k], c);
      }
    }
  }

  lemma TakenListener(ciphers: set<string>, t: Traced, c: Payload, env: Env, i: nat)
    requires Inv(ciphers, t) && WellFormed(c.inbounds)
    requires !Ignored(t.state, c) && Hot(t.state, c) && HotTaken(t.state, c, env.accepts)
    requires i < |t.state.node.value.listeners|
    ensures var t' := Step(ciphers, t, Answer(c, env));
            Explained(ciphers, t', t'.state.node.value.listeners[i])
  {
    HotListenerOrigin(ciphers, t.state, c, env, i);
    var t' := Step(ciphers, t, Answer(c, env));
    if t'.state.node.value.listeners[i] == t.state.node.value.listeners[i] {
      KeptListener(ciphers, t, c, env, i);
    }
  }

  lemma AnswerInv(ciphers: set<string>, t: Traced, c: Payload, env: Env)
    requires Inv(ciphers, t) && WellFormed(c.inbounds)
    ensures Inv(ciphers, Step(ciphers, t, Answer(c, env)))
  {
    if Ignored(t.state, c) {
    } else if !Hot(t.state, c) {
      if Starts(ciphers, c, env) {
        StartedInv(ciphers, t, c, env);
      }
    } else if HotTaken(t.state, c, env.accepts) {
      TakenHotInv(ciphers, t, c, env);
    } else {
      FailedHotInv(ciphers, t, c, env);
    }
  }

  lemma {:induction false} RunInv(ciphers: set<string>, t: Traced, events: seq<Event>)
    requires Inv(ciphers, t) && Sane(events)
    ensures Inv(ciphers, Run(ciphers, t, events))
    decreases |events|
  {
    if events != [] {
      if events[0].Answer? {
        AnswerInv(ciphers, t, events[0].config, events[0].env);
      }
      RunInv(ciphers, Step(ciphers, t, events[0]), events[1..]);
    }
  }

  /** The node runs a config: the same listeners as its build, in some order, and the
      same outbounds, routes, DNS and logging; or nothing, for a config without inbounds. */
  predicate Runs(ciphers: set<string>, s: NodeState, c: Payload) {
    if s.node == None then c.inbounds == []
    else
      && CanBuild(ciphers, c)
      && multiset(s.node.value.listeners) == multiset(Build(ciphers, c).listeners)
      && s.node.value.core == Build(ciphers, c).core
  }

  lemma InvRuns(ciphers: set<string>, t: Traced)
    requires Inv(ciphers, t) && RunningLastPulled(t.state) && t.failed == []
    ensures Runs(ciphers, t.state, t.state.lastPulled.value)
  {
    var s := t.state;
    if s.node.Some? {
      var c, ls := s.lastPulled.value, s.node.value.listeners;
      forall i | 0 <= i < |ls|
        ensures ls[i] in ListenersOf(c.inbounds)
      {
        assert Explained(ciphers, t, ls[i]);
      }
      SameListenersIff(ls, c);
    }
  }

  /** The run invariant: in every run of ticks, stops and failures, whenever the node
      believes it is running lastPulled it is, as long as no failed hot apply is waiting
      to be retried. */
  lemma NodeRunsLastPulled(ciphers: set<string>, events: seq<Event>)
    requires Sane(events)
    ensures var t := Run(ciphers, START, events);
            RunningLastPulled(t.state) && t.failed == [] ==> Runs(ciphers, t.state, t.state.lastPulled.value)
  {
    RunInv(ciphers, START, events);
    var t := Run(ciphers, START, events);
    if RunningLastPulled(t.state) && t.failed == [] {
      InvRuns(ciphers, t);
    }
  }

  /** Without that condition the core still is lastPulled's in everything but users: its
      outbounds and routes, and a listener of the right tag, port and options for each
      port it serves. Each listener's users are those of lastPulled or of a config whose
      hot apply failed, and those configs differ from lastPulled in user lists alone. */
  lemma EveryListenerExplained(ciphers: set<string>, events: seq<Event>)
    requires Sane(events)
    ensures var t := Run(ciphers, START, events);
            t.state.node.Some? ==>
              && t.state.lastPulled.Some?
              && RunsConfig(ciphers, t.state.node.value, t.state.plan, t.state.lastPulled.value)
              && (forall k | 0 <= k < |t.failed| :: Compatible(t.state.lastPulled.value, t.failed[k]))
              && (forall l | l in t.state.node.value.listeners :: Explained(ciphers, t, l))
  {
    RunInv(ciphers, START, events);
  }

  // ----- Retrying a failed config until it is taken -----

  /** A failed config is retried until it is taken: every answer while some hot apply is
      waiting carries that same config. */
  predicate Retried(ciphers: set<string>, t: Traced, events: seq<Event>)
    decreases |events|
  {
    events == [] || ((events[0].Answer? ==> AllSame(t.failed, events[0].config))
                     && Retried(ciphers, Step(ciphers, t, events[0]), events[1..]))
  }

  predicate Agree(failed: seq<Payload>) {
    forall j, k | 0 <= j < |failed| && 0 <= k < |failed| :: SameContent(failed[j], failed[k])
  }

  lemma StepAgrees(ciphers: set<string>, t: Traced, e: Event)
    requires Agree(t.failed) && (e.Answer? ==> AllSame(t.failed, e.config))
    ensures Agree(Step(ciphers, t, e).failed)
  {
  }

  lemma {:induction false} RunAgrees(ciphers: set<string>, t: Traced, events: seq<Event>)
    requires Retried(ciphers, t, events) && Agree(t.failed)
    ensures Agree(Run(ciphers, t, events).failed)
    decreases |events|
  {
    if events != [] {
      StepAgrees(ciphers, t, events[0]);
      RunAgrees(ciphers, Step(ciphers, t, events[0]), events[1..]);
    }
  }

  lemma SameContentSameBuild(ciphers: set<string>, a: Payload, b: Payload, l: Listener)
    requires SameContent(a, b) && BuiltBy(ciphers, a, l)
    ensures BuiltBy(ciphers, b, l)
  {
  }

  lemma ExplainedByOne(ciphers: set<string>, t: Traced, l: Listener)
    requires t.state.lastPulled.Some? && Agree(t.failed) && Explained(ciphers, t, l)
    ensures BuiltBy(ciphers, t.state.lastPulled.value, l) || (t.failed != [] && BuiltBy(ciphers, t.failed[0], l))
  {
    if !BuiltBy(ciphers, t.state.lastPulled.value, l) {
      var k :| 0 <= k < |t.failed| && BuiltBy(ciphers, t.failed[k], l);
      SameContentSameBuild(ciphers, t.failed[k], t.failed[0], l);
    }
  }

  /** Under that discipline at most one config waits, and every running listener is the
      one lastPulled builds or the one that config builds. */
  lemma RetriedCoreIsOfTwo(ciphers: set<string>, events: seq<Event>)
    requires Sane(events) && Retried(ciphers, START, events)
    ensures var t := Run(ciphers, START, events);
            && Agree(t.failed)
            && (t.state.node.Some? ==>
                  && t.state.lastPulled.Some?
                  && forall l | l in t.state.node.value.listeners ::
                       BuiltBy(ciphers, t.state.lastPulled.value, l) || (t.failed != [] && BuiltBy(ciphers, t.failed[0], l)))
  {
    var t := Run(ciphers, START, events);
    RunInv(ciphers, START, events);
    RunAgrees(ciphers, START, events);
    if t.state.node.Some? {
      forall l | l in t.state.node.value.listeners
        ensures BuiltBy(ciphers, t.state.lastPulled.value, l) || (t.failed != [] && BuiltBy(ciphers, t.failed[0], l))
      {
        ExplainedByOne(ciphers, t, l);
      }
    }
  }

  /** An answer the node acts on to the end: every hot update taken, or the core started,
      or there is nothing to start. */
  predicate Taken(ciphers: set<string>, s: NodeState, c: Payload, env: Env) {
    && !Ignored(s, c)
    && if Hot(s, c) then HotTaken(s, c, env.accepts) else (s.node == None && c.inbounds == []) || Starts(ciphers, c, env)
  }

  /** After any run, an answer that retries what is waiting, if anything is, and is taken
      settles it: nothing waits any more, and the node runs that answer's config on every
      listener. */
  lemma TakenRetrySettles(ciphers: set<string>, events: seq<Event>, c: Payload, env: Env)
    requires Sane(events) && WellFormed(c.inbounds)
    requires var t := Run(ciphers, START, events); AllSame(t.failed, c) && Taken(ciphers, t.state, c, env)
    ensures var t := Step(ciphers, Run(ciphers, START, events), Answer(c, env));
            t.failed == [] && t.state.lastPulled == Some(c) && Runs(ciphers, t.state, c)
  {
    RunInv(ciphers, START, events);
    var t := Run(ciphers, START, events);
    AnswerInv(ciphers, t, c, env);
    InvRuns(ciphers, Step(ciphers, t, Answer(c, env)));
  }

  // ----- Without the discipline the invariant is false -----

  function Plain(tag: string, user: string): Inbound {
    Inbound(tag, Vless, 443, [], [User(user, user, "", "", "", "")], None, None, "", 0, 0, "", false, "", "")
  }

  function Two(a: string, b: string): Payload {
    MakePayload([Plain("a", a), Plain("b", b)], CoreConfig(Warn, false, [], [], [], None))
  }

  lemma TwoIsGood(ciphers: set<string>, a: string, b: string)
    ensures Good(ciphers, Two(a, b)) && Supported(Two(a, b)) && Genuine(Two(a, b))
    ensures forall a', b' :: Compatible(Two(a, b), Two(a', b'))
  {
    var c := Two(a, b);
    assert c.inbounds[0].tag == "a" && c.inbounds[1].tag == "b";
    forall a', b'
      ensures Compatible(c, Two(a', b'))
    {
      var d := Two(a', b');
      assert d.inbounds[0].tag == "a" && d.inbounds[1].tag == "b";
      assert Tags(c.inbounds) == {"a", "b"} == Tags(d.inbounds);
    }
  }

  /** Whether the diff between two such configs lists an inbound. */
  lemma TwoChanged(a: string, b: string, a': string, b': string)
    ensures Changed(Two(a, b), Two(a', b'), 0) <==> a != a'
    ensures Changed(Two(a, b), Two(a', b'), 1) <==> b != b'
  {
    TwoIsGood({}, a, b);
    var before := Two(a, b).inbounds;
    ByTagLookup(before);
    assert ByTag(before)[before[0].tag] == before[0] && ByTag(before)[before[1].tag] == before[1];
  }

  lemma TwoReady(ciphers: set<string>, s: NodeState, a: string, b: string, a': string, b': string)
    requires s.node.Some? && s.lastPulled == Some(Two(a, b)) && RunsConfig(ciphers, s.node.value, s.plan, Two(a, b))
    ensures Ready(s.node.value.listeners, s.plan, Two(a', b'))
  {
    TwoIsGood(ciphers, a, b);
    TwoIsGood(ciphers, a', b');
    FramesCarryOver(s.node.value.listeners, Two(a, b), Two(a', b'));
    PlanFitsCompatible(s.plan, Two(a, b), Two(a', b'));
  }

  /** What a taken hot list of two such configs has in it. */
  lemma TwoUpdate(ls: seq<Listener>, plan: Plan, a: string, b: string, a': string, b': string, accepts: string -> bool, k: nat, t: string)
    requires Ready(ls, plan, Two(a', b')) && (a != a' ==> accepts("a")) && (b != b' ==> accepts("b"))
    requires k < |DiffHot(Two(a, b), Two(a', b'))| && t in plan.ListenerTags(DiffHot(Two(a, b), Two(a', b'))[k].tag)
    ensures Updates(ls, t, DiffHot(Two(a, b), Two(a', b'))[k].protocol, accepts)
  {
    var prev, next := Two(a, b), Two(a', b');
    var hot := DiffHot(prev, next);
    TwoChanged(a, b, a', b');
    HotListExact(ByTag(prev.inbounds), next.inbounds, hot[k]);
    var j :| 0 <= j < 2 && UsersChanged(ByTag(prev.inbounds), next.inbounds[j])
             && hot[k] == UserUpdate(next.inbounds[j].tag, next.inbounds[j].protocol);
    assert Changed(prev, next, j);
    assert plan.ListenerTags(next.inbounds[j].tag) == TagsOfInbound(next.inbounds[j]) == [next.inbounds[j].tag];
    SlotTakes(ls, next, j, accepts);
  }

  /** The core takes every update exactly when it takes those of the changed inbounds. */
  lemma TwoTaken(ciphers: set<string>, s: NodeState, a: string, b: string, a': string, b': string, accepts: string -> bool)
    requires s.node.Some? && s.lastPulled == Some(Two(a, b)) && RunsConfig(ciphers, s.node.value, s.plan, Two(a, b))
    ensures HotTaken(s, Two(a', b'), accepts) <==> (a != a' ==> accepts("a")) && (b != b' ==> accepts("b"))
  {
    TwoReady(ciphers, s, a, b, a', b');
    TwoChanged(a, b, a', b');
    var prev, next, ls := Two(a, b), Two(a', b'), s.node.value.listeners;
    if HotTaken(s, next, accepts) {
      if a != a' {
        TakenEverywhere(ls, s.plan, prev, next, accepts, 0, 443);
      }
      if b != b' {
        TakenEverywhere(ls, s.plan, prev, next, accepts, 1, 443);
      }
    }
    if (a != a' ==> accepts("a")) && (b != b' ==> accepts("b")) {
      forall k, t | 0 <= k < |DiffHot(prev, next)| && t in s.plan.ListenerTags(DiffHot(prev, next)[k].tag)
        ensures Updates(ls, t, DiffHot(prev, next)[k].protocol, accepts)
      {
        TwoUpdate(ls, s.plan, a, b, a', b', accepts, k, t);
      }
    }
  }

  lemma SlotTakes(ls: seq<Listener>, c: Payload, j: nat, accepts: string -> bool)
    requires Supported(c) && WellFormed(c.inbounds) && FramedBy(ls, c.inbounds) && j < |c.inbounds|
    requires |Ports(c.inbounds[j])| == 1 && Known(c.inbounds[j].protocol) && accepts(c.inbounds[j].tag)
    ensures Updates(ls, c.inbounds[j].tag, c.inbounds[j].protocol, accepts)
  {
    var p := Ports(c.inbounds[j])[0];
    assert Filled(ls, c.inbounds, j, p);
    var l :| l in ls && l.tag == ListenerTag(c.inbounds[j], p);
    var i :| 0 <= i < |ls| && ls[i] == l;
    var j', p' := FrameOfIndex(ls, c, i);
    ListenerTagInjective(c.inbounds, j, p, j', p');
    assert Takes(ls[i], c.inbounds[j].tag, c.inbounds[j].protocol, accepts);
  }

  function Trusting(): Env { Env(true, true, true, t => true) }

  function TakesOnlyA(): Env { Env(true, true, true, t => t == "a") }

  /** A config is half applied (inbound "a" takes its new users, "b" refuses), and the
      next config gives "a" its old users back. The diff against lastPulled no longer
      mentions "a", so the node records the new config while "a" keeps serving users of
      the one that failed. */
  lemma StaleUsersSurvive(ciphers: set<string>)
    ensures var t := Run(ciphers, START, [Answer(Two("x", "x"), Trusting()), Answer(Two("y", "y"), TakesOnlyA()), Answer(Two("x", "z"), Trusting())]);
            && t.state.lastPulled == Some(Two("x", "z")) && RunningLastPulled(t.state)
            && !Runs(ciphers, t.state, Two("x", "z"))
  {
    var c0, c1, c2 := Two("x", "x"), Two("y", "y"), Two("x", "z");
    var e0, e1, e2 := Answer(c0, Trusting()), Answer(c1, TakesOnlyA()), Answer(c2, Trusting());
    var t1 := Step(ciphers, START, e0);
    var t2 := Step(ciphers, t1, e1);
    var t3 := Step(ciphers, t2, e2);
    assert [e0, e1, e2][1..] == [e1, e2] && [e1, e2][1..] == [e2] && [e2][1..] == [];
    assert Run(ciphers, START, [e0, e1, e2]) == Run(ciphers, t1, [e1, e2]) == Run(ciphers, t2, [e2]) == Run(ciphers, t3, []) == t3;
    TwoIsGood(ciphers, "x", "x");
    TwoIsGood(ciphers, "y", "y");
    TwoIsGood(ciphers, "x", "z");
    AnswerInv(ciphers, START, c0, e0.env);
    HalfApplied(ciphers, t1.state, e1.env);
    AnswerInv(ciphers, t1, c1, e1.env);
    RevertKeepsStale(ciphers, t2.state, e2.env);
  }

  /** What receiving another such config does. */
  lemma TwoReceived(ciphers: set<string>, s: NodeState, a: string, b: string, a': string, b': string, env: Env)
    requires s.node.Some? && s.lastPulled == Some(Two(a, b)) && RunsConfig(ciphers, s.node.value, s.plan, Two(a, b))
    requires a != a' || b != b'
    ensures var next := Two(a', b');
            var after := Received(ciphers, s, next, env);
            && after.node.Some?
            && after.node.value.listeners == HotListeners(s.node.value.listeners, s.plan, Two(a, b), next, env.accepts)
            && after.lastPulled == if (a != a' ==> env.accepts("a")) && (b != b' ==> env.accepts("b")) then Some(next) else s.lastPulled
    ensures Ready(s.node.value.listeners, s.plan, Two(a', b'))
  {
    var next := Two(a', b');
    TwoIsGood(ciphers, a, b);
    TwoIsGood(ciphers, a', b');
    RestartExact(Two(a, b), next);
    TwoTaken(ciphers, s, a, b, a', b', env.accepts);
    FramesCarryOver(s.node.value.listeners, Two(a, b), next);
    PlanFitsCompatible(s.plan, Two(a, b), next);
    assert Two(a, b).version.inbounds[0].users[0].name == a && Two(a, b).version.inbounds[1].users[0].name == b;
    assert next.version.inbounds[0].users[0].name == a' && next.version.inbounds[1].users[0].name == b';
  }

  /** Where the listener of inbound "a" runs. */
  lemma FirstListener(ls: seq<Listener>, c: Payload) returns (i: nat)
    requires Supported(c) && WellFormed(c.inbounds) && FramedBy(ls, c.inbounds)
    requires |c.inbounds| > 0 && Ports(c.inbounds[0]) == [443] && Known(c.inbounds[0].protocol)
    ensures i < |ls| && Frames(c.inbounds, ls[i], 0, 443)
  {
    assert Filled(ls, c.inbounds, 0, 443);
    var l :| l in ls && l.tag == ListenerTag(c.inbounds[0], 443);
    i :| 0 <= i < |ls| && ls[i] == l;
    var j, p := FrameOfIndex(ls, c, i);
    ListenerTagInjective(c.inbounds, j, p, 0, 443);
  }

  /** Inbound "a" serves the users of config c. */
  ghost predicate Carries(s: NodeState, c: Payload) {
    && s.node.Some? && Supported(c)
    && exists i :: 0 <= i < |s.node.value.listeners| && CarriesAt(s.node.value.listeners[i], c)
  }

  predicate CarriesAt(l: Listener, c: Payload)
    requires Supported(c)
  {
    Frames(c.inbounds, l, 0, 443) && l == MakeListener(c.inbounds[0], 443)
  }

  lemma HalfApplied(ciphers: set<string>, s: NodeState, env: Env)
    requires s.node.Some? && s.lastPulled == Some(Two("x", "x")) && RunsConfig(ciphers, s.node.value, s.plan, Two("x", "x"))
    requires env == TakesOnlyA()
    ensures var after := Received(ciphers, s, Two("y", "y"), env);
            after.lastPulled == Some(Two("x", "x")) && Carries(after, Two("y", "y"))
  {
    var c0, c1 := Two("x", "x"), Two("y", "y");
    TwoReceived(ciphers, s, "x", "x", "y", "y", env);
    TwoChanged("x", "x", "y", "y");
    var ls := s.node.value.listeners;
    var i := FirstListener(ls, c1);
    var after := HotListeners(ls, s.plan, c0, c1, env.accepts);
    AppliedListener(ls, s.plan, c0, c1, env.accepts, after, i, 0, 443);
    assert CarriesAt(after[i], c1);
  }

  lemma OtherUserOtherListener(l: Listener, a: string, b: string, a': string, b': string)
    requires Supported(Two(a, b)) && Supported(Two(a', b')) && CarriesAt(l, Two(a, b)) && a != a'
    ensures Frames(Two(a', b').inbounds, l, 0, 443) && l != MakeListener(Two(a', b').inbounds[0], 443)
  {
    var c, d := Two(a, b), Two(a', b');
    assert MakeListener(c.inbounds[0], 443).users[0].name == a && MakeListener(d.inbounds[0], 443).users[0].name == a';
    assert Shape(c.inbounds[0]) == Shape(d.inbounds[0]);
  }

  lemma RevertKeepsStale(ciphers: set<string>, s: NodeState, env: Env)
    requires s.node.Some? && s.lastPulled == Some(Two("x", "x")) && RunsConfig(ciphers, s.node.value, s.plan, Two("x", "x"))
    requires env == Trusting() && Carries(s, Two("y", "y"))
    ensures var after := Received(ciphers, s, Two("x", "z"), env);
            after.node.Some? && after.lastPulled == Some(Two("x", "z")) && !Runs(ciphers, after, Two("x", "z"))
  {
    var c0, c1, c2 := Two("x", "x"), Two("y", "y"), Two("x", "z");
    TwoReceived(ciphers, s, "x", "x", "x", "z", env);
    TwoChanged("x", "x", "x", "z");
    var ls := s.node.value.listeners;
    var i :| 0 <= i < |ls| && CarriesAt(ls[i], c1);
    OtherUserOtherListener(ls[i], "y", "y", "x", "z");
    TwoTaken(ciphers, s, "x", "x", "x", "z", env.accepts);
    HotApplyExact(ls, s.plan, c0, c2, env.accepts, HotListeners(ls, s.plan, c0, c2, env.accepts));
    assert !UpToDate(c0, c2, ls[i], 0, 443);
  }
}
