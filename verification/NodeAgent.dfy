/** cmd/node/main.go: the node's config pull as a state machine. A tick is two steps,
    because the mutex is released while the request is on its way: sending it, and
    receiving the answer. Requests to stop may come in between. */
module NodeAgent {
  import opened Options
  import opened Wire
  import opened Listeners
  import opened CoreOptions
  import opened HotApply
  import HotRefinement

  /** What the core may do to this program during one step. */
  datatype Env = Env(creates: bool, starts: bool, closes: bool, accepts: string -> bool)

  /** The fields of server this program's mutex guards. */
  datatype NodeState = NodeState(node: Option<Running>, lastPulled: Option<Payload>, plan: Plan)

  const IDLE := NodeState(None, None, EMPTY_PLAN)

  /** runningLastPulledLocked. */
  predicate RunningLastPulled(s: NodeState) {
    s.lastPulled.Some? && (s.node.Some? || s.lastPulled.value.inbounds == [])
  }

  function Stopped(s: NodeState): NodeState {
    s.(node := None, plan := EMPTY_PLAN)
  }

  predicate Starts(ciphers: set<string>, c: Payload, env: Env) {
    CanBuild(ciphers, c) && env.creates && env.starts
  }

  function AppliedFull(ciphers: set<string>, s: NodeState, c: Payload, env: Env): NodeState {
    if Starts(ciphers, c, env) then NodeState(Some(Build(ciphers, c)), Some(c), PlanOf(c.inbounds))
    else Stopped(s)
  }

  lemma HotTagsKnown(prev: Payload, next: Payload)
    ensures forall k | 0 <= k < |HotRefinement.DiffHot(prev, next)| :: HotRefinement.DiffHot(prev, next)[k].tag in ByTag(next.inbounds)
  {
    HotRefinement.HotListIsUpdates(ByTag(prev.inbounds), next.inbounds);
    ByTagKeys(next.inbounds);
    var hot := HotRefinement.DiffHot(prev, next);
    forall k | 0 <= k < |hot|
      ensures hot[k].tag in ByTag(next.inbounds)
    {
      var j :| 0 <= j < |next.inbounds| && hot[k] == UserUpdate(next.inbounds[j].tag, next.inbounds[j].protocol);
    }
  }

  function HotListeners(ls: seq<Listener>, plan: Plan, prev: Payload, next: Payload, accepts: string -> bool): (r: seq<Listener>)
    ensures HotRefinement.Applied(ls, plan, prev, next, accepts, r)
  {
    HotTagsKnown(prev, next);
    seq(|ls|, i requires 0 <= i < |ls| => HotListener(ls[i], plan, ByTag(next.inbounds), HotRefinement.DiffHot(prev, next), accepts))
  }

  predicate HotTaken(s: NodeState, next: Payload, accepts: string -> bool)
    requires s.node.Some? && s.lastPulled.Some?
  {
    AllUpdate(s.node.value.listeners, s.plan, HotRefinement.DiffHot(s.lastPulled.value, next), accepts)
  }

  /** A 200 answer whose version is the one already running is ignored. */
  predicate Ignored(s: NodeState, next: Payload) {
    RunningLastPulled(s) && s.lastPulled.value.version == next.version
  }

  /** The answer can be applied without a restart. */
  predicate Hot(s: NodeState, next: Payload) {
    s.node.Some? && !NeedsRestart(s.lastPulled, next)
  }

  /** The second half of pullOnce: a 200 answer carrying a config. */
  function Received(ciphers: set<string>, s: NodeState, next: Payload, env: Env): NodeState {
    if Ignored(s, next) then s
    else if s.node == None && next.inbounds == [] then s.(lastPulled := Some(next))
    else if !Hot(s, next) then AppliedFull(ciphers, s, next, env)
    else
      var run := s.node.value;
      NodeState(Some(run.(listeners := HotListeners(run.listeners, s.plan, s.lastPulled.value, next, env.accepts))),
                if HotTaken(s, next, env.accepts) then Some(next) else s.lastPulled,
                s.plan)
  }

  /** An answer whose version the node already runs changes nothing. */
  lemma SameVersionIsLeftAlone(ciphers: set<string>, s: NodeState, next: Payload, env: Env)
    requires s.lastPulled.Some? && s.lastPulled.value.version == next.version
    requires s.node.Some? || s.lastPulled.value.inbounds == []
    ensures Received(ciphers, s, next, env) == s
  {
  }

  class Server {
    const ciphers: set<string>
    var node: Option<Running>
    var lastPulled: Option<Payload>
    var plan: Plan
    /** The fail-open groups under supervision; none when no supervisor runs. */
    var supervised: seq<FallbackGroup>

    constructor (ciphers: set<string>)
      ensures this.ciphers == ciphers && State() == IDLE && Supervises()
    {
      this.ciphers, node, lastPulled, plan, supervised := ciphers, None, None, EMPTY_PLAN, [];
    }

    function State(): NodeState reads this { NodeState(node, lastPulled, plan) }

    /** The supervisor watches the running core's groups, and stops with the core. */
    predicate Supervises() reads this {
      supervised == if node == None then [] else node.value.core.fallbacks
    }

    method StartNode(c: Payload, env: Env) returns (started: bool)
      requires node == None && Supervises()
      modifies this
      ensures started <==> Starts(ciphers, c, env)
      ensures State() == if started then old(State()).(node := Some(Build(ciphers, c)), plan := PlanOf(c.inbounds)) else old(State())
      ensures Supervises()
    {
      var built := BuildOptionsPlan(ciphers, c);
      if built.Err? || !env.creates || !env.starts {
        return false;
      }
      node, plan := Some(built.value.0), built.value.1;
      supervised := built.value.0.core.fallbacks;
      return true;
    }

    /** stopNodeLocked: whatever closing the core returns, it is gone, and nothing is
        supervised any more. */
    method StopNode(env: Env) returns (closed: bool)
      modifies this
      ensures State() == Stopped(old(State())) && Supervises()
      ensures closed <==> old(node) == None || env.closes
    {
      supervised := [];
      plan := EMPTY_PLAN;
      if node == None {
        return true;
      }
      closed := env.closes;
      node := None;
    }

    /** POST /stop. */
    method HandleStop(env: Env) returns (closed: bool)
      requires Supervises()
      modifies this
      ensures State() == (if old(node) == None then old(State()) else Stopped(old(State()))) && Supervises()
      ensures closed <==> old(node) == None || env.closes
    {
      closed := true;
      if node != None {
        closed := StopNode(env);
      }
    }

    method ApplyFull(c: Payload, env: Env)
      modifies this
      ensures State() == AppliedFull(ciphers, old(State()), c, env) && Supervises()
    {
      var _ := StopNode(env);
      var started := StartNode(c, env);
      if started {
        lastPulled := Some(c);
      }
    }

    /** The first half of pullOnce: the If-None-Match of the request, if it carries one. */
    method PullSend() returns (condition: Option<Version>)
      ensures condition == if RunningLastPulled(State()) then Some(lastPulled.value.version) else None
    {
      if lastPulled != None && (node != None || |lastPulled.value.inbounds| == 0) {
        return Some(lastPulled.value.version);
      }
      return None;
    }

    /** The second half of pullOnce, on a 200 answer. */
    method PullReceive(pulled: Payload, env: Env)
      requires Supervises()
      modifies this
      ensures State() == Received(ciphers, old(State()), pulled, env) && Supervises()
    {
      if RunningLastPulled(State()) && lastPulled.value.version == pulled.version {
        return;
      }
      var restart, hot := DiffPulledConfig(lastPulled, pulled);
      if node == None {
        if |pulled.inbounds| == 0 {
          lastPulled := Some(pulled);
          return;
        }
        restart := true;
      }
      if restart {
        ApplyFull(pulled, env);
        return;
      }
      var byTag := IndexInbounds(pulled.inbounds);
      HotTagsKnown(lastPulled.value, pulled);
      assert hot == HotRefinement.DiffHot(lastPulled.value, pulled);
      var listeners, failed := HotApplyAll(node.value.listeners, plan, byTag, hot, env.accepts);
      assert listeners == HotListeners(node.value.listeners, plan, lastPulled.value, pulled, env.accepts);
      node := Some(node.value.(listeners := listeners));
      if failed {
        return;
      }
      lastPulled := Some(pulled);
    }
  }
}
