/** Saving the fleet core config and the nodes' overrides: the checks on both sides of
    the merge keep every node's merged config valid. One save is one atomic step. */
module ConfigSaves {
  import opened Options
  import opened Wire
  import opened CoreOptions
  import opened CoreValidation
  import opened Overrides
  import CompileGuarantees
  import Acceptance

  datatype OverrideDefect =
    | BadLogLevel
    | DuplicateOverride(tag: string)
    | MergedInvalid(defect: Defect)
    | RuleNamesUnknownInbound(tag: string)

  /** The well-formedness validateCoreOverrides asks for. known is the set of inbound
      tags, or None to skip that check. */
  predicate ValidOverrides(fleet: CoreConfig, o: CoreOverrides, known: Option<set<string>>) {
    && (o.logLevel.Some? ==> ValidLevel(o.logLevel.value))
    && DistinctOutbounds(o.outbounds)
    && Valid(Applied(o, fleet))
    && (known.Some? ==> RulesKnow(o.rulesFirst, known.value))
  }

  predicate RulesKnow(rules: seq<Rule>, known: set<string>) {
    forall i, k | 0 <= i < |rules| && 0 <= k < |rules[i].inbound| :: rules[i].inbound[k] in known
  }

  method UnknownInbound(rules: seq<Rule>, known: set<string>) returns (missing: Option<string>)
    ensures missing == None <==> RulesKnow(rules, known)
    ensures missing.Some? ==> missing.value !in known && exists i :: 0 <= i < |rules| && missing.value in rules[i].inbound
  {
    for i := 0 to |rules|
      invariant RulesKnow(rules[..i], known)
    {
      for k := 0 to |rules[i].inbound|
        invariant forall n | 0 <= n < k :: rules[i].inbound[n] in known
      {
        if rules[i].inbound[k] !in known {
          return Some(rules[i].inbound[k]);
        }
      }
    }
    assert rules[..|rules|] == rules;
    return None;
  }

  method DuplicateOutbound(obs: seq<Outbound>) returns (tag: Option<string>)
    ensures tag == None <==> DistinctOutbounds(obs)
  {
    var seen: set<string> := {};
    for i := 0 to |obs|
      invariant DistinctOutbounds(obs[..i])
      invariant seen == set k | 0 <= k < i :: obs[k].tag
    {
      if obs[i].tag in seen {
        return Some(obs[i].tag);
      }
      seen := seen + {obs[i].tag};
    }
    assert obs[..|obs|] == obs;
    return None;
  }

  /** validateCoreOverrides. */
  method ValidateCoreOverrides(fleet: CoreConfig, o: CoreOverrides, known: Option<set<string>>)
    returns (d: Option<OverrideDefect>)
    ensures d == None <==> ValidOverrides(fleet, o, known)
  {
    if o.logLevel.Some? && !ValidLevel(o.logLevel.value) {
      return Some(BadLogLevel);
    }
    var duplicate := DuplicateOutbound(o.outbounds);
    if duplicate.Some? {
      return Some(DuplicateOverride(duplicate.value));
    }
    var defect := ValidateCoreConfig(Applied(o, fleet));
    if defect.Some? {
      return Some(MergedInvalid(defect.value));
    }
    if known.Some? {
      var missing := UnknownInbound(o.rulesFirst, known.value);
      if missing.Some? {
        return Some(RuleNamesUnknownInbound(missing.value));
      }
    }
    return None;
  }

  /** A node row's core_overrides column: overrides, or text that no longer decodes. */
  datatype Stored = Readable(overrides: CoreOverrides) | Unreadable

  datatype State = State(fleet: CoreConfig, nodes: map<int, Stored>, inbounds: set<string>)

  datatype Command =
    | SaveFleet(dto: CoreConfig, now: int)
    | SaveOverrides(node: int, overrides: CoreOverrides)
    | ClearOverrides(node: int)
    | DeleteNode(node: int)
    | SetInbounds(tags: set<string>)

  /** The config a fleet save stores: an unset log level becomes "warn". */
  function Normalized(dto: CoreConfig, now: int): CoreConfig {
    dto.(logLevel := if dto.logLevel == UnsetLevel then Warn else dto.logLevel, updatedAt := Some(now))
  }

  /** A node's overrides stay mergeable into a fleet config. Overrides that no longer
      decode, or that override nothing, are not checked. */
  predicate Mergeable(fleet: CoreConfig, s: Stored) {
    s.Readable? && !s.overrides.IsZero() ==> ValidOverrides(fleet, s.overrides, None)
  }

  predicate FleetAccepted(s: State, fleet: CoreConfig) {
    && Valid(fleet)
    && RulesKnow(fleet.rules, s.inbounds)
    && (forall n | n in s.nodes :: Mergeable(fleet, s.nodes[n]))
  }

  function Step(s: State, c: Command): State {
    match c
    case SaveFleet(dto, now) =>
      if FleetAccepted(s, Normalized(dto, now)) then s.(fleet := Normalized(dto, now)) else s
    case SaveOverrides(n, o) =>
      if o.IsZero() then s.(nodes := s.nodes[n := Readable(NO_OVERRIDES)])
      else if ValidOverrides(s.fleet, o, Some(s.inbounds)) then s.(nodes := s.nodes[n := Readable(o)])
      else s
    case ClearOverrides(n) => s.(nodes := s.nodes[n := Readable(NO_OVERRIDES)])
    case DeleteNode(n) => s.(nodes := s.nodes - {n})
    case SetInbounds(tags) => s.(inbounds := tags)
  }

  function Run(s: State, commands: seq<Command>): State
    decreases |commands|
  {
    if commands == [] then s else Run(Step(s, commands[0]), commands[1..])
  }

  /** validateNodeOverridesAgainstFleet: the node loop. */
  method ValidateNodesAgainstFleet(fleet: CoreConfig, nodes: map<int, Stored>) returns (accepted: bool)
    ensures accepted <==> forall n | n in nodes :: Mergeable(fleet, nodes[n])
  {
    var pending := nodes.Keys;
    while exists n :: n in pending
      invariant pending <= nodes.Keys
      invariant forall n | n in nodes && n !in pending :: Mergeable(fleet, nodes[n])
      decreases |pending|
    {
      var n :| n in pending;
      pending := pending - {n};
      if nodes[n].Unreadable? || nodes[n].overrides.IsZero() {
        continue;
      }
      var d := ValidateCoreOverrides(fleet, nodes[n].overrides, None);
      if d.Some? {
        return false;
      }
    }
    return true;
  }

  /** The panel's stored rows, with the two save paths as methods. */
  class Panel {
    var fleet: CoreConfig
    var nodes: map<int, Stored>
    var inbounds: set<string>

    constructor (fleet: CoreConfig)
      ensures this.fleet == fleet && nodes == map[] && inbounds == {}
    {
      this.fleet, nodes, inbounds := fleet, map[], {};
    }

    function View(): State reads this { State(fleet, nodes, inbounds) }

    /** applyCoreConfig. */
    method ApplyCoreConfig(dto: CoreConfig, now: int) returns (saved: bool)
      modifies this
      ensures View() == Step(old(View()), SaveFleet(dto, now))
      ensures saved <==> FleetAccepted(old(View()), Normalized(dto, now))
    {
      var next := Normalized(dto, now);
      var defect := ValidateCoreConfig(next);
      if defect.Some? {
        return false;
      }
      var missing := UnknownInbound(next.rules, inbounds);
      if missing.Some? {
        return false;
      }
      var accepted := ValidateNodesAgainstFleet(next, nodes);
      if !accepted {
        return false;
      }
      fleet := next;
      return true;
    }

    /** The overrides part of resolveNodeProfile, followed by the row update. */
    method SaveNodeOverrides(n: int, o: CoreOverrides) returns (saved: bool)
      modifies this
      ensures View() == Step(old(View()), SaveOverrides(n, o))
      ensures saved <==> o.IsZero() || ValidOverrides(old(fleet), o, Some(old(inbounds)))
    {
      if o.IsZero() {
        nodes := nodes[n := Readable(NO_OVERRIDES)];
        return true;
      }
      var d := ValidateCoreOverrides(fleet, o, Some(inbounds));
      if d.Some? {
        return false;
      }
      nodes := nodes[n := Readable(o)];
      return true;
    }
  }

  // ----- Every reachable state serves every node a valid config -----

  predicate Sound(s: State) {
    Valid(s.fleet) && forall n | n in s.nodes :: Mergeable(s.fleet, s.nodes[n])
  }

  lemma {:induction false} RunStaysSound(s: State, commands: seq<Command>)
    requires Sound(s)
    ensures Sound(Run(s, commands))
    decreases |commands|
  {
    if commands != [] {
      StepStaysSound(s, commands[0]);
      RunStaysSound(Step(s, commands[0]), commands[1..]);
    }
  }

  lemma StepStaysSound(s: State, c: Command)
    requires Sound(s)
    ensures Sound(Step(s, c))
  {
  }

  lemma NothingApplied(fleet: CoreConfig)
    ensures Applied(NO_OVERRIDES, fleet) == fleet
  {
    assert NO_OVERRIDES.rulesFirst + fleet.rules == fleet.rules;
  }

  /** Over any sequence of atomic saves, every node's merged config passes the fleet
      validation. */
  lemma MergedConfigsStayValid(s: State, commands: seq<Command>, n: int)
    requires Sound(s)
    requires var t := Run(s, commands); n in t.nodes && t.nodes[n].Readable?
    ensures var t := Run(s, commands); Valid(Applied(t.nodes[n].overrides, t.fleet))
  {
    RunStaysSound(s, commands);
    var t := Run(s, commands);
    if t.nodes[n].overrides.IsZero() {
      NothingApplied(t.fleet);
    } else {
      assert Mergeable(t.fleet, t.nodes[n]);
    }
  }

  /** What is saved is what is served: an accepted fleet config is kept as it was sent, but
      for a missing log level and the time stamp, and an accepted override takes effect on
      its node, on whatever the fleet's config is then. */
  lemma SavedIsServed(s: State, dto: CoreConfig, now: int, n: int, o: CoreOverrides, fleet: CoreConfig)
    ensures var t := Step(s, SaveFleet(dto, now));
            && (FleetAccepted(s, Normalized(dto, now)) ==>
                  && t.fleet == dto.(logLevel := t.fleet.logLevel, updatedAt := Some(now))
                  && t.fleet.logLevel == (if dto.logLevel == UnsetLevel then Warn else dto.logLevel))
            && (!FleetAccepted(s, Normalized(dto, now)) ==> t.fleet == s.fleet)
            && t.nodes == s.nodes
    ensures var t := Step(s, SaveOverrides(n, o));
            && (o == NO_OVERRIDES || ValidOverrides(s.fleet, o, Some(s.inbounds)) ==>
                  n in t.nodes && t.nodes[n].Readable? && Applied(t.nodes[n].overrides, fleet) == Applied(o, fleet))
            && t.fleet == s.fleet && forall k | k in s.nodes && k != n :: k in t.nodes && t.nodes[k] == s.nodes[k]
  {
    ZeroChangesNothing(o);
  }

  /** Overrides that merge into a fleet config: a level the core knows if any, no tag twice,
      and a merged config that would be accepted by itself. */
  predicate AcceptableOverrides(fleet: CoreConfig, o: CoreOverrides) {
    && (o.logLevel.Some? ==> o.logLevel.value != UnsetLevel && !o.logLevel.value.OtherLevel?)
    && (forall i, j | 0 <= i < j < |o.outbounds| :: o.outbounds[i].tag != o.outbounds[j].tag)
    && Acceptance.Acceptable(Applied(o, fleet))
  }

  predicate NamesAmong(rules: seq<Rule>, inbounds: set<string>) {
    forall i, k | 0 <= i < |rules| && 0 <= k < |rules[i].inbound| :: rules[i].inbound[k] in inbounds
  }

  /** Both saves accept exactly what they are documented to: configs acceptable by
      themselves, that name inbounds there are, and that leave every node with a merge. */
  lemma SavesAcceptExactly(s: State, fleet: CoreConfig, o: CoreOverrides)
    ensures FleetAccepted(s, fleet) <==>
            && Acceptance.Acceptable(fleet) && NamesAmong(fleet.rules, s.inbounds)
            && forall n | n in s.nodes && s.nodes[n] != Unreadable && s.nodes[n] != Readable(NO_OVERRIDES) ::
                 AcceptableOverrides(fleet, s.nodes[n].overrides)
    ensures ValidOverrides(fleet, o, Some(s.inbounds)) <==> AcceptableOverrides(fleet, o) && NamesAmong(o.rulesFirst, s.inbounds)
  {
    Acceptance.AcceptedExactly(fleet);
    Acceptance.AcceptedExactly(Applied(o, fleet));
    forall n | n in s.nodes
      ensures Mergeable(fleet, s.nodes[n]) <==>
              s.nodes[n] == Unreadable || s.nodes[n] == Readable(NO_OVERRIDES) || AcceptableOverrides(fleet, s.nodes[n].overrides)
    {
      if s.nodes[n].Readable? {
        Acceptance.AcceptedExactly(Applied(s.nodes[n].overrides, fleet));
        ZeroChangesNothing(s.nodes[n].overrides);
      }
    }
  }

  // ----- Rules name the inbounds there are -----

  predicate PlainTags(tags: set<string>) {
    forall t | t in tags :: NoHash(t)
  }

  /** No rule names an inbound with the separator of derived tags in it. */
  predicate PlainRules(rules: seq<Rule>) {
    forall i, k | 0 <= i < |rules| && 0 <= k < |rules[i].inbound| :: NoHash(rules[i].inbound[k])
  }

  predicate PlainNode(s: Stored) {
    s.Readable? ==> PlainRules(s.overrides.rulesFirst)
  }

  predicate Plain(s: State) {
    && PlainTags(s.inbounds) && PlainRules(s.fleet.rules)
    && forall n | n in s.nodes :: PlainNode(s.nodes[n])
  }

  /** Inbounds are only ever given plain tags. Nothing in the panel checks this. */
  predicate PlainInbounds(commands: seq<Command>) {
    forall k | 0 <= k < |commands| && commands[k].SetInbounds? :: PlainTags(commands[k].tags)
  }

  lemma KnownIsPlain(rules: seq<Rule>, known: set<string>)
    requires RulesKnow(rules, known) && PlainTags(known)
    ensures PlainRules(rules)
  {
  }

  lemma StepStaysPlain(s: State, c: Command)
    requires Plain(s) && (c.SetInbounds? ==> PlainTags(c.tags))
    ensures Plain(Step(s, c))
  {
    match c
    case SaveFleet(dto, now) =>
      if FleetAccepted(s, Normalized(dto, now)) {
        KnownIsPlain(dto.rules, s.inbounds);
      }
    case SaveOverrides(n, o) =>
      if !o.IsZero() && ValidOverrides(s.fleet, o, Some(s.inbounds)) {
        KnownIsPlain(o.rulesFirst, s.inbounds);
      }
    case _ =>
  }

  lemma {:induction false} RunStaysPlain(s: State, commands: seq<Command>)
    requires Plain(s) && PlainInbounds(commands)
    ensures Plain(Run(s, commands))
    decreases |commands|
  {
    if commands != [] {
      StepStaysPlain(s, commands[0]);
      RunStaysPlain(Step(s, commands[0]), commands[1..]);
    }
  }

  /** So whatever a node is served by a reachable panel compiles there, and every rule
      sends its traffic to an outbound the node runs. */
  lemma ServedConfigsCompile(s: State, commands: seq<Command>, n: int, portsByTag: map<string, seq<Port>>, r: CompiledRule)
    requires Sound(s)
    requires var t := Run(s, commands); n in t.nodes && t.nodes[n].Readable?
    ensures var t := Run(s, commands);
            var served := Applied(t.nodes[n].overrides, t.fleet);
            && Compilable(served)
            && (r in CompileCore(served, portsByTag).rules && r.Route? ==>
                  r.outbound in CompileGuarantees.EmittedTags(CompileCore(served, portsByTag).outbounds))
  {
    MergedConfigsStayValid(s, commands, n);
    var t := Run(s, commands);
    var served := Applied(t.nodes[n].overrides, t.fleet);
    CompileGuarantees.ValidCompiles(served);
    if r in CompileCore(served, portsByTag).rules && r.Route? {
      CompileGuarantees.RouteTargetsExist(served.outbounds, served.sniff, served.rules, portsByTag, r);
    }
  }
}
