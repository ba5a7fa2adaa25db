/** internal/httpapi/nodeprofile.go, overrides half: laying one node's overrides over
    the fleet core config. */
module Overrides {
  import opened Options
  import opened Wire
  import opened CoreOptions
  import opened CoreValidation
  import Routing

  datatype CoreOverrides = CoreOverrides(
    logLevel: Option<LogLevel>, sniff: Option<bool>, dnsServers: Option<seq<DnsServer>>,
    outbounds: seq<Outbound>, rulesFirst: seq<Rule>)
  {
    predicate IsZero() {
      logLevel == None && sniff == None && dnsServers == None && outbounds == [] && rulesFirst == []
    }
  }

  const NO_OVERRIDES := CoreOverrides(None, None, None, [], [])

  /** Position of the last outbound with this tag, |obs| when there is none. */
  function LastIndex(obs: seq<Outbound>, tag: string): (i: nat)
    ensures i <= |obs| && (i < |obs| ==> obs[i].tag == tag)
    ensures forall k | i < k < |obs| :: obs[k].tag != tag
    ensures i == |obs| <==> tag !in OutboundTags(obs)
  {
    if obs == [] then 0
    else
      var n := |obs| - 1;
      if obs[n].tag == tag then
        assert obs[n].tag in OutboundTags(obs);
        n
      else
        var i := LastIndex(obs[..n], tag);
        assert OutboundTags(obs) == OutboundTags(obs[..n]) + {obs[n].tag} by {
          assert forall k | 0 <= k < n :: obs[..n][k] == obs[k];
        }
        if i == n then n + 1 else i
  }

  function MergeOne(merged: seq<Outbound>, ob: Outbound): seq<Outbound> {
    var i := LastIndex(merged, ob.tag);
    if i < |merged| then merged[i := ob] else merged + [ob]
  }

  function Merge(fleet: seq<Outbound>, overrides: seq<Outbound>): seq<Outbound> {
    if overrides == [] then fleet
    else MergeOne(Merge(fleet, overrides[..|overrides| - 1]), overrides[|overrides| - 1])
  }

  function Applied(o: CoreOverrides, fleet: CoreConfig): CoreConfig {
    CoreConfig(
      if o.logLevel.Some? then o.logLevel.value else fleet.logLevel,
      if o.sniff.Some? then o.sniff.value else fleet.sniff,
      Merge(fleet.outbounds, o.outbounds),
      o.rulesFirst + fleet.rules,
      if o.dnsServers.Some? then o.dnsServers.value else fleet.dnsServers,
      fleet.updatedAt)
  }

  // ----- apply, on the slices every node's payload shares -----

  /** A Go slice: the first len cells of its backing array. */
  datatype Slice<T> = Slice(cells: array<T>, len: nat)
  {
    predicate Valid() reads cells { len <= cells.Length }
    function View(): seq<T> reads cells requires Valid() { cells[..len] }
  }

  datatype SharedCore = SharedCore(
    logLevel: LogLevel, sniff: bool, outbounds: Slice<Outbound>, rules: Slice<Rule>,
    dnsServers: Slice<DnsServer>, updatedAt: Option<int>)
  {
    predicate Valid() reads outbounds.cells, rules.cells, dnsServers.cells {
      outbounds.Valid() && rules.Valid() && dnsServers.Valid()
    }
    function View(): CoreConfig
      requires Valid()
      reads outbounds.cells, rules.cells, dnsServers.cells
    {
      CoreConfig(logLevel, sniff, outbounds.View(), rules.View(), dnsServers.View(), updatedAt)
    }
  }

  method Copy<T(0)>(xs: seq<T>, capacity: nat) returns (cells: array<T>)
    requires |xs| <= capacity
    ensures fresh(cells) && cells.Length == capacity && cells[..|xs|] == xs
  {
    cells := new T[capacity];
    for i := 0 to |xs|
      invariant cells[..i] == xs[..i]
    {
      cells[i] := xs[i];
    }
  }

  /** The at map of apply: where each tag of a list stands. */
  predicate Indexed(obs: seq<Outbound>, at: map<string, nat>) {
    at.Keys == OutboundTags(obs) && forall t | t in at :: at[t] == LastIndex(obs, t)
  }

  method IndexByTag(obs: seq<Outbound>) returns (at: map<string, nat>)
    ensures Indexed(obs, at)
  {
    at := map[];
    for i := 0 to |obs|
      invariant Indexed(obs[..i], at)
    {
      at := at[obs[i].tag := i];
      AppendedTag(obs[..i], obs[i]);
      assert obs[..i + 1] == obs[..i] + [obs[i]];
    }
    assert obs[..|obs|] == obs;
  }

  /** One override: overwrite the cell of its tag, or append. */
  method MergeInto(cells: array<Outbound>, len: nat, at: map<string, nat>, ob: Outbound)
    returns (len': nat, at': map<string, nat>)
    requires len < cells.Length && Indexed(cells[..len], at)
    modifies cells
    ensures len <= len' <= len + 1 && cells[..len'] == MergeOne(old(cells[..len]), ob)
    ensures Indexed(cells[..len'], at')
  {
    ghost var before := cells[..len];
    len', at' := len, at;
    if ob.tag in at {
      cells[at[ob.tag]] := ob;
      assert cells[..len] == before[at[ob.tag] := ob];
      SameTags(before, at[ob.tag], ob);
    } else {
      at' := at[ob.tag := len];
      cells[len] := ob;
      len' := len + 1;
      assert cells[..len'] == before + [ob];
      AppendedTag(before, ob);
    }
  }

  /** The outbound loop of apply: overwrites in place, but only in its own copy. */
  method MergeOutbounds(fleet: Slice<Outbound>, overrides: seq<Outbound>) returns (merged: Slice<Outbound>)
    requires fleet.Valid()
    ensures fresh(merged.cells) && merged.Valid()
    ensures merged.View() == Merge(old(fleet.View()), overrides)
    ensures fleet.View() == old(fleet.View())
  {
    ghost var base := fleet.View();
    var cells := Copy(fleet.cells[..fleet.len], fleet.len + |overrides|);
    var len := fleet.len;
    var at := IndexByTag(cells[..len]);
    for i := 0 to |overrides|
      invariant 0 <= len <= fleet.len + i <= cells.Length == fleet.len + |overrides|
      invariant fresh(cells)
      invariant cells[..len] == Merge(base, overrides[..i])
      invariant Indexed(cells[..len], at)
      invariant fleet.View() == base
    {
      assert overrides[..i + 1][..i] == overrides[..i];
      len, at := MergeInto(cells, len, at, overrides[i]);
    }
    assert overrides[..|overrides|] == overrides;
    merged := Slice(cells, len);
  }

  lemma SameTags(obs: seq<Outbound>, i: nat, ob: Outbound)
    requires i < |obs| && obs[i].tag == ob.tag
    ensures OutboundTags(obs[i := ob]) == OutboundTags(obs)
    ensures forall t :: LastIndex(obs[i := ob], t) == LastIndex(obs, t)
  {
    var after := obs[i := ob];
    assert forall k | 0 <= k < |obs| :: after[k].tag == obs[k].tag;
    assert forall t | t in OutboundTags(after) :: t in OutboundTags(obs);
    assert forall t | t in OutboundTags(obs) :: t in OutboundTags(after);
  }

  lemma AppendedTag(obs: seq<Outbound>, ob: Outbound)
    ensures OutboundTags(obs + [ob]) == OutboundTags(obs) + {ob.tag}
    ensures forall t :: LastIndex(obs + [ob], t) ==
                        if t == ob.tag then |obs| else if t in OutboundTags(obs) then LastIndex(obs, t) else |obs| + 1
  {
    var after := obs + [ob];
    assert after[..|obs|] == obs;
    SnocTags(after);
  }

  /** A list of rules in memory of its own, in front of a copy of the fleet's. */
  method RulesInFront(first: seq<Rule>, fleet: Slice<Rule>) returns (all: Slice<Rule>)
    requires fleet.Valid()
    ensures fresh(all.cells) && all.Valid() && all.View() == first + fleet.View()
  {
    var rules := first + fleet.cells[..fleet.len];
    var cells := Copy(rules, |rules|);
    all := Slice(cells, |rules|);
  }

  /** apply: the merged config, in slices of its own wherever it differs from the fleet's. */
  method Apply(o: CoreOverrides, fleet: SharedCore) returns (out: SharedCore)
    requires fleet.Valid()
    ensures out.Valid() && out.View() == Applied(o, old(fleet.View()))
    ensures fleet.View() == old(fleet.View())
    ensures out.outbounds == fleet.outbounds || fresh(out.outbounds.cells)
    ensures out.rules == fleet.rules || fresh(out.rules.cells)
    ensures out.dnsServers == fleet.dnsServers || fresh(out.dnsServers.cells)
  {
    if o.IsZero() {
      assert [] + fleet.rules.View() == fleet.rules.View();
      return fleet;
    }
    out := fleet;
    if o.logLevel.Some? {
      out := out.(logLevel := o.logLevel.value);
    }
    if o.sniff.Some? {
      out := out.(sniff := o.sniff.value);
    }
    if o.dnsServers.Some? {
      var servers := Copy(o.dnsServers.value, |o.dnsServers.value|);
      out := out.(dnsServers := Slice(servers, |o.dnsServers.value|));
    }
    if |o.outbounds| > 0 {
      var merged := MergeOutbounds(fleet.outbounds, o.outbounds);
      out := out.(outbounds := merged);
    }
    if |o.rulesFirst| > 0 {
      var rules := RulesInFront(o.rulesFirst, fleet.rules);
      out := out.(rules := rules);
    } else {
      assert [] + fleet.rules.View() == fleet.rules.View();
    }
  }

  // ----- What the merge means -----

  /** The outbound a tag names in a list, if any. */
  function Find(obs: seq<Outbound>, tag: string): Option<Outbound> {
    var i := LastIndex(obs, tag);
    if i < |obs| then Some(obs[i]) else None
  }

  lemma MergeOneFind(merged: seq<Outbound>, ob: Outbound, tag: string)
    ensures Find(MergeOne(merged, ob), tag) == if tag == ob.tag then Some(ob) else Find(merged, tag)
  {
    var i := LastIndex(merged, ob.tag);
    if i < |merged| {
      SameTags(merged, i, ob);
    } else {
      AppendedTag(merged, ob);
    }
  }

  /** Looking a tag up in the merged list finds the node's override if there is one and
      the fleet's outbound otherwise; a tag is never removed. */
  lemma {:induction false} MergeLookup(fleet: seq<Outbound>, overrides: seq<Outbound>, tag: string)
    ensures Find(Merge(fleet, overrides), tag) ==
            if Find(overrides, tag).Some? then Find(overrides, tag) else Find(fleet, tag)
  {
    if overrides != [] {
      var n := |overrides| - 1;
      MergeLookup(fleet, overrides[..n], tag);
      MergeOneFind(Merge(fleet, overrides[..n]), overrides[n], tag);
      assert overrides == overrides[..n] + [overrides[n]];
      AppendedTag(overrides[..n], overrides[n]);
    }
  }

  /** Tags stay distinct, and the fleet's come first, in the fleet's order. */
  lemma {:induction false} MergeKeepsOrder(fleet: seq<Outbound>, overrides: seq<Outbound>)
    requires DistinctOutbounds(fleet)
    ensures DistinctOutbounds(Merge(fleet, overrides))
    ensures |fleet| <= |Merge(fleet, overrides)|
    ensures forall i | 0 <= i < |fleet| :: Merge(fleet, overrides)[i].tag == fleet[i].tag
  {
    if overrides != [] {
      var n := |overrides| - 1;
      MergeKeepsOrder(fleet, overrides[..n]);
      var before, ob := Merge(fleet, overrides[..n]), overrides[n];
      var i := LastIndex(before, ob.tag);
      if i == |before| {
        assert forall k | 0 <= k < |before| :: before[k].tag in OutboundTags(before);
      }
    }
  }

  /** The tags of the overrides the fleet does not have, in order. */
  function NewTags(fleet: seq<Outbound>, overrides: seq<Outbound>): seq<string> {
    if overrides == [] then []
    else
      var n := |overrides| - 1;
      var rest := NewTags(fleet, overrides[..n]);
      var t := overrides[n].tag;
      if t in OutboundTags(fleet) || t in rest then rest else rest + [t]
  }

  /** A list that starts with the fleet's tags and goes on with some others. */
  predicate TagsAre(obs: seq<Outbound>, fleet: seq<Outbound>, rest: seq<string>) {
    && |obs| == |fleet| + |rest|
    && (forall k | 0 <= k < |fleet| :: obs[k].tag == fleet[k].tag)
    && (forall k | 0 <= k < |rest| :: obs[|fleet| + k].tag == rest[k])
  }

  lemma TagsAreMembers(obs: seq<Outbound>, fleet: seq<Outbound>, rest: seq<string>, t: string)
    requires TagsAre(obs, fleet, rest)
    ensures t in OutboundTags(obs) <==> t in OutboundTags(fleet) || t in rest
  {
    if t in OutboundTags(obs) {
      var k :| 0 <= k < |obs| && obs[k].tag == t;
      if k < |fleet| {
        assert fleet[k].tag == t;
      } else {
        assert rest[k - |fleet|] == t;
      }
    }
    if k :| 0 <= k < |fleet| && fleet[k].tag == t {
      assert obs[k].tag == t;
    }
    if k :| 0 <= k < |rest| && rest[k] == t {
      assert obs[|fleet| + k].tag == t;
    }
  }

  lemma MergeOneTags(obs: seq<Outbound>, fleet: seq<Outbound>, rest: seq<string>, ob: Outbound)
    requires TagsAre(obs, fleet, rest)
    ensures TagsAre(MergeOne(obs, ob), fleet, if ob.tag in OutboundTags(fleet) || ob.tag in rest then rest else rest + [ob.tag])
  {
    TagsAreMembers(obs, fleet, rest, ob.tag);
    var i := LastIndex(obs, ob.tag);
    if i < |obs| {
      var merged := obs[i := ob];
      assert forall k | 0 <= k < |obs| :: merged[k].tag == obs[k].tag;
    }
  }

  /** The new tags are appended after the fleet's, in the order the node lists them. */
  lemma {:induction false} MergeAppendsNew(fleet: seq<Outbound>, overrides: seq<Outbound>)
    ensures TagsAre(Merge(fleet, overrides), fleet, NewTags(fleet, overrides))
  {
    if overrides != [] {
      var n := |overrides| - 1;
      MergeAppendsNew(fleet, overrides[..n]);
      MergeOneTags(Merge(fleet, overrides[..n]), fleet, NewTags(fleet, overrides[..n]), overrides[n]);
    }
  }

  /** What a node says for itself wins, setting by setting; what it does not say is the
      fleet's. Rules add up, the node's in front. */
  lemma NodeSettingsWin(o: CoreOverrides, fleet: CoreConfig)
    ensures var c := Applied(o, fleet);
            && (forall level :: c.logLevel == level <==> o.logLevel == Some(level) || (o.logLevel == None && fleet.logLevel == level))
            && (forall on :: c.sniff == on <==> o.sniff == Some(on) || (o.sniff == None && fleet.sniff == on))
            && (forall servers :: c.dnsServers == servers <==>
                  o.dnsServers == Some(servers) || (o.dnsServers == None && fleet.dnsServers == servers))
            && |c.rules| == |o.rulesFirst| + |fleet.rules|
            && (forall k | 0 <= k < |o.rulesFirst| :: c.rules[k] == o.rulesFirst[k])
            && (forall k | 0 <= k < |fleet.rules| :: c.rules[|o.rulesFirst| + k] == fleet.rules[k])
            && c.updatedAt == fleet.updatedAt
  {
  }

  /** Overrides count as none exactly when they change no fleet config. */
  lemma ZeroChangesNothing(o: CoreOverrides)
    ensures o.IsZero() ==> forall fleet :: Applied(o, fleet) == fleet
    ensures o.IsZero() <==> o == NO_OVERRIDES
  {
    if o.IsZero() {
      forall fleet: CoreConfig
        ensures Applied(o, fleet) == fleet
      {
        assert [] + fleet.rules == fleet.rules;
      }
    }
  }

  /** A node's own rules shadow the fleet's: what they match is theirs, everything else
      goes where the fleet sends it. */
  lemma {:induction false} RulesShadow(m: Routing.Matcher, first: seq<Rule>, fleet: seq<Rule>, conn: Routing.Conn, sniffed: bool)
    ensures Routing.SourceTarget(m, first + fleet, conn, sniffed) ==
            if exists k :: 0 <= k < |first| && Routing.SourceMatch(m, first[k], conn, sniffed)
            then Routing.SourceTarget(m, first, conn, sniffed)
            else Routing.SourceTarget(m, fleet, conn, sniffed)
  {
    if first == [] {
      assert first + fleet == fleet;
    } else {
      assert (first + fleet)[1..] == first[1..] + fleet;
      RulesShadow(m, first[1..], fleet, conn, sniffed);
      if !Routing.SourceMatch(m, first[0], conn, sniffed) {
        if k :| 0 <= k < |first| && Routing.SourceMatch(m, first[k], conn, sniffed) {
          assert first[1..][k - 1] == first[k];
        }
      }
    }
  }
}
