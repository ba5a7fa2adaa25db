/** internal/httpapi/nodeprofile.go, profile half: which listeners a node serves, and
    which profiles share one cached payload. */
module NodeProfile {
  import opened Wire
  import opened Overrides
  import opened Seqs
  import opened Sorting

  datatype Profile = Profile(tags: seq<string>, ports: seq<int>, overrides: CoreOverrides)
  {
    predicate IsDefault() {
      tags == [] && ports == [] && overrides.IsZero()
    }
  }

  // ----- filterInbounds -----

  predicate AdmitsTag(p: Profile, tag: string) {
    p.tags == [] || tag in p.tags
  }

  predicate AdmitsPort(p: Profile, port: Port) {
    p.ports == [] || exists k :: 0 <= k < |p.ports| && AsPort(p.ports[k]) == port
  }

  function Kept(p: Profile, ports: seq<Port>): seq<Port> {
    if ports == [] then []
    else
      var n := |ports| - 1;
      Kept(p, ports[..n]) + (if AdmitsPort(p, ports[n]) then [ports[n]] else [])
  }

  /** An inbound narrowed to the ports it keeps. */
  function Narrow(inb: Inbound, kept: seq<Port>): Inbound
    requires kept != []
  {
    if |kept| == |Ports(inb)| then inb
    else inb.(listenPort := if inb.listenPort in kept then inb.listenPort else kept[0],
              listenPorts := if |kept| > 1 then kept else [])
  }

  function FilterOne(p: Profile, inb: Inbound): seq<Inbound> {
    if !AdmitsTag(p, inb.tag) || Kept(p, Ports(inb)) == [] then []
    else [Narrow(inb, Kept(p, Ports(inb)))]
  }

  function Filter(p: Profile, fleet: seq<Inbound>): seq<Inbound> {
    if fleet == [] then []
    else
      var n := |fleet| - 1;
      Filter(p, fleet[..n]) + FilterOne(p, fleet[n])
  }

  lemma {:induction false} KeepsAll(p: Profile, ports: seq<Port>)
    requires p.ports == []
    ensures Kept(p, ports) == ports
  {
    if ports != [] {
      KeepsAll(p, ports[..|ports| - 1]);
    }
  }

  lemma {:induction false} FilterNothing(p: Profile, fleet: seq<Inbound>)
    requires p.tags == [] && p.ports == []
    ensures Filter(p, fleet) == fleet
  {
    if fleet != [] {
      FilterNothing(p, fleet[..|fleet| - 1]);
      KeepsAll(p, Ports(fleet[|fleet| - 1]));
    }
  }

  method FilterInbounds(p: Profile, fleet: seq<Inbound>) returns (out: seq<Inbound>)
    ensures out == Filter(p, fleet)
  {
    if |p.tags| == 0 && |p.ports| == 0 {
      FilterNothing(p, fleet);
      return fleet;
    }
    var tags := set k | 0 <= k < |p.tags| :: p.tags[k];
    var ports: set<Port> := set k | 0 <= k < |p.ports| :: AsPort(p.ports[k]);
    out := [];
    for i := 0 to |fleet|
      invariant out == Filter(p, fleet[..i])
    {
      var inb := fleet[i];
      assert fleet[..i + 1][..i] == fleet[..i];
      if p.tags != [] && inb.tag !in tags {
        continue;
      }
      if p.ports == [] {
        KeepsAll(p, Ports(inb));
        out := out + [inb];
        continue;
      }
      var kept := KeepPorts(p, ports, Ports(inb));
      if |kept| == 0 {
        continue;
      }
      inb := NarrowTo(inb, kept);
      out := out + [inb];
    }
    assert fleet[..|fleet|] == fleet;
  }

  method KeepPorts(p: Profile, ports: set<Port>, all: seq<Port>) returns (kept: seq<Port>)
    requires forall q: Port :: q in ports <==> exists k :: 0 <= k < |p.ports| && AsPort(p.ports[k]) == q
    requires p.ports != []
    ensures kept == Kept(p, all)
  {
    kept := [];
    for k := 0 to |all|
      invariant kept == Kept(p, all[..k])
    {
      assert all[..k + 1][..k] == all[..k];
      if all[k] in ports {
        kept := kept + [all[k]];
      }
    }
    assert all[..|all|] == all;
  }

  method NarrowTo(inb: Inbound, kept: seq<Port>) returns (out: Inbound)
    requires kept != []
    ensures out == Narrow(inb, kept)
  {
    out := inb;
    if |kept| != |Ports(inb)| {
      var primaryKept := false;
      for k := 0 to |kept|
        invariant primaryKept <==> inb.listenPort in kept[..k]
      {
        if kept[k] == inb.listenPort {
          primaryKept := true;
        }
      }
      assert kept[..|kept|] == kept;
      if !primaryKept {
        out := out.(listenPort := kept[0]);
      }
      out := out.(listenPorts := if |kept| > 1 then kept else []);
    }
  }

  // ----- Filtering is exact -----

  /** Every listener a list of inbounds serves, in order. */
  function Served(inbounds: seq<Inbound>): seq<(string, Port)> {
    if inbounds == [] then []
    else
      var n := |inbounds| - 1;
      Served(inbounds[..n]) + Pairs(inbounds[n].tag, Ports(inbounds[n]))
  }

  function Pairs(tag: string, ports: seq<Port>): seq<(string, Port)> {
    if ports == [] then [] else Pairs(tag, ports[..|ports| - 1]) + [(tag, ports[|ports| - 1])]
  }

  /** The pairs a profile admits, in order. */
  function Admitted(p: Profile, pairs: seq<(string, Port)>): seq<(string, Port)> {
    if pairs == [] then []
    else
      var n := |pairs| - 1;
      Admitted(p, pairs[..n]) + (if AdmitsTag(p, pairs[n].0) && AdmitsPort(p, pairs[n].1) then [pairs[n]] else [])
  }

  lemma {:induction false} AdmittedConcat(p: Profile, a: seq<(string, Port)>, b: seq<(string, Port)>)
    ensures Admitted(p, a + b) == Admitted(p, a) + Admitted(p, b)
  {
    if b == [] {
      assert a + b == a;
    } else {
      var n := |b| - 1;
      AdmittedConcat(p, a, b[..n]);
      assert (a + b)[..|a| + n] == a + b[..n];
    }
  }

  lemma {:induction false} AdmittedPairs(p: Profile, tag: string, ports: seq<Port>)
    ensures Admitted(p, Pairs(tag, ports)) == if AdmitsTag(p, tag) then Pairs(tag, Kept(p, ports)) else []
  {
    if ports != [] {
      var n := |ports| - 1;
      AdmittedPairs(p, tag, ports[..n]);
      var before := Pairs(tag, ports[..n]);
      var pairs, kept := Pairs(tag, ports), Kept(p, ports);
      assert pairs == before + [(tag, ports[n])] && pairs[..|pairs| - 1] == before;
      if AdmitsPort(p, ports[n]) {
        assert kept[..|kept| - 1] == Kept(p, ports[..n]);
        assert Pairs(tag, kept) == Pairs(tag, kept[..|kept| - 1]) + [(tag, ports[n])];
      } else {
        assert kept == Kept(p, ports[..n]);
      }
    }
  }

  lemma {:induction false} KeptLength(p: Profile, ports: seq<Port>)
    ensures |Kept(p, ports)| <= |ports|
    ensures |Kept(p, ports)| == |ports| ==> Kept(p, ports) == ports
    ensures forall q :: q in Kept(p, ports) <==> q in ports && AdmitsPort(p, q)
  {
    if ports != [] {
      var n := |ports| - 1;
      KeptLength(p, ports[..n]);
      assert ports == ports[..n] + [ports[n]];
    }
  }

  lemma NarrowServes(p: Profile, inb: Inbound)
    requires Kept(p, Ports(inb)) != []
    ensures Ports(Narrow(inb, Kept(p, Ports(inb)))) == Kept(p, Ports(inb))
  {
    KeptLength(p, Ports(inb));
    var kept := Kept(p, Ports(inb));
    if |kept| == 1 && |Ports(inb)| != 1 && inb.listenPort in kept {
      assert kept == [inb.listenPort];
    }
  }

  /** A node serves precisely the fleet's listeners whose tag and port its profile
      admits, in the fleet's order. */
  lemma {:induction false} FilterIsExact(p: Profile, fleet: seq<Inbound>)
    ensures Served(Filter(p, fleet)) == Admitted(p, Served(fleet))
  {
    if fleet != [] {
      var n := |fleet| - 1;
      var inb := fleet[n];
      FilterIsExact(p, fleet[..n]);
      AdmittedConcat(p, Served(fleet[..n]), Pairs(inb.tag, Ports(inb)));
      AdmittedPairs(p, inb.tag, Ports(inb));
      var before := Filter(p, fleet[..n]);
      if FilterOne(p, inb) == [] {
        assert Filter(p, fleet) == before;
      } else {
        NarrowServes(p, inb);
        assert Filter(p, fleet)[..|before|] == before;
      }
    }
  }

  /** Some inbound of this tag listens on this port. */
  predicate ServedBy(inbounds: seq<Inbound>, tag: string, port: Port) {
    exists i :: 0 <= i < |inbounds| && inbounds[i].tag == tag && ListensOn(inbounds[i], port)
  }

  lemma {:induction false} PairsMembers(tag: string, ports: seq<Port>, x: (string, Port))
    ensures x in Pairs(tag, ports) <==> x.0 == tag && x.1 in ports
  {
    if ports != [] {
      var n := |ports| - 1;
      PairsMembers(tag, ports[..n], x);
      InSnoc(Pairs(tag, ports[..n]), (tag, ports[n]), x);
      InSnoc(ports[..n], ports[n], x.1);
      InitAndLast(ports);
    }
  }

  lemma ServedBySnoc(inbounds: seq<Inbound>, tag: string, port: Port)
    requires inbounds != []
    ensures var n := |inbounds| - 1;
            ServedBy(inbounds, tag, port) <==>
            ServedBy(inbounds[..n], tag, port) || (inbounds[n].tag == tag && ListensOn(inbounds[n], port))
  {
    var n := |inbounds| - 1;
    if i :| 0 <= i < |inbounds| && inbounds[i].tag == tag && ListensOn(inbounds[i], port) {
      assert i < n ==> inbounds[..n][i] == inbounds[i];
    }
    if i :| 0 <= i < n && inbounds[..n][i].tag == tag && ListensOn(inbounds[..n][i], port) {
      assert inbounds[..n][i] == inbounds[i];
    }
  }

  lemma {:induction false} ServedMembers(inbounds: seq<Inbound>, tag: string, port: Port)
    ensures (tag, port) in Served(inbounds) <==> ServedBy(inbounds, tag, port)
  {
    if inbounds != [] {
      var n := |inbounds| - 1;
      ServedMembers(inbounds[..n], tag, port);
      PairsMembers(inbounds[n].tag, Ports(inbounds[n]), (tag, port));
      ServedBySnoc(inbounds, tag, port);
    }
  }

  lemma {:induction false} AdmittedMembers(p: Profile, pairs: seq<(string, Port)>, x: (string, Port))
    ensures x in Admitted(p, pairs) <==> x in pairs && AdmitsTag(p, x.0) && AdmitsPort(p, x.1)
  {
    if pairs != [] {
      var n := |pairs| - 1;
      AdmittedMembers(p, pairs[..n], x);
      InitAndLast(pairs);
      InSnoc(pairs[..n], pairs[n], x);
    }
  }

  /** Which listeners those are: of the tags the profile names, or any if it names none, on
      the ports it names, after their passage through a uint16, or any. */
  lemma FilterServes(p: Profile, fleet: seq<Inbound>, tag: string, port: Port)
    ensures ServedBy(Filter(p, fleet), tag, port) <==>
              && ServedBy(fleet, tag, port) && (p.tags == [] || tag in p.tags)
              && (p.ports == [] || exists n :: n in p.ports && n % 0x1_0000 == port)
  {
    FilterIsExact(p, fleet);
    ServedMembers(Filter(p, fleet), tag, port);
    AdmittedMembers(p, Served(fleet), (tag, port));
    ServedMembers(fleet, tag, port);
    if n :| n in p.ports && n % 0x1_0000 == port {
      var k :| 0 <= k < |p.ports| && p.ports[k] == n;
      assert AsPort(p.ports[k]) == port;
    }
    if k :| 0 <= k < |p.ports| && AsPort(p.ports[k]) == port {
      assert p.ports[k] in p.ports && p.ports[k] % 0x1_0000 == port;
    }
  }

  /** How the fleet's own inbounds describe their ports: the port an old node reads is
      one of those served, and the list is only sent when there are several. */
  predicate PortsConsistent(inb: Inbound) {
    inb.listenPort in Ports(inb) && |inb.listenPorts| != 1
  }

  lemma {:induction false} FilteredFrom(p: Profile, fleet: seq<Inbound>, k: nat) returns (i: nat)
    requires k < |Filter(p, fleet)|
    ensures i < |fleet| && AdmitsTag(p, fleet[i].tag) && Kept(p, Ports(fleet[i])) != []
    ensures Filter(p, fleet)[k] == Narrow(fleet[i], Kept(p, Ports(fleet[i])))
  {
    var n := |fleet| - 1;
    if k < |Filter(p, fleet[..n])| {
      i := FilteredFrom(p, fleet[..n], k);
    } else {
      i := n;
    }
  }

  /** What a node is served describes its ports as consistently as the fleet's row did,
      and differs from that row in nothing but ports. */
  lemma FilterKeepsConsistency(p: Profile, fleet: seq<Inbound>, k: nat) returns (i: nat)
    requires k < |Filter(p, fleet)|
    ensures i < |fleet|
    ensures var got := Filter(p, fleet)[k];
            && got == fleet[i].(listenPort := got.listenPort, listenPorts := got.listenPorts)
            && (PortsConsistent(fleet[i]) ==> PortsConsistent(got))
            && (PortsConsistent(fleet[i]) && AdmitsPort(p, fleet[i].listenPort) ==> got.listenPort == fleet[i].listenPort)
  {
    i := FilteredFrom(p, fleet, k);
    NarrowServes(p, fleet[i]);
    KeptLength(p, Ports(fleet[i]));
  }

  lemma {:induction false} KeptDistinct(p: Profile, ports: seq<Port>)
    requires Distinct(ports)
    ensures Distinct(Kept(p, ports))
  {
    if ports != [] {
      var n := |ports| - 1;
      KeptDistinct(p, ports[..n]);
      KeptLength(p, ports[..n]);
    }
  }

  lemma FilterTagsWithin(p: Profile, fleet: seq<Inbound>)
    ensures Tags(Filter(p, fleet)) <= Tags(fleet)
  {
    forall k | 0 <= k < |Filter(p, fleet)|
      ensures Filter(p, fleet)[k].tag in Tags(fleet)
    {
      var i := FilteredFrom(p, fleet, k);
    }
  }

  lemma {:induction false} FilterTagsDistinct(p: Profile, fleet: seq<Inbound>)
    requires DistinctTags(fleet)
    ensures DistinctTags(Filter(p, fleet))
  {
    if fleet != [] {
      var n := |fleet| - 1;
      FilterTagsDistinct(p, fleet[..n]);
      FilterTagsWithin(p, fleet[..n]);
      assert fleet[n].tag !in Tags(fleet[..n]);
      assert forall k | 0 <= k < |Filter(p, fleet[..n])| :: Filter(p, fleet[..n])[k].tag in Tags(Filter(p, fleet[..n]));
    }
  }

  /** A well-formed fleet stays well-formed for every node. */
  lemma FilterWellFormed(p: Profile, fleet: seq<Inbound>)
    requires WellFormed(fleet)
    ensures WellFormed(Filter(p, fleet))
  {
    FilterTagsDistinct(p, fleet);
    forall k | 0 <= k < |Filter(p, fleet)|
      ensures NoHash(Filter(p, fleet)[k].tag) && Distinct(Ports(Filter(p, fleet)[k]))
    {
      var i := FilteredFrom(p, fleet, k);
      NarrowServes(p, fleet[i]);
      KeptDistinct(p, Ports(fleet[i]));
    }
  }

  // ----- The cache key -----

  /** The key of a profile: a fixed word for the default one, else a hash (taken as
      injective) of the sorted lists and the overrides. */
  datatype Key = DefaultKey | Hashed(tags: seq<string>, ports: seq<int>, overrides: CoreOverrides)

  function KeyOf(p: Profile): Key {
    if p.IsDefault() then DefaultKey
    else Hashed(Sort(StringLe, p.tags), Sort(IntLe, p.ports), p.overrides)
  }

  /** Two profiles share a key exactly when their lists hold the same things equally
      often and their overrides are the same. */
  lemma KeysEqual(p: Profile, q: Profile)
    ensures KeyOf(p) == KeyOf(q) <==>
            multiset(p.tags) == multiset(q.tags) && multiset(p.ports) == multiset(q.ports) && p.overrides == q.overrides
  {
    StringOrder();
    IntOrder();
    SortDeterminedByContents(StringLe, p.tags, q.tags);
    SortDeterminedByContents(IntLe, p.ports, q.ports);
    assert p.tags == [] <==> |multiset(p.tags)| == 0;
    assert q.tags == [] <==> |multiset(q.tags)| == 0;
    assert p.ports == [] <==> |multiset(p.ports)| == 0;
    assert q.ports == [] <==> |multiset(q.ports)| == 0;
  }

  lemma SameContents<T>(a: seq<T>, b: seq<T>)
    requires multiset(a) == multiset(b)
    ensures forall x :: x in a <==> x in b
    ensures a == [] <==> b == []
  {
    assert forall x :: x in a <==> x in multiset(a);
    assert forall x :: x in b <==> x in multiset(b);
    assert |multiset(a)| == |multiset(b)|;
  }

  lemma SameAdmission(p: Profile, q: Profile, tag: string, port: Port)
    requires KeyOf(p) == KeyOf(q)
    ensures AdmitsTag(p, tag) == AdmitsTag(q, tag) && AdmitsPort(p, port) == AdmitsPort(q, port)
  {
    KeysEqual(p, q);
    SameContents(p.tags, q.tags);
    SameContents(p.ports, q.ports);
    if k :| 0 <= k < |p.ports| && AsPort(p.ports[k]) == port {
      assert p.ports[k] in q.ports;
      var j :| 0 <= j < |q.ports| && q.ports[j] == p.ports[k];
    }
    if k :| 0 <= k < |q.ports| && AsPort(q.ports[k]) == port {
      assert q.ports[k] in p.ports;
      var j :| 0 <= j < |p.ports| && p.ports[j] == q.ports[k];
    }
  }

  lemma {:induction false} SameKept(p: Profile, q: Profile, ports: seq<Port>)
    requires KeyOf(p) == KeyOf(q)
    ensures Kept(p, ports) == Kept(q, ports)
  {
    if ports != [] {
      SameKept(p, q, ports[..|ports| - 1]);
      SameAdmission(p, q, "", ports[|ports| - 1]);
    }
  }

  lemma {:induction false} SameFilter(p: Profile, q: Profile, fleet: seq<Inbound>)
    requires KeyOf(p) == KeyOf(q)
    ensures Filter(p, fleet) == Filter(q, fleet)
  {
    if fleet != [] {
      var inb := fleet[|fleet| - 1];
      SameFilter(p, q, fleet[..|fleet| - 1]);
      SameAdmission(p, q, inb.tag, 0);
      SameKept(p, q, Ports(inb));
    }
  }

  /** Profiles with equal keys are served equal payloads, whatever the fleet is. */
  lemma EqualKeysEqualPayload(p: Profile, q: Profile, fleet: seq<Inbound>, core: CoreConfig)
    requires KeyOf(p) == KeyOf(q)
    ensures MakePayload(Filter(p, fleet), Applied(p.overrides, core)) ==
            MakePayload(Filter(q, fleet), Applied(q.overrides, core))
  {
    SameFilter(p, q, fleet);
    KeysEqual(p, q);
  }

  lemma {:induction false} RepeatsKeepFilter(tag: string, fleet: seq<Inbound>)
    ensures Filter(Profile([tag], [], NO_OVERRIDES), fleet) == Filter(Profile([tag, tag], [], NO_OVERRIDES), fleet)
    decreases |fleet|
  {
    var once, twice := Profile([tag], [], NO_OVERRIDES), Profile([tag, tag], [], NO_OVERRIDES);
    if fleet != [] {
      var inb := fleet[|fleet| - 1];
      RepeatsKeepFilter(tag, fleet[..|fleet| - 1]);
      KeepsAll(once, Ports(inb));
      KeepsAll(twice, Ports(inb));
      assert AdmitsTag(once, inb.tag) == AdmitsTag(twice, inb.tag);
    }
  }

  /** A repeated tag changes the key, although the comment on key says otherwise, and
      changes nothing about what is served. */
  lemma RepeatsChangeOnlyTheKey(tag: string, fleet: seq<Inbound>)
    ensures var once, twice := Profile([tag], [], NO_OVERRIDES), Profile([tag, tag], [], NO_OVERRIDES);
            KeyOf(once) != KeyOf(twice) && Filter(once, fleet) == Filter(twice, fleet)
  {
    var once, twice := Profile([tag], [], NO_OVERRIDES), Profile([tag, tag], [], NO_OVERRIDES);
    KeysEqual(once, twice);
    assert multiset(once.tags)[tag] == 1 && multiset(twice.tags)[tag] == 2;
    RepeatsKeepFilter(tag, fleet);
  }
}
