/** internal/httpapi/xrayimport.go: folding a parsed Xray file into the core config that
    is already there. */
module ImportMerge {
  import opened Options
  import opened Wire
  import opened CoreValidation
  import opened Overrides
  import ConfigSaves
  import Routing

  datatype ImportedOutbound = ImportedOutbound(
    tag: string, kind: OutboundKind, server: string, serverPort: int, username: string, password: string,
    members: seq<string>, uuid: string, flow: string, cipher: string, security: string, congestionControl: string,
    tlsEnabled: bool, tlsServerName: string, tlsInsecure: bool, bindInterface: string)

  datatype ImportedRule = ImportedRule(
    inbound: seq<string>, domain: seq<string>, domainSuffix: seq<string>, domainKeyword: seq<string>,
    ipCidr: seq<string>, ipIsPrivate: bool, port: seq<int>, portRange: seq<string>,
    network: seq<string>, protocol: seq<string>, outboundTag: string)

  /** The parts of a parsed file that concern the core config. */
  datatype Imported = Imported(
    outbounds: seq<ImportedOutbound>, rules: seq<ImportedRule>, dnsServers: seq<DnsServer>, logLevel: LogLevel, sniff: bool)

  function AsOutbound(o: ImportedOutbound): Outbound {
    Outbound(o.tag, o.kind, o.server, o.serverPort, o.username, o.password, o.members, o.uuid, o.flow, o.cipher,
             o.security, o.congestionControl, 0, "", "", "", "", 0, 0, "", "",
             o.tlsEnabled, o.tlsServerName, o.tlsInsecure, o.bindInterface, false)
  }

  function AsRule(r: ImportedRule): Rule {
    Rule(r.inbound, [], r.domain, r.domainSuffix, r.domainKeyword, r.ipCidr, r.ipIsPrivate, r.port, r.portRange,
         r.network, r.protocol, r.outboundTag)
  }

  function OutboundsOf(p: Imported): seq<Outbound> {
    seq(|p.outbounds|, i requires 0 <= i < |p.outbounds| => AsOutbound(p.outbounds[i]))
  }

  function RulesOf(p: Imported): seq<Rule> {
    seq(|p.rules|, i requires 0 <= i < |p.rules| => AsRule(p.rules[i]))
  }

  /** An imported rule matches what the file's rule says, on every inbound port: the file's
      rules know no such restriction. */
  lemma ImportedRuleMeans(m: Routing.Matcher, r: ImportedRule, conn: Routing.Conn, sniffed: bool)
    ensures AsRule(r).outboundTag == r.outboundTag
    ensures Routing.SourceMatch(m, AsRule(r), conn, sniffed) <==>
            && (r.inbound == [] || conn.inbound in r.inbound)
            && m.address(r.domain, r.domainSuffix, r.domainKeyword, r.ipCidr, r.ipIsPrivate, r.network, r.protocol, conn, sniffed)
            && ((r.port == [] && r.portRange == []) || conn.destPort as int in r.port || m.portRange(r.portRange, conn.destPort))
  {
  }

  /** Nothing of an imported outbound is lost, and it never fails open: the file cannot ask
      for that. */
  lemma ImportedOutboundKept(o: ImportedOutbound)
    ensures var ob := AsOutbound(o);
            && ob.tag == o.tag && ob.kind == o.kind && ob.server == o.server && ob.serverPort == o.serverPort
            && ob.username == o.username && ob.password == o.password && ob.members == o.members
            && ob.uuid == o.uuid && ob.flow == o.flow && ob.cipher == o.cipher && ob.security == o.security
            && ob.congestionControl == o.congestionControl && ob.tlsEnabled == o.tlsEnabled
            && ob.tlsServerName == o.tlsServerName && ob.tlsInsecure == o.tlsInsecure
            && ob.bindInterface == o.bindInterface && !ob.directFallback
  {
  }

  // ----- Appending what is not there yet -----

  function Keys<T, K>(key: T -> K, xs: seq<T>): set<K> {
    set i | 0 <= i < |xs| :: key(xs[i])
  }

  function AppendNew<T, K(==)>(key: T -> K, existing: seq<T>, imported: seq<T>): seq<T> {
    if imported == [] then existing
    else
      var n := |imported| - 1;
      var before := AppendNew(key, existing, imported[..n]);
      if key(imported[n]) in Keys(key, before) then before else before + [imported[n]]
  }

  lemma KeysSnoc<T, K>(key: T -> K, xs: seq<T>, x: T)
    ensures Keys(key, xs + [x]) == Keys(key, xs) + {key(x)}
  {
    var ys := xs + [x];
    assert forall i | 0 <= i < |xs| :: ys[i] == xs[i];
    assert key(ys[|xs|]) in Keys(key, ys);
    forall k | k in Keys(key, xs)
      ensures k in Keys(key, ys)
    {
      var i :| 0 <= i < |xs| && key(xs[i]) == k;
      assert key(ys[i]) == k;
    }
  }

  /** The loop shared by outbounds, rules and DNS servers: what was seen is remembered. */
  method AppendUnseen<T, K(==)>(key: T -> K, existing: seq<T>, imported: seq<T>) returns (merged: seq<T>)
    ensures merged == AppendNew(key, existing, imported)
  {
    merged := existing;
    var seen: set<K> := {};
    for i := 0 to |existing|
      invariant seen == Keys(key, existing[..i])
    {
      KeysSnoc(key, existing[..i], existing[i]);
      assert existing[..i + 1] == existing[..i] + [existing[i]];
      seen := seen + {key(existing[i])};
    }
    assert existing[..|existing|] == existing;
    for i := 0 to |imported|
      invariant merged == AppendNew(key, existing, imported[..i]) && seen == Keys(key, merged)
    {
      assert imported[..i + 1][..i] == imported[..i];
      if key(imported[i]) in seen {
        continue;
      }
      KeysSnoc(key, merged, imported[i]);
      merged := merged + [imported[i]];
      seen := seen + {key(imported[i])};
    }
    assert imported[..|imported|] == imported;
  }

  /** Existing entries stay as a prefix; every imported key is there afterwards, and what
      was added is imported, new, and once per key. */
  lemma {:induction false} AppendIsExact<T, K>(key: T -> K, existing: seq<T>, imported: seq<T>)
    ensures var r := AppendNew(key, existing, imported);
            && existing <= r
            && Keys(key, r) == Keys(key, existing) + Keys(key, imported)
            && (forall i | |existing| <= i < |r| :: r[i] in imported)
            && (forall i, j | 0 <= i < j < |r| && |existing| <= j :: key(r[i]) != key(r[j]))
  {
    if imported != [] {
      var n := |imported| - 1;
      AppendIsExact(key, existing, imported[..n]);
      var before := AppendNew(key, existing, imported[..n]);
      KeysSnoc(key, imported[..n], imported[n]);
      KeysSnoc(key, before, imported[n]);
      assert imported == imported[..n] + [imported[n]];
      assert forall i | 0 <= i < |before| :: key(before[i]) in Keys(key, before);
    }
  }

  /** What was added stands in the imported order: each addition is further down the
      file than the one before. */
  predicate Picks<T(==)>(r: seq<T>, existing: seq<T>, imported: seq<T>, at: seq<nat>) {
    && |r| == |existing| + |at|
    && (forall j, k | 0 <= j < k < |at| :: at[j] < at[k])
    && (forall k | 0 <= k < |at| :: at[k] < |imported| && r[|existing| + k] == imported[at[k]])
  }

  lemma PickNext<T>(r: seq<T>, existing: seq<T>, imported: seq<T>, at: seq<nat>)
    requires imported != [] && Picks(r, existing, imported[..|imported| - 1], at)
    ensures Picks(r, existing, imported, at)
    ensures Picks(r + [imported[|imported| - 1]], existing, imported, at + [|imported| - 1])
  {
  }

  lemma {:induction false} AppendKeepsOrder<T, K>(key: T -> K, existing: seq<T>, imported: seq<T>) returns (at: seq<nat>)
    ensures Picks(AppendNew(key, existing, imported), existing, imported, at)
  {
    if imported == [] {
      at := [];
    } else {
      var n := |imported| - 1;
      var before := AppendKeepsOrder(key, existing, imported[..n]);
      PickNext(AppendNew(key, existing, imported[..n]), existing, imported, before);
      at := if key(imported[n]) in Keys(key, AppendNew(key, existing, imported[..n])) then before else before + [n];
    }
  }

  lemma {:induction false} NothingNew<T, K>(key: T -> K, existing: seq<T>, imported: seq<T>)
    requires Keys(key, imported) <= Keys(key, existing)
    ensures AppendNew(key, existing, imported) == existing
  {
    if imported != [] {
      var n := |imported| - 1;
      KeysSnoc(key, imported[..n], imported[n]);
      assert imported == imported[..n] + [imported[n]];
      NothingNew(key, existing, imported[..n]);
    }
  }

  lemma AppendTwice<T, K>(key: T -> K, existing: seq<T>, imported: seq<T>)
    ensures AppendNew(key, AppendNew(key, existing, imported), imported) == AppendNew(key, existing, imported)
  {
    AppendIsExact(key, existing, imported);
    NothingNew(key, AppendNew(key, existing, imported), imported);
  }

  // ----- The whole merge -----

  function OutboundTag(ob: Outbound): string { ob.tag }
  function DnsTag(s: DnsServer): string { s.tag }
  /** Two rules print alike exactly when they are equal; a missing list and an empty one
      are the same list here. */
  function WholeRule(r: Rule): Rule { r }

  function Merged(c: CoreConfig, p: Imported): CoreConfig {
    c.(outbounds := AppendNew(OutboundTag, c.outbounds, OutboundsOf(p)),
       rules := AppendNew(WholeRule, c.rules, RulesOf(p)),
       dnsServers := AppendNew(DnsTag, c.dnsServers, p.dnsServers),
       logLevel := if p.logLevel != UnsetLevel then p.logLevel else c.logLevel,
       sniff := c.sniff || p.sniff)
  }

  method MergeCoreConfigForImport(existing: CoreConfig, parsed: Imported) returns (merged: CoreConfig)
    ensures merged == Merged(existing, parsed)
  {
    merged := existing;
    var outbounds := AppendUnseen(OutboundTag, merged.outbounds, OutboundsOf(parsed));
    merged := merged.(outbounds := outbounds);
    var rules := AppendUnseen(WholeRule, merged.rules, RulesOf(parsed));
    merged := merged.(rules := rules);
    var servers := AppendUnseen(DnsTag, merged.dnsServers, parsed.dnsServers);
    merged := merged.(dnsServers := servers);
    if parsed.logLevel != UnsetLevel {
      merged := merged.(logLevel := parsed.logLevel);
    }
    merged := merged.(sniff := merged.sniff || parsed.sniff);
  }

  /** Importing a file: what is stored is merged with it and saved, with the checks and
      the defaults of any other save. */
  function Import(s: ConfigSaves.State, p: Imported, now: int): ConfigSaves.State {
    ConfigSaves.Step(s, ConfigSaves.SaveFleet(Merged(s.fleet, p), now))
  }

  lemma MergedTwice(c: CoreConfig, p: Imported, now: int)
    ensures var once := ConfigSaves.Normalized(Merged(c, p), now); Merged(once, p) == once
  {
    AppendTwice(OutboundTag, c.outbounds, OutboundsOf(p));
    AppendTwice(WholeRule, c.rules, RulesOf(p));
    AppendTwice(DnsTag, c.dnsServers, p.dnsServers);
  }

  /** Nothing a save checks depends on its time stamp. */
  lemma ValidityIgnoresStamp(fleet: CoreConfig, o: CoreOverrides, stamp: Option<int>)
    ensures Valid(Applied(o, fleet.(updatedAt := stamp))) <==> Valid(Applied(o, fleet))
    ensures Valid(fleet.(updatedAt := stamp)) <==> Valid(fleet)
  {
  }

  lemma AcceptanceIgnoresStamp(s: ConfigSaves.State, fleet: CoreConfig, stamp: Option<int>)
    ensures ConfigSaves.FleetAccepted(s, fleet.(updatedAt := stamp)) <==> ConfigSaves.FleetAccepted(s, fleet)
  {
    ValidityIgnoresStamp(fleet, NO_OVERRIDES, stamp);
    forall n | n in s.nodes
      ensures ConfigSaves.Mergeable(fleet.(updatedAt := stamp), s.nodes[n]) <==> ConfigSaves.Mergeable(fleet, s.nodes[n])
    {
      if s.nodes[n].Readable? {
        ValidityIgnoresStamp(fleet, s.nodes[n].overrides, stamp);
      }
    }
  }

  /** Importing the same file twice equals importing it once, in every state of the panel
      and with everything a save adds: the second import is accepted if the first was, and
      changes the time stamp alone; if the first was rejected, so is the second. */
  lemma ImportIsIdempotent(s: ConfigSaves.State, p: Imported, now: int, later: int)
    ensures var once := Import(s, p, now);
            Import(once, p, later) ==
            if ConfigSaves.FleetAccepted(s, ConfigSaves.Normalized(Merged(s.fleet, p), now))
            then once.(fleet := once.fleet.(updatedAt := Some(later)))
            else s
  {
    var merged := Merged(s.fleet, p);
    var once := ConfigSaves.Normalized(merged, now);
    MergedTwice(s.fleet, p, now);
    AcceptanceIgnoresStamp(s, once, Some(later));
    assert ConfigSaves.Normalized(merged, later) == once.(updatedAt := Some(later)) == ConfigSaves.Normalized(once, later);
    assert ConfigSaves.FleetAccepted(s.(fleet := once), once.(updatedAt := Some(later))) <==>
           ConfigSaves.FleetAccepted(s, once.(updatedAt := Some(later)));
  }

  lemma KeyIn<T, K>(key: T -> K, xs: seq<T>, x: T)
    requires x in xs
    ensures key(x) in Keys(key, xs)
  {
    var i :| 0 <= i < |xs| && xs[i] == x;
    assert key(xs[i]) in Keys(key, xs);
  }

  lemma KeyOf<T, K>(key: T -> K, xs: seq<T>, k: K) returns (x: T)
    requires k in Keys(key, xs)
    ensures x in xs && key(x) == k
  {
    var i :| 0 <= i < |xs| && key(xs[i]) == k;
    x := xs[i];
  }

  lemma OutboundsAppended(c: CoreConfig, p: Imported)
    ensures var m := Merged(c, p).outbounds;
            && c.outbounds <= m
            && (forall o | o in p.outbounds :: exists x :: x in m && x.tag == o.tag)
            && (forall j | |c.outbounds| <= j < |m| :: exists o :: o in p.outbounds && m[j] == AsOutbound(o))
            && (forall i, j | 0 <= i < j < |m| && |c.outbounds| <= j :: m[i].tag != m[j].tag)
  {
    var m, added := Merged(c, p).outbounds, OutboundsOf(p);
    AppendIsExact(OutboundTag, c.outbounds, added);
    forall o | o in p.outbounds
      ensures exists x :: x in m && x.tag == o.tag
    {
      var k :| 0 <= k < |p.outbounds| && p.outbounds[k] == o;
      assert added[k] in added;
      KeyIn(OutboundTag, added, added[k]);
      var x := KeyOf(OutboundTag, m, o.tag);
    }
    forall j | |c.outbounds| <= j < |m|
      ensures exists o :: o in p.outbounds && m[j] == AsOutbound(o)
    {
      var k :| 0 <= k < |added| && added[k] == m[j];
      assert p.outbounds[k] in p.outbounds;
    }
    forall i, j | 0 <= i < j < |m| && |c.outbounds| <= j
      ensures m[i].tag != m[j].tag
    {
      assert OutboundTag(m[i]) != OutboundTag(m[j]);
    }
  }

  lemma RulesAppended(c: CoreConfig, p: Imported)
    ensures var m := Merged(c, p).rules;
            && c.rules <= m
            && (forall r | r in p.rules :: AsRule(r) in m)
            && (forall j | |c.rules| <= j < |m| :: exists r :: r in p.rules && m[j] == AsRule(r))
            && (forall i, j | 0 <= i < j < |m| && |c.rules| <= j :: m[i] != m[j])
  {
    var m, added := Merged(c, p).rules, RulesOf(p);
    AppendIsExact(WholeRule, c.rules, added);
    forall r | r in p.rules
      ensures AsRule(r) in m
    {
      var k :| 0 <= k < |p.rules| && p.rules[k] == r;
      assert added[k] in added;
      KeyIn(WholeRule, added, added[k]);
      var x := KeyOf(WholeRule, m, AsRule(r));
    }
    forall j | |c.rules| <= j < |m|
      ensures exists r :: r in p.rules && m[j] == AsRule(r)
    {
      var k :| 0 <= k < |added| && added[k] == m[j];
      assert p.rules[k] in p.rules;
    }
    forall i, j | 0 <= i < j < |m| && |c.rules| <= j
      ensures m[i] != m[j]
    {
      assert WholeRule(m[i]) != WholeRule(m[j]);
    }
  }

  lemma ServersAppended(c: CoreConfig, p: Imported)
    ensures var m := Merged(c, p).dnsServers;
            && c.dnsServers <= m
            && (forall s | s in p.dnsServers :: exists x :: x in m && x.tag == s.tag)
            && (forall j | |c.dnsServers| <= j < |m| :: m[j] in p.dnsServers)
            && (forall i, j | 0 <= i < j < |m| && |c.dnsServers| <= j :: m[i].tag != m[j].tag)
  {
    var m := Merged(c, p).dnsServers;
    AppendIsExact(DnsTag, c.dnsServers, p.dnsServers);
    forall s | s in p.dnsServers
      ensures exists x :: x in m && x.tag == s.tag
    {
      KeyIn(DnsTag, p.dnsServers, s);
      var x := KeyOf(DnsTag, m, s.tag);
    }
    forall i, j | 0 <= i < j < |m| && |c.dnsServers| <= j
      ensures m[i].tag != m[j].tag
    {
      assert DnsTag(m[i]) != DnsTag(m[j]);
    }
  }

  /** Nothing an admin configured is lost or reordered: the lists that were there are the
      front of the new ones, so their rules still match first. What stands behind them is the
      file's, each entry once; an outbound or a server of a tag that is taken is not added. */
  lemma ImportKeepsWhatWasThere(c: CoreConfig, p: Imported)
    ensures var m := Merged(c, p);
            && c.outbounds <= m.outbounds && c.rules <= m.rules && c.dnsServers <= m.dnsServers
            && (forall o | o in p.outbounds :: exists x :: x in m.outbounds && x.tag == o.tag)
            && (forall r | r in p.rules :: AsRule(r) in m.rules)
            && (forall s | s in p.dnsServers :: exists x :: x in m.dnsServers && x.tag == s.tag)
            && (forall j | |c.outbounds| <= j < |m.outbounds| :: exists o :: o in p.outbounds && m.outbounds[j] == AsOutbound(o))
            && (forall j | |c.rules| <= j < |m.rules| :: exists r :: r in p.rules && m.rules[j] == AsRule(r))
            && (forall j | |c.dnsServers| <= j < |m.dnsServers| :: m.dnsServers[j] in p.dnsServers)
            && (forall i, j | 0 <= i < j < |m.outbounds| && |c.outbounds| <= j :: m.outbounds[i].tag != m.outbounds[j].tag)
            && (forall i, j | 0 <= i < j < |m.rules| && |c.rules| <= j :: m.rules[i] != m.rules[j])
            && (forall i, j | 0 <= i < j < |m.dnsServers| && |c.dnsServers| <= j :: m.dnsServers[i].tag != m.dnsServers[j].tag)
            && (m.sniff <==> c.sniff || p.sniff)
            && (p.logLevel == UnsetLevel ==> m.logLevel == c.logLevel) && (p.logLevel != UnsetLevel ==> m.logLevel == p.logLevel)
            && m.updatedAt == c.updatedAt
  {
    OutboundsAppended(c, p);
    RulesAppended(c, p);
    ServersAppended(c, p);
  }
}
