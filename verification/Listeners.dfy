/** cmd/node/main.go, inbound half: how logical inbounds become sing-box listeners,
    and the plan the node keeps about them. */
module Listeners {
  import opened Decimal
  import opened Options
  import opened Wire
  import Seqs

  datatype BuildError =
    | UnsupportedTransport(tag: string)
    | UnsupportedCipher(tag: string, cipher: string)
    | UnknownOutboundType(tag: string)
    | UnknownDnsType(tag: string)

  datatype Result<+T> = Ok(value: T) | Err(error: BuildError)

  /** The part of a user one protocol's options keep; the other fields stay blank. */
  datatype Account = Account(name: string, uuid: string, password: string, flow: string, userKey: string)

  datatype TransportOptions = WsOptions(path: string) | HttpUpgradeOptions(path: string, host: string)

  datatype ListenerOptions =
    | StreamOptions(tls: Option<Tls>, transport: Option<TransportOptions>)
    | ShadowsocksOptions(cipher: string)
    | Hysteria2Options(upMbps: int, downMbps: int, obfs: Option<string>, tls: Option<Tls>)
    | TuicOptions(congestionControl: string, zeroRtt: bool, tls: Option<Tls>)
    | SnellOptions(psk: string, mode: string)
    | AnyTlsOptions(tls: Option<Tls>)

  datatype Listener = Listener(
    tag: string, protocol: Protocol, port: Port, options: ListenerOptions, users: seq<Account>)

  const DEFAULT_CIPHER := "chacha20-ietf-poly1305"

  function DerivedTag(tag: string, port: Port): string {
    tag + "#" + Itoa(port)
  }

  /** The sing-box tag of one port of an inbound. */
  function ListenerTag(inb: Inbound, port: Port): string {
    if |Ports(inb)| > 1 then DerivedTag(inb.tag, port) else inb.tag
  }

  predicate Known(p: Protocol) {
    !p.OtherProtocol?
  }

  function Project(p: Protocol, u: User): Account {
    match p
    case Vless => Account(u.name, u.uuid, "", u.flow, "")
    case Vmess => Account(u.name, u.uuid, "", "", "")
    case Tuic => Account(u.name, u.uuid, u.password, "", "")
    case Snell => Account(u.name, "", "", "", u.userKey)
    case OtherProtocol(_) => Account(u.name, "", "", "", "")
    case _ => Account(u.name, "", u.password, "", "")
  }

  function Accounts(p: Protocol, users: seq<User>): (r: seq<Account>)
    ensures |r| == |users|
  {
    seq(|users|, i requires 0 <= i < |users| => Project(p, users[i]))
  }

  /** The cipher of a shadowsocks inbound: the first one any user names. */
  function CipherOf(users: seq<User>): string {
    if users == [] then DEFAULT_CIPHER
    else if users[0].cipher != "" then users[0].cipher
    else CipherOf(users[1..])
  }

  predicate TransportSupported(t: Option<Transport>) {
    t.Some? ==> !t.value.kind.OtherTransport?
  }

  function TransportOf(t: Option<Transport>): Option<TransportOptions>
    requires TransportSupported(t)
  {
    match t
    case None => None
    case Some(t) =>
      if t.kind.WebSocket? then Some(WsOptions(t.path)) else Some(HttpUpgradeOptions(t.path, t.host))
  }

  /** What stops an inbound from being built, if anything. ciphers is the set of
      shadowsocks ciphers this node can run (the classic AEAD list). */
  function InboundError(ciphers: set<string>, inb: Inbound): Option<BuildError> {
    if !TransportSupported(inb.transport) then Some(UnsupportedTransport(inb.tag))
    else if inb.protocol == Shadowsocks && CipherOf(inb.users) !in ciphers then
      Some(UnsupportedCipher(inb.tag, CipherOf(inb.users)))
    else None
  }

  function OptionsOf(inb: Inbound): ListenerOptions
    requires TransportSupported(inb.transport)
  {
    match inb.protocol
    case Shadowsocks => ShadowsocksOptions(CipherOf(inb.users))
    case Hysteria2 =>
      Hysteria2Options(inb.upMbps, inb.downMbps,
                       if inb.obfsPassword != "" then Some(inb.obfsPassword) else None, inb.tls)
    case Tuic => TuicOptions(inb.congestionControl, inb.zeroRtt, inb.tls)
    case Snell => SnellOptions(inb.snellPsk, inb.snellMode)
    case AnyTls => AnyTlsOptions(inb.tls)
    case _ => StreamOptions(inb.tls, TransportOf(inb.transport))
  }

  function MakeListener(inb: Inbound, port: Port): Listener
    requires TransportSupported(inb.transport)
  {
    Listener(ListenerTag(inb, port), inb.protocol, port, OptionsOf(inb), Accounts(inb.protocol, inb.users))
  }

  predicate Buildable(ciphers: set<string>, inbounds: seq<Inbound>) {
    forall i | 0 <= i < |inbounds| :: InboundError(ciphers, inbounds[i]) == None
  }

  /** The listeners of the first n ports of one inbound; an inbound of a protocol the
      node does not know gets none. */
  function PortListeners(inb: Inbound, n: nat): seq<Listener>
    requires n <= |Ports(inb)| && TransportSupported(inb.transport)
  {
    if n == 0 then []
    else PortListeners(inb, n - 1) + (if Known(inb.protocol) then [MakeListener(inb, Ports(inb)[n - 1])] else [])
  }

  function ListenersOf(inbounds: seq<Inbound>): seq<Listener>
    requires forall i | 0 <= i < |inbounds| :: TransportSupported(inbounds[i].transport)
  {
    if inbounds == [] then []
    else
      var last := inbounds[|inbounds| - 1];
      ListenersOf(inbounds[..|inbounds| - 1]) + PortListeners(last, |Ports(last)|)
  }

  /** The node's memory of a build: the listeners behind each multi-port inbound and
      the cipher of each shadowsocks inbound. */
  datatype Plan = Plan(derivedTags: map<string, seq<string>>, ciphers: map<string, string>)
  {
    /** The listeners behind one logical inbound. */
    function ListenerTags(tag: string): seq<string> {
      if tag in derivedTags then derivedTags[tag] else [tag]
    }
  }

  const EMPTY_PLAN := Plan(map[], map[])

  function Append(m: map<string, seq<string>>, key: string, x: string): map<string, seq<string>> {
    m[key := (if key in m then m[key] else []) + [x]]
  }

  function PlanPorts(plan: Plan, inb: Inbound, n: nat): Plan
    requires n <= |Ports(inb)|
  {
    if n == 0 then plan
    else
      var before := PlanPorts(plan, inb, n - 1);
      var p := Ports(inb)[n - 1];
      Plan(if |Ports(inb)| > 1 then Append(before.derivedTags, inb.tag, DerivedTag(inb.tag, p)) else before.derivedTags,
           if inb.protocol == Shadowsocks then before.ciphers[inb.tag := CipherOf(inb.users)] else before.ciphers)
  }

  function PlanOf(inbounds: seq<Inbound>): Plan {
    if inbounds == [] then EMPTY_PLAN
    else
      var last := inbounds[|inbounds| - 1];
      PlanPorts(PlanOf(inbounds[..|inbounds| - 1]), last, |Ports(last)|)
  }

  function PortsByTag(inbounds: seq<Inbound>): map<string, seq<Port>> {
    if inbounds == [] then map[]
    else
      var last := inbounds[|inbounds| - 1];
      PortsByTag(inbounds[..|inbounds| - 1])[last.tag := Ports(last)]
  }

  lemma BuildStep(inbounds: seq<Inbound>, i: nat)
    requires i < |inbounds| && forall k | 0 <= k <= i :: TransportSupported(inbounds[k].transport)
    ensures ListenersOf(inbounds[..i + 1]) == ListenersOf(inbounds[..i]) + PortListeners(inbounds[i], |Ports(inbounds[i])|)
    ensures PlanOf(inbounds[..i + 1]) == PlanPorts(PlanOf(inbounds[..i]), inbounds[i], |Ports(inbounds[i])|)
    ensures PortsByTag(inbounds[..i + 1]) == PortsByTag(inbounds[..i])[inbounds[i].tag := Ports(inbounds[i])]
  {
    assert inbounds[..i + 1][..i] == inbounds[..i];
  }

  lemma BuildableStep(ciphers: set<string>, inbounds: seq<Inbound>, i: nat)
    requires i < |inbounds| && Buildable(ciphers, inbounds[..i]) && InboundError(ciphers, inbounds[i]) == None
    ensures Buildable(ciphers, inbounds[..i + 1])
    ensures forall k | 0 <= k <= i :: TransportSupported(inbounds[k].transport)
  {
    forall k | 0 <= k <= i
      ensures InboundError(ciphers, inbounds[k]) == None
    {
      assert k < i ==> inbounds[..i][k] == inbounds[k];
    }
  }

  /** The inbound loop of buildOptionsPlan. */
  method BuildInbounds(ciphers: set<string>, inbounds: seq<Inbound>)
    returns (r: Result<(seq<Listener>, Plan, map<string, seq<Port>>)>)
    ensures r.Ok? <==> Buildable(ciphers, inbounds)
    ensures r.Ok? ==> r.value == (ListenersOf(inbounds), PlanOf(inbounds), PortsByTag(inbounds))
    ensures r.Ok? ==> Serves(inbounds, r.value.0)
    ensures r.Err? ==> exists i :: 0 <= i < |inbounds| && InboundError(ciphers, inbounds[i]) == Some(r.error)
  {
    var listeners: seq<Listener>, plan, ports := [], EMPTY_PLAN, map[];
    for i := 0 to |inbounds|
      invariant Buildable(ciphers, inbounds[..i])
      invariant listeners == ListenersOf(inbounds[..i])
      invariant plan == PlanOf(inbounds[..i])
      invariant ports == PortsByTag(inbounds[..i])
    {
      var inb := inbounds[i];
      ports := ports[inb.tag := Ports(inb)];
      var built := BuildPorts(ciphers, inb, plan);
      if built.Err? {
        return Err(built.error);
      }
      BuildableStep(ciphers, inbounds, i);
      BuildStep(inbounds, i);
      listeners, plan := listeners + built.value.0, built.value.1;
    }
    assert inbounds[..|inbounds|] == inbounds;
    BuildableIsSupported(ciphers, inbounds);
    ListenersServe(inbounds);
    return Ok((listeners, plan, ports));
  }

  /** The per-port loop of buildOptionsPlan. */
  method BuildPorts(ciphers: set<string>, inb: Inbound, before: Plan) returns (r: Result<(seq<Listener>, Plan)>)
    ensures r.Ok? <==> InboundError(ciphers, inb) == None
    ensures r.Ok? ==> r.value == (PortListeners(inb, |Ports(inb)|), PlanPorts(before, inb, |Ports(inb)|))
    ensures r.Err? ==> InboundError(ciphers, inb) == Some(r.error)
  {
    var ports := Ports(inb);
    var listeners: seq<Listener>, plan := [], before;
    for k := 0 to |ports|
      invariant k > 0 ==> InboundError(ciphers, inb) == None
      invariant TransportSupported(inb.transport) ==> listeners == PortListeners(inb, k)
      invariant plan == PlanPorts(before, inb, k)
    {
      var port := ports[k];
      var tag := inb.tag;
      var derived, planned := plan.derivedTags, plan.ciphers;
      if |ports| > 1 {
        tag := DerivedTag(inb.tag, port);
        derived := Append(derived, inb.tag, tag);
      }
      if !TransportSupported(inb.transport) {
        return Err(UnsupportedTransport(inb.tag));
      }
      if inb.protocol == Shadowsocks {
        var cipher := CipherOf(inb.users);
        if cipher !in ciphers {
          return Err(UnsupportedCipher(inb.tag, cipher));
        }
        planned := planned[inb.tag := cipher];
      }
      if Known(inb.protocol) {
        listeners := listeners + [Listener(tag, inb.protocol, port, OptionsOf(inb), Accounts(inb.protocol, inb.users))];
      }
      plan := Plan(derived, planned);
    }
    return Ok((listeners, plan));
  }

  // ----- Derived tags identify one port of one inbound -----

  lemma DerivedTagHasHash(tag: string, port: Port)
    ensures !NoHash(DerivedTag(tag, port))
  {
    assert DerivedTag(tag, port)[|tag|] == '#';
  }

  lemma DerivedTagInjective(t1: string, p1: Port, t2: string, p2: Port)
    requires NoHash(t1) && NoHash(t2)
    requires DerivedTag(t1, p1) == DerivedTag(t2, p2)
    ensures t1 == t2 && p1 == p2
  {
    var d1, d2 := DerivedTag(t1, p1), DerivedTag(t2, p2);
    assert d1[|t1|] == '#' && d2[|t2|] == '#';
    assert forall k | 0 <= k < |t2| :: d2[k] == t2[k];
    assert forall k | 0 <= k < |t1| :: d1[k] == t1[k];
    assert |t1| == |t2|;
    assert t1 == d1[..|t1|] == d2[..|t2|] == t2;
    assert Itoa(p1) == d1[|t1| + 1..] == d2[|t2| + 1..] == Itoa(p2);
    ItoaInjective(p1, p2);
  }

  /** The listeners of different (inbound, port) pairs have different tags. */
  lemma ListenerTagInjective(inbounds: seq<Inbound>, i: nat, p: Port, j: nat, q: Port)
    requires WellFormed(inbounds) && i < |inbounds| && j < |inbounds|
    requires p in Ports(inbounds[i]) && q in Ports(inbounds[j])
    requires ListenerTag(inbounds[i], p) == ListenerTag(inbounds[j], q)
    ensures i == j && p == q
  {
    var a, b := inbounds[i], inbounds[j];
    DerivedTagHasHash(a.tag, p);
    DerivedTagHasHash(b.tag, q);
    if |Ports(a)| > 1 {
      DerivedTagInjective(a.tag, p, b.tag, q);
    }
    assert a.tag == b.tag;
    if |Ports(a)| == 1 {
      assert p == Ports(a)[0];
      assert q == Ports(b)[0];
    }
  }

  // ----- What a listener lets in and how it serves -----

  const SERVED_PROTOCOLS: set<Protocol> := {Vless, Vmess, Trojan, Shadowsocks, Hysteria2, Tuic, Snell, AnyTls}

  /** The cipher a list of users settles on: the first one any of them names, or the
      classic AEAD cipher when none does. */
  predicate SettlesOn(users: seq<User>, cipher: string) {
    || (cipher != "" && exists k :: 0 <= k < |users| && FirstToName(users, cipher, k))
    || (cipher == "chacha20-ietf-poly1305" && forall k | 0 <= k < |users| :: users[k].cipher == "")
  }

  predicate FirstToName(users: seq<User>, cipher: string, k: nat)
    requires k < |users|
  {
    users[k].cipher == cipher && forall n | 0 <= n < k :: users[n].cipher == ""
  }

  lemma {:induction false} CipherIsSettled(users: seq<User>)
    ensures SettlesOn(users, CipherOf(users))
  {
    if users != [] && users[0].cipher != "" {
      assert FirstToName(users, users[0].cipher, 0);
    } else if users != [] {
      var rest := users[1..];
      CipherIsSettled(rest);
      if k :| 0 <= k < |rest| && FirstToName(rest, CipherOf(rest), k) && CipherOf(rest) != "" {
        assert forall n | 0 < n <= k + 1 :: users[n] == rest[n - 1];
        assert FirstToName(users, CipherOf(users), k + 1);
      } else {
        assert forall n | 0 < n < |users| :: users[n] == rest[n - 1];
      }
    }
  }

  /** A list settles on one cipher only. */
  lemma SettledOnce(users: seq<User>, a: string, b: string)
    requires SettlesOn(users, a) && SettlesOn(users, b)
    ensures a == b
  {
  }

  /** The account lets in exactly the user: the credential its protocol checks is the
      user's, and no other is set. */
  predicate LetsIn(p: Protocol, a: Account, u: User) {
    && a.name == u.name
    && a.uuid == (if p in {Vless, Vmess, Tuic} then u.uuid else "")
    && a.password == (if p in {Trojan, Shadowsocks, Hysteria2, Tuic, AnyTls} then u.password else "")
    && a.flow == (if p == Vless then u.flow else "")
    && a.userKey == (if p == Snell then u.userKey else "")
  }

  predicate SameTransport(t: Option<Transport>, o: Option<TransportOptions>) {
    match o
    case None => t == None
    case Some(WsOptions(path)) => t.Some? && t.value.kind == WebSocket && t.value.path == path
    case Some(HttpUpgradeOptions(path, host)) =>
      t.Some? && t.value.kind == HttpUpgrade && t.value.path == path && t.value.host == host
  }

  /** The options are the inbound's, read from the options' side. */
  predicate ServesAs(o: ListenerOptions, inb: Inbound) {
    match o
    case StreamOptions(tls, transport) =>
      inb.protocol in {Vless, Vmess, Trojan} && tls == inb.tls && SameTransport(inb.transport, transport)
    case ShadowsocksOptions(cipher) => inb.protocol == Shadowsocks && SettlesOn(inb.users, cipher)
    case Hysteria2Options(up, down, obfs, tls) =>
      && inb.protocol == Hysteria2 && up == inb.upMbps && down == inb.downMbps && tls == inb.tls
      && (obfs == None <==> inb.obfsPassword == "") && (obfs.Some? ==> obfs.value == inb.obfsPassword)
    case TuicOptions(congestionControl, zeroRtt, tls) =>
      inb.protocol == Tuic && congestionControl == inb.congestionControl && zeroRtt == inb.zeroRtt && tls == inb.tls
    case SnellOptions(psk, mode) => inb.protocol == Snell && psk == inb.snellPsk && mode == inb.snellMode
    case AnyTlsOptions(tls) => inb.protocol == AnyTls && tls == inb.tls
  }

  /** l serves port p of an inbound, to exactly its users. */
  predicate ServesPort(l: Listener, inb: Inbound, p: Port) {
    && ListensOn(inb, p) && inb.protocol in SERVED_PROTOCOLS
    && l.port == p && l.protocol == inb.protocol
    && l.tag == (if |inb.listenPorts| > 1 then inb.tag + "#" + Itoa(p) else inb.tag)
    && |l.users| == |inb.users| && (forall k | 0 <= k < |l.users| :: LetsIn(inb.protocol, l.users[k], inb.users[k]))
    && ServesAs(l.options, inb)
  }

  ghost predicate ServesSome(inbounds: seq<Inbound>, l: Listener) {
    exists i, p :: 0 <= i < |inbounds| && ServesPort(l, inbounds[i], p)
  }

  ghost predicate ServedBySome(ls: seq<Listener>, inb: Inbound, p: Port) {
    exists l :: l in ls && ServesPort(l, inb, p)
  }

  /** Listeners serve inbounds: each serves a port of one, and each port of each inbound of
      a served protocol has one. */
  ghost predicate Serves(inbounds: seq<Inbound>, ls: seq<Listener>) {
    && (forall l | l in ls :: ServesSome(inbounds, l))
    && (forall i, p {:trigger ServedBySome(ls, inbounds[i], p)} |
          0 <= i < |inbounds| && ListensOn(inbounds[i], p) && inbounds[i].protocol in SERVED_PROTOCOLS :: ServedBySome(ls, inbounds[i], p))
  }

  lemma OptionsServe(inb: Inbound)
    requires TransportSupported(inb.transport) && inb.protocol in SERVED_PROTOCOLS
    ensures ServesAs(OptionsOf(inb), inb)
  {
    CipherIsSettled(inb.users);
  }

  lemma MadeListenerServes(inb: Inbound, p: Port)
    requires TransportSupported(inb.transport) && p in Ports(inb) && inb.protocol in SERVED_PROTOCOLS
    ensures ServesPort(MakeListener(inb, p), inb, p)
  {
    OptionsServe(inb);
  }

  lemma ServedAreKnown(p: Protocol)
    ensures p in SERVED_PROTOCOLS <==> Known(p)
  {
  }

  lemma BuildableIsSupported(ciphers: set<string>, inbounds: seq<Inbound>)
    requires Buildable(ciphers, inbounds)
    ensures forall i | 0 <= i < |inbounds| :: TransportSupported(inbounds[i].transport)
  {
    forall i | 0 <= i < |inbounds|
      ensures TransportSupported(inbounds[i].transport)
    {
      assert InboundError(ciphers, inbounds[i]) == None;
    }
  }

  /** What a build returns serves what it was built from, to whom it was to be served. */
  lemma {:induction false} ListenersServe(inbounds: seq<Inbound>)
    requires forall i | 0 <= i < |inbounds| :: TransportSupported(inbounds[i].transport)
    ensures Serves(inbounds, ListenersOf(inbounds))
  {
    var ls := ListenersOf(inbounds);
    forall l | l in ls
      ensures ServesSome(inbounds, l)
    {
      var i, p := ListenerIsServed(inbounds, l);
      ServedAreKnown(inbounds[i].protocol);
      MadeListenerServes(inbounds[i], p);
    }
    forall i, p | 0 <= i < |inbounds| && ListensOn(inbounds[i], p) && inbounds[i].protocol in SERVED_PROTOCOLS
      ensures ServedBySome(ls, inbounds[i], p)
    {
      ServedAreKnown(inbounds[i].protocol);
      ServedIsListener(inbounds, i, p);
      MadeListenerServes(inbounds[i], p);
    }
  }

  /** What can be built at all: inbounds whose transport the core has a server for, and
      whose cipher, under shadowsocks, this node can run. */
  lemma BuildableExactly(ciphers: set<string>, inbounds: seq<Inbound>)
    ensures Buildable(ciphers, inbounds) <==>
            forall i | 0 <= i < |inbounds| ::
              && (inbounds[i].transport == None || inbounds[i].transport.value.kind in {WebSocket, HttpUpgrade})
              && (inbounds[i].protocol == Shadowsocks ==> exists cipher :: cipher in ciphers && SettlesOn(inbounds[i].users, cipher))
  {
    forall i | 0 <= i < |inbounds|
      ensures InboundError(ciphers, inbounds[i]) == None <==>
              && (inbounds[i].transport == None || inbounds[i].transport.value.kind in {WebSocket, HttpUpgrade})
              && (inbounds[i].protocol == Shadowsocks ==> exists cipher :: cipher in ciphers && SettlesOn(inbounds[i].users, cipher))
    {
      var users := inbounds[i].users;
      CipherIsSettled(users);
      if cipher :| cipher in ciphers && SettlesOn(users, cipher) {
        SettledOnce(users, cipher, CipherOf(users));
      }
    }
  }

  // ----- Which listeners and which plan a build produces -----

  lemma MemberOfNext(inb: Inbound, n: nat, l: Listener)
    requires 0 < n <= |Ports(inb)| && TransportSupported(inb.transport)
    ensures l in PortListeners(inb, n) <==>
            l in PortListeners(inb, n - 1) || (Known(inb.protocol) && l == MakeListener(inb, Ports(inb)[n - 1]))
  {
    if Known(inb.protocol) {
      Seqs.InSnoc(PortListeners(inb, n - 1), MakeListener(inb, Ports(inb)[n - 1]), l);
    } else {
      Seqs.EmptyRight(PortListeners(inb, n - 1));
    }
  }

  /** The port a listener of an inbound was made for. */
  lemma {:induction false} PortOfListener(inb: Inbound, n: nat, l: Listener) returns (k: nat)
    requires n <= |Ports(inb)| && TransportSupported(inb.transport) && l in PortListeners(inb, n)
    ensures k < n && Known(inb.protocol) && l == MakeListener(inb, Ports(inb)[k])
  {
    MemberOfNext(inb, n, l);
    if l in PortListeners(inb, n - 1) {
      k := PortOfListener(inb, n - 1, l);
    } else {
      k := n - 1;
    }
  }

  /** Every port of an inbound of a known protocol gets its listener. */
  lemma {:induction false} ListenerOfPort(inb: Inbound, n: nat, k: nat)
    requires k < n <= |Ports(inb)| && TransportSupported(inb.transport) && Known(inb.protocol)
    ensures MakeListener(inb, Ports(inb)[k]) in PortListeners(inb, n)
  {
    MemberOfNext(inb, n, MakeListener(inb, Ports(inb)[k]));
    if k < n - 1 {
      ListenerOfPort(inb, n - 1, k);
    }
  }

  /** l is the listener a build makes for port p of the i-th inbound. */
  predicate MadeFor(inbounds: seq<Inbound>, i: int, p: Port, l: Listener)
    requires forall i | 0 <= i < |inbounds| :: TransportSupported(inbounds[i].transport)
  {
    0 <= i < |inbounds| && p in Ports(inbounds[i]) && Known(inbounds[i].protocol) && l == MakeListener(inbounds[i], p)
  }

  lemma {:induction false} ListenerIsServed(inbounds: seq<Inbound>, l: Listener) returns (i: nat, p: Port)
    requires forall i | 0 <= i < |inbounds| :: TransportSupported(inbounds[i].transport)
    requires l in ListenersOf(inbounds)
    ensures MadeFor(inbounds, i, p, l)
  {
    var n := |inbounds| - 1;
    var init, last := inbounds[..n], inbounds[n];
    if l in ListenersOf(init) {
      i, p := ListenerIsServed(init, l);
    } else {
      var k := PortOfListener(last, |Ports(last)|, l);
      i, p := n, Ports(last)[k];
    }
  }

  lemma {:induction false} ServedIsListener(inbounds: seq<Inbound>, i: nat, p: Port)
    requires forall i | 0 <= i < |inbounds| :: TransportSupported(inbounds[i].transport)
    requires i < |inbounds| && p in Ports(inbounds[i]) && Known(inbounds[i].protocol)
    ensures MakeListener(inbounds[i], p) in ListenersOf(inbounds)
  {
    var n := |inbounds| - 1;
    var init, last := inbounds[..n], inbounds[n];
    if i < n {
      ServedIsListener(init, i, p);
    } else {
      var k :| 0 <= k < |Ports(last)| && Ports(last)[k] == p;
      ListenerOfPort(last, |Ports(last)|, k);
    }
  }

  /** A build has exactly one listener for each served port of each inbound of a known protocol. */
  lemma ListenersMembers(inbounds: seq<Inbound>, l: Listener)
    requires forall i | 0 <= i < |inbounds| :: TransportSupported(inbounds[i].transport)
    ensures l in ListenersOf(inbounds) <==> exists i, p :: MadeFor(inbounds, i, p, l)
  {
    if l in ListenersOf(inbounds) {
      var _, _ := ListenerIsServed(inbounds, l);
    }
    if i, p :| MadeFor(inbounds, i, p, l) {
      ServedIsListener(inbounds, i, p);
    }
  }

  lemma {:induction false} PlanPortsEffect(plan: Plan, inb: Inbound, n: nat)
    requires n <= |Ports(inb)| && inb.tag !in plan.derivedTags
    ensures var after := PlanPorts(plan, inb, n);
            && (forall t | t != inb.tag :: t in after.derivedTags <==> t in plan.derivedTags)
            && (forall t | t in plan.derivedTags :: t in after.derivedTags && after.derivedTags[t] == plan.derivedTags[t])
            && (inb.tag in after.derivedTags <==> n > 0 && |Ports(inb)| > 1)
            && (inb.tag in after.derivedTags ==>
                  after.derivedTags[inb.tag] == seq(n, k requires 0 <= k < n => ListenerTag(inb, Ports(inb)[k])))
  {
    if n > 0 {
      PlanPortsEffect(plan, inb, n - 1);
    }
  }

  /** The listener tags of one inbound, in the order of its ports. */
  function TagsOfInbound(inb: Inbound): seq<string> {
    var ports := Ports(inb);
    seq(|ports|, k requires 0 <= k < |ports| => ListenerTag(inb, ports[k]))
  }

  lemma {:induction false} PlanDerived(inbounds: seq<Inbound>)
    requires DistinctTags(inbounds)
    ensures forall t | t in PlanOf(inbounds).derivedTags :: t in Tags(inbounds)
    ensures forall i | 0 <= i < |inbounds| :: PlanOf(inbounds).ListenerTags(inbounds[i].tag) == TagsOfInbound(inbounds[i])
  {
    if inbounds != [] {
      var n := |inbounds| - 1;
      var init, last := inbounds[..n], inbounds[n];
      PlanDerived(init);
      assert last.tag !in Tags(init);
      PlanPortsEffect(PlanOf(init), last, |Ports(last)|);
      forall t | t in PlanOf(inbounds).derivedTags
        ensures t in Tags(inbounds)
      {
        if t != last.tag {
          var i :| 0 <= i < |init| && init[i].tag == t;
          assert inbounds[i].tag == t;
        }
      }
      forall i | 0 <= i < |inbounds|
        ensures PlanOf(inbounds).ListenerTags(inbounds[i].tag) == TagsOfInbound(inbounds[i])
      {
        if i < n {
          assert init[i] == inbounds[i];
          assert PlanOf(init).ListenerTags(init[i].tag) == TagsOfInbound(init[i]);
        }
      }
    }
  }

  lemma {:induction false} PortsByTagLookup(inbounds: seq<Inbound>)
    requires DistinctTags(inbounds)
    ensures PortsByTag(inbounds).Keys == Tags(inbounds)
    ensures forall i | 0 <= i < |inbounds| :: PortsByTag(inbounds)[inbounds[i].tag] == Ports(inbounds[i])
  {
    if inbounds != [] {
      var n := |inbounds| - 1;
      var init := inbounds[..n];
      PortsByTagLookup(init);
      assert Tags(inbounds) == Tags(init) + {inbounds[n].tag};
      forall i | 0 <= i < |inbounds|
        ensures PortsByTag(inbounds)[inbounds[i].tag] == Ports(inbounds[i])
      {
        if i < n {
          assert init[i] == inbounds[i];
        }
      }
    }
  }

  lemma {:induction false} PlanPortsCiphers(plan: Plan, inb: Inbound, n: nat)
    requires n <= |Ports(inb)|
    ensures PlanPorts(plan, inb, n).ciphers ==
            if inb.protocol == Shadowsocks && n > 0 then plan.ciphers[inb.tag := CipherOf(inb.users)] else plan.ciphers
  {
    if n > 0 {
      PlanPortsCiphers(plan, inb, n - 1);
    }
  }

  ghost predicate HasCipher(inbounds: seq<Inbound>, tag: string, cipher: string) {
    exists i :: 0 <= i < |inbounds| && inbounds[i].tag == tag && inbounds[i].protocol == Shadowsocks && SettlesOn(inbounds[i].users, cipher)
  }

  /** The plan remembers the cipher of every shadowsocks inbound, and of no other. */
  lemma {:induction false} PlanCiphers(inbounds: seq<Inbound>)
    requires DistinctTags(inbounds)
    ensures forall t | t in PlanOf(inbounds).ciphers :: HasCipher(inbounds, t, PlanOf(inbounds).ciphers[t])
    ensures forall i | 0 <= i < |inbounds| && inbounds[i].protocol == Shadowsocks :: inbounds[i].tag in PlanOf(inbounds).ciphers
  {
    if inbounds != [] {
      var n := |inbounds| - 1;
      var init, last := inbounds[..n], inbounds[n];
      PlanCiphers(init);
      PlanPortsCiphers(PlanOf(init), last, |Ports(last)|);
      CipherIsSettled(last.users);
      forall t | t in PlanOf(inbounds).ciphers
        ensures HasCipher(inbounds, t, PlanOf(inbounds).ciphers[t])
      {
        var cipher := PlanOf(inbounds).ciphers[t];
        if t in PlanOf(init).ciphers && !(t == last.tag && last.protocol == Shadowsocks) {
          var i :| 0 <= i < n && init[i].tag == t && init[i].protocol == Shadowsocks && SettlesOn(init[i].users, cipher);
          assert inbounds[i] == init[i];
        } else {
          assert inbounds[n] == last;
        }
      }
      forall i | 0 <= i < |inbounds| && inbounds[i].protocol == Shadowsocks
        ensures inbounds[i].tag in PlanOf(inbounds).ciphers
      {
        if i < n {
          assert init[i] == inbounds[i];
        }
      }
    }
  }

  // ----- No two listeners of a build share a tag -----

  predicate DistinctListeners(ls: seq<Listener>) {
    forall i, j | 0 <= i < j < |ls| :: ls[i].tag != ls[j].tag
  }

  lemma DistinctSnoc(ls: seq<Listener>, l: Listener)
    requires DistinctListeners(ls) && forall m | m in ls :: m.tag != l.tag
    ensures DistinctListeners(ls + [l])
  {
  }

  lemma NextTagIsNew(inbounds: seq<Inbound>, i: nat, n: nat, l: Listener)
    requires WellFormed(inbounds) && i < |inbounds| && TransportSupported(inbounds[i].transport)
    requires 0 < n <= |Ports(inbounds[i])| && l in PortListeners(inbounds[i], n - 1)
    ensures l.tag != ListenerTag(inbounds[i], Ports(inbounds[i])[n - 1])
  {
    var inb := inbounds[i];
    var k := PortOfListener(inb, n - 1, l);
    if l.tag == ListenerTag(inb, Ports(inb)[n - 1]) {
      ListenerTagInjective(inbounds, i, Ports(inb)[k], i, Ports(inb)[n - 1]);
    }
  }

  lemma {:induction false} PortListenersDistinct(inbounds: seq<Inbound>, i: nat, n: nat)
    requires WellFormed(inbounds) && i < |inbounds| && TransportSupported(inbounds[i].transport)
    requires n <= |Ports(inbounds[i])|
    ensures DistinctListeners(PortListeners(inbounds[i], n))
  {
    var inb := inbounds[i];
    if n > 0 {
      PortListenersDistinct(inbounds, i, n - 1);
      var before := PortListeners(inb, n - 1);
      forall l | l in before
        ensures l.tag != ListenerTag(inb, Ports(inb)[n - 1])
      {
        NextTagIsNew(inbounds, i, n, l);
      }
      if Known(inb.protocol) {
        DistinctSnoc(before, MakeListener(inb, Ports(inb)[n - 1]));
      } else {
        Seqs.EmptyRight(before);
      }
    }
  }

  lemma {:induction false} ListenersAreDistinct(inbounds: seq<Inbound>)
    requires WellFormed(inbounds)
    requires forall i | 0 <= i < |inbounds| :: TransportSupported(inbounds[i].transport)
    ensures DistinctListeners(ListenersOf(inbounds))
  {
    if inbounds != [] {
      var n := |inbounds| - 1;
      var init, last := inbounds[..n], inbounds[n];
      ListenersAreDistinct(init);
      PortListenersDistinct(inbounds, n, |Ports(last)|);
      forall a, b | a in ListenersOf(init) && b in PortListeners(last, |Ports(last)|)
        ensures a.tag != b.tag
      {
        var i, p := ListenerIsServed(init, a);
        var k := PortOfListener(last, |Ports(last)|, b);
        if a.tag == b.tag {
          assert inbounds[i] == init[i];
          ListenerTagInjective(inbounds, i, p, n, Ports(last)[k]);
        }
      }
    }
  }
}
