/** internal/httpapi/nodeconfig.go, loader half: how the fleet's rows become the
    inbounds of every payload, with each protocol's user list prepared once. */
module FleetSnapshot {
  import opened Options
  import opened Wire

  datatype Credentials = Credentials(id: string, password: string, flow: string, cipher: string, userKey: string)

  /** One active user's proxy row; settings are missing when the stored ones do not parse. */
  datatype ProxyRow = ProxyRow(username: string, protocol: Protocol, settings: Option<Credentials>)

  datatype Security = NoSecurity | TlsSecurity | RealitySecurity | OtherSecurity(name: string)

  datatype InboundRow = InboundRow(
    tag: string, protocol: Protocol, network: string, headerType: string, security: Security,
    port: int, ports: seq<int>, path: string, host: string,
    realityPrivateKey: string, realityShortIds: seq<string>, realityServerName: string, realityServerPort: int,
    tlsServerName: string, tlsCertificate: string, tlsKey: string,
    obfsPassword: string, upMbps: int, downMbps: int, congestionControl: string, zeroRtt: bool,
    snellPsk: string, snellMode: string)

  predicate FlowApplies(network: string, security: Security, headerType: string) {
    && (security == TlsSecurity || security == RealitySecurity)
    && network in {"tcp", "raw", "kcp"} && headerType != "http"
  }

  /** The name of a prepared user list: a protocol's, or the same without flows. */
  datatype UsersKey = UsersKey(protocol: Protocol, noFlow: bool)

  predicate NeedsNoFlow(row: InboundRow) {
    row.protocol in {Vless, Trojan} && !FlowApplies(row.network, row.security, row.headerType)
  }

  function KeyOfRow(row: InboundRow): UsersKey {
    UsersKey(row.protocol, NeedsNoFlow(row))
  }

  /** What a node needs to know of one user under one protocol. */
  function UserOf(row: ProxyRow): Option<User> {
    if row.settings == None then None
    else
      var c := row.settings.value;
      match row.protocol
      case Vmess => Some(User(row.username, c.id, "", "", "", ""))
      case Vless => Some(User(row.username, c.id, "", c.flow, "", ""))
      case Trojan => Some(User(row.username, "", c.password, c.flow, "", ""))
      case Shadowsocks => Some(User(row.username, "", c.password, "", c.cipher, ""))
      case Hysteria2 => Some(User(row.username, "", c.password, "", "", ""))
      case Tuic => Some(User(row.username, c.id, c.password, "", "", ""))
      case Snell => Some(User(row.username, "", "", "", "", c.userKey))
      case AnyTls => Some(User(row.username, "", c.password, "", "", ""))
      case OtherProtocol(_) => None
  }

  /** Every usable user of a protocol, in the order of the rows. */
  function UsersOf(p: Protocol, rows: seq<ProxyRow>): seq<User> {
    if rows == [] then []
    else
      var n := |rows| - 1;
      UsersOf(p, rows[..n]) +
      (if rows[n].protocol == p && UserOf(rows[n]).Some? then [UserOf(rows[n]).value] else [])
  }

  function WithoutFlows(users: seq<User>): (r: seq<User>)
    ensures |r| == |users|
  {
    seq(|users|, i requires 0 <= i < |users| => users[i].(flow := ""))
  }

  /** The list a key stands for. */
  function Listed(key: UsersKey, rows: seq<ProxyRow>): seq<User> {
    if key.noFlow then WithoutFlows(UsersOf(key.protocol, rows)) else UsersOf(key.protocol, rows)
  }

  /** A table of prepared lists: what it holds is right, no list in it is empty, and the
      plain lists are all there. */
  ghost predicate Tabulates(table: map<UsersKey, seq<User>>, rows: seq<ProxyRow>) {
    && (forall key | key in table :: table[key] == Listed(key, rows) && table[key] != [])
    && (forall p: Protocol :: UsersOf(p, rows) != [] ==> UsersKey(p, false) in table)
  }

  method GroupUsers(rows: seq<ProxyRow>) returns (table: map<UsersKey, seq<User>>)
    ensures Tabulates(table, rows) && forall key | key in table :: !key.noFlow
  {
    table := map[];
    for i := 0 to |rows|
      invariant Tabulates(table, rows[..i])
      invariant forall key | key in table :: !key.noFlow
    {
      assert rows[..i + 1][..i] == rows[..i];
      var user := UserOf(rows[i]);
      if user == None {
        continue;
      }
      var key := UsersKey(rows[i].protocol, false);
      ghost var before := table;
      table := table[key := (if key in table then table[key] else []) + [user.value]];
      assert key !in before ==> UsersOf(rows[i].protocol, rows[..i]) == [];
    }
    assert rows[..|rows|] == rows;
  }

  /** Every inbound's list is in the table, unless it is empty. */
  predicate Serves(table: map<UsersKey, seq<User>>, rows: seq<InboundRow>, proxies: seq<ProxyRow>) {
    forall i | 0 <= i < |rows| :: Listed(KeyOfRow(rows[i]), proxies) != [] ==> KeyOfRow(rows[i]) in table
  }

  lemma ServesOneMore(before: map<UsersKey, seq<User>>, after: map<UsersKey, seq<User>>, rows: seq<InboundRow>, i: nat,
                      proxies: seq<ProxyRow>)
    requires i < |rows| && Serves(before, rows[..i], proxies) && before.Keys <= after.Keys
    requires Listed(KeyOfRow(rows[i]), proxies) != [] ==> KeyOfRow(rows[i]) in after
    ensures Serves(after, rows[..i + 1], proxies)
  {
    assert rows[..i + 1] == rows[..i] + [rows[i]];
  }

  /** The list of one row: what is there already, or the plain list with its flows cleared. */
  method StripFor(row: InboundRow, proxies: seq<ProxyRow>, before: map<UsersKey, seq<User>>)
    returns (table: map<UsersKey, seq<User>>)
    requires Tabulates(before, proxies)
    ensures Tabulates(table, proxies) && before.Keys <= table.Keys
    ensures Listed(KeyOfRow(row), proxies) != [] ==> KeyOfRow(row) in table
  {
    table := before;
    if !NeedsNoFlow(row) {
      return;
    }
    var key, plain := UsersKey(row.protocol, true), UsersKey(row.protocol, false);
    if key in table || plain !in table {
      return;
    }
    table := table[key := WithoutFlows(table[plain])];
  }

  method StripFlows(rows: seq<InboundRow>, proxies: seq<ProxyRow>, before: map<UsersKey, seq<User>>)
    returns (table: map<UsersKey, seq<User>>)
    requires Tabulates(before, proxies)
    ensures Tabulates(table, proxies) && Serves(table, rows, proxies)
  {
    table := before;
    for i := 0 to |rows|
      invariant Tabulates(table, proxies) && Serves(table, rows[..i], proxies)
    {
      ghost var last := table;
      table := StripFor(rows[i], proxies, table);
      ServesOneMore(last, table, rows, i, proxies);
    }
    assert rows[..|rows|] == rows;
  }

  // ----- Ports -----

  predicate RealPort(p: int) {
    1 <= p <= 65535
  }

  function ValidPorts(ports: seq<int>): (valid: seq<int>)
    ensures forall p :: p in valid <==> p in ports && RealPort(p)
  {
    if ports == [] then []
    else
      var n := |ports| - 1;
      assert forall p :: p in ports <==> p in ports[..n] || p == ports[n];
      ValidPorts(ports[..n]) + (if RealPort(ports[n]) then [ports[n]] else [])
  }

  method ValidHostPorts(ports: seq<int>) returns (out: seq<int>)
    ensures out == ValidPorts(ports)
  {
    out := [];
    for i := 0 to |ports|
      invariant out == ValidPorts(ports[..i])
    {
      assert ports[..i + 1][..i] == ports[..i];
      if ports[i] >= 1 && ports[i] <= 65535 {
        out := out + [ports[i]];
      }
    }
    assert ports[..|ports|] == ports;
  }

  function MultiPorts(ports: seq<int>): seq<Port> {
    if |ValidPorts(ports)| < 2 then [] else WrapPorts(ValidPorts(ports))
  }

  method MultiListenPorts(ports: seq<int>) returns (out: seq<Port>)
    ensures out == MultiPorts(ports)
  {
    var valid := ValidHostPorts(ports);
    if |valid| < 2 {
      return [];
    }
    out := [];
    for i := 0 to |valid|
      invariant out == WrapPorts(valid[..i])
    {
      out := out + [AsPort(valid[i])];
    }
    assert valid[..|valid|] == valid;
  }

  // ----- One inbound -----

  function TransportFor(row: InboundRow): Option<Transport> {
    if row.protocol !in {Vless, Vmess, Trojan} then None
    else
      var path := if row.path == "" then "/" else row.path;
      if row.network == "ws" then Some(Transport(WebSocket, path, row.host))
      else if row.network == "httpupgrade" then Some(Transport(HttpUpgrade, path, row.host))
      else None
  }

  function TlsFor(row: InboundRow): Option<Tls> {
    match row.security
    case RealitySecurity =>
      Some(Tls("", "", "", Some(Reality(row.realityPrivateKey, row.realityShortIds, row.realityServerName,
                                        AsPort(row.realityServerPort)))))
    case TlsSecurity => Some(Tls(row.tlsServerName, row.tlsCertificate, row.tlsKey, None))
    case _ => None
  }

  function InboundOf(row: InboundRow, users: seq<User>): Inbound {
    Inbound(row.tag, row.protocol, AsPort(row.port), MultiPorts(row.ports), users, TlsFor(row), TransportFor(row),
            if row.protocol == Hysteria2 then row.obfsPassword else "",
            if row.protocol == Hysteria2 then row.upMbps else 0,
            if row.protocol == Hysteria2 then row.downMbps else 0,
            if row.protocol == Tuic then row.congestionControl else "",
            row.protocol == Tuic && row.zeroRtt,
            if row.protocol == Snell then row.snellPsk else "",
            if row.protocol == Snell then row.snellMode else "")
  }

  /** One inbound of the snapshot, with the name of its user list. */
  datatype Spec = Spec(inbound: Inbound, usersKey: UsersKey)

  function SpecOf(row: InboundRow, proxies: seq<ProxyRow>): Spec {
    Spec(InboundOf(row, Listed(KeyOfRow(row), proxies)), KeyOfRow(row))
  }

  function Specs(rows: seq<InboundRow>, proxies: seq<ProxyRow>): (r: seq<Spec>)
    ensures |r| == |rows|
  {
    seq(|rows|, i requires 0 <= i < |rows| => SpecOf(rows[i], proxies))
  }

  function Inbounds(specs: seq<Spec>): (r: seq<Inbound>)
    ensures |r| == |specs|
  {
    seq(|specs|, i requires 0 <= i < |specs| => specs[i].inbound)
  }

  /** The fleet as a function of the two tables it is read from. */
  function Fleet(rows: seq<InboundRow>, proxies: seq<ProxyRow>): seq<Inbound> {
    Inbounds(Specs(rows, proxies))
  }

  /** One turn of the loop over the inbounds. */
  method LoadOne(row: InboundRow, proxies: seq<ProxyRow>, table: map<UsersKey, seq<User>>) returns (spec: Spec)
    requires Tabulates(table, proxies) && (Listed(KeyOfRow(row), proxies) != [] ==> KeyOfRow(row) in table)
    ensures spec == SpecOf(row, proxies)
  {
    var ports := MultiListenPorts(row.ports);
    var key := UsersKey(row.protocol, NeedsNoFlow(row));
    var users := if key in table then table[key] else [];
    var inbound := InboundOf(row, users);
    assert inbound.listenPorts == ports;
    spec := Spec(inbound, key);
  }

  /** The loops of loadNodeConfigSnapshot, up to the encoding of the user lists. */
  method Load(rows: seq<InboundRow>, proxies: seq<ProxyRow>) returns (specs: seq<Spec>, table: map<UsersKey, seq<User>>)
    ensures specs == Specs(rows, proxies)
    ensures Tabulates(table, proxies) && Serves(table, rows, proxies)
  {
    var grouped := GroupUsers(proxies);
    table := StripFlows(rows, proxies, grouped);
    specs := [];
    for i := 0 to |rows|
      invariant specs == Specs(rows, proxies)[..i]
    {
      var spec := LoadOne(rows[i], proxies, table);
      specs := specs + [spec];
    }
  }

  // ----- What a loaded inbound means -----

  /** A row that gives its user access under a protocol. */
  predicate Usable(p: Protocol, row: ProxyRow) {
    row.protocol == p && row.settings.Some? && p in {Vless, Vmess, Trojan, Shadowsocks, Hysteria2, Tuic, Snell, AnyTls}
  }

  lemma UsableExactly(p: Protocol, row: ProxyRow)
    ensures Usable(p, row) <==> row.protocol == p && UserOf(row).Some?
  {
  }

  predicate Ascending(at: seq<nat>) {
    forall j, k | 0 <= j < k < |at| :: at[j] < at[k]
  }

  predicate AllUsable(p: Protocol, proxies: seq<ProxyRow>, at: seq<nat>) {
    forall k | 0 <= k < |at| :: at[k] < |proxies| && Usable(p, proxies[at[k]])
  }

  predicate NoneMissing(p: Protocol, proxies: seq<ProxyRow>, at: seq<nat>) {
    forall q: nat | q < |proxies| && Usable(p, proxies[q]) :: q in at
  }

  /** Which rows a list of users came from: each usable row exactly once, in row order. */
  predicate DrawnFrom(p: Protocol, proxies: seq<ProxyRow>, at: seq<nat>) {
    AllUsable(p, proxies, at) && Ascending(at) && NoneMissing(p, proxies, at)
  }

  lemma NoneMissingSnoc(p: Protocol, init: seq<ProxyRow>, last: ProxyRow, before: seq<nat>, at: seq<nat>)
    requires NoneMissing(p, init, before) && (forall q | q in before :: q in at) && (Usable(p, last) ==> |init| in at)
    ensures NoneMissing(p, init + [last], at)
  {
    forall q: nat | q < |init| + 1 && Usable(p, (init + [last])[q])
      ensures q in at
    {
      if q < |init| {
        assert (init + [last])[q] == init[q] && q in before;
      }
    }
  }

  lemma OneMoreDrawn(p: Protocol, init: seq<ProxyRow>, last: ProxyRow, before: seq<nat>)
    requires DrawnFrom(p, init, before)
    ensures DrawnFrom(p, init + [last], if Usable(p, last) then before + [|init|] else before)
  {
    if Usable(p, last) {
      var at := before + [|init|];
      assert at[|before|] == |init|;
      NoneMissingSnoc(p, init, last, before, at);
      assert (init + [last])[|init|] == last;
    } else {
      NoneMissingSnoc(p, init, last, before, before);
    }
  }

  /** The users of a protocol, row by row. */
  predicate UsersAt(proxies: seq<ProxyRow>, at: seq<nat>, users: seq<User>) {
    |at| == |users| && forall k | 0 <= k < |at| :: at[k] < |proxies| && UserOf(proxies[at[k]]) == Some(users[k])
  }

  lemma {:induction false} UsersDrawn(p: Protocol, proxies: seq<ProxyRow>) returns (at: seq<nat>)
    ensures DrawnFrom(p, proxies, at) && UsersAt(proxies, at, UsersOf(p, proxies))
  {
    if proxies == [] {
      at := [];
    } else {
      var n := |proxies| - 1;
      var init, last := proxies[..n], proxies[n];
      var before := UsersDrawn(p, init);
      at := if Usable(p, last) then before + [n] else before;
      OneMoreDrawn(p, init, last, before);
      assert proxies == init + [last];
      UsersOneMore(p, init, last, before);
    }
  }

  lemma UsersOneMore(p: Protocol, init: seq<ProxyRow>, last: ProxyRow, before: seq<nat>)
    requires UsersAt(init, before, UsersOf(p, init))
    ensures UsersAt(init + [last], if Usable(p, last) then before + [|init|] else before, UsersOf(p, init + [last]))
  {
    var all := init + [last];
    assert all[..|init|] == init;
    UsableExactly(p, last);
  }

  /** A flow means something on an inbound: the protocol has flows, the connection is TLS or
      REALITY on raw TCP or kcp, and no HTTP header is put in front of it. */
  predicate CarriesFlow(row: InboundRow) {
    && row.protocol in {Vless, Trojan}
    && (row.security == TlsSecurity || row.security == RealitySecurity)
    && (row.network == "tcp" || row.network == "raw" || row.network == "kcp")
    && row.headerType != "http"
  }

  /** A user as an inbound is to know them: the row's user, with the credential the
      inbound's protocol checks taken from the row, and no other. */
  predicate KnownBy(row: InboundRow, proxy: ProxyRow, u: User)
    requires proxy.settings.Some?
  {
    var c := proxy.settings.value;
    && u.name == proxy.username
    && u.uuid == (if row.protocol in {Vless, Vmess, Tuic} then c.id else "")
    && u.password == (if row.protocol in {Trojan, Shadowsocks, Hysteria2, Tuic, AnyTls} then c.password else "")
    && u.cipher == (if row.protocol == Shadowsocks then c.cipher else "")
    && u.userKey == (if row.protocol == Snell then c.userKey else "")
    && u.flow == (if CarriesFlow(row) then c.flow else "")
  }

  lemma ListedUser(row: InboundRow, proxy: ProxyRow)
    requires Usable(row.protocol, proxy)
    ensures UserOf(proxy).Some?
    ensures var u := UserOf(proxy).value; KnownBy(row, proxy, if NeedsNoFlow(row) then u.(flow := "") else u)
  {
  }

  lemma FleetUsers(rows: seq<InboundRow>, proxies: seq<ProxyRow>, i: nat)
    requires i < |rows|
    ensures Fleet(rows, proxies)[i].users == Listed(KeyOfRow(rows[i]), proxies)
  {
  }

  lemma ListedAt(row: InboundRow, proxies: seq<ProxyRow>, k: nat)
    requires k < |UsersOf(row.protocol, proxies)|
    ensures |Listed(KeyOfRow(row), proxies)| == |UsersOf(row.protocol, proxies)|
    ensures var plain := UsersOf(row.protocol, proxies)[k];
            Listed(KeyOfRow(row), proxies)[k] == if NeedsNoFlow(row) then plain.(flow := "") else plain
  {
  }

  /** Every user with a usable row of an inbound's protocol is on that inbound, once per
      row and in row order, and nobody else is; each is known by the credential of the row. */
  lemma UsersAreComplete(rows: seq<InboundRow>, proxies: seq<ProxyRow>, i: nat) returns (at: seq<nat>)
    requires i < |rows|
    ensures DrawnFrom(rows[i].protocol, proxies, at)
    ensures var users := Fleet(rows, proxies)[i].users;
            |users| == |at| && forall k | 0 <= k < |at| :: KnownBy(rows[i], proxies[at[k]], users[k])
  {
    var row := rows[i];
    at := UsersDrawn(row.protocol, proxies);
    FleetUsers(rows, proxies, i);
    forall k | 0 <= k < |at|
      ensures k < |Listed(KeyOfRow(row), proxies)| && KnownBy(row, proxies[at[k]], Listed(KeyOfRow(row), proxies)[k])
    {
      ListedAt(row, proxies, k);
      ListedUser(row, proxies[at[k]]);
    }
  }

  /** The TLS block of an inbound: none, a certificate's, or REALITY's. */
  predicate SecuredAs(row: InboundRow, tls: Option<Tls>) {
    match tls
    case None => row.security != TlsSecurity && row.security != RealitySecurity
    case Some(t) =>
      match t.reality
      case None =>
        && row.security == TlsSecurity
        && t.serverName == row.tlsServerName && t.certificate == row.tlsCertificate && t.key == row.tlsKey
      case Some(r) =>
        && row.security == RealitySecurity && t.serverName == "" && t.certificate == "" && t.key == ""
        && r.privateKey == row.realityPrivateKey && r.shortIds == row.realityShortIds
        && r.serverName == row.realityServerName && r.serverPort as int == row.realityServerPort % 0x1_0000
  }

  /** Only the protocols that run over plain TCP have a transport, and it is the one the
      links of the inbound use. */
  predicate CarriedAs(row: InboundRow, transport: Option<Transport>) {
    match transport
    case None => row.protocol !in {Vless, Vmess, Trojan} || (row.network != "ws" && row.network != "httpupgrade")
    case Some(t) =>
      && row.protocol in {Vless, Vmess, Trojan}
      && ((t.kind == WebSocket && row.network == "ws") || (t.kind == HttpUpgrade && row.network == "httpupgrade"))
      && t.path == (if row.path == "" then "/" else row.path) && t.host == row.host
  }

  /** What a row sends to the nodes besides ports and users. */
  lemma RowIsSent(rows: seq<InboundRow>, proxies: seq<ProxyRow>, i: nat)
    requires i < |rows|
    ensures var row, inb := rows[i], Fleet(rows, proxies)[i];
            && inb.tag == row.tag && inb.protocol == row.protocol
            && SecuredAs(row, inb.tls) && CarriedAs(row, inb.transport)
            && (row.protocol == Hysteria2 ==>
                  inb.obfsPassword == row.obfsPassword && inb.upMbps == row.upMbps && inb.downMbps == row.downMbps)
            && (row.protocol != Hysteria2 ==> inb.obfsPassword == "" && inb.upMbps == 0 && inb.downMbps == 0)
            && (row.protocol == Tuic ==> inb.congestionControl == row.congestionControl && inb.zeroRtt == row.zeroRtt)
            && (row.protocol != Tuic ==> inb.congestionControl == "" && !inb.zeroRtt)
            && (row.protocol == Snell ==> inb.snellPsk == row.snellPsk && inb.snellMode == row.snellMode)
            && (row.protocol != Snell ==> inb.snellPsk == "" && inb.snellMode == "")
  {
  }

  predicate StrictlyAscending(xs: seq<int>) {
    forall i, j | 0 <= i < j < |xs| :: xs[i] < xs[j]
  }

  /** The database's guarantee about an inbound row: its ports are those of its enabled
      hosts, distinct and ascending, and its own port is its primary host's. */
  predicate RowPorts(row: InboundRow) {
    StrictlyAscending(row.ports) && row.port in row.ports
  }

  lemma {:induction false} ValidAscending(ports: seq<int>)
    requires StrictlyAscending(ports)
    ensures StrictlyAscending(ValidPorts(ports))
  {
    if ports != [] {
      var n := |ports| - 1;
      ValidAscending(ports[..n]);
      forall p | p in ValidPorts(ports[..n])
        ensures p < ports[n]
      {
        var k :| 0 <= k < n && ports[k] == p;
      }
      assert forall k | 0 <= k < |ValidPorts(ports[..n])| :: ValidPorts(ports[..n])[k] in ValidPorts(ports[..n]);
    }
  }

  lemma ValidPortsFit(ports: seq<int>)
    ensures WrapPorts(ValidPorts(ports)) == ValidPorts(ports)
  {
    var valid := ValidPorts(ports);
    forall k | 0 <= k < |valid|
      ensures AsPort(valid[k]) == valid[k]
    {
      assert valid[k] in valid;
    }
  }

  /** The ports an inbound is sent with are exactly the real ports of its enabled hosts,
      in order, if and only if there are at least two of those, the primary host's port
      is real, or it wraps onto the only real one. Nothing range-checks the primary
      host's port, so with a single real port the node is told another one. */
  lemma PortsAreTheHosts(row: InboundRow, users: seq<User>)
    requires RowPorts(row)
    ensures var valid := ValidPorts(row.ports);
            Ports(InboundOf(row, users)) == valid <==>
            |valid| >= 2 || RealPort(row.port) || (|valid| == 1 && valid[0] == AsPort(row.port))
  {
    var valid := ValidPorts(row.ports);
    ValidAscending(row.ports);
    if |valid| >= 2 {
      ValidPortsFit(row.ports);
    } else if RealPort(row.port) {
      assert row.port in valid;
      assert valid == [row.port];
    }
  }

  /** The port an old node reads is one of those served, whenever the primary host's
      port is real. */
  lemma PrimaryIsServed(row: InboundRow, users: seq<User>)
    requires RowPorts(row) && RealPort(row.port)
    ensures row.port in Ports(InboundOf(row, users)) && |InboundOf(row, users).listenPorts| != 1
  {
    PortsAreTheHosts(row, users);
    assert row.port in ValidPorts(row.ports);
  }

  /** A primary host on port 65979 and a second host on port 8443: the node listens on
      443, where no host is, and on 8443 not at all. */
  lemma PrimaryPortWraps(row: InboundRow, users: seq<User>)
    requires row.port == 65979 && row.ports == [8443, 65979]
    ensures RowPorts(row) && ValidPorts(row.ports) == [8443] && Ports(InboundOf(row, users)) == [443]
  {
    assert row.ports[..1] == [8443] && row.ports[..1][..0] == [];
    assert ValidPorts([]) == [];
    assert ValidPorts([8443]) == [] + [8443];
  }

  /** Served ports are distinct whatever the hosts hold. */
  lemma PortsAreDistinct(row: InboundRow, users: seq<User>)
    requires RowPorts(row)
    ensures Distinct(Ports(InboundOf(row, users)))
  {
    var valid := ValidPorts(row.ports);
    ValidAscending(row.ports);
    if |valid| >= 2 {
      ValidPortsFit(row.ports);
    }
  }

  /** Rows with distinct tags free of the separator make a well-formed fleet. */
  lemma FleetWellFormed(rows: seq<InboundRow>, proxies: seq<ProxyRow>)
    requires forall i | 0 <= i < |rows| :: RowPorts(rows[i]) && NoHash(rows[i].tag)
    requires forall i, j | 0 <= i < j < |rows| :: rows[i].tag != rows[j].tag
    ensures WellFormed(Fleet(rows, proxies))
  {
    var fleet := Fleet(rows, proxies);
    forall i | 0 <= i < |fleet|
      ensures NoHash(fleet[i].tag) && Distinct(Ports(fleet[i])) && fleet[i].tag == rows[i].tag
    {
      PortsAreDistinct(rows[i], Listed(KeyOfRow(rows[i]), proxies));
    }
  }
}
