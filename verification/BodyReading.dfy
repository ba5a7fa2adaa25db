/** cmd/node/main.go, the node's mirror of the panel's structs. The two programs share no
    types: what the node reads of a body is found by field name, and a field that is not
    there is blank. That it reads what the panel rendered is proved here, on the values
    between the two JSON libraries. */
module BodyReading {
  import opened Decimal
  import opened Json
  import opened Options
  import opened Wire
  import Seqs
  import opened NodeConfigBody

  /** A field of a struct; of two with one name the later counts. */
  function Lookup(fields: seq<Field>, name: string): Option<Value> {
    if fields == [] then None
    else
      var n := |fields| - 1;
      if fields[n].name == name then Some(fields[n].value) else Lookup(fields[..n], name)
  }

  function FieldsOf(v: Value): seq<Field> {
    if v.Obj? then v.fields else []
  }

  function ItemsOf(v: Value): seq<Value> {
    if v.Arr? then v.items else []
  }

  function TextOf(v: Value): string {
    if v.Str? then v.text else ""
  }

  function NumberOf(v: Value): int {
    if !v.Literal? then 0
    else if v.text != "" && v.text[0] == '-' && AllDigits(v.text[1..]) then -(Decimal.Value(v.text[1..]) as int)
    else if AllDigits(v.text) then Decimal.Value(v.text)
    else 0
  }

  function PortOf(v: Value): Port {
    if 0 <= NumberOf(v) < 0x1_0000 then NumberOf(v) else 0
  }

  function ReadText(fields: seq<Field>, name: string): string {
    var v := Lookup(fields, name); if v == None then "" else TextOf(v.value)
  }

  function ReadNumber(fields: seq<Field>, name: string): int {
    var v := Lookup(fields, name); if v == None then 0 else NumberOf(v.value)
  }

  function ReadItems(fields: seq<Field>, name: string): seq<Value> {
    var v := Lookup(fields, name); if v == None then [] else ItemsOf(v.value)
  }

  // ----- The node's structs -----

  function ReadUser(v: Value): User {
    var f := FieldsOf(v);
    User(ReadText(f, "name"), ReadText(f, "uuid"), ReadText(f, "password"), ReadText(f, "flow"), ReadText(f, "method"),
         ReadText(f, "user_key"))
  }

  function ReadReality(v: Value): Reality {
    var f := FieldsOf(v);
    var handshake := Lookup(f, "handshake");
    var h := if handshake == None then [] else FieldsOf(handshake.value);
    var port := Lookup(h, "server_port");
    var ids := ReadItems(f, "short_id");
    Reality(ReadText(f, "private_key"), seq(|ids|, i requires 0 <= i < |ids| => TextOf(ids[i])), ReadText(h, "server_name"),
            if port == None then 0 else PortOf(port.value))
  }

  function ReadTls(v: Value): Tls {
    var f := FieldsOf(v);
    var reality := Lookup(f, "reality");
    Tls(ReadText(f, "server_name"), ReadText(f, "certificate"), ReadText(f, "key"),
        if reality == None then None else Some(ReadReality(reality.value)))
  }

  function ReadKind(name: string): TransportKind {
    if name == "ws" then WebSocket else if name == "httpupgrade" then HttpUpgrade else OtherTransport(name)
  }

  function ReadTransport(v: Value): Transport {
    var f := FieldsOf(v);
    Transport(ReadKind(ReadText(f, "type")), ReadText(f, "path"), ReadText(f, "host"))
  }

  function ReadProtocol(name: string): Protocol {
    if name == "vless" then Vless
    else if name == "vmess" then Vmess
    else if name == "trojan" then Trojan
    else if name == "shadowsocks" then Shadowsocks
    else if name == "hysteria2" then Hysteria2
    else if name == "tuic" then Tuic
    else if name == "snell" then Snell
    else if name == "anytls" then AnyTls
    else OtherProtocol(name)
  }

  function ReadInbound(v: Value): Inbound {
    var f := FieldsOf(v);
    var port, tls, transport := Lookup(f, "listen_port"), Lookup(f, "tls"), Lookup(f, "transport");
    var ports, users := ReadItems(f, "listen_ports"), ReadItems(f, "users");
    Inbound(ReadText(f, "tag"), ReadProtocol(ReadText(f, "protocol")), if port == None then 0 else PortOf(port.value),
            seq(|ports|, i requires 0 <= i < |ports| => PortOf(ports[i])),
            seq(|users|, i requires 0 <= i < |users| => ReadUser(users[i])),
            if tls == None then None else Some(ReadTls(tls.value)),
            if transport == None then None else Some(ReadTransport(transport.value)),
            ReadText(f, "hysteria2_obfs_password"), ReadNumber(f, "up_mbps"), ReadNumber(f, "down_mbps"),
            ReadText(f, "congestion_control"), Lookup(f, "zero_rtt_handshake") == Some(Literal("true")),
            ReadText(f, "snell_psk"), ReadText(f, "snell_v6_mode"))
  }

  /** A whole answer; how the node reads the core section is a parameter, as its layout is. */
  datatype Answer = Answer(version: string, inbounds: seq<Inbound>, core: CoreConfig)

  function ReadAnswer(v: Value, readCore: Value -> CoreConfig): Answer {
    var f := FieldsOf(v);
    var inbounds, core := ReadItems(f, "inbounds"), Lookup(f, "core");
    Answer(ReadText(f, "version"), seq(|inbounds|, i requires 0 <= i < |inbounds| => ReadInbound(inbounds[i])),
           readCore(if core == None then Obj([]) else core.value))
  }

  // ----- Fields are found by name -----

  predicate DistinctNames(slots: seq<Slot>) {
    forall i, j | 0 <= i < j < |slots| :: slots[i].name != slots[j].name
  }

  lemma LookupSnoc(fields: seq<Field>, last: Field, name: string)
    ensures Lookup(fields + [last], name) == if last.name == name then Some(last.value) else Lookup(fields, name)
  {
    assert (fields + [last])[..|fields|] == fields;
  }

  lemma {:induction false} NotPresent(slots: seq<Slot>, name: string)
    requires forall i | 0 <= i < |slots| :: slots[i].name != name
    ensures Lookup(Present(slots), name) == None
  {
    if slots != [] {
      var n := |slots| - 1;
      NotPresent(slots[..n], name);
      if slots[n].value.Some? {
        LookupSnoc(Present(slots[..n]), Field(slots[n].name, slots[n].value.value), name);
      } else {
        Seqs.EmptyRight(Present(slots[..n]));
      }
    }
  }

  /** What a struct's field was encoded as is what is found under its name. */
  lemma {:induction false} Found(slots: seq<Slot>, k: nat)
    requires DistinctNames(slots) && k < |slots|
    ensures Lookup(Present(slots), slots[k].name) == slots[k].value
  {
    var n := |slots| - 1;
    var init, last := slots[..n], slots[n];
    if k < n {
      Found(init, k);
    } else {
      NotPresent(init, last.name);
    }
    if last.value.Some? {
      LookupSnoc(Present(init), Field(last.name, last.value.value), slots[k].name);
    } else {
      Seqs.EmptyRight(Present(init));
    }
  }

  lemma {:induction false} PresentConcat(a: seq<Slot>, b: seq<Slot>)
    ensures Present(a + b) == Present(a) + Present(b)
  {
    if b == [] {
      assert a + b == a;
    } else {
      var n := |b| - 1;
      PresentConcat(a, b[..n]);
      assert (a + b)[..|a| + n] == a + b[..n];
    }
  }

  // ----- Struct by struct -----

  lemma NumberReads(n: int)
    ensures NumberOf(Number(n)) == n
  {
    var m := if n < 0 then -n else n;
    ItoaIsDigits(m);
    ValueOfItoa(m);
    if n < 0 {
      assert ("-" + Itoa(m))[1..] == Itoa(m);
    } else {
      assert Itoa(m)[0] in Itoa(m);
    }
  }

  lemma UserReads(u: User)
    ensures ReadUser(UserValue(u)) == u
  {
    var s := UserSlots(u);
    assert |"name"| == 4 && |"uuid"| == 4 && |"password"| == 8 && |"flow"| == 4 && |"method"| == 6 && |"user_key"| == 8;
    assert "name"[0] == 'n' && "uuid"[0] == 'u' && "flow"[0] == 'f' && "password"[0] == 'p' && "user_key"[0] == 'u';
    assert DistinctNames(s);
    Found(s, 0);
    Found(s, 1);
    Found(s, 2);
    Found(s, 3);
    Found(s, 4);
    Found(s, 5);
  }

  lemma HandshakeReads(r: Reality)
    ensures var h := Present(HandshakeSlots(r));
            ReadText(h, "server_name") == r.serverName && Lookup(h, "server_port") == Some(Number(r.serverPort))
  {
    var s := HandshakeSlots(r);
    assert "server_name"[7] == 'n' && "server_port"[7] == 'p';
    Found(s, 0);
    Found(s, 1);
  }

  lemma RealityReads(r: Reality)
    ensures ReadReality(Obj(Present(RealitySlots(r)))) == r
  {
    var s := RealitySlots(r);
    assert |"private_key"| == 11 && |"short_id"| == 8 && |"handshake"| == 9;
    assert DistinctNames(s);
    Found(s, 0);
    Found(s, 1);
    Found(s, 2);
    HandshakeReads(r);
    NumberReads(r.serverPort);
    var ids := ItemsOf(s[1].value.value);
    assert seq(|ids|, i requires 0 <= i < |ids| => TextOf(ids[i])) == r.shortIds;
  }

  lemma TlsReads(t: Tls)
    ensures ReadTls(Obj(Present(TlsSlots(t)))) == t
  {
    var s := TlsSlots(t);
    assert |"server_name"| == 11 && |"certificate"| == 11 && |"key"| == 3 && |"reality"| == 7;
    assert "server_name"[0] == 's' && "certificate"[0] == 'c';
    assert DistinctNames(s);
    Found(s, 0);
    Found(s, 1);
    Found(s, 2);
    Found(s, 3);
    if t.reality.Some? {
      RealityReads(t.reality.value);
    }
  }

  /** Every protocol and transport is written under its own name: the constructor that keeps
      another name keeps another name. */
  predicate Named(inb: Inbound) {
    && (inb.protocol.OtherProtocol? ==>
          inb.protocol.name !in {"vless", "vmess", "trojan", "shadowsocks", "hysteria2", "tuic", "snell", "anytls"})
    && (inb.transport.Some? && inb.transport.value.kind.OtherTransport? ==> inb.transport.value.kind.name !in {"ws", "httpupgrade"})
  }

  lemma TransportReads(t: Transport)
    requires t.kind.OtherTransport? ==> t.kind.name !in {"ws", "httpupgrade"}
    ensures ReadTransport(Obj(Present(TransportSlots(t)))) == t
  {
    var s := TransportSlots(t);
    assert "type"[0] == 't' && "path"[0] == 'p' && "host"[0] == 'h';
    assert DistinctNames(s);
    Found(s, 0);
    Found(s, 1);
    Found(s, 2);
    assert |"ws"| == 2 && |"httpupgrade"| == 11;
  }

  lemma ProtocolReads(inb: Inbound)
    requires Named(inb)
    ensures ReadProtocol(ProtocolName(inb.protocol)) == inb.protocol
  {
    assert |"vless"| == 5 && |"vmess"| == 5 && |"trojan"| == 6 && |"anytls"| == 6 && |"snell"| == 5 && |"tuic"| == 4;
    assert |"shadowsocks"| == 11 && |"hysteria2"| == 9;
    assert "vless"[1] == 'l' && "vmess"[1] == 'm' && "snell"[0] == 's' && "trojan"[0] == 't' && "anytls"[0] == 'a';
  }

  function InboundSlots(inb: Inbound): seq<Slot> {
    SlotsBefore(inb) + [Slot("users", Some(UsersValue(inb.users)))] + SlotsAfter(inb)
  }

  lemma InboundFields(inb: Inbound)
    ensures FieldsOf(InboundValue(inb)) == Present(InboundSlots(inb))
  {
    var users := Slot("users", Some(UsersValue(inb.users)));
    PresentConcat(SlotsBefore(inb) + [users], SlotsAfter(inb));
    PresentConcat(SlotsBefore(inb), [users]);
    assert [users][..0] == [];
    assert Present([users]) == [] + [Field("users", UsersValue(inb.users))];
  }

  const INBOUND_FIELDS := 14

  function InboundName(k: nat): string
    requires k < INBOUND_FIELDS
  {
    match k
    case 0 => "tag"
    case 1 => "protocol"
    case 2 => "listen_port"
    case 3 => "listen_ports"
    case 4 => "users"
    case 5 => "tls"
    case 6 => "transport"
    case 7 => "hysteria2_obfs_password"
    case 8 => "up_mbps"
    case 9 => "down_mbps"
    case 10 => "congestion_control"
    case 11 => "zero_rtt_handshake"
    case 12 => "snell_psk"
    case _ => "snell_v6_mode"
  }

  const NAME_LENGTHS := [3, 8, 11, 12, 5, 3, 9, 23, 7, 9, 18, 18, 9, 13]

  lemma NameLengths(k: nat)
    requires k < INBOUND_FIELDS
    ensures |InboundName(k)| == NAME_LENGTHS[k]
  {
    assert |"tag"| == 3 && |"protocol"| == 8 && |"listen_port"| == 11 && |"listen_ports"| == 12 && |"users"| == 5;
    assert |"tls"| == 3 && |"transport"| == 9 && |"hysteria2_obfs_password"| == 23 && |"up_mbps"| == 7 && |"down_mbps"| == 9;
    assert |"congestion_control"| == 18 && |"zero_rtt_handshake"| == 18 && |"snell_psk"| == 9 && |"snell_v6_mode"| == 13;
  }

  /** Names of one length differ in their second letter. */
  lemma SecondLetters()
    ensures InboundName(0) != InboundName(5) && InboundName(10) != InboundName(11)
    ensures InboundName(6) != InboundName(9) && InboundName(6) != InboundName(12) && InboundName(9) != InboundName(12)
  {
    assert "tag"[1] == 'a' && "tls"[1] == 'l' && "congestion_control"[1] == 'o' && "zero_rtt_handshake"[1] == 'e';
    assert "transport"[1] == 'r' && "down_mbps"[1] == 'o' && "snell_psk"[1] == 'n';
  }

  lemma SameLength(i: nat, j: nat)
    requires i < j < |NAME_LENGTHS| && NAME_LENGTHS[i] == NAME_LENGTHS[j]
    ensures (i, j) in {(0, 5), (10, 11), (6, 9), (6, 12), (9, 12)}
  {
  }

  lemma NamesDiffer(i: nat, j: nat)
    requires i < j < INBOUND_FIELDS
    ensures InboundName(i) != InboundName(j)
  {
    NameLengths(i);
    NameLengths(j);
    SecondLetters();
    if NAME_LENGTHS[i] == NAME_LENGTHS[j] {
      SameLength(i, j);
    }
  }

  lemma NamesBefore(inb: Inbound, k: nat)
    requires k < 4
    ensures |SlotsBefore(inb)| == 4 && SlotsBefore(inb)[k].name == InboundName(k)
  {
  }

  lemma NamesAfter(inb: Inbound, k: nat)
    requires k < 9
    ensures |SlotsAfter(inb)| == 9 && SlotsAfter(inb)[k].name == InboundName(k + 5)
  {
  }

  lemma SlotAt(before: seq<Slot>, middle: Slot, after: seq<Slot>, k: nat)
    requires k < |before| + 1 + |after|
    ensures (before + [middle] + after)[k] ==
            if k < |before| then before[k] else if k == |before| then middle else after[k - |before| - 1]
  {
  }

  lemma SlotNames(inb: Inbound, k: nat)
    requires k < INBOUND_FIELDS
    ensures |InboundSlots(inb)| == INBOUND_FIELDS && InboundSlots(inb)[k].name == InboundName(k)
  {
    NamesBefore(inb, 0);
    NamesAfter(inb, 0);
    SlotAt(SlotsBefore(inb), Slot("users", Some(UsersValue(inb.users))), SlotsAfter(inb), k);
    if k < 4 {
      NamesBefore(inb, k);
    } else if k > 4 {
      NamesAfter(inb, k - 5);
    }
  }

  lemma InboundNames(inb: Inbound)
    ensures DistinctNames(InboundSlots(inb))
  {
    var s := InboundSlots(inb);
    forall i, j | 0 <= i < j < |s|
      ensures s[i].name != s[j].name
    {
      SlotNames(inb, i);
      SlotNames(inb, j);
      NamesDiffer(i, j);
    }
  }

  function SlotOf(inb: Inbound, k: nat): Slot
    requires k < INBOUND_FIELDS
  {
    if k < 4 then SlotsBefore(inb)[k] else if k == 4 then Slot("users", Some(UsersValue(inb.users))) else SlotsAfter(inb)[k - 5]
  }

  /** Where each field of an inbound is found. */
  lemma FieldIs(inb: Inbound, k: nat, s: Slot)
    requires k < INBOUND_FIELDS && s == SlotOf(inb, k)
    ensures Lookup(FieldsOf(InboundValue(inb)), s.name) == s.value
  {
    InboundNames(inb);
    InboundFields(inb);
    SlotNames(inb, 0);
    SlotAt(SlotsBefore(inb), Slot("users", Some(UsersValue(inb.users))), SlotsAfter(inb), k);
    Found(InboundSlots(inb), k);
  }

  lemma PortsRead(inb: Inbound)
    ensures var ports := ReadItems(FieldsOf(InboundValue(inb)), "listen_ports");
            seq(|ports|, i requires 0 <= i < |ports| => PortOf(ports[i])) == inb.listenPorts
  {
    var ports := PortValues(inb.listenPorts);
    FieldIs(inb, 3, Slot("listen_ports", if inb.listenPorts == [] then None else Some(Arr(ports))));
    assert ReadItems(FieldsOf(InboundValue(inb)), "listen_ports") == ports;
    forall i | 0 <= i < |inb.listenPorts|
      ensures PortOf(ports[i]) == inb.listenPorts[i]
    {
      NumberReads(inb.listenPorts[i]);
    }
  }

  lemma UsersRead(inb: Inbound)
    ensures var users := ReadItems(FieldsOf(InboundValue(inb)), "users");
            seq(|users|, i requires 0 <= i < |users| => ReadUser(users[i])) == inb.users
  {
    FieldIs(inb, 4, Slot("users", Some(UsersValue(inb.users))));
    var users := ItemsOf(UsersValue(inb.users));
    assert ReadItems(FieldsOf(InboundValue(inb)), "users") == users;
    forall i | 0 <= i < |inb.users|
      ensures ReadUser(users[i]) == inb.users[i]
    {
      UserReads(inb.users[i]);
    }
  }

  lemma FirstScalarsRead(inb: Inbound)
    ensures var f := FieldsOf(InboundValue(inb));
            && ReadText(f, "tag") == inb.tag && ReadText(f, "protocol") == ProtocolName(inb.protocol)
            && Lookup(f, "listen_port") == Some(Number(inb.listenPort))
  {
    FieldIs(inb, 0, Plain("tag", inb.tag));
    FieldIs(inb, 1, Plain("protocol", ProtocolName(inb.protocol)));
    FieldIs(inb, 2, Slot("listen_port", Some(Number(inb.listenPort))));
  }

  lemma TextReads(inb: Inbound, k: nat, name: string, s: string)
    requires k < INBOUND_FIELDS && OptText(name, s) == SlotOf(inb, k)
    ensures ReadText(FieldsOf(InboundValue(inb)), name) == s
  {
    FieldIs(inb, k, OptText(name, s));
  }

  lemma AmountReads(inb: Inbound, k: nat, name: string, n: int)
    requires k < INBOUND_FIELDS && Amount(name, n) == SlotOf(inb, k)
    ensures ReadNumber(FieldsOf(InboundValue(inb)), name) == n
  {
    FieldIs(inb, k, Amount(name, n));
    NumberReads(n);
  }

  lemma ObfsRead(inb: Inbound)
    ensures ReadText(FieldsOf(InboundValue(inb)), "hysteria2_obfs_password") == inb.obfsPassword
  {
    TextReads(inb, 7, "hysteria2_obfs_password", inb.obfsPassword);
  }

  lemma UpRead(inb: Inbound)
    ensures ReadNumber(FieldsOf(InboundValue(inb)), "up_mbps") == inb.upMbps
  {
    AmountReads(inb, 8, "up_mbps", inb.upMbps);
  }

  lemma DownRead(inb: Inbound)
    ensures ReadNumber(FieldsOf(InboundValue(inb)), "down_mbps") == inb.downMbps
  {
    AmountReads(inb, 9, "down_mbps", inb.downMbps);
  }

  lemma CongestionRead(inb: Inbound)
    ensures ReadText(FieldsOf(InboundValue(inb)), "congestion_control") == inb.congestionControl
  {
    TextReads(inb, 10, "congestion_control", inb.congestionControl);
  }

  lemma ZeroRttRead(inb: Inbound)
    ensures Lookup(FieldsOf(InboundValue(inb)), "zero_rtt_handshake") == Some(Literal("true")) <==> inb.zeroRtt
  {
    FieldIs(inb, 11, Flag("zero_rtt_handshake", inb.zeroRtt));
  }

  lemma PskRead(inb: Inbound)
    ensures ReadText(FieldsOf(InboundValue(inb)), "snell_psk") == inb.snellPsk
  {
    TextReads(inb, 12, "snell_psk", inb.snellPsk);
  }

  lemma ModeRead(inb: Inbound)
    ensures ReadText(FieldsOf(InboundValue(inb)), "snell_v6_mode") == inb.snellMode
  {
    TextReads(inb, 13, "snell_v6_mode", inb.snellMode);
  }

  lemma TlsRead(inb: Inbound)
    ensures var tls := Lookup(FieldsOf(InboundValue(inb)), "tls");
            (if tls == None then None else Some(ReadTls(tls.value))) == inb.tls
  {
    FieldIs(inb, 5, Slot("tls", if inb.tls == None then None else Some(Obj(Present(TlsSlots(inb.tls.value))))));
    if inb.tls.Some? {
      TlsReads(inb.tls.value);
    }
  }

  lemma TransportRead(inb: Inbound)
    requires Named(inb)
    ensures var t := Lookup(FieldsOf(InboundValue(inb)), "transport");
            (if t == None then None else Some(ReadTransport(t.value))) == inb.transport
  {
    var encoded := if inb.transport == None then None else Some(Obj(Present(TransportSlots(inb.transport.value))));
    FieldIs(inb, 6, Slot("transport", encoded));
    if inb.transport.Some? {
      TransportReads(inb.transport.value);
    }
  }

  lemma InboundReads(inb: Inbound)
    requires Named(inb)
    ensures ReadInbound(InboundValue(inb)) == inb
  {
    FirstScalarsRead(inb);
    ObfsRead(inb);
    UpRead(inb);
    DownRead(inb);
    CongestionRead(inb);
    ZeroRttRead(inb);
    PskRead(inb);
    ModeRead(inb);
    PortsRead(inb);
    UsersRead(inb);
    TlsRead(inb);
    TransportRead(inb);
    ProtocolReads(inb);
    NumberReads(inb.listenPort);
  }

  /** The two hand-kept sets of structs agree: of the body the panel renders the node reads
      exactly the version and the inbounds that went into it, and the core config without
      the time stamp, provided it reads the core section as it was written. */
  lemma BodyReadsBack(e: Encoder, version: string, inbounds: seq<Inbound>, core: CoreConfig, readCore: Value -> CoreConfig)
    requires (forall i | 0 <= i < |inbounds| :: Named(inbounds[i])) && readCore(e.core(core)) == core.(updatedAt := None)
    ensures var body := Decode(MakePayload(inbounds, core));
            ReadAnswer(ResponseValue(e, version, inbounds, core), readCore) == Answer(version, body.inbounds, body.core)
  {
    var values := InboundValues(inbounds);
    var fields := [Field("version", Str(version))] + ContentFields(e, values, core);
    assert fields == [Field("version", Str(version)), Field("inbounds", Arr(values))] + [Field("core", e.core(core))];
    assert |"version"| == 7 && |"inbounds"| == 8 && |"core"| == 4;
    LookupThree(Field("version", Str(version)), Field("inbounds", Arr(values)), Field("core", e.core(core)));
    forall i | 0 <= i < |inbounds|
      ensures ReadInbound(values[i]) == inbounds[i]
    {
      InboundReads(inbounds[i]);
    }
    assert seq(|values|, i requires 0 <= i < |values| => ReadInbound(values[i])) == inbounds;
  }

  lemma LookupThree(a: Field, b: Field, c: Field)
    requires a.name != b.name && a.name != c.name && b.name != c.name
    ensures var fields := [a, b] + [c];
            Lookup(fields, a.name) == Some(a.value) && Lookup(fields, b.name) == Some(b.value) && Lookup(fields, c.name) == Some(c.value)
  {
    LookupSnoc([a, b], c, a.name);
    LookupSnoc([a, b], c, b.name);
    LookupSnoc([a, b], c, c.name);
    assert [a] + [b] == [a, b] && [] + [a] == [a];
    LookupSnoc([a], b, a.name);
    LookupSnoc([a], b, b.name);
    LookupSnoc([], a, a.name);
  }
}
