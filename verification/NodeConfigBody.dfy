/** internal/httpapi/nodeconfig.go, rendering half: one node's body, made by splicing
    user lists that were encoded once, and the conditional request it answers. */
module NodeConfigBody {
  import opened Decimal
  import opened Seqs
  import opened Text
  import opened Json
  import opened Options
  import opened Wire
  import Overrides
  import opened NodeProfile
  import opened FleetSnapshot

  /** The parts of the encoder that stay abstract: how one character is escaped, how the
      core config is laid out, and how a digest is written. */
  datatype Encoder = Encoder(escape: Escape, core: CoreConfig -> Value, digest: string -> string)
  {
    /** A digest is written in hex, and hex digits are not escaped. */
    ghost predicate Valid() {
      && (forall c | IsHex(c) :: escape(c) == [c])
      && (forall bytes :: AllHex(digest(bytes)))
    }
  }

  predicate IsHex(c: char) {
    '0' <= c <= '9' || 'a' <= c <= 'f'
  }

  predicate AllHex(s: string) {
    forall c | c in s :: IsHex(c)
  }

  // ----- The wire format -----

  function ProtocolName(p: Protocol): string {
    match p
    case Vless => "vless"
    case Vmess => "vmess"
    case Trojan => "trojan"
    case Shadowsocks => "shadowsocks"
    case Hysteria2 => "hysteria2"
    case Tuic => "tuic"
    case Snell => "snell"
    case AnyTls => "anytls"
    case OtherProtocol(name) => name
  }

  function Number(n: int): Value {
    Literal(if n < 0 then "-" + Itoa(-n) else Itoa(n))
  }

  /** A field of a struct, and what it is encoded as; None is left out, as omitempty does. */
  datatype Slot = Slot(name: string, value: Option<Value>)

  function Present(slots: seq<Slot>): seq<Field> {
    if slots == [] then []
    else
      var n := |slots| - 1;
      Present(slots[..n]) + (if slots[n].value.Some? then [Field(slots[n].name, slots[n].value.value)] else [])
  }

  function Plain(name: string, s: string): Slot {
    Slot(name, Some(Str(s)))
  }

  function OptText(name: string, s: string): Slot {
    Slot(name, if s == "" then None else Some(Str(s)))
  }

  function Amount(name: string, n: int): Slot {
    Slot(name, if n == 0 then None else Some(Number(n)))
  }

  function Flag(name: string, b: bool): Slot {
    Slot(name, if b then Some(Literal("true")) else None)
  }

  function UserSlots(u: User): seq<Slot> {
    [Plain("name", u.name), OptText("uuid", u.uuid), OptText("password", u.password), OptText("flow", u.flow),
     OptText("method", u.cipher), OptText("user_key", u.userKey)]
  }

  function UserValue(u: User): Value {
    Obj(Present(UserSlots(u)))
  }

  function UsersValue(users: seq<User>): Value {
    Arr(seq(|users|, i requires 0 <= i < |users| => UserValue(users[i])))
  }

  function HandshakeSlots(r: Reality): seq<Slot> {
    [Plain("server_name", r.serverName), Slot("server_port", Some(Number(r.serverPort)))]
  }

  function RealitySlots(r: Reality): seq<Slot> {
    [Plain("private_key", r.privateKey),
     Slot("short_id", Some(Arr(seq(|r.shortIds|, i requires 0 <= i < |r.shortIds| => Str(r.shortIds[i]))))),
     Slot("handshake", Some(Obj(Present(HandshakeSlots(r)))))]
  }

  function TlsSlots(t: Tls): seq<Slot> {
    [Plain("server_name", t.serverName), Plain("certificate", t.certificate), Plain("key", t.key),
     Slot("reality", if t.reality == None then None else Some(Obj(Present(RealitySlots(t.reality.value)))))]
  }

  function TransportName(k: TransportKind): string {
    match k
    case WebSocket => "ws"
    case HttpUpgrade => "httpupgrade"
    case OtherTransport(name) => name
  }

  function TransportSlots(t: Transport): seq<Slot> {
    [Plain("type", TransportName(t.kind)), OptText("path", t.path), OptText("host", t.host)]
  }

  function PortValues(ports: seq<Port>): seq<Value> {
    seq(|ports|, i requires 0 <= i < |ports| => Number(ports[i]))
  }

  function SlotsBefore(inb: Inbound): seq<Slot> {
    [Plain("tag", inb.tag), Plain("protocol", ProtocolName(inb.protocol)), Slot("listen_port", Some(Number(inb.listenPort))),
     Slot("listen_ports", if inb.listenPorts == [] then None else Some(Arr(PortValues(inb.listenPorts))))]
  }

  function SlotsAfter(inb: Inbound): seq<Slot> {
    [Slot("tls", if inb.tls == None then None else Some(Obj(Present(TlsSlots(inb.tls.value))))),
     Slot("transport", if inb.transport == None then None else Some(Obj(Present(TransportSlots(inb.transport.value))))),
     OptText("hysteria2_obfs_password", inb.obfsPassword), Amount("up_mbps", inb.upMbps), Amount("down_mbps", inb.downMbps),
     OptText("congestion_control", inb.congestionControl), Flag("zero_rtt_handshake", inb.zeroRtt),
     OptText("snell_psk", inb.snellPsk), OptText("snell_v6_mode", inb.snellMode)]
  }

  function FieldsBefore(inb: Inbound): seq<Field> {
    Present(SlotsBefore(inb))
  }

  function FieldsAfter(inb: Inbound): seq<Field> {
    Present(SlotsAfter(inb))
  }

  /** An inbound around a user list in some encodable form. */
  function InboundAround(inb: Inbound, users: Value): Value {
    Obj(FieldsBefore(inb) + [Field("users", users)] + FieldsAfter(inb))
  }

  function InboundValue(inb: Inbound): Value {
    InboundAround(inb, UsersValue(inb.users))
  }

  function InboundValues(inbounds: seq<Inbound>): seq<Value> {
    seq(|inbounds|, i requires 0 <= i < |inbounds| => InboundValue(inbounds[i]))
  }

  function ContentFields(e: Encoder, inbounds: seq<Value>, core: CoreConfig): seq<Field> {
    [Field("inbounds", Arr(inbounds)), Field("core", e.core(core))]
  }

  /** The response struct, encoded directly. */
  function ResponseValue(e: Encoder, version: string, inbounds: seq<Inbound>, core: CoreConfig): Value {
    Obj([Field("version", Str(version))] + ContentFields(e, InboundValues(inbounds), core))
  }

  /** What the version is the digest of: the same struct without its version. */
  function Canonical(e: Encoder, inbounds: seq<Inbound>, core: CoreConfig): string {
    Marshal(e.escape, Obj(ContentFields(e, InboundValues(inbounds), core)))
  }

  // ----- Encoding each list once -----

  type Encoded = map<UsersKey, string>

  method EncodeLists(e: Encoder, table: map<UsersKey, seq<User>>) returns (encoded: Encoded)
    ensures encoded.Keys == table.Keys
    ensures forall key | key in table :: encoded[key] == Marshal(e.escape, UsersValue(table[key]))
  {
    encoded := map[];
    var pending := table.Keys;
    while pending != {}
      invariant pending <= table.Keys && encoded.Keys == table.Keys - pending
      invariant forall key | key in encoded :: encoded[key] == Marshal(e.escape, UsersValue(table[key]))
      decreases |pending|
    {
      var key :| key in pending;
      encoded := encoded[key := Marshal(e.escape, UsersValue(table[key]))];
      pending := pending - {key};
    }
  }

  datatype Snapshot = Snapshot(specs: seq<Spec>, usersJson: Encoded, core: CoreConfig)

  function UsersBytes(s: Snapshot, key: UsersKey): string {
    if key in s.usersJson then s.usersJson[key] else "[]"
  }

  /** The prepared list of every inbound prints as the inbound's own users do. */
  predicate Faithful(e: Encoder, specs: seq<Spec>, s: Snapshot) {
    forall i | 0 <= i < |specs| ::
      UsersBytes(s, specs[i].usersKey) == Marshal(e.escape, UsersValue(specs[i].inbound.users))
  }

  method LoadSnapshot(e: Encoder, rows: seq<InboundRow>, proxies: seq<ProxyRow>, core: CoreConfig) returns (s: Snapshot)
    ensures s.specs == Specs(rows, proxies) && s.core == core && Faithful(e, s.specs, s)
  {
    var specs, table := Load(rows, proxies);
    var encoded := EncodeLists(e, table);
    s := Snapshot(specs, encoded, core);
    forall i | 0 <= i < |specs|
      ensures UsersBytes(s, specs[i].usersKey) == Marshal(e.escape, UsersValue(specs[i].inbound.users))
    {
      if specs[i].usersKey !in table {
        MarshalArr(e.escape, []);
        assert UsersValue(specs[i].inbound.users) == Arr([]);
        assert Items(e.escape, []) == [];
      }
    }
  }

  // ----- Narrowing, with the list names carried along -----

  function NarrowSpecs(p: Profile, specs: seq<Spec>): seq<Spec> {
    if specs == [] then []
    else
      var n := |specs| - 1;
      var narrowed := FilterOne(p, specs[n].inbound);
      NarrowSpecs(p, specs[..n]) + (if narrowed == [] then [] else [specs[n].(inbound := narrowed[0])])
  }

  lemma InboundsSnoc(specs: seq<Spec>, s: Spec)
    ensures Inbounds(specs + [s]) == Inbounds(specs) + [s.inbound]
  {
  }

  lemma FilterSnoc(p: Profile, fleet: seq<Inbound>, inb: Inbound)
    ensures Filter(p, fleet + [inb]) == Filter(p, fleet) + FilterOne(p, inb)
  {
    assert (fleet + [inb])[..|fleet|] == fleet;
  }

  lemma {:induction false} NarrowSpecsFilters(p: Profile, specs: seq<Spec>)
    ensures Inbounds(NarrowSpecs(p, specs)) == Filter(p, Inbounds(specs))
  {
    if specs != [] {
      var n := |specs| - 1;
      var before, narrowed := NarrowSpecs(p, specs[..n]), FilterOne(p, specs[n].inbound);
      NarrowSpecsFilters(p, specs[..n]);
      Seqs.InitAndLast(specs);
      InboundsSnoc(specs[..n], specs[n]);
      FilterSnoc(p, Inbounds(specs[..n]), specs[n].inbound);
      if narrowed == [] {
        Seqs.EmptyRight(before);
        Seqs.EmptyRight(Inbounds(before));
      } else {
        InboundsSnoc(before, specs[n].(inbound := narrowed[0]));
      }
    }
  }

  lemma {:induction false} NarrowKeepsFaith(e: Encoder, p: Profile, specs: seq<Spec>, s: Snapshot)
    requires Faithful(e, specs, s)
    ensures Faithful(e, NarrowSpecs(p, specs), s)
  {
    if specs != [] {
      NarrowKeepsFaith(e, p, specs[..|specs| - 1], s);
    }
  }

  // ----- The body -----

  lemma MiddleAlike(e: Encoder, before: seq<Field>, after: seq<Field>, a: Value, b: Value)
    requires Marshal(e.escape, a) == Marshal(e.escape, b)
    ensures Marshal(e.escape, Obj(before + [Field("users", a)] + after)) == Marshal(e.escape, Obj(before + [Field("users", b)] + after))
  {
    SameMembers(e.escape, before + [Field("users", a)] + after, before + [Field("users", b)] + after);
  }

  lemma AroundAlike(e: Encoder, inb: Inbound, a: Value, b: Value)
    requires Marshal(e.escape, a) == Marshal(e.escape, b)
    ensures Marshal(e.escape, InboundAround(inb, a)) == Marshal(e.escape, InboundAround(inb, b))
  {
    MiddleAlike(e, FieldsBefore(inb), FieldsAfter(inb), a, b);
  }

  /** An inbound around raw bytes prints as it does around its users. */
  predicate PrintsAs(e: Encoder, wire: Value, inb: Inbound) {
    Marshal(e.escape, wire) == Marshal(e.escape, InboundValue(inb))
  }

  lemma RawAlike(e: Encoder, inb: Inbound, users: string)
    requires users == Marshal(e.escape, UsersValue(inb.users))
    ensures PrintsAs(e, InboundAround(inb, Raw(users)), inb)
  {
    AroundAlike(e, inb, Raw(users), UsersValue(inb.users));
  }

  function WireForm(s: Snapshot, spec: Spec): Value {
    InboundAround(spec.inbound, Raw(UsersBytes(s, spec.usersKey)))
  }

  function WireOf(s: Snapshot, specs: seq<Spec>): (r: seq<Value>)
    ensures |r| == |specs|
  {
    MapSeq((spec: Spec) => WireForm(s, spec), specs)
  }

  /** The wire loop of render: each inbound around its prepared list. */
  method WireForms(s: Snapshot, specs: seq<Spec>) returns (wire: seq<Value>)
    ensures wire == WireOf(s, specs)
  {
    wire := [];
    for i := 0 to |specs|
      invariant wire == WireOf(s, specs[..i])
    {
      MapSnoc((spec: Spec) => WireForm(s, spec), specs, i);
      wire := wire + [WireForm(s, specs[i])];
    }
    assert specs[..|specs|] == specs;
  }

  lemma WirePrints(e: Encoder, s: Snapshot, specs: seq<Spec>)
    requires Faithful(e, specs, s)
    ensures forall k | 0 <= k < |specs| :: PrintsAs(e, WireOf(s, specs)[k], specs[k].inbound)
  {
    forall k | 0 <= k < |specs|
      ensures PrintsAs(e, WireOf(s, specs)[k], specs[k].inbound)
    {
      RawAlike(e, specs[k].inbound, UsersBytes(s, specs[k].usersKey));
    }
  }

  lemma WireIsCanonical(e: Encoder, wire: seq<Value>, inbounds: seq<Inbound>, core: CoreConfig)
    requires |wire| == |inbounds|
    requires forall k | 0 <= k < |wire| :: PrintsAs(e, wire[k], inbounds[k])
    ensures Marshal(e.escape, Obj(ContentFields(e, wire, core))) == Canonical(e, inbounds, core)
  {
    SameItems(e.escape, wire, InboundValues(inbounds));
    SameMembers(e.escape, ContentFields(e, wire, core), ContentFields(e, InboundValues(inbounds), core));
  }

  /** render: the digest of the spliced bytes, and those bytes. */
  method Render(e: Encoder, s: Snapshot, p: Profile) returns (version: string, inbounds: seq<Inbound>, core: CoreConfig, canonical: string)
    requires Faithful(e, s.specs, s)
    ensures inbounds == Filter(p, Inbounds(s.specs)) && core == Overrides.Applied(p.overrides, s.core)
    ensures canonical == Canonical(e, inbounds, core) && version == e.digest(canonical)
  {
    var specs := NarrowSpecs(p, s.specs);
    NarrowSpecsFilters(p, s.specs);
    NarrowKeepsFaith(e, p, s.specs, s);
    inbounds := Inbounds(specs);
    core := Overrides.Applied(p.overrides, s.core);
    var wire := WireForms(s, specs);
    WirePrints(e, s, specs);
    WireIsCanonical(e, wire, inbounds, core);
    canonical := Marshal(e.escape, Obj(ContentFields(e, wire, core)));
    version := e.digest(canonical);
  }

  lemma {:induction false} HexIsNotEscaped(e: Encoder, s: string)
    requires e.Valid() && AllHex(s)
    ensures Escaped(e.escape, s) == s
  {
    if s != "" {
      HexIsNotEscaped(e, s[..|s| - 1]);
    }
  }

  lemma VersionMember(e: Encoder, version: string)
    requires e.Valid() && AllHex(version)
    ensures "{" + Member(e.escape, Field("version", Str(version))) + "," == "{\"version\":\"" + version + "\","
  {
    HexIsNotEscaped(e, version);
  }

  lemma SpliceIsExact(e: Encoder, version: string, inbounds: seq<Inbound>, core: CoreConfig)
    requires e.Valid() && AllHex(version)
    ensures var canonical := Canonical(e, inbounds, core);
            && |canonical| >= 2 && canonical[0] == '{' && canonical[1] == '"'
            && Marshal(e.escape, ResponseValue(e, version, inbounds, core)) == "{\"version\":\"" + version + "\"," + canonical[1..]
  {
    LeadingField(e.escape, Field("version", Str(version)), ContentFields(e, InboundValues(inbounds), core));
    VersionMember(e, version);
  }

  /** nodeConfigBodyBytes: the version, spliced in after the opening brace. The guarded
      fallback is never taken, and would print the same bytes. */
  method BodyBytes(e: Encoder, version: string, inbounds: seq<Inbound>, core: CoreConfig, canonical: string) returns (body: string)
    requires e.Valid() && AllHex(version) && canonical == Canonical(e, inbounds, core)
    ensures body == Marshal(e.escape, ResponseValue(e, version, inbounds, core))
  {
    SpliceIsExact(e, version, inbounds, core);
    if |canonical| < 2 || canonical[0] != '{' || canonical[1] != '"' {
      return Marshal(e.escape, ResponseValue(e, version, inbounds, core));
    }
    body := "{\"version\":\"";
    body := body + version;
    body := body + "\",";
    body := body + canonical[1..];
  }

  /** Byte-identical printing: for all rows and every profile, encoding each user list
      once, splicing it into every inbound that carries it and inserting the version
      yields the bytes of encoding the whole response directly, and the version is the
      digest of those bytes without it. */
  method BuildBody(e: Encoder, rows: seq<InboundRow>, proxies: seq<ProxyRow>, fleetCore: CoreConfig, p: Profile)
    returns (version: string, body: string)
    requires e.Valid()
    ensures var inbounds, core := Filter(p, Fleet(rows, proxies)), Overrides.Applied(p.overrides, fleetCore);
            && version == e.digest(Canonical(e, inbounds, core))
            && body == Marshal(e.escape, ResponseValue(e, version, inbounds, core))
  {
    var s := LoadSnapshot(e, rows, proxies, fleetCore);
    var inbounds, core, canonical;
    version, inbounds, core, canonical := Render(e, s, p);
    body := BodyBytes(e, version, inbounds, core, canonical);
  }

  // ----- If-None-Match -----

  predicate PartMatches(part: string, etag: string) {
    TrimSpace(part) == "*" || TrimPrefix(TrimSpace(part), "W/") == etag
  }

  predicate AnyMatches(parts: seq<string>, etag: string) {
    exists k :: 0 <= k < |parts| && PartMatches(parts[k], etag)
  }

  method EtagMatches(header: string, etag: string) returns (matches: bool)
    ensures matches <==> AnyMatches(Split(header, ','), etag)
  {
    var parts := Split(header, ',');
    for i := 0 to |parts|
      invariant forall k | 0 <= k < i :: !PartMatches(parts[k], etag)
    {
      var part := TrimSpace(parts[i]);
      if part == "*" || TrimPrefix(part, "W/") == etag {
        assert PartMatches(parts[i], etag);
        return true;
      }
    }
    return false;
  }

  /** One member of an If-None-Match list, as section 13.1.2 of RFC 9110 writes it: an
      opaque tag, weak or strong, with blanks around it. A tag may hold anything but
      quotes and blanks, commas included. */
  datatype ListedTag = ListedTag(weak: bool, value: string, before: string, after: string)
  {
    predicate Valid() {
      && (forall c | c in value :: c != '"' && !IsSpace(c))
      && (forall c | c in before + after :: IsSpace(c))
    }
    function Quoted(): string { "\"" + value + "\"" }
    function Written(): string { before + (if weak then "W/" else "") + Quoted() + after }
  }

  function Marked(t: ListedTag): string {
    (if t.weak then "W/" else "") + t.Quoted()
  }

  lemma MarkedEnds(t: ListedTag)
    ensures Marked(t) != "" && !IsSpace(Marked(t)[0]) && !IsSpace(Marked(t)[|Marked(t)| - 1])
    ensures TrimPrefix(Marked(t), "W/") == t.Quoted() && Marked(t) != "*"
  {
    if t.weak {
      assert Marked(t)[0] == 'W';
    } else {
      assert Marked(t) == t.Quoted();
      assert Marked(t)[0] == '"';
    }
    assert Marked(t)[|Marked(t)| - 1] == '"';
  }

  lemma WrittenTrims(t: ListedTag)
    requires t.Valid()
    ensures TrimSpace(t.Written()) == Marked(t)
  {
    assert t.Written() == t.before + (Marked(t) + t.after);
    MarkedEnds(t);
    assert forall c | c in t.before :: c in t.before + t.after;
    assert forall c | c in t.after :: c in t.before + t.after;
    TrimBefore(t.before, Marked(t) + t.after);
    TrimAfter(Marked(t), t.after);
  }

  lemma WrittenHasNoComma(t: ListedTag)
    requires t.Valid() && Free(t.value, ',')
    ensures Free(t.Written(), ',')
  {
    assert forall c | c in t.before :: c in t.before + t.after;
    assert forall c | c in t.after :: c in t.before + t.after;
  }

  /** A listed tag that is not cut at a comma matches exactly when it is the panel's. */
  lemma WrittenMatches(t: ListedTag, value: string)
    requires t.Valid()
    ensures PartMatches(t.Written(), "\"" + value + "\"") <==> t.value == value
  {
    WrittenTrims(t);
    MarkedEnds(t);
    assert t.Quoted()[1..|t.value| + 1] == t.value;
    assert ("\"" + value + "\"")[1..|value| + 1] == value;
  }

  // ----- What commas inside a tag do -----

  /** A tag with ",*," in it, which the panel reads as a "*" of its own. */
  predicate Starred(value: string) {
    exists i: nat | i < |value| :: StarAt(value, i)
  }

  predicate StarAt(value: string, i: nat) {
    i <= |value| - 3 && value[i..i + 3] == ",*,"
  }

  lemma StarredHasComma(value: string)
    requires Starred(value)
    ensures !Free(value, ',')
  {
    var i: nat :| i < |value| && StarAt(value, i);
    assert value[i] == value[i..i + 3][0];
  }

  predicate StarBetween(parts: seq<string>) {
    exists k :: 0 < k < |parts| - 1 && parts[k] == "*"
  }

  lemma StarParts(a: string, b: string)
    ensures StarBetween(Split(a + [','] + ("*" + [','] + b), ','))
  {
    SplitConcat(a, "*" + [','] + b, ',');
    SplitConcat("*", b, ',');
    SplitSnoc("", '*', ',');
    assert "" + ['*'] == "*" && [""][..0] + ["*"] == ["*"];
    var parts := Split(a, ',') + (["*"] + Split(b, ','));
    assert Split(a + [','] + ("*" + [','] + b), ',') == parts && parts[|Split(a, ',')|] == "*";
  }

  lemma StarSplits(value: string, i: nat)
    requires StarAt(value, i)
    ensures StarBetween(Split(value, ','))
  {
    var a, b := value[..i], value[i + 3..];
    assert value == value[..i] + value[i..i + 3] + value[i + 3..];
    assert a + ",*," + b == a + [','] + ("*" + [','] + b);
    StarParts(a, b);
  }

  lemma StarInside(x: string, y: string)
    ensures StarAt(x + [','] + ("*" + [','] + y), |x|)
  {
    var s := x + [','] + ("*" + [','] + y);
    assert s[|x|] == ',' && s[|x| + 1] == '*' && s[|x| + 2] == ',';
  }

  lemma StarJoins(parts: seq<string>, k: nat)
    requires 0 < k < |parts| - 1 && parts[k] == "*"
    ensures Starred(Join(parts, ','))
  {
    var a, b := parts[..k], parts[k + 1..];
    assert parts == a + (["*"] + b);
    JoinConcat(a, ["*"] + b, ',');
    JoinConcat(["*"], b, ',');
    StarInside(Join(a, ','), Join(b, ','));
  }

  lemma StarredExactly(value: string)
    ensures Starred(value) <==> StarBetween(Split(value, ','))
  {
    JoinSplit(value, ',');
    if i: nat :| StarAt(value, i) {
      StarSplits(value, i);
    }
    if k :| 0 < k < |Split(value, ',')| - 1 && Split(value, ',')[k] == "*" {
      StarJoins(Split(value, ','), k);
    }
  }

  /** A piece without quotes or blanks matches only as a star. */
  lemma InnerMatches(piece: string, value: string)
    requires forall c | c in piece :: c != '"' && !IsSpace(c)
    ensures PartMatches(piece, "\"" + value + "\"") <==> piece == "*"
  {
    assert TrimLeft(piece) == piece && TrimRight(piece) == piece;
    var bare, whole := TrimPrefix(piece, "W/"), "\"" + value + "\"";
    assert forall c | c in bare :: c in piece;
    assert whole[0] == '"' && whole[0] in whole;
  }

  function Opening(t: ListedTag): string {
    t.before + (if t.weak then "W/" else "") + "\""
  }

  function Closing(t: ListedTag): string {
    "\"" + t.after
  }

  /** The piece that opens a tag cut at a comma matches nothing, */
  lemma OpeningFails(t: ListedTag, piece: string, value: string)
    requires t.Valid() && forall c | c in piece :: c != '"' && !IsSpace(c)
    ensures !PartMatches(Opening(t) + piece, "\"" + value + "\"")
  {
    var mark := (if t.weak then "W/" else "") + "\"" + piece;
    assert Opening(t) + piece == t.before + mark;
    assert forall c | c in t.before :: c in t.before + t.after;
    assert mark[0] == (if t.weak then 'W' else '"');
    TrimBefore(t.before, mark);
    assert piece != "" ==> mark[|mark| - 1] == piece[|piece| - 1] && piece[|piece| - 1] in piece;
    assert TrimRight(mark) == mark;
    assert TrimPrefix(mark, "W/") == "\"" + piece;
    var whole := "\"" + value + "\"";
    assert whole[|value| + 1] == '"';
    assert piece != "" ==> ("\"" + piece)[|piece|] == piece[|piece| - 1];
  }

  /** nor does the one that closes it. */
  lemma ClosingFails(t: ListedTag, piece: string, value: string)
    requires t.Valid() && forall c | c in piece :: c != '"' && !IsSpace(c)
    ensures !PartMatches(piece + Closing(t), "\"" + value + "\"")
  {
    var mark := piece + "\"";
    assert piece + Closing(t) == mark + t.after;
    assert forall c | c in t.after :: c in t.before + t.after;
    assert mark[0] == (if piece == "" then '"' else piece[0]);
    assert piece != "" ==> piece[0] in piece;
    assert TrimLeft(mark + t.after) == mark + t.after by {
      assert (mark + t.after)[0] == mark[0];
    }
    TrimAfter(mark, t.after);
    assert mark[|mark| - 1] == '"' && mark != "*";
    var bare, whole := TrimPrefix(mark, "W/"), "\"" + value + "\"";
    assert whole[0] == '"';
    if |bare| > 1 {
      var at := |mark| - |bare|;
      assert mark[at] == bare[0] && mark[at] == piece[at] && piece[at] in piece;
    }
  }

  lemma MatchesConcat(a: seq<string>, b: seq<string>, etag: string)
    ensures AnyMatches(a + b, etag) <==> AnyMatches(a, etag) || AnyMatches(b, etag)
  {
    if k :| 0 <= k < |a| && PartMatches(a[k], etag) {
      assert (a + b)[k] == a[k];
    }
    if k :| 0 <= k < |b| && PartMatches(b[k], etag) {
      assert (a + b)[|a| + k] == b[k];
    }
  }

  lemma OnePieceIsFree(value: string)
    requires |Split(value, ',')| == 1
    ensures Free(value, ',')
  {
    PartsAreFree(value, ',');
    JoinSplit(value, ',');
  }

  lemma EndsAreFree(t: ListedTag)
    requires t.Valid()
    ensures Free(Opening(t), ',') && Free(Closing(t), ',')
  {
    assert forall c | c in t.before :: c in t.before + t.after;
    assert forall c | c in t.after :: c in t.before + t.after;
  }

  lemma CutPieces(front: string, value: string, back: string)
    requires Free(front, ',') && Free(back, ',') && |Split(value, ',')| > 1
    ensures var parts := Split(value, ',');
            Split((front + value) + back, ',') == [front + parts[0]] + parts[1..|parts| - 1] + [parts[|parts| - 1] + back]
  {
    var parts := Split(value, ',');
    SplitPrepend(front, value, ',');
    SplitAppend(front + value, back, ',');
    var before := [front + parts[0]] + parts[1..];
    assert before[|before| - 1] == parts[|parts| - 1];
    assert before[..|before| - 1] == [front + parts[0]] + parts[1..|parts| - 1];
  }

  /** The pieces a tag with commas is read as. */
  lemma WrittenPieces(t: ListedTag)
    requires t.Valid() && !Free(t.value, ',')
    ensures var parts := Split(t.value, ',');
            && |parts| > 1
            && Split(t.Written(), ',') == [Opening(t) + parts[0]] + parts[1..|parts| - 1] + [parts[|parts| - 1] + Closing(t)]
  {
    if |Split(t.value, ',')| == 1 {
      OnePieceIsFree(t.value);
    }
    EndsAreFree(t);
    CutPieces(Opening(t), t.value, Closing(t));
    assert t.Written() == (Opening(t) + t.value) + Closing(t);
  }

  /** A tag with commas matches exactly when it is starred, whatever the panel's tag is. */
  lemma CutTagMatches(t: ListedTag, value: string)
    requires t.Valid() && !Free(t.value, ',')
    ensures AnyMatches(Split(t.Written(), ','), "\"" + value + "\"") <==> Starred(t.value)
  {
    var parts, etag := Split(t.value, ','), "\"" + value + "\"";
    WrittenPieces(t);
    PartsAreFree(t.value, ',');
    StarredExactly(t.value);
    var read := Split(t.Written(), ',');
    OpeningFails(t, parts[0], value);
    ClosingFails(t, parts[|parts| - 1], value);
    forall k | 0 < k < |parts| - 1
      ensures read[k] == parts[k] && (PartMatches(read[k], etag) <==> parts[k] == "*")
    {
      InnerMatches(parts[k], value);
    }
    if k :| 0 <= k < |read| && PartMatches(read[k], etag) {
      assert 0 < k < |parts| - 1;
    }
  }

  /** What one listed tag is worth, commas or not. */
  lemma ListedMatches(t: ListedTag, value: string)
    requires t.Valid() && Free(value, ',')
    ensures AnyMatches(Split(t.Written(), ','), "\"" + value + "\"") <==> t.value == value || Starred(t.value)
  {
    if Free(t.value, ',') {
      WrittenHasNoComma(t);
      SplitJoin([t.Written()], ',');
      assert Join([t.Written()], ',') == t.Written();
      WrittenMatches(t, value);
      if Starred(t.value) {
        StarredHasComma(t.value);
      }
      var parts := [t.Written()];
      assert parts[0] == t.Written();
    } else {
      CutTagMatches(t, value);
    }
  }

  function WrittenList(tags: seq<ListedTag>): seq<string> {
    seq(|tags|, i requires 0 <= i < |tags| => tags[i].Written())
  }

  /** The panel's tag is listed, or a listed tag is starred. */
  predicate Lists(tags: seq<ListedTag>, value: string) {
    exists k :: 0 <= k < |tags| && (tags[k].value == value || Starred(tags[k].value))
  }

  lemma ListsSnoc(tags: seq<ListedTag>, value: string)
    requires tags != []
    ensures var n := |tags| - 1;
            Lists(tags, value) <==> Lists(tags[..n], value) || tags[n].value == value || Starred(tags[n].value)
  {
    var n := |tags| - 1;
    if k :| 0 <= k < n && (tags[..n][k].value == value || Starred(tags[..n][k].value)) {
      assert tags[k] == tags[..n][k];
    }
    if k :| 0 <= k < |tags| && (tags[k].value == value || Starred(tags[k].value)) {
      assert k < n ==> tags[..n][k] == tags[k];
    }
  }

  /** How the header's last tag is split off. */
  lemma SplitList(tags: seq<ListedTag>)
    requires |tags| > 1
    ensures var n := |tags| - 1;
            Split(Join(WrittenList(tags), ','), ',') ==
            Split(Join(WrittenList(tags[..n]), ','), ',') + Split(tags[n].Written(), ',')
  {
    var n := |tags| - 1;
    assert WrittenList(tags)[..n] == WrittenList(tags[..n]);
    SplitConcat(Join(WrittenList(tags[..n]), ','), tags[n].Written(), ',');
  }

  /** The exact law of If-None-Match lists: for every list of entity tags, weak or strong,
      the panel answers 304 if and only if its own tag is on the list, which is the weak
      comparison the condition asks for, or some listed tag has ",*," in it. A version is
      a digest and holds no comma. */
  lemma {:induction false} ListMatchExactly(tags: seq<ListedTag>, value: string)
    requires tags != [] && (forall k | 0 <= k < |tags| :: tags[k].Valid()) && Free(value, ',')
    ensures AnyMatches(Split(Join(WrittenList(tags), ','), ','), "\"" + value + "\"") <==> Lists(tags, value)
  {
    var n := |tags| - 1;
    ListedMatches(tags[n], value);
    ListsSnoc(tags, value);
    if n == 0 {
      assert Join(WrittenList(tags), ',') == tags[n].Written();
    } else {
      ListMatchExactly(tags[..n], value);
      SplitList(tags);
      MatchesConcat(Split(Join(WrittenList(tags[..n]), ','), ','), Split(tags[n].Written(), ','), "\"" + value + "\"");
    }
  }

  /** One legal tag that is answered 304 for every version of the payload. */
  lemma CommaStarMatchesAll(version: string)
    requires AllHex(version)
    ensures ListedTag(false, "a,*,b", "", "").Valid() && "a,*,b" != version
    ensures AnyMatches(Split("\"a,*,b\"", ','), "\"" + version + "\"")
  {
    var t := ListedTag(false, "a,*,b", "", "");
    assert t.Written() == "\"a,*,b\"";
    assert StarAt(t.value, 1);
    assert t.value[1] == ',';
    CutTagMatches(t, version);
  }

  /** A node sends back the one tag it was given, so it gets a 304 exactly when that
      version is still the current one. */
  lemma OwnTagMatches(sent: string, current: string)
    requires AllHex(sent) && AllHex(current)
    ensures AnyMatches(Split("\"" + sent + "\"", ','), "\"" + current + "\"") <==> sent == current
  {
    var tag := ListedTag(false, sent, "", "");
    assert tag.Written() == "\"" + sent + "\"";
    ListedMatches(tag, current);
    if Starred(sent) {
      StarredHasComma(sent);
    }
  }
}
