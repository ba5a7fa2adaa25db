/** cmd/node/main.go: what changed between two pulled configs, and replacing user lists
    on the running listeners instead of restarting the core. */
module HotApply {
  import opened Options
  import opened Wire
  import opened Listeners
  import opened CoreOptions
  import Seqs

  /** The parts of a running core this program knows: its listeners and what it was
      built from otherwise. */
  datatype Running = Running(listeners: seq<Listener>, core: Core)

  datatype UserUpdate = UserUpdate(tag: string, protocol: Protocol)

  predicate CanBuild(ciphers: set<string>, c: Payload) {
    Buildable(ciphers, c.inbounds) && Compilable(c.core)
  }

  function Build(ciphers: set<string>, c: Payload): Running
    requires CanBuild(ciphers, c)
  {
    Running(ListenersOf(c.inbounds), CompileCore(c.core, PortsByTag(c.inbounds)))
  }

  /** buildOptionsPlan: the whole translation of a config, or the first error. */
  method BuildOptionsPlan(ciphers: set<string>, c: Payload) returns (r: Result<(Running, Plan)>)
    ensures r.Ok? <==> CanBuild(ciphers, c)
    ensures r.Ok? ==> r.value == (Build(ciphers, c), PlanOf(c.inbounds))
  {
    var inbounds := BuildInbounds(ciphers, c.inbounds);
    if inbounds.Err? {
      return Err(inbounds.error);
    }
    var core := BuildCoreOptions(Some(c.core), inbounds.value.2);
    if core.Err? {
      return Err(core.error);
    }
    return Ok((Running(inbounds.value.0, core.value), inbounds.value.1));
  }

  // ----- diffPulledConfig -----

  function Shape(inb: Inbound): Inbound {
    inb.(users := [])
  }

  /** A user list that changed without needing a restart. */
  predicate HotChange(a: Inbound, b: Inbound) {
    a.users != b.users ==> Known(b.protocol) && (b.protocol == Shadowsocks ==> CipherOf(a.users) == CipherOf(b.users))
  }

  predicate SameFrame(a: Inbound, b: Inbound) {
    Shape(a) == Shape(b) && HotChange(a, b)
  }

  function ByTag(inbounds: seq<Inbound>): map<string, Inbound> {
    if inbounds == [] then map[]
    else
      var n := |inbounds| - 1;
      ByTag(inbounds[..n])[inbounds[n].tag := inbounds[n]]
  }

  /** An inbound of the new config that a hot update can bring about. */
  predicate Updatable(before: map<string, Inbound>, inb: Inbound) {
    inb.tag in before && SameFrame(before[inb.tag], inb)
  }

  predicate NeedsRestart(prev: Option<Payload>, next: Payload) {
    || prev == None
    || prev.value.core != next.core
    || |ByTag(prev.value.inbounds)| != |next.inbounds|
    || exists k :: 0 <= k < |next.inbounds| && !Updatable(ByTag(prev.value.inbounds), next.inbounds[k])
  }

  predicate UsersChanged(before: map<string, Inbound>, inb: Inbound) {
    inb.tag in before && before[inb.tag].users != inb.users
  }

  function HotList(before: map<string, Inbound>, inbounds: seq<Inbound>): seq<UserUpdate> {
    if inbounds == [] then []
    else
      var n := |inbounds| - 1;
      HotList(before, inbounds[..n]) +
      (if UsersChanged(before, inbounds[n]) then [UserUpdate(inbounds[n].tag, inbounds[n].protocol)] else [])
  }

  method IndexInbounds(inbounds: seq<Inbound>) returns (byTag: map<string, Inbound>)
    ensures byTag == ByTag(inbounds)
  {
    byTag := map[];
    for i := 0 to |inbounds|
      invariant byTag == ByTag(inbounds[..i])
    {
      assert inbounds[..i + 1][..i] == inbounds[..i];
      byTag := byTag[inbounds[i].tag := inbounds[i]];
    }
    assert inbounds[..|inbounds|] == inbounds;
  }

  method DiffPulledConfig(prev: Option<Payload>, next: Payload) returns (restart: bool, hot: seq<UserUpdate>)
    ensures restart <==> NeedsRestart(prev, next)
    ensures !restart ==> hot == HotList(ByTag(prev.value.inbounds), next.inbounds)
  {
    hot := [];
    if prev == None || prev.value.core != next.core {
      return true, [];
    }
    var before := IndexInbounds(prev.value.inbounds);
    if |before| != |next.inbounds| {
      return true, [];
    }
    for i := 0 to |next.inbounds|
      invariant forall k | 0 <= k < i :: Updatable(before, next.inbounds[k])
      invariant hot == HotList(before, next.inbounds[..i])
    {
      var inb := next.inbounds[i];
      assert next.inbounds[..i + 1][..i] == next.inbounds[..i];
      if inb.tag !in before {
        return true, [];
      }
      var prior := before[inb.tag];
      if Shape(prior) != Shape(inb) {
        return true, [];
      }
      if prior.users != inb.users {
        if !Known(inb.protocol) {
          return true, [];
        }
        if inb.protocol == Shadowsocks && CipherOf(prior.users) != CipherOf(inb.users) {
          return true, [];
        }
        hot := hot + [UserUpdate(inb.tag, inb.protocol)];
      }
    }
    assert next.inbounds[..|next.inbounds|] == next.inbounds;
    return false, hot;
  }

  // ----- What the diff decides -----

  lemma TagsSnoc(inbounds: seq<Inbound>)
    requires inbounds != []
    ensures Tags(inbounds) == Tags(inbounds[..|inbounds| - 1]) + {inbounds[|inbounds| - 1].tag}
    ensures DistinctTags(inbounds) ==> inbounds[|inbounds| - 1].tag !in Tags(inbounds[..|inbounds| - 1])
  {
  }

  lemma {:induction false} ByTagKeys(inbounds: seq<Inbound>)
    ensures ByTag(inbounds).Keys == Tags(inbounds)
  {
    if inbounds != [] {
      ByTagKeys(inbounds[..|inbounds| - 1]);
      TagsSnoc(inbounds);
    }
  }

  lemma {:induction false} TagCount(inbounds: seq<Inbound>)
    requires DistinctTags(inbounds)
    ensures |Tags(inbounds)| == |inbounds|
  {
    if inbounds != [] {
      TagCount(inbounds[..|inbounds| - 1]);
      TagsSnoc(inbounds);
    }
  }

  lemma {:induction false} ByTagAt(inbounds: seq<Inbound>, i: nat)
    requires DistinctTags(inbounds) && i < |inbounds|
    ensures inbounds[i].tag in ByTag(inbounds) && ByTag(inbounds)[inbounds[i].tag] == inbounds[i]
  {
    var n := |inbounds| - 1;
    if i < n {
      ByTagAt(inbounds[..n], i);
      assert inbounds[i].tag != inbounds[n].tag;
    }
  }

  lemma ByTagLookup(inbounds: seq<Inbound>)
    requires DistinctTags(inbounds)
    ensures ByTag(inbounds).Keys == Tags(inbounds)
    ensures forall i | 0 <= i < |inbounds| :: ByTag(inbounds)[inbounds[i].tag] == inbounds[i]
    ensures |ByTag(inbounds)| == |inbounds|
  {
    ByTagKeys(inbounds);
    TagCount(inbounds);
    assert |ByTag(inbounds)| == |ByTag(inbounds).Keys|;
    forall i | 0 <= i < |inbounds|
      ensures inbounds[i].tag in ByTag(inbounds) && ByTag(inbounds)[inbounds[i].tag] == inbounds[i]
    {
      ByTagAt(inbounds, i);
    }
  }

  lemma SubsetOfSameSize<T>(a: set<T>, b: set<T>)
    requires a <= b && |a| == |b|
    ensures a == b
  {
    assert b == a + (b - a);
    assert |b| == |a| + |b - a|;
  }

  /** Two configs that differ in hot-updatable user lists alone: the same core and, tag
      by tag, the same inbounds otherwise. */
  predicate Compatible(a: Payload, b: Payload) {
    && a.core == b.core
    && Tags(a.inbounds) == Tags(b.inbounds)
    && forall i, j | 0 <= i < |a.inbounds| && 0 <= j < |b.inbounds| && a.inbounds[i].tag == b.inbounds[j].tag ::
         SameFrame(a.inbounds[i], b.inbounds[j])
  }

  /** The diff asks for a restart exactly when the configs are not compatible. */
  lemma RestartExact(prev: Payload, next: Payload)
    requires DistinctTags(prev.inbounds) && DistinctTags(next.inbounds)
    ensures NeedsRestart(Some(prev), next) <==> !Compatible(prev, next)
  {
    ByTagLookup(prev.inbounds);
    TagCount(prev.inbounds);
    TagCount(next.inbounds);
    var before := ByTag(prev.inbounds);
    if !NeedsRestart(Some(prev), next) {
      assert forall k | 0 <= k < |next.inbounds| :: Updatable(before, next.inbounds[k]);
      assert Tags(next.inbounds) <= Tags(prev.inbounds);
      SubsetOfSameSize(Tags(next.inbounds), Tags(prev.inbounds));
    }
    if Compatible(prev, next) {
      forall k | 0 <= k < |next.inbounds|
        ensures Updatable(before, next.inbounds[k])
      {
        assert next.inbounds[k].tag in Tags(prev.inbounds);
        var i :| 0 <= i < |prev.inbounds| && prev.inbounds[i].tag == next.inbounds[k].tag;
      }
    }
  }

  /** Two user lists one cipher can serve. */
  ghost predicate ShareCipher(a: seq<User>, b: seq<User>) {
    exists cipher :: SettlesOn(a, cipher) && SettlesOn(b, cipher)
  }

  /** The second inbound is the first with other users at most, whose accounts the running
      listener can be given: its protocol takes user lists, and a shadowsocks listener keeps
      its cipher. */
  ghost predicate UsersAlone(a: Inbound, b: Inbound) {
    && b == a.(users := b.users)
    && (a.users != b.users ==>
          && b.protocol in {Vless, Vmess, Trojan, Shadowsocks, Hysteria2, Tuic, Snell, AnyTls}
          && (b.protocol == Shadowsocks ==> ShareCipher(a.users, b.users)))
  }

  lemma SharedCipher(a: seq<User>, b: seq<User>)
    ensures ShareCipher(a, b) <==> CipherOf(a) == CipherOf(b)
  {
    CipherIsSettled(a);
    CipherIsSettled(b);
    if cipher :| SettlesOn(a, cipher) && SettlesOn(b, cipher) {
      SettledOnce(a, cipher, CipherOf(a));
      SettledOnce(b, cipher, CipherOf(b));
    }
  }

  lemma FrameIsUsersAlone(a: Inbound, b: Inbound)
    ensures SameFrame(a, b) <==> UsersAlone(a, b)
  {
    SharedCipher(a.users, b.users);
    ServedAreKnown(b.protocol);
    assert Shape(b) == Shape(a.(users := b.users)) <==> Shape(b) == Shape(a);
    assert Shape(a) == Shape(b) ==> Shape(a).(users := b.users) == Shape(b).(users := b.users) == b;
  }

  /** When the core survives a new config: exactly when the core config is the same, the
      inbounds have the same tags, and an inbound and its namesake differ in nothing, or in
      user lists the running listener can be given. */
  lemma RestartAvoidedExactly(prev: Payload, next: Payload)
    requires DistinctTags(prev.inbounds) && DistinctTags(next.inbounds)
    ensures !NeedsRestart(Some(prev), next) <==>
            && prev.core == next.core
            && (set i | 0 <= i < |prev.inbounds| :: prev.inbounds[i].tag) == (set j | 0 <= j < |next.inbounds| :: next.inbounds[j].tag)
            && forall i, j | 0 <= i < |prev.inbounds| && 0 <= j < |next.inbounds| && prev.inbounds[i].tag == next.inbounds[j].tag ::
                 UsersAlone(prev.inbounds[i], next.inbounds[j])
  {
    RestartExact(prev, next);
    forall i, j | 0 <= i < |prev.inbounds| && 0 <= j < |next.inbounds|
      ensures SameFrame(prev.inbounds[i], next.inbounds[j]) <==> UsersAlone(prev.inbounds[i], next.inbounds[j])
    {
      FrameIsUsersAlone(prev.inbounds[i], next.inbounds[j]);
    }
  }

  /** The hot list is exactly the inbounds whose users changed. */
  lemma {:induction false} HotListExact(before: map<string, Inbound>, inbounds: seq<Inbound>, u: UserUpdate)
    ensures u in HotList(before, inbounds) <==>
            exists j :: 0 <= j < |inbounds| && UsersChanged(before, inbounds[j])
                        && u == UserUpdate(inbounds[j].tag, inbounds[j].protocol)
  {
    if inbounds != [] {
      var n := |inbounds| - 1;
      HotListExact(before, inbounds[..n], u);
    }
  }

  lemma CompatibleSymmetric(a: Payload, b: Payload)
    requires Compatible(a, b)
    ensures Compatible(b, a)
  {
  }

  lemma CompatibleTransitive(a: Payload, b: Payload, c: Payload)
    requires Compatible(a, b) && Compatible(b, c)
    ensures Compatible(a, c)
  {
    forall i, k | 0 <= i < |a.inbounds| && 0 <= k < |c.inbounds| && a.inbounds[i].tag == c.inbounds[k].tag
      ensures SameFrame(a.inbounds[i], c.inbounds[k])
    {
      assert a.inbounds[i].tag in Tags(b.inbounds);
      var j :| 0 <= j < |b.inbounds| && b.inbounds[j].tag == a.inbounds[i].tag;
      assert SameFrame(a.inbounds[i], b.inbounds[j]) && SameFrame(b.inbounds[j], c.inbounds[k]);
    }
  }

  /** The position of the inbound with a compatible config's tag. */
  lemma Counterpart(a: Payload, b: Payload, i: nat) returns (j: nat)
    requires Compatible(a, b) && i < |a.inbounds|
    ensures j < |b.inbounds| && a.inbounds[i].tag == b.inbounds[j].tag && SameFrame(a.inbounds[i], b.inbounds[j])
  {
    assert a.inbounds[i].tag in Tags(b.inbounds);
    j :| 0 <= j < |b.inbounds| && b.inbounds[j].tag == a.inbounds[i].tag;
  }

  lemma CompatibleBuilds(ciphers: set<string>, a: Payload, b: Payload)
    requires Compatible(a, b) && CanBuild(ciphers, a)
    ensures CanBuild(ciphers, b)
  {
    forall j | 0 <= j < |b.inbounds|
      ensures InboundError(ciphers, b.inbounds[j]) == None
    {
      var i := Counterpart(b, a, j);
      assert InboundError(ciphers, a.inbounds[i]) == None;
    }
  }

  lemma SameFrameSamePorts(a: Inbound, b: Inbound)
    requires SameFrame(a, b)
    ensures Ports(a) == Ports(b)
  {
    assert Shape(a).listenPorts == Shape(b).listenPorts && Shape(a).listenPort == Shape(b).listenPort;
  }

  lemma CompatiblePortsAt(a: Payload, b: Payload, i: nat)
    requires Compatible(a, b) && DistinctTags(a.inbounds) && DistinctTags(b.inbounds) && i < |a.inbounds|
    requires PortsByTag(a.inbounds).Keys == Tags(a.inbounds) && PortsByTag(b.inbounds).Keys == Tags(b.inbounds)
    ensures a.inbounds[i].tag in Tags(b.inbounds)
    ensures PortsByTag(a.inbounds)[a.inbounds[i].tag] == PortsByTag(b.inbounds)[a.inbounds[i].tag]
  {
    var j := Counterpart(a, b, i);
    SameFrameSamePorts(a.inbounds[i], b.inbounds[j]);
    PortsByTagLookup(a.inbounds);
    PortsByTagLookup(b.inbounds);
  }

  lemma CompatiblePorts(a: Payload, b: Payload)
    requires Compatible(a, b) && DistinctTags(a.inbounds) && DistinctTags(b.inbounds)
    ensures PortsByTag(a.inbounds) == PortsByTag(b.inbounds)
  {
    PortsByTagLookup(a.inbounds);
    PortsByTagLookup(b.inbounds);
    forall t | t in Tags(a.inbounds)
      ensures PortsByTag(a.inbounds)[t] == PortsByTag(b.inbounds)[t]
    {
      var i :| 0 <= i < |a.inbounds| && a.inbounds[i].tag == t;
      CompatiblePortsAt(a, b, i);
    }
  }

  lemma CompatibleCores(a: Payload, b: Payload)
    requires Compatible(a, b) && Compilable(a.core) && DistinctTags(a.inbounds) && DistinctTags(b.inbounds)
    ensures CompileCore(a.core, PortsByTag(a.inbounds)) == CompileCore(b.core, PortsByTag(b.inbounds))
  {
    CompatiblePorts(a, b);
  }

  // ----- Replacing users on running listeners -----

  /** nodeUsers: the protocol-neutral users the core is handed carry no cipher. */
  function NodeUsers(users: seq<User>): (r: seq<User>)
    ensures |r| == |users|
  {
    seq(|users|, i requires 0 <= i < |users| => users[i].(cipher := ""))
  }

  lemma CipherIsNotProjected(p: Protocol, users: seq<User>)
    ensures Accounts(p, NodeUsers(users)) == Accounts(p, users)
  {
  }

  /** The core takes an update for a running listener of the right protocol, unless it
      has reasons of its own to refuse; a refused update changes nothing. */
  predicate Takes(l: Listener, tag: string, protocol: Protocol, accepts: string -> bool) {
    l.tag == tag && l.protocol == protocol && accepts(tag)
  }

  function Touch(l: Listener, tag: string, protocol: Protocol, users: seq<User>, accepts: string -> bool): Listener {
    if Takes(l, tag, protocol, accepts) then l.(users := Accounts(protocol, users)) else l
  }

  function UpdateUsers(ls: seq<Listener>, tag: string, protocol: Protocol, users: seq<User>, accepts: string -> bool): (r: seq<Listener>)
    ensures |r| == |ls|
  {
    seq(|ls|, i requires 0 <= i < |ls| => Touch(ls[i], tag, protocol, users, accepts))
  }

  predicate Updates(ls: seq<Listener>, tag: string, protocol: Protocol, accepts: string -> bool) {
    exists i :: 0 <= i < |ls| && Takes(ls[i], tag, protocol, accepts)
  }

  /** One inbound's update as one listener sees it. */
  function TouchAll(l: Listener, tags: seq<string>, protocol: Protocol, users: seq<User>, accepts: string -> bool): Listener {
    if tags == [] then l
    else Touch(TouchAll(l, tags[..|tags| - 1], protocol, users, accepts), tags[|tags| - 1], protocol, users, accepts)
  }

  /** The whole hot list as one listener sees it. byTag holds the new config's inbounds. */
  function HotListener(l: Listener, plan: Plan, byTag: map<string, Inbound>, hot: seq<UserUpdate>, accepts: string -> bool): Listener
    requires forall k | 0 <= k < |hot| :: hot[k].tag in byTag
  {
    if hot == [] then l
    else
      var n := |hot| - 1;
      TouchAll(HotListener(l, plan, byTag, hot[..n], accepts), plan.ListenerTags(hot[n].tag), hot[n].protocol,
               NodeUsers(byTag[hot[n].tag].users), accepts)
  }

  /** Every update of the list found a running listener that took it. */
  predicate AllUpdate(ls: seq<Listener>, plan: Plan, hot: seq<UserUpdate>, accepts: string -> bool) {
    forall k, t | 0 <= k < |hot| && t in plan.ListenerTags(hot[k].tag) :: Updates(ls, t, hot[k].protocol, accepts)
  }

  predicate SameSlots(a: seq<Listener>, b: seq<Listener>) {
    |a| == |b| && forall i | 0 <= i < |a| :: a[i].tag == b[i].tag && a[i].protocol == b[i].protocol
  }

  lemma {:induction false} TouchKeepsSlot(l: Listener, tags: seq<string>, protocol: Protocol, users: seq<User>, accepts: string -> bool)
    ensures TouchAll(l, tags, protocol, users, accepts) == l.(users := TouchAll(l, tags, protocol, users, accepts).users)
  {
    if tags != [] {
      TouchKeepsSlot(l, tags[..|tags| - 1], protocol, users, accepts);
    }
  }

  lemma SlotsDecideUpdates(a: seq<Listener>, b: seq<Listener>, tag: string, protocol: Protocol, accepts: string -> bool)
    requires SameSlots(a, b)
    ensures Updates(a, tag, protocol, accepts) <==> Updates(b, tag, protocol, accepts)
  {
    if i :| 0 <= i < |a| && Takes(a[i], tag, protocol, accepts) {
      assert Takes(b[i], tag, protocol, accepts);
    }
    if i :| 0 <= i < |b| && Takes(b[i], tag, protocol, accepts) {
      assert Takes(a[i], tag, protocol, accepts);
    }
  }

  /** What every listener has become after some tags of an update. */
  predicate TouchedBy(ls: seq<Listener>, after: seq<Listener>, tags: seq<string>, protocol: Protocol, users: seq<User>, accepts: string -> bool) {
    |after| == |ls| && forall i | 0 <= i < |ls| :: after[i] == TouchAll(ls[i], tags, protocol, users, accepts)
  }

  lemma TouchedKeepsSlots(ls: seq<Listener>, after: seq<Listener>, tags: seq<string>, protocol: Protocol, users: seq<User>, accepts: string -> bool)
    requires TouchedBy(ls, after, tags, protocol, users, accepts)
    ensures SameSlots(after, ls)
  {
    forall i | 0 <= i < |ls|
      ensures after[i].tag == ls[i].tag && after[i].protocol == ls[i].protocol
    {
      TouchKeepsSlot(ls[i], tags, protocol, users, accepts);
    }
  }

  lemma TouchStep(ls: seq<Listener>, before: seq<Listener>, tags: seq<string>, k: nat, protocol: Protocol, users: seq<User>, accepts: string -> bool)
    requires k < |tags| && TouchedBy(ls, before, tags[..k], protocol, users, accepts)
    ensures TouchedBy(ls, UpdateUsers(before, tags[k], protocol, users, accepts), tags[..k + 1], protocol, users, accepts)
  {
    assert tags[..k + 1][..k] == tags[..k];
  }

  /** The listener loop of one hot update. */
  method HotUpdate(ls: seq<Listener>, tags: seq<string>, protocol: Protocol, users: seq<User>, accepts: string -> bool)
    returns (after: seq<Listener>, applied: bool)
    ensures |after| == |ls| && SameSlots(after, ls)
    ensures TouchedBy(ls, after, tags, protocol, users, accepts)
    ensures applied <==> forall t | t in tags :: Updates(ls, t, protocol, accepts)
  {
    after, applied := ls, true;
    for k := 0 to |tags|
      invariant TouchedBy(ls, after, tags[..k], protocol, users, accepts)
      invariant applied <==> forall n | 0 <= n < k :: Updates(ls, tags[n], protocol, accepts)
    {
      TouchedKeepsSlots(ls, after, tags[..k], protocol, users, accepts);
      SlotsDecideUpdates(after, ls, tags[k], protocol, accepts);
      TouchStep(ls, after, tags, k, protocol, users, accepts);
      applied := applied && exists i :: 0 <= i < |after| && Takes(after[i], tags[k], protocol, accepts);
      after := UpdateUsers(after, tags[k], protocol, users, accepts);
    }
    assert tags[..|tags|] == tags;
    TouchedKeepsSlots(ls, after, tags, protocol, users, accepts);
  }

  lemma AllUpdateStep(ls: seq<Listener>, before: seq<Listener>, plan: Plan, hot: seq<UserUpdate>, k: nat, accepts: string -> bool)
    requires k < |hot| && SameSlots(before, ls)
    ensures AllUpdate(ls, plan, hot[..k + 1], accepts) <==>
            AllUpdate(ls, plan, hot[..k], accepts) &&
            forall t | t in plan.ListenerTags(hot[k].tag) :: Updates(before, t, hot[k].protocol, accepts)
  {
    var tags := plan.ListenerTags(hot[k].tag);
    forall t | t in tags
      ensures Updates(before, t, hot[k].protocol, accepts) <==> Updates(ls, t, hot[k].protocol, accepts)
    {
      SlotsDecideUpdates(before, ls, t, hot[k].protocol, accepts);
    }
    var more, less := hot[..k + 1], hot[..k];
    assert more[k] == hot[k] && forall n | 0 <= n < k :: more[n] == less[n];
  }

  /** The hot-apply loop of pullOnce. */
  method HotApplyAll(ls: seq<Listener>, plan: Plan, byTag: map<string, Inbound>, hot: seq<UserUpdate>, accepts: string -> bool)
    returns (after: seq<Listener>, failed: bool)
    requires forall k | 0 <= k < |hot| :: hot[k].tag in byTag
    ensures |after| == |ls|
    ensures forall i | 0 <= i < |ls| :: after[i] == HotListener(ls[i], plan, byTag, hot, accepts)
    ensures failed <==> !AllUpdate(ls, plan, hot, accepts)
  {
    after, failed := ls, false;
    for k := 0 to |hot|
      invariant |after| == |ls| && SameSlots(after, ls)
      invariant forall i | 0 <= i < |ls| :: after[i] == HotListener(ls[i], plan, byTag, hot[..k], accepts)
      invariant failed <==> !AllUpdate(ls, plan, hot[..k], accepts)
    {
      assert hot[..k + 1][..k] == hot[..k];
      var before := after;
      var applied: bool;
      after, applied := HotUpdate(before, plan.ListenerTags(hot[k].tag), hot[k].protocol, NodeUsers(byTag[hot[k].tag].users), accepts);
      AllUpdateStep(ls, before, plan, hot, k, accepts);
      failed := failed || !applied;
    }
    assert hot[..|hot|] == hot;
  }

  // ----- Hot apply refines a full restart -----

  /** l is the listener of port p of the j-th inbound, up to its users. */
  predicate Frames(inbounds: seq<Inbound>, l: Listener, j: int, p: Port)
    requires forall i | 0 <= i < |inbounds| :: TransportSupported(inbounds[i].transport)
  {
    && 0 <= j < |inbounds| && p in Ports(inbounds[j]) && Known(inbounds[j].protocol)
    && l == MakeListener(inbounds[j], p).(users := l.users)
  }

  /** Port p of the j-th inbound has a running listener. */
  ghost predicate Filled(ls: seq<Listener>, inbounds: seq<Inbound>, j: int, p: Port)
    requires 0 <= j < |inbounds|
  {
    exists l :: l in ls && l.tag == ListenerTag(inbounds[j], p)
  }

  ghost predicate IsFramed(inbounds: seq<Inbound>, l: Listener)
    requires forall i | 0 <= i < |inbounds| :: TransportSupported(inbounds[i].transport)
  {
    exists j, p :: Frames(inbounds, l, j, p)
  }

  /** The running listeners are those of a config, up to their users. */
  ghost predicate FramedBy(ls: seq<Listener>, inbounds: seq<Inbound>)
    requires forall i | 0 <= i < |inbounds| :: TransportSupported(inbounds[i].transport)
  {
    && DistinctListeners(ls)
    && (forall l | l in ls :: IsFramed(inbounds, l))
    && (forall j, p {:trigger Filled(ls, inbounds, j, p)} |
          0 <= j < |inbounds| && p in Ports(inbounds[j]) && Known(inbounds[j].protocol) :: Filled(ls, inbounds, j, p))
  }

  predicate Supported(c: Payload) {
    forall i | 0 <= i < |c.inbounds| :: TransportSupported(c.inbounds[i].transport)
  }

  lemma BuildableSupported(ciphers: set<string>, c: Payload)
    requires CanBuild(ciphers, c)
    ensures Supported(c)
  {
    forall i | 0 <= i < |c.inbounds|
      ensures TransportSupported(c.inbounds[i].transport)
    {
      assert InboundError(ciphers, c.inbounds[i]) == None;
    }
  }

  lemma BuiltIsFramed(c: Payload)
    requires WellFormed(c.inbounds) && Supported(c)
    ensures FramedBy(ListenersOf(c.inbounds), c.inbounds)
  {
    ListenersAreDistinct(c.inbounds);
    forall l | l in ListenersOf(c.inbounds)
      ensures IsFramed(c.inbounds, l)
    {
      var j, p := ListenerIsServed(c.inbounds, l);
      assert Frames(c.inbounds, l, j, p);
    }
    forall j, p | 0 <= j < |c.inbounds| && p in Ports(c.inbounds[j]) && Known(c.inbounds[j].protocol)
      ensures Filled(ListenersOf(c.inbounds), c.inbounds, j, p)
    {
      ServedIsListener(c.inbounds, j, p);
    }
  }

  lemma SameFrameSameListener(a: Inbound, b: Inbound, p: Port)
    requires SameFrame(a, b) && TransportSupported(a.transport)
    ensures TransportSupported(b.transport) && Ports(a) == Ports(b) && a.protocol == b.protocol && a.tag == b.tag
    ensures MakeListener(b, p) == MakeListener(a, p).(users := Accounts(b.protocol, b.users))
    ensures TagsOfInbound(a) == TagsOfInbound(b)
  {
    var s := Shape(a);
    assert s.listenPorts == a.listenPorts == b.listenPorts && s.listenPort == a.listenPort == b.listenPort;
    assert s.tag == a.tag == b.tag && s.protocol == a.protocol == b.protocol && s.transport == a.transport == b.transport;
    assert s.tls == a.tls == b.tls && s.snellPsk == a.snellPsk == b.snellPsk && s.snellMode == a.snellMode == b.snellMode;
    assert s.upMbps == a.upMbps == b.upMbps && s.downMbps == a.downMbps == b.downMbps;
    assert s.obfsPassword == a.obfsPassword == b.obfsPassword && s.zeroRtt == a.zeroRtt == b.zeroRtt;
    assert s.congestionControl == a.congestionControl == b.congestionControl;
  }

  /** Compatible configs frame the same listeners. */
  lemma FramesCarryOver(ls: seq<Listener>, a: Payload, b: Payload)
    requires Compatible(a, b) && Supported(a) && Supported(b) && FramedBy(ls, a.inbounds)
    ensures FramedBy(ls, b.inbounds)
  {
    forall l | l in ls
      ensures IsFramed(b.inbounds, l)
    {
      assert IsFramed(a.inbounds, l);
      var i, p :| Frames(a.inbounds, l, i, p);
      var j := Counterpart(a, b, i);
      SameFrameSameListener(a.inbounds[i], b.inbounds[j], p);
      assert Frames(b.inbounds, l, j, p);
    }
    forall j, p | 0 <= j < |b.inbounds| && p in Ports(b.inbounds[j]) && Known(b.inbounds[j].protocol)
      ensures Filled(ls, b.inbounds, j, p)
    {
      CompatibleSymmetric(a, b);
      var i := Counterpart(b, a, j);
      SameFrameSameListener(a.inbounds[i], b.inbounds[j], p);
      assert Filled(ls, a.inbounds, i, p);
    }
  }

  /** A list of updates drawn from a config's inbounds. */
  predicate UpdatesOf(hot: seq<UserUpdate>, inbounds: seq<Inbound>) {
    forall k | 0 <= k < |hot| ::
      exists j :: 0 <= j < |inbounds| && hot[k] == UserUpdate(inbounds[j].tag, inbounds[j].protocol)
  }

  /** The plan knows the listeners of every inbound of a config. */
  predicate PlanFits(plan: Plan, inbounds: seq<Inbound>) {
    forall j | 0 <= j < |inbounds| :: plan.ListenerTags(inbounds[j].tag) == TagsOfInbound(inbounds[j])
  }

  lemma {:induction false} TouchAllEffect(l: Listener, tags: seq<string>, protocol: Protocol, users: seq<User>, accepts: string -> bool)
    ensures TouchAll(l, tags, protocol, users, accepts) ==
            if l.tag in tags && l.protocol == protocol && accepts(l.tag) then l.(users := Accounts(protocol, users)) else l
  {
    if tags != [] {
      var n := |tags| - 1;
      TouchAllEffect(l, tags[..n], protocol, users, accepts);
      assert tags == tags[..n] + [tags[n]];
    }
  }

  /** Only the updates of a listener's own inbound reach it. */
  lemma UpdateReaches(inbounds: seq<Inbound>, plan: Plan, j: nat, p: Port, k: nat)
    requires WellFormed(inbounds) && PlanFits(plan, inbounds) && j < |inbounds| && k < |inbounds| && p in Ports(inbounds[j])
    ensures ListenerTag(inbounds[j], p) in plan.ListenerTags(inbounds[k].tag) <==> j == k
  {
    var tags := TagsOfInbound(inbounds[k]);
    if ListenerTag(inbounds[j], p) in tags {
      var n :| 0 <= n < |tags| && tags[n] == ListenerTag(inbounds[j], p);
      ListenerTagInjective(inbounds, j, p, k, Ports(inbounds[k])[n]);
    }
    if j == k {
      var n :| 0 <= n < |Ports(inbounds[j])| && Ports(inbounds[j])[n] == p;
      assert tags[n] == ListenerTag(inbounds[j], p);
    }
  }

  /** One update as one listener sees it. */
  lemma UpdateEffect(inbounds: seq<Inbound>, plan: Plan, k: nat, accepts: string -> bool, l: Listener, j: nat, p: Port)
    requires WellFormed(inbounds) && PlanFits(plan, inbounds) && k < |inbounds|
    requires forall i | 0 <= i < |inbounds| :: TransportSupported(inbounds[i].transport)
    requires Frames(inbounds, l, j, p)
    ensures TouchAll(l, plan.ListenerTags(inbounds[k].tag), inbounds[k].protocol, NodeUsers(inbounds[k].users), accepts) ==
            if k == j && accepts(l.tag) then MakeListener(inbounds[j], p) else l
  {
    UpdateReaches(inbounds, plan, j, p, k);
    TouchAllEffect(l, plan.ListenerTags(inbounds[k].tag), inbounds[k].protocol, NodeUsers(inbounds[k].users), accepts);
    CipherIsNotProjected(inbounds[k].protocol, inbounds[k].users);
  }

  lemma HotSnoc(next: Payload, plan: Plan, rest: seq<UserUpdate>, u: UserUpdate, accepts: string -> bool, l: Listener)
    requires forall k | 0 <= k < |rest| :: rest[k].tag in ByTag(next.inbounds)
    requires u.tag in ByTag(next.inbounds)
    ensures forall k | 0 <= k < |rest| + 1 :: (rest + [u])[k].tag in ByTag(next.inbounds)
    ensures HotListener(l, plan, ByTag(next.inbounds), rest + [u], accepts) ==
            TouchAll(HotListener(l, plan, ByTag(next.inbounds), rest, accepts), plan.ListenerTags(u.tag), u.protocol,
                     NodeUsers(ByTag(next.inbounds)[u.tag].users), accepts)
  {
    assert (rest + [u])[..|rest|] == rest;
  }

  lemma UpdateInbound(u: UserUpdate, inbounds: seq<Inbound>) returns (k: nat)
    requires DistinctTags(inbounds) && UpdatesOf([u], inbounds)
    ensures k < |inbounds| && u == UserUpdate(inbounds[k].tag, inbounds[k].protocol)
    ensures u.tag in ByTag(inbounds) && ByTag(inbounds)[u.tag] == inbounds[k]
  {
    assert [u][0] == u;
    k :| 0 <= k < |inbounds| && u == UserUpdate(inbounds[k].tag, inbounds[k].protocol);
    ByTagLookup(inbounds);
  }

  /** What the hot list does to one listener: its inbound's new users if its inbound is
      listed and the core takes them, nothing otherwise. */
  lemma {:induction false} HotListenerEffect(next: Payload, plan: Plan, hot: seq<UserUpdate>, accepts: string -> bool,
                                             l: Listener, j: nat, p: Port)
    requires WellFormed(next.inbounds) && Supported(next) && PlanFits(plan, next.inbounds) && UpdatesOf(hot, next.inbounds)
    requires Frames(next.inbounds, l, j, p)
    requires forall k | 0 <= k < |hot| :: hot[k].tag in ByTag(next.inbounds)
    ensures HotListener(l, plan, ByTag(next.inbounds), hot, accepts) ==
            if UserUpdate(next.inbounds[j].tag, next.inbounds[j].protocol) in hot && accepts(l.tag)
            then MakeListener(next.inbounds[j], p) else l
  {
    if hot != [] {
      var n := |hot| - 1;
      var rest, u, mine := hot[..n], hot[n], UserUpdate(next.inbounds[j].tag, next.inbounds[j].protocol);
      Seqs.InitAndLast(hot);
      Seqs.InSnoc(rest, u, mine);
      assert forall k | 0 <= k < n :: hot[k] == rest[k];
      HotListenerEffect(next, plan, rest, accepts, l, j, p);
      assert UpdatesOf([u], next.inbounds);
      var k := UpdateInbound(u, next.inbounds);
      HotSnoc(next, plan, rest, u, accepts, l);
      UpdateEffect(next.inbounds, plan, k, accepts, HotListener(l, plan, ByTag(next.inbounds), rest, accepts), j, p);
    }
  }
}
