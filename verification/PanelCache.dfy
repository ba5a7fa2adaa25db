/** internal/httpapi/nodeconfigcache.go: rendered configs kept in memory under
    (profile key, data version), built at most once at a time however many nodes ask.

    The database is its own history: the data version is a counter every write bumps
    together with its change, so the version names a position in the history. A poll is
    many steps, and any number of polls and writes interleave between them. Expiry is
    an event that turns a hit into a miss. */
module PanelCache {
  import opened Options
  import opened Wire
  import Overrides
  import opened NodeProfile
  import opened FleetSnapshot

  /** What the three queries behind a payload read. */
  datatype Tables = Tables(inbounds: seq<InboundRow>, proxies: seq<ProxyRow>, core: CoreConfig)

  datatype Snapshot = Snapshot(version: nat, fleet: seq<Inbound>, core: CoreConfig)

  datatype Entry = Entry(version: nat, body: Payload)

  function Body(p: Profile, fleet: seq<Inbound>, core: CoreConfig): Payload {
    MakePayload(Filter(p, fleet), Overrides.Applied(p.overrides, core))
  }

  // ----- The cache -----

  datatype Cache = Cache(snap: Option<Snapshot>, entries: map<Key, Entry>)

  const EMPTY_CACHE := Cache(None, map[])

  function Found(c: Cache, key: Key, version: nat, expired: bool): Option<Entry> {
    if key in c.entries && c.entries[key].version == version && !expired then Some(c.entries[key]) else None
  }

  function FoundSnapshot(c: Cache, version: nat, expired: bool): Option<Snapshot> {
    if c.snap.Some? && c.snap.value.version == version && !expired then c.snap else None
  }

  predicate Survives(prior: Entry, e: Entry, isExpired: bool) {
    prior.version >= e.version && !isExpired
  }

  function Stored(c: Cache, key: Key, e: Entry, expired: set<Key>): Cache {
    c.(entries := (map k | k in c.entries && Survives(c.entries[k], e, k in expired) :: c.entries[k])[key := e])
  }

  /** What a store does to later lookups: its own entry is found, whatever stood there; at
      the version it stores and above every unexpired entry is still found, and below it
      nothing is. */
  lemma StoredIsFound(c: Cache, key: Key, e: Entry, expired: set<Key>, other: Key, version: nat)
    ensures Found(Stored(c, key, e, expired), key, e.version, false) == Some(e)
    ensures other != key ==>
              Found(Stored(c, key, e, expired), other, version, false) ==
              if version >= e.version && other !in expired then Found(c, other, version, false) else None
    ensures Stored(c, key, e, expired).snap == c.snap
  {
  }

  /** The one snapshot is found at its version until another takes its place. */
  lemma StoredSnapshotIsFound(c: Cache, s: Snapshot, version: nat)
    ensures FoundSnapshot(c.(snap := Some(s)), version, false) == if version == s.version then Some(s) else None
  {
  }

  class NodeConfigCache {
    var snap: Option<Snapshot>
    var entries: map<Key, Entry>

    constructor ()
      ensures State() == EMPTY_CACHE
    {
      snap, entries := None, map[];
    }

    function State(): Cache reads this { Cache(snap, entries) }

    method Lookup(key: Key, version: nat, expired: bool) returns (e: Option<Entry>)
      ensures e == Found(State(), key, version, expired)
      ensures e.Some? ==> e.value.version == version
    {
      if key !in entries || entries[key].version != version || expired {
        return None;
      }
      return Some(entries[key]);
    }

    /** Drops what can no longer be served, then keeps e, even in place of a newer one. */
    method Store(key: Key, e: Entry, expired: set<Key>)
      modifies this
      ensures State() == Stored(old(State()), key, e, expired)
    {
      var pending := entries.Keys;
      while pending != {}
        invariant pending <= old(entries).Keys && snap == old(snap)
        invariant entries == map k | k in old(entries) && (k in pending || Survives(old(entries)[k], e, k in expired)) :: old(entries)[k]
        decreases |pending|
      {
        var k :| k in pending;
        pending := pending - {k};
        if entries[k].version < e.version || k in expired {
          entries := entries - {k};
        }
      }
      entries := entries[key := e];
    }

    method LookupSnapshot(version: nat, expired: bool) returns (s: Option<Snapshot>)
      ensures s == FoundSnapshot(State(), version, expired)
    {
      if snap.Some? && snap.value.version == version && !expired {
        return snap;
      }
      return None;
    }

    method StoreSnapshot(s: Snapshot)
      modifies this
      ensures State() == old(State()).(snap := Some(s))
    {
      snap := Some(s);
    }
  }

  // ----- Polls -----

  /** Where one poll stands in cachedNodeConfig. kept is false on the path taken when
      the version cannot be read: nothing of it is stored. */
  datatype Stage =
    | Begun
    | Versioned(version: nat)
    | Missed(version: nat)
    | Waiting(version: nat)
    | Leading(version: nat)
    | WantsSnapshot(version: nat)
    | SnapMissed(version: nat)
    | SnapWaiting(version: nat)
    | SnapLeading(version: nat)
    | Load0(version: nat, kept: bool)
    | Load1(version: nat, kept: bool, rows: seq<InboundRow>)
    | Load2(version: nat, kept: bool, rows: seq<InboundRow>, proxies: seq<ProxyRow>)
    | Loaded(version: nat, snap: Snapshot)
    | Holding(version: nat, kept: bool, snap: Snapshot)
    | Rendered(version: nat, entry: Entry)
    | Failing(version: nat)
    | Done(entry: Entry)
    | Failed

  /** One poll: the profile of the node that asks and the version when it began. */
  datatype Poll = Poll(profile: Profile, since: nat, stage: Stage)

  datatype Panel = Panel(
    db: seq<Tables>, cache: Cache, polls: seq<Poll>,
    flights: set<(Key, nat)>, snapFlights: set<nat>)

  datatype Action =
    | Write(tables: Tables)
    | Begin(profile: Profile)
    | ReadVersion(readable: bool)
    | Lookup(expired: bool)
    | JoinOrLead
    | LookupAgain(expired: bool)
    | LookupSnap(expired: bool)
    | JoinOrLeadSnap
    | LookupSnapAgain(expired: bool)
    | ReadInbounds
    | ReadUsers
    | ReadCore
    | StoreSnap
    | Render
    | Store(expiredKeys: set<Key>)
    | LoseSnap   // the load fails
    | Lose       // the build fails

  function At(s: Panel, i: nat, stage: Stage): Panel
    requires i < |s.polls|
  {
    s.(polls := s.polls[i := s.polls[i].(stage := stage)])
  }

  function Tell(p: Poll, key: Key, version: nat, result: Stage): Poll {
    if p.stage == Waiting(version) && KeyOf(p.profile) == key then p.(stage := result) else p
  }

  /** The leader of a build hands its result to everyone waiting for it. */
  function Land(s: Panel, key: Key, version: nat, result: Stage): Panel {
    s.(flights := s.flights - {(key, version)},
       polls := seq(|s.polls|, i requires 0 <= i < |s.polls| => Tell(s.polls[i], key, version, result)))
  }

  function TellSnap(p: Poll, version: nat, result: Stage): Poll {
    if p.stage == SnapWaiting(version) then p.(stage := result) else p
  }

  function LandSnap(s: Panel, version: nat, result: Stage): Panel {
    s.(snapFlights := s.snapFlights - {version},
       polls := seq(|s.polls|, i requires 0 <= i < |s.polls| => TellSnap(s.polls[i], version, result)))
  }

  /** One step of poll i, or of the world around it. A step that is not enabled does
      nothing. */
  function Step(s: Panel, i: nat, a: Action): Panel
    requires |s.db| > 0
  {
    if a.Write? then s.(db := s.db + [a.tables])
    else if a.Begin? then s.(polls := s.polls + [Poll(a.profile, |s.db| - 1, Begun)])
    else if i >= |s.polls| then s
    else PollStep(s, i, a)
  }

  function PollStep(s: Panel, i: nat, a: Action): Panel
    requires |s.db| > 0 && i < |s.polls|
  {
    var now, p := s.db[|s.db| - 1], s.polls[i];
    var key := KeyOf(p.profile);
    match (p.stage, a)
    case (Begun, ReadVersion(readable)) =>
      At(s, i, if readable then Versioned(|s.db| - 1) else Load0(0, false))
    case (Versioned(v), Lookup(expired)) =>
      var e := Found(s.cache, key, v, expired);
      At(s, i, if e.Some? then Done(e.value) else Missed(v))
    case (Missed(v), JoinOrLead) =>
      if (key, v) in s.flights then At(s, i, Waiting(v))
      else At(s, i, Leading(v)).(flights := s.flights + {(key, v)})
    case (Leading(v), LookupAgain(expired)) =>
      var e := Found(s.cache, key, v, expired);
      if e.Some? then Land(At(s, i, Done(e.value)), key, v, Done(e.value)) else At(s, i, WantsSnapshot(v))
    case (WantsSnapshot(v), LookupSnap(expired)) =>
      var snap := FoundSnapshot(s.cache, v, expired);
      At(s, i, if snap.Some? then Holding(v, true, snap.value) else SnapMissed(v))
    case (SnapMissed(v), JoinOrLeadSnap) =>
      if v in s.snapFlights then At(s, i, SnapWaiting(v))
      else At(s, i, SnapLeading(v)).(snapFlights := s.snapFlights + {v})
    case (SnapLeading(v), LookupSnapAgain(expired)) =>
      var snap := FoundSnapshot(s.cache, v, expired);
      if snap.Some? then LandSnap(At(s, i, Holding(v, true, snap.value)), v, Holding(v, true, snap.value))
      else At(s, i, Load0(v, true))
    case (Load0(v, kept), ReadInbounds) => At(s, i, Load1(v, kept, now.inbounds))
    case (Load1(v, kept, rows), ReadUsers) => At(s, i, Load2(v, kept, rows, now.proxies))
    case (Load2(v, kept, rows, proxies), ReadCore) =>
      var snap := Snapshot(v, Fleet(rows, proxies), now.core);
      At(s, i, if kept then Loaded(v, snap) else Holding(v, false, snap))
    case (Loaded(v, snap), StoreSnap) =>
      LandSnap(At(s.(cache := s.cache.(snap := Some(snap))), i, Holding(v, true, snap)), v, Holding(v, true, snap))
    case (Holding(v, kept, snap), Render) =>
      var e := Entry(snap.version, Body(p.profile, snap.fleet, snap.core));
      At(s, i, if kept then Rendered(v, e) else Done(e))
    case (Rendered(v, e), Store(expired)) =>
      Land(At(s.(cache := Stored(s.cache, key, e, expired)), i, Done(e)), key, v, Done(e))
    case (_, LoseSnap) => if LoadsSnapshot(p.stage) then LandSnap(At(s, i, Failing(p.stage.version)), p.stage.version, Failing(p.stage.version)) else s
    case (_, Lose) =>
      if LeadsOnly(p.stage) then Land(At(s, i, Failed), key, p.stage.version, Failed)
      else if LoadsUncached(p.stage) then At(s, i, Failed)
      else s
    case _ => s
  }

  /** The stages of the leader of a snapshot load, of an uncached load, and of the leader
      of a build outside of a load. */
  predicate LoadsSnapshot(g: Stage) {
    g.SnapLeading? || ((g.Load0? || g.Load1? || g.Load2?) && g.kept) || g.Loaded?
  }

  predicate LoadsUncached(g: Stage) {
    (g.Load0? || g.Load1? || g.Load2? || g.Holding?) && !g.kept
  }

  predicate LeadsOnly(g: Stage) {
    g.Leading? || g.WantsSnapshot? || g.SnapMissed? || (g.Holding? && g.kept) || g.Rendered? || g.Failing?
  }

  // ----- What every interleaving keeps -----

  ghost predicate RowsSince(db: seq<Tables>, since: nat, rows: seq<InboundRow>) {
    exists r :: since <= r < |db| && db[r].inbounds == rows
  }

  ghost predicate UsersSince(db: seq<Tables>, since: nat, proxies: seq<ProxyRow>) {
    exists r :: since <= r < |db| && db[r].proxies == proxies
  }

  ghost predicate CoreSince(db: seq<Tables>, since: nat, core: CoreConfig) {
    exists r :: since <= r < |db| && db[r].core == core
  }

  ghost predicate FleetSince(db: seq<Tables>, since: nat, fleet: seq<Inbound>) {
    exists rows, proxies {:trigger Fleet(rows, proxies)} ::
      RowsSince(db, since, rows) && UsersSince(db, since, proxies) && fleet == Fleet(rows, proxies)
  }

  predicate Renders(body: Payload, p: Profile, fleet: seq<Inbound>, core: CoreConfig) {
    body == Body(p, fleet, core)
  }

  /** A body each of whose table reads happened at version since or later. */
  ghost predicate BodySince(db: seq<Tables>, since: nat, p: Profile, body: Payload) {
    exists fleet, core :: Renders(body, p, fleet, core) && FleetSince(db, since, fleet) && CoreSince(db, since, core)
  }

  ghost predicate SnapOk(db: seq<Tables>, since: nat, snap: Snapshot) {
    FleetSince(db, since, snap.fleet) && CoreSince(db, since, snap.core)
  }

  ghost predicate EntryOk(db: seq<Tables>, key: Key, e: Entry) {
    exists p :: KeyOf(p) == key && BodySince(db, e.version, p, e.body)
  }

  ghost predicate CacheOk(db: seq<Tables>, c: Cache) {
    && (c.snap.Some? ==> SnapOk(db, c.snap.value.version, c.snap.value))
    && (forall key | key in c.entries :: EntryOk(db, key, c.entries[key]))
  }

  ghost predicate PollOk(db: seq<Tables>, p: Poll) {
    && p.since < |db|
    && match p.stage
       case Begun => true
       case Failed => true
       case Load0(v, kept) => kept ==> p.since <= v < |db|
       case Load1(v, kept, rows) => (kept ==> p.since <= v < |db|) && RowsSince(db, if kept then v else p.since, rows)
       case Load2(v, kept, rows, proxies) =>
         (kept ==> p.since <= v < |db|) && RowsSince(db, if kept then v else p.since, rows) && UsersSince(db, if kept then v else p.since, proxies)
       case Loaded(v, snap) => p.since <= v < |db| && snap.version == v && SnapOk(db, v, snap)
       case Holding(v, kept, snap) =>
         if kept then p.since <= v < |db| && snap.version == v && SnapOk(db, v, snap) else SnapOk(db, p.since, snap)
       case Rendered(v, e) => p.since <= v < |db| && e.version == v && BodySince(db, v, p.profile, e.body)
       case Done(e) => BodySince(db, p.since, p.profile, e.body)
       case _ => p.since <= p.stage.version < |db|
  }

  ghost predicate Inv(s: Panel) {
    && |s.db| > 0
    && CacheOk(s.db, s.cache)
    && forall i | 0 <= i < |s.polls| :: PollOk(s.db, s.polls[i])
  }

  // ----- Time passes -----

  /** What holds since some version holds since every earlier one, and after more writes. */
  lemma FleetSinceLess(db: seq<Tables>, later: nat, more: seq<Tables>, since: nat, fleet: seq<Inbound>)
    requires FleetSince(db, later, fleet) && since <= later && db <= more
    ensures FleetSince(more, since, fleet)
  {
    var rows, proxies :| RowsSince(db, later, rows) && UsersSince(db, later, proxies) && fleet == Fleet(rows, proxies);
    RowsSinceLess(db, later, more, since, rows);
    UsersSinceLess(db, later, more, since, proxies);
  }

  lemma RowsSinceLess(db: seq<Tables>, later: nat, more: seq<Tables>, since: nat, rows: seq<InboundRow>)
    requires RowsSince(db, later, rows) && since <= later && db <= more
    ensures RowsSince(more, since, rows)
  {
    var r :| later <= r < |db| && db[r].inbounds == rows;
    assert more[r].inbounds == rows;
  }

  lemma UsersSinceLess(db: seq<Tables>, later: nat, more: seq<Tables>, since: nat, proxies: seq<ProxyRow>)
    requires UsersSince(db, later, proxies) && since <= later && db <= more
    ensures UsersSince(more, since, proxies)
  {
    var r :| later <= r < |db| && db[r].proxies == proxies;
    assert more[r].proxies == proxies;
  }

  lemma CoreSinceLess(db: seq<Tables>, later: nat, more: seq<Tables>, since: nat, core: CoreConfig)
    requires CoreSince(db, later, core) && since <= later && db <= more
    ensures CoreSince(more, since, core)
  {
    var r :| later <= r < |db| && db[r].core == core;
    assert more[r].core == core;
  }

  lemma SnapOkLess(db: seq<Tables>, later: nat, more: seq<Tables>, since: nat, snap: Snapshot)
    requires SnapOk(db, later, snap) && since <= later && db <= more
    ensures SnapOk(more, since, snap)
  {
    FleetSinceLess(db, later, more, since, snap.fleet);
    CoreSinceLess(db, later, more, since, snap.core);
  }

  lemma BodySinceLess(db: seq<Tables>, later: nat, more: seq<Tables>, since: nat, p: Profile, body: Payload)
    requires BodySince(db, later, p, body) && since <= later && db <= more
    ensures BodySince(more, since, p, body)
  {
    var fleet, core :| Renders(body, p, fleet, core) && FleetSince(db, later, fleet) && CoreSince(db, later, core);
    FleetSinceLess(db, later, more, since, fleet);
    CoreSinceLess(db, later, more, since, core);
  }

  lemma PollOutlivesWrites(db: seq<Tables>, more: seq<Tables>, p: Poll)
    requires PollOk(db, p) && db <= more
    ensures PollOk(more, p)
  {
    match p.stage
    case Load1(v, kept, rows) => RowsSinceLess(db, if kept then v else p.since, more, if kept then v else p.since, rows);
    case Load2(v, kept, rows, proxies) =>
      RowsSinceLess(db, if kept then v else p.since, more, if kept then v else p.since, rows);
      UsersSinceLess(db, if kept then v else p.since, more, if kept then v else p.since, proxies);
    case Loaded(v, snap) => SnapOkLess(db, v, more, v, snap);
    case Holding(v, kept, snap) => SnapOkLess(db, if kept then v else p.since, more, if kept then v else p.since, snap);
    case Rendered(v, e) => BodySinceLess(db, v, more, v, p.profile, e.body);
    case Done(e) => BodySinceLess(db, p.since, more, p.since, p.profile, e.body);
    case _ =>
  }

  lemma CacheOutlivesWrites(db: seq<Tables>, more: seq<Tables>, c: Cache)
    requires CacheOk(db, c) && db <= more
    ensures CacheOk(more, c)
  {
    if c.snap.Some? {
      SnapOkLess(db, c.snap.value.version, more, c.snap.value.version, c.snap.value);
    }
    forall key | key in c.entries
      ensures EntryOk(more, key, c.entries[key])
    {
      var e := c.entries[key];
      var p :| KeyOf(p) == key && BodySince(db, e.version, p, e.body);
      BodySinceLess(db, e.version, more, e.version, p, e.body);
    }
  }

  // ----- One step at a time -----

  /** An entry is as good for every profile with its key. */
  lemma EntryServes(db: seq<Tables>, p: Profile, e: Entry, since: nat)
    requires EntryOk(db, KeyOf(p), e) && since <= e.version
    ensures BodySince(db, since, p, e.body)
  {
    var q :| KeyOf(q) == KeyOf(p) && BodySince(db, e.version, q, e.body);
    var fleet, core :| Renders(e.body, q, fleet, core) && FleetSince(db, e.version, fleet) && CoreSince(db, e.version, core);
    EqualKeysEqualPayload(p, q, fleet, core);
    assert Renders(e.body, p, fleet, core);
    FleetSinceLess(db, e.version, db, since, fleet);
    CoreSinceLess(db, e.version, db, since, core);
  }

  lemma AtKeeps(s: Panel, i: nat, stage: Stage)
    requires Inv(s) && i < |s.polls| && PollOk(s.db, s.polls[i].(stage := stage))
    ensures Inv(At(s, i, stage))
  {
  }

  lemma LandKeeps(s: Panel, key: Key, version: nat, result: Stage)
    requires Inv(s)
    requires result == Failed || (result.Done? && result.entry.version == version && EntryOk(s.db, key, result.entry))
    ensures Inv(Land(s, key, version, result))
  {
    var t := Land(s, key, version, result);
    forall i | 0 <= i < |t.polls|
      ensures PollOk(t.db, t.polls[i])
    {
      var p := s.polls[i];
      if result.Done? && p.stage == Waiting(version) && KeyOf(p.profile) == key {
        EntryServes(s.db, p.profile, result.entry, p.since);
      }
    }
  }

  lemma LandSnapKeeps(s: Panel, version: nat, result: Stage)
    requires Inv(s)
    requires result == Failing(version) || (exists snap :: result == Holding(version, true, snap) && snap.version == version && SnapOk(s.db, version, snap))
    ensures Inv(LandSnap(s, version, result))
  {
  }

  lemma SnapshotLoaded(db: seq<Tables>, since: nat, v: nat, rows: seq<InboundRow>, proxies: seq<ProxyRow>, core: CoreConfig)
    requires RowsSince(db, since, rows) && UsersSince(db, since, proxies) && CoreSince(db, since, core)
    ensures SnapOk(db, since, Snapshot(v, Fleet(rows, proxies), core))
  {
  }

  lemma Now(db: seq<Tables>, since: nat)
    requires |db| > 0 && since < |db|
    ensures RowsSince(db, since, db[|db| - 1].inbounds) && UsersSince(db, since, db[|db| - 1].proxies) && CoreSince(db, since, db[|db| - 1].core)
  {
  }

  lemma ReadRowsKeeps(s: Panel, i: nat, a: Action)
    requires Inv(s) && i < |s.polls| && (a.ReadInbounds? || a.ReadUsers?)
    ensures Inv(PollStep(s, i, a))
  {
    var p := s.polls[i];
    var now := s.db[|s.db| - 1];
    if a.ReadInbounds? && p.stage.Load0? {
      Now(s.db, if p.stage.kept then p.stage.version else p.since);
      AtKeeps(s, i, Load1(p.stage.version, p.stage.kept, now.inbounds));
    } else if a.ReadUsers? && p.stage.Load1? {
      Now(s.db, if p.stage.kept then p.stage.version else p.since);
      AtKeeps(s, i, Load2(p.stage.version, p.stage.kept, p.stage.rows, now.proxies));
    }
  }

  lemma ReadCoreKeeps(s: Panel, i: nat)
    requires Inv(s) && i < |s.polls|
    ensures Inv(PollStep(s, i, ReadCore))
  {
    var p := s.polls[i];
    var now := s.db[|s.db| - 1];
    if p.stage.Load2? {
      var v, since := p.stage.version, if p.stage.kept then p.stage.version else p.since;
      Now(s.db, since);
      SnapshotLoaded(s.db, since, v, p.stage.rows, p.stage.proxies, now.core);
      var snap := Snapshot(v, Fleet(p.stage.rows, p.stage.proxies), now.core);
      AtKeeps(s, i, if p.stage.kept then Loaded(v, snap) else Holding(v, false, snap));
    }
  }

  lemma RenderKeeps(s: Panel, i: nat)
    requires Inv(s) && i < |s.polls|
    ensures Inv(PollStep(s, i, Render))
  {
    var p := s.polls[i];
    if p.stage.Holding? {
      var snap := p.stage.snap;
      var e := Entry(snap.version, Body(p.profile, snap.fleet, snap.core));
      assert Renders(e.body, p.profile, snap.fleet, snap.core);
      AtKeeps(s, i, if p.stage.kept then Rendered(p.stage.version, e) else Done(e));
    }
  }

  lemma StoreKeeps(s: Panel, i: nat, expired: set<Key>)
    requires Inv(s) && i < |s.polls|
    ensures Inv(PollStep(s, i, Store(expired)))
  {
    var p := s.polls[i];
    if p.stage.Rendered? {
      var key, e := KeyOf(p.profile), p.stage.entry;
      assert EntryOk(s.db, key, e);
      EntryServes(s.db, p.profile, e, p.since);
      var t := s.(cache := Stored(s.cache, key, e, expired));
      AtKeeps(t, i, Done(e));
      LandKeeps(At(t, i, Done(e)), key, p.stage.version, Done(e));
    }
  }

  lemma StoreSnapKeeps(s: Panel, i: nat)
    requires Inv(s) && i < |s.polls|
    ensures Inv(PollStep(s, i, StoreSnap))
  {
    var p := s.polls[i];
    if p.stage.Loaded? {
      var v, snap := p.stage.version, p.stage.snap;
      var t := s.(cache := s.cache.(snap := Some(snap)));
      AtKeeps(t, i, Holding(v, true, snap));
      LandSnapKeeps(At(t, i, Holding(v, true, snap)), v, Holding(v, true, snap));
    }
  }

  lemma LookupKeeps(s: Panel, i: nat, a: Action)
    requires Inv(s) && i < |s.polls| && (a.Lookup? || a.LookupAgain?)
    ensures Inv(PollStep(s, i, a))
  {
    var p := s.polls[i];
    var key := KeyOf(p.profile);
    if (a.Lookup? && p.stage.Versioned?) || (a.LookupAgain? && p.stage.Leading?) {
      var v := p.stage.version;
      var e := Found(s.cache, key, v, a.expired);
      if e.Some? {
        EntryServes(s.db, p.profile, e.value, p.since);
        AtKeeps(s, i, Done(e.value));
        LandKeeps(At(s, i, Done(e.value)), key, v, Done(e.value));
      } else {
        AtKeeps(s, i, if a.Lookup? then Missed(v) else WantsSnapshot(v));
      }
    }
  }

  lemma LookupSnapKeeps(s: Panel, i: nat, a: Action)
    requires Inv(s) && i < |s.polls| && (a.LookupSnap? || a.LookupSnapAgain?)
    ensures Inv(PollStep(s, i, a))
  {
    var p := s.polls[i];
    if (a.LookupSnap? && p.stage.WantsSnapshot?) || (a.LookupSnapAgain? && p.stage.SnapLeading?) {
      var v := p.stage.version;
      var snap := FoundSnapshot(s.cache, v, a.expired);
      if snap.Some? {
        AtKeeps(s, i, Holding(v, true, snap.value));
        LandSnapKeeps(At(s, i, Holding(v, true, snap.value)), v, Holding(v, true, snap.value));
      } else {
        AtKeeps(s, i, if a.LookupSnap? then SnapMissed(v) else Load0(v, true));
      }
    }
  }

  lemma FlightStepKeeps(s: Panel, i: nat, a: Action)
    requires Inv(s) && i < |s.polls| && (a.ReadVersion? || a.JoinOrLead? || a.JoinOrLeadSnap?)
    ensures Inv(PollStep(s, i, a))
  {
    var p := s.polls[i];
    if a.ReadVersion? && p.stage.Begun? {
      AtKeeps(s, i, if a.readable then Versioned(|s.db| - 1) else Load0(0, false));
    } else if a.JoinOrLead? && p.stage.Missed? {
      AtKeeps(s, i, Waiting(p.stage.version));
      AtKeeps(s, i, Leading(p.stage.version));
    } else if a.JoinOrLeadSnap? && p.stage.SnapMissed? {
      AtKeeps(s, i, SnapWaiting(p.stage.version));
      AtKeeps(s, i, SnapLeading(p.stage.version));
    }
  }

  lemma LoseKeeps(s: Panel, i: nat, a: Action)
    requires Inv(s) && i < |s.polls| && (a.LoseSnap? || a.Lose?)
    ensures Inv(PollStep(s, i, a))
  {
    var p := s.polls[i];
    if a.LoseSnap? && LoadsSnapshot(p.stage) {
      AtKeeps(s, i, Failing(p.stage.version));
      LandSnapKeeps(At(s, i, Failing(p.stage.version)), p.stage.version, Failing(p.stage.version));
    }
    if a.Lose? && LeadsOnly(p.stage) {
      AtKeeps(s, i, Failed);
      LandKeeps(At(s, i, Failed), KeyOf(p.profile), p.stage.version, Failed);
    }
  }

  lemma StepKeeps(s: Panel, i: nat, a: Action)
    requires Inv(s)
    ensures Inv(Step(s, i, a))
  {
    if a.Write? {
      var more := s.db + [a.tables];
      CacheOutlivesWrites(s.db, more, s.cache);
      forall k | 0 <= k < |s.polls|
        ensures PollOk(more, s.polls[k])
      {
        PollOutlivesWrites(s.db, more, s.polls[k]);
      }
    } else if a.Begin? || i >= |s.polls| {
    } else {
      match a
      case ReadInbounds => ReadRowsKeeps(s, i, a);
      case ReadUsers => ReadRowsKeeps(s, i, a);
      case ReadCore => ReadCoreKeeps(s, i);
      case Render => RenderKeeps(s, i);
      case Store(expired) => StoreKeeps(s, i, expired);
      case StoreSnap => StoreSnapKeeps(s, i);
      case Lookup(_) => LookupKeeps(s, i, a);
      case LookupAgain(_) => LookupKeeps(s, i, a);
      case LookupSnap(_) => LookupSnapKeeps(s, i, a);
      case LookupSnapAgain(_) => LookupSnapKeeps(s, i, a);
      case LoseSnap => LoseKeeps(s, i, a);
      case Lose => LoseKeeps(s, i, a);
      case _ => FlightStepKeeps(s, i, a);
    }
  }

  lemma StepDb(s: Panel, i: nat, a: Action)
    requires |s.db| > 0
    ensures Step(s, i, a).db == if a.Write? then s.db + [a.tables] else s.db
  {
  }

  // ----- Polls keep their profile and their beginning -----

  predicate SameIdentity(s: Panel, t: Panel, k: nat)
    requires k < |s.polls|
  {
    k < |t.polls| && t.polls[k].since == s.polls[k].since && t.polls[k].profile == s.polls[k].profile
  }

  lemma LandKeepsIdentity(s: Panel, i: nat, stage: Stage, key: Key, version: nat, result: Stage, k: nat)
    requires i < |s.polls| && k < |s.polls|
    ensures SameIdentity(s, At(s, i, stage), k)
    ensures SameIdentity(s, Land(At(s, i, stage), key, version, result), k)
    ensures SameIdentity(s, LandSnap(At(s, i, stage), version, result), k)
  {
  }

  lemma StoreKeepsIdentity(s: Panel, i: nat, a: Action, k: nat)
    requires |s.db| > 0 && i < |s.polls| && k < |s.polls| && (a.Store? || a.StoreSnap?)
    ensures SameIdentity(s, PollStep(s, i, a), k)
  {
    var g, key := s.polls[i].stage, KeyOf(s.polls[i].profile);
    if a.Store? && g.Rendered? {
      var t := s.(cache := Stored(s.cache, key, g.entry, a.expiredKeys));
      LandKeepsIdentity(t, i, Done(g.entry), key, g.version, Done(g.entry), k);
    } else if a.StoreSnap? && g.Loaded? {
      var t := s.(cache := s.cache.(snap := Some(g.snap)));
      LandKeepsIdentity(t, i, Holding(g.version, true, g.snap), key, g.version, Holding(g.version, true, g.snap), k);
    }
  }

  lemma LoseKeepsIdentity(s: Panel, i: nat, a: Action, k: nat)
    requires |s.db| > 0 && i < |s.polls| && k < |s.polls| && (a.LoseSnap? || a.Lose?)
    ensures SameIdentity(s, PollStep(s, i, a), k)
  {
    var g, key := s.polls[i].stage, KeyOf(s.polls[i].profile);
    if a.LoseSnap? && LoadsSnapshot(g) {
      LandKeepsIdentity(s, i, Failing(g.version), key, g.version, Failing(g.version), k);
    } else if a.Lose? && LeadsOnly(g) {
      LandKeepsIdentity(s, i, Failed, key, g.version, Failed, k);
    }
  }

  lemma LookKeepsIdentity(s: Panel, i: nat, a: Action, k: nat)
    requires |s.db| > 0 && i < |s.polls| && k < |s.polls| && (a.Lookup? || a.LookupAgain? || a.LookupSnap? || a.LookupSnapAgain?)
    ensures SameIdentity(s, PollStep(s, i, a), k)
  {
  }

  lemma PlainKeepsIdentity(s: Panel, i: nat, a: Action, k: nat)
    requires |s.db| > 0 && i < |s.polls| && k < |s.polls|
    requires a.Write? || a.Begin? || a.ReadVersion? || a.JoinOrLead? || a.JoinOrLeadSnap? || a.ReadInbounds? || a.ReadUsers? || a.ReadCore? || a.Render?
    ensures SameIdentity(s, PollStep(s, i, a), k)
  {
  }

  lemma PollsKeepIdentity(s: Panel, i: nat, a: Action, k: nat)
    requires |s.db| > 0 && k < |s.polls|
    ensures SameIdentity(s, Step(s, i, a), k)
  {
    if a.Write? || a.Begin? || i >= |s.polls| {
    } else if a.LoseSnap? || a.Lose? {
      LoseKeepsIdentity(s, i, a, k);
    } else if a.Store? || a.StoreSnap? {
      StoreKeepsIdentity(s, i, a, k);
    } else if a.Lookup? || a.LookupAgain? || a.LookupSnap? || a.LookupSnapAgain? {
      LookKeepsIdentity(s, i, a, k);
    } else {
      PlainKeepsIdentity(s, i, a, k);
    }
  }

  function Run(s: Panel, steps: seq<(nat, Action)>): (t: Panel)
    requires |s.db| > 0
    ensures s.db <= t.db
    decreases |steps|
  {
    if steps == [] then s else Run(Step(s, steps[0].0, steps[0].1), steps[1..])
  }

  lemma {:induction false} RunKeeps(s: Panel, steps: seq<(nat, Action)>)
    requires Inv(s)
    ensures Inv(Run(s, steps))
    decreases |steps|
  {
    if steps != [] {
      StepKeeps(s, steps[0].0, steps[0].1);
      RunKeeps(Step(s, steps[0].0, steps[0].1), steps[1..]);
    }
  }

  // ----- Coherence -----

  function Initial(t: Tables): Panel {
    Panel([t], EMPTY_CACHE, [], {}, {})
  }

  /** A build of one profile straight from one state of the database. */
  function Fresh(t: Tables, p: Profile): Payload {
    Body(p, Fleet(t.inbounds, t.proxies), t.core)
  }

  lemma FleetNow(db: seq<Tables>, fleet: seq<Inbound>)
    requires |db| > 0 && FleetSince(db, |db| - 1, fleet)
    ensures fleet == Fleet(db[|db| - 1].inbounds, db[|db| - 1].proxies)
  {
    var rows, proxies :| RowsSince(db, |db| - 1, rows) && UsersSince(db, |db| - 1, proxies) && fleet == Fleet(rows, proxies);
    assert rows == db[|db| - 1].inbounds && proxies == db[|db| - 1].proxies;
  }

  lemma CoreNow(db: seq<Tables>, core: CoreConfig)
    requires |db| > 0 && CoreSince(db, |db| - 1, core)
    ensures core == db[|db| - 1].core
  {
  }

  lemma SinceNowIsFresh(db: seq<Tables>, p: Profile, body: Payload)
    requires |db| > 0 && BodySince(db, |db| - 1, p, body)
    ensures body == Fresh(db[|db| - 1], p)
  {
    var now := db[|db| - 1];
    assert Renders(body, p, Fleet(now.inbounds, now.proxies), now.core) by {
      var fleet, core :| Renders(body, p, fleet, core) && FleetSince(db, |db| - 1, fleet) && CoreSince(db, |db| - 1, core);
      FleetNow(db, fleet);
      CoreNow(db, core);
    }
  }

  /** A body at least as new as a version: read since then, and fresh while it lasts. */
  ghost predicate AsNewAs(db: seq<Tables>, version: nat, p: Profile, body: Payload)
    requires |db| > 0
  {
    BodySince(db, version, p, body) && (version == |db| - 1 ==> body == Fresh(db[|db| - 1], p))
  }

  lemma SinceIsAsNewAs(db: seq<Tables>, version: nat, p: Profile, body: Payload)
    requires |db| > 0 && BodySince(db, version, p, body)
    ensures AsNewAs(db, version, p, body)
  {
    if version == |db| - 1 {
      SinceNowIsFresh(db, p, body);
    }
  }

  lemma CachedIsAsNewAs(s: Panel, p: Profile)
    requires Inv(s) && KeyOf(p) in s.cache.entries
    ensures AsNewAs(s.db, s.cache.entries[KeyOf(p)].version, p, s.cache.entries[KeyOf(p)].body)
  {
    var e := s.cache.entries[KeyOf(p)];
    EntryServes(s.db, p, e, e.version);
    SinceIsAsNewAs(s.db, e.version, p, e.body);
  }

  /** Cache coherence: under every interleaving, an entry filed at version v was read at
      version v or later, and while the version is still v it is what a fresh uncached
      build gives every profile with that key. */
  lemma CacheIsCoherent(t: Tables, steps: seq<(nat, Action)>, p: Profile)
    ensures var s := Run(Initial(t), steps);
            KeyOf(p) in s.cache.entries ==>
              AsNewAs(s.db, s.cache.entries[KeyOf(p)].version, p, s.cache.entries[KeyOf(p)].body)
  {
    RunKeeps(Initial(t), steps);
    var s := Run(Initial(t), steps);
    if KeyOf(p) in s.cache.entries {
      CachedIsAsNewAs(s, p);
    }
  }

  /** Every answer, cached, shared or uncached, was read no earlier than its poll began. */
  lemma AnswersAreFresh(t: Tables, steps: seq<(nat, Action)>, i: nat)
    ensures var s := Run(Initial(t), steps);
            i < |s.polls| && s.polls[i].stage.Done? ==>
              AsNewAs(s.db, s.polls[i].since, s.polls[i].profile, s.polls[i].stage.entry.body)
  {
    RunKeeps(Initial(t), steps);
    var s := Run(Initial(t), steps);
    if i < |s.polls| && s.polls[i].stage.Done? {
      SinceIsAsNewAs(s.db, s.polls[i].since, s.polls[i].profile, s.polls[i].stage.entry.body);
    }
  }

  // ----- One build at a time -----

  /** A poll leads a build of its (key, version) from the moment it wins the flight. */
  predicate Leads(g: Stage) {
    || LeadsOnly(g) || LoadsSnapshot(g) || g.SnapWaiting?
  }

  predicate Held(s: Panel, i: nat)
    requires i < |s.polls|
  {
    var p := s.polls[i];
    && (Leads(p.stage) ==> (KeyOf(p.profile), p.stage.version) in s.flights)
    && (LoadsSnapshot(p.stage) ==> p.stage.version in s.snapFlights)
  }

  predicate Apart(p: Poll, q: Poll) {
    && (Leads(p.stage) && Leads(q.stage) ==> KeyOf(p.profile) != KeyOf(q.profile) || p.stage.version != q.stage.version)
    && (LoadsSnapshot(p.stage) && LoadsSnapshot(q.stage) ==> p.stage.version != q.stage.version)
  }

  /** No two polls build the same entry, and no two load the same version's snapshot. */
  predicate Exclusive(s: Panel) {
    && (forall i | 0 <= i < |s.polls| :: Held(s, i))
    && (forall i, j | 0 <= i < j < |s.polls| :: Apart(s.polls[i], s.polls[j]))
  }

  /** A stage that leads no more than another does. */
  predicate NoMoreThan(after: Stage, before: Stage) {
    && (Leads(after) ==> Leads(before) && after.version == before.version)
    && (LoadsSnapshot(after) ==> LoadsSnapshot(before) && after.version == before.version)
  }

  lemma AtStaysExclusive(s: Panel, i: nat, stage: Stage)
    requires Exclusive(s) && i < |s.polls| && NoMoreThan(stage, s.polls[i].stage)
    ensures Exclusive(At(s, i, stage))
  {
    var t := At(s, i, stage);
    forall k | 0 <= k < |t.polls|
      ensures Held(t, k)
    {
      assert Held(s, k);
    }
    forall j, k | 0 <= j < k < |t.polls|
      ensures Apart(t.polls[j], t.polls[k])
    {
      assert Apart(s.polls[j], s.polls[k]);
    }
  }

  /** The leader lands: it stops leading, and the others learn the result. */
  lemma LandStaysExclusive(s: Panel, i: nat, stage: Stage, result: Stage)
    requires Exclusive(s) && i < |s.polls| && Leads(s.polls[i].stage) && !LoadsSnapshot(s.polls[i].stage)
    requires !Leads(stage) && !Leads(result)
    ensures Exclusive(Land(At(s, i, stage), KeyOf(s.polls[i].profile), s.polls[i].stage.version, result))
  {
    var key, v := KeyOf(s.polls[i].profile), s.polls[i].stage.version;
    AtStaysExclusive(s, i, stage);
    var m := At(s, i, stage);
    var t := Land(m, key, v, result);
    forall k | 0 <= k < |t.polls|
      ensures Held(t, k)
    {
      assert Held(m, k);
      if k < i { assert Apart(s.polls[k], s.polls[i]); }
      if k > i { assert Apart(s.polls[i], s.polls[k]); }
    }
    forall j, k | 0 <= j < k < |t.polls|
      ensures Apart(t.polls[j], t.polls[k])
    {
      assert Apart(m.polls[j], m.polls[k]);
    }
  }

  lemma LandSnapStaysExclusive(s: Panel, i: nat, result: Stage)
    requires Exclusive(s) && i < |s.polls| && LoadsSnapshot(s.polls[i].stage)
    requires Leads(result) && !LoadsSnapshot(result) && result.version == s.polls[i].stage.version
    ensures Exclusive(LandSnap(At(s, i, result), result.version, result))
  {
    AtStaysExclusive(s, i, result);
    var m := At(s, i, result);
    var t := LandSnap(m, result.version, result);
    forall k | 0 <= k < |t.polls|
      ensures Held(t, k)
    {
      assert Held(m, k);
      if k < i { assert Apart(s.polls[k], s.polls[i]); }
      if k > i { assert Apart(s.polls[i], s.polls[k]); }
    }
    forall j, k | 0 <= j < k < |t.polls|
      ensures Apart(t.polls[j], t.polls[k])
    {
      assert Apart(m.polls[j], m.polls[k]);
    }
  }

  lemma LeadStaysExclusive(s: Panel, i: nat)
    requires Exclusive(s) && i < |s.polls| && s.polls[i].stage.Missed?
    requires (KeyOf(s.polls[i].profile), s.polls[i].stage.version) !in s.flights
    ensures var v := s.polls[i].stage.version;
            Exclusive(At(s, i, Leading(v)).(flights := s.flights + {(KeyOf(s.polls[i].profile), v)}))
  {
    var v := s.polls[i].stage.version;
    var t := At(s, i, Leading(v)).(flights := s.flights + {(KeyOf(s.polls[i].profile), v)});
    forall k | 0 <= k < |t.polls|
      ensures Held(t, k)
    {
      assert Held(s, k);
    }
    forall j, k | 0 <= j < k < |t.polls|
      ensures Apart(t.polls[j], t.polls[k])
    {
      assert Apart(s.polls[j], s.polls[k]) && Held(s, j) && Held(s, k);
    }
  }

  lemma LeadSnapStaysExclusive(s: Panel, i: nat)
    requires Exclusive(s) && i < |s.polls| && s.polls[i].stage.SnapMissed? && s.polls[i].stage.version !in s.snapFlights
    ensures var v := s.polls[i].stage.version;
            Exclusive(At(s, i, SnapLeading(v)).(snapFlights := s.snapFlights + {v}))
  {
    var v := s.polls[i].stage.version;
    var t := At(s, i, SnapLeading(v)).(snapFlights := s.snapFlights + {v});
    forall k | 0 <= k < |t.polls|
      ensures Held(t, k)
    {
      assert Held(s, k);
    }
    forall j, k | 0 <= j < k < |t.polls|
      ensures Apart(t.polls[j], t.polls[k])
    {
      assert Apart(s.polls[j], s.polls[k]) && Held(s, j) && Held(s, k);
    }
  }

  lemma FlightStepStaysExclusive(s: Panel, i: nat, a: Action)
    requires Exclusive(s) && |s.db| > 0 && i < |s.polls| && (a.JoinOrLead? || a.JoinOrLeadSnap?)
    ensures Exclusive(PollStep(s, i, a))
  {
    var g, key := s.polls[i].stage, KeyOf(s.polls[i].profile);
    if a.JoinOrLead? && g.Missed? {
      if (key, g.version) in s.flights {
        AtStaysExclusive(s, i, Waiting(g.version));
      } else {
        LeadStaysExclusive(s, i);
      }
    } else if a.JoinOrLeadSnap? && g.SnapMissed? {
      if g.version in s.snapFlights {
        AtStaysExclusive(s, i, SnapWaiting(g.version));
      } else {
        LeadSnapStaysExclusive(s, i);
      }
    }
  }

  lemma LookAgainStaysExclusive(s: Panel, i: nat, a: Action)
    requires Exclusive(s) && |s.db| > 0 && i < |s.polls| && (a.LookupAgain? || a.LookupSnapAgain?)
    ensures Exclusive(PollStep(s, i, a))
  {
    var g, key := s.polls[i].stage, KeyOf(s.polls[i].profile);
    if a.LookupAgain? && g.Leading? {
      var e := Found(s.cache, key, g.version, a.expired);
      if e.Some? {
        LandStaysExclusive(s, i, Done(e.value), Done(e.value));
      } else {
        AtStaysExclusive(s, i, WantsSnapshot(g.version));
      }
    } else if a.LookupSnapAgain? && g.SnapLeading? {
      var snap := FoundSnapshot(s.cache, g.version, a.expired);
      if snap.Some? {
        LandSnapStaysExclusive(s, i, Holding(g.version, true, snap.value));
      } else {
        AtStaysExclusive(s, i, Load0(g.version, true));
      }
    }
  }

  lemma CacheIsBeside(s: Panel, c: Cache)
    requires Exclusive(s)
    ensures Exclusive(s.(cache := c))
  {
    assert forall k | 0 <= k < |s.polls| :: Held(s, k) ==> Held(s.(cache := c), k);
  }

  lemma StoreStaysExclusive(s: Panel, i: nat, a: Action)
    requires Exclusive(s) && |s.db| > 0 && i < |s.polls| && (a.Store? || a.StoreSnap?)
    ensures Exclusive(PollStep(s, i, a))
  {
    var g, key := s.polls[i].stage, KeyOf(s.polls[i].profile);
    if a.Store? && g.Rendered? {
      var c := Stored(s.cache, key, g.entry, a.expiredKeys);
      CacheIsBeside(s, c);
      LandStaysExclusive(s.(cache := c), i, Done(g.entry), Done(g.entry));
    } else if a.StoreSnap? && g.Loaded? {
      var c := s.cache.(snap := Some(g.snap));
      CacheIsBeside(s, c);
      LandSnapStaysExclusive(s.(cache := c), i, Holding(g.version, true, g.snap));
    }
  }

  lemma LoseStaysExclusive(s: Panel, i: nat, a: Action)
    requires Exclusive(s) && |s.db| > 0 && i < |s.polls| && (a.Lose? || a.LoseSnap?)
    ensures Exclusive(PollStep(s, i, a))
  {
    var g := s.polls[i].stage;
    if a.LoseSnap? && LoadsSnapshot(g) {
      LandSnapStaysExclusive(s, i, Failing(g.version));
    } else if a.Lose? && LeadsOnly(g) {
      LandStaysExclusive(s, i, Failed, Failed);
    } else if a.Lose? && LoadsUncached(g) {
      AtStaysExclusive(s, i, Failed);
    }
  }

  lemma PollStepStaysExclusive(s: Panel, i: nat, a: Action)
    requires Exclusive(s) && |s.db| > 0 && i < |s.polls|
    ensures Exclusive(PollStep(s, i, a))
  {
    if a.JoinOrLead? || a.JoinOrLeadSnap? {
      FlightStepStaysExclusive(s, i, a);
    } else if a.LookupAgain? || a.LookupSnapAgain? {
      LookAgainStaysExclusive(s, i, a);
    } else if a.Store? || a.StoreSnap? {
      StoreStaysExclusive(s, i, a);
    } else if a.Lose? || a.LoseSnap? {
      LoseStaysExclusive(s, i, a);
    } else {
      PlainStepStaysExclusive(s, i, a);
    }
  }

  lemma PlainStepStaysExclusive(s: Panel, i: nat, a: Action)
    requires Exclusive(s) && |s.db| > 0 && i < |s.polls|
    requires a.Write? || a.Begin? || a.ReadVersion? || a.Lookup? || a.LookupSnap? || a.ReadInbounds? || a.ReadUsers? || a.ReadCore? || a.Render?
    ensures Exclusive(PollStep(s, i, a))
  {
    if PollStep(s, i, a) != s {
      AtStaysExclusive(s, i, PollStep(s, i, a).polls[i].stage);
      assert PollStep(s, i, a) == At(s, i, PollStep(s, i, a).polls[i].stage);
    }
  }

  lemma {:induction false} RunStaysExclusive(s: Panel, steps: seq<(nat, Action)>)
    requires Exclusive(s) && |s.db| > 0
    ensures Exclusive(Run(s, steps))
    decreases |steps|
  {
    if steps != [] {
      var i, a := steps[0].0, steps[0].1;
      var t := Step(s, i, a);
      if a.Write? {
        assert forall k | 0 <= k < |t.polls| :: Held(s, k) ==> Held(t, k);
      } else if a.Begin? {
        assert forall k | 0 <= k < |s.polls| :: Held(s, k) ==> Held(t, k);
      } else if i < |s.polls| {
        PollStepStaysExclusive(s, i, a);
      }
      RunStaysExclusive(t, steps[1..]);
    }
  }

  /** Whatever the interleaving, a payload is being built by one poll at a time for each
      profile and version, and the tables are being read by one poll at a time for each
      version. */
  lemma BuildsAreExclusive(t: Tables, steps: seq<(nat, Action)>)
    ensures Exclusive(Run(Initial(t), steps))
  {
    RunStaysExclusive(Initial(t), steps);
  }
}
