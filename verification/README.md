# Formal model of the panel and its nodes

A Dafny model of the parts of the program where a mistake would be hard to see:

* **Config sync**, from the panel's database to the sing-box core on a node. The panel
  reads a data version and then the tables, keeps one fleet snapshot per version and one
  rendered body per profile (`PanelCache`), narrows and overrides the fleet config per
  profile (`NodeProfile`, `Overrides`), guards that merge when anything is saved
  (`CoreValidation`, `ConfigSaves`) and splices the body together (`FleetSnapshot`,
  `NodeConfigBody`). The node reads it (`BodyReading`), compiles it (`Listeners`,
  `CoreOptions`) and, tick by tick, ignores, hot-applies or restarts (`HotApply`,
  `NodeAgent`). What this means is proved in `Acceptance`, `DialerGuarantees`, `Routing`,
  `CompileGuarantees`, `HotRefinement`, `NodeRuns` and, for panel and node together,
  `ConfigSync` and `ServedRouting`.
* **Live logs**, from a node's ring (`LogRing`) through the panel's list (`LiveLogs`,
  `LogDelivery`) to a dashboard that follows it with a cursor (`LogReader`).
* **Dump parsers** written by hand: PostgreSQL COPY (`CopyText`, `PgDump`,
  `PgDumpRoundTrip`) and MySQL VALUES (`MySqlValues`).
* Three rewrites: a WireGuard config (`WireGuardConf`), an import merge (`ImportMerge`)
  and a stable partial sort in place (`LoadSort`).

`Wire` is the contract between panel and node. `Options`, `Decimal`, `Text`, `Json`, `Seqs`, `Sorting`
and `LogEntries` hold what several modules share.

Code that works by loops or by updating fields and arrays is a method or a class here,
proved equal to a function; the properties are lemmas about those functions. Protocols are
state machines, with every interleaving of their steps: the database is its own history,
and a poll of the panel and a tick of the node are several steps each.

## Assumptions

* SHA-256 is injective. Inbound tags are distinct and the ports of an inbound are distinct:
  the database establishes the first and the loader the second. Inbound tags hold no `#`;
  the comment on derived tags assumes so (cmd/node/main.go:441-443), and nothing checks it.
* A write to any table behind a payload bumps the data version together with its change.
* Fleet saves and node saves are atomic with their validation.
* An update of one listener's users is all or nothing and projects users as a build does.
* Manual `POST /start` and `PUT /inbounds/{tag}/users` are outside the runs: they change
  the core behind the pull loop's back. `POST /stop` is inside.
* One node's log posts are handled one at a time, a node's list and cursor expire
  together, and a restarted node's clock is past its last id.
* A cached entry's age only shows as a lookup that misses.

## Where the code does less than it promises

Each has an example and the exact condition under which the promise holds.

* After a hot apply that failed on some listeners, a different config can be recorded as
  running while a listener keeps users of the failed one (`NodeRuns.StaleUsersSurvive`; the
  condition is in `HotRefinement.HotApplyExact`).
* An inbound tag may be spelled like the derived tag of another inbound. A rule for it takes
  over a port of the other on nodes that do not serve it (`ServedRouting.AcceptedHijack`; the
  condition is in `Routing.RuleExact`, and `ServedRouting.StoredRulesNeverHijack` shows that
  tags without `#` are enough).
* Destination ports of rules and ports of outbounds are cut to 16 bits without a check
  (`CompileGuarantees.RulePortWraps` and `CompileGuarantees.DialPortWraps`; the conditions are
  `Routing.CriteriaPreserved` and `CompileGuarantees.DialsAdminPort`).
* `If-None-Match` is split at commas inside entity tags too, so a tag such as `"a,*,b"` is
  answered 304 for every version (`NodeConfigBody.CommaStarMatchesAll`, with the exact law in
  `NodeConfigBody.ListMatchExactly`).
* Several replicas push to one log list. A line pushed behind a newer one can hide it from a
  reader that has the older one (`LogReader.InterleavedLineIsMissed`, with the exact condition
  in `LogReader.CursorReadExact`).
* An outbound named like a generated one, `direct-out` for instance, passes validation and
  collides on the node (`CompileGuarantees.CollisionValidates` and, for the condition,
  `CompileGuarantees.EmittedDistinct`).
* The primary host's port is not range-checked, so an inbound with one real port can be
  sent with another (`FleetSnapshot.PrimaryPortWraps` and `FleetSnapshot.PortsAreTheHosts`).
* Repeats in a profile's lists change its cache key, although the comment on `key` says
  they do not (`NodeProfile.RepeatsChangeOnlyTheKey` and `NodeProfile.KeysEqual`).

## Model

| member | source | states |
|---|---|---|
| `ConfigSync.ConditionalPollingIsSound` | internal/httpapi/nodeconfig.go:489-514 | in every run, a 304 for a request that left with no failed hot apply waiting means that the core the node ran when the request left is the compilation of a payload each of whose tables was read no earlier than the poll began |
| `ConfigSync.OneTickConverges` | cmd/node/main.go:1459-1538 | once the database stops changing, one tick that is answered, on a core that takes what it is given, ends with the node running the compilation of a fresh build of its profile, by 304 or by a sent config, also when it is the retry of a failed hot apply |
| `ConfigSync.AnswerConverges` | cmd/node/main.go:1491-1538 | one answer a cooperating core can build leaves the core equal to that answer's compilation, whichever of the four branches takes it |
| `ConfigSync.CooperatingTakesAll` | cmd/node/main.go:1513-1531 | a core that takes updates for its own listeners takes every update a compatible diff asks for: each names a running listener of the right protocol |
| `ConfigSync.BodyWellFormed` | internal/httpapi/nodeconfig.go:222-357 | whatever mix of database versions its tables were read at, a body has distinct tags and distinct ports per inbound, and the node can recover its version's content from it |
| `ConfigSync.BuildableIffCiphersRun` | internal/httpapi/nodeconfig.go:82-96 | what the panel serves can fail to build on the node only through the core config or a shadowsocks cipher the node cannot run |
| `PanelCache.CacheIsCoherent` | internal/httpapi/nodeconfigcache.go:136-184 | under every interleaving of polls, writes, shared builds, failures, expiry and late stores, each table behind an entry filed at version v was read at version v or later, and while the version is still v the entry is what a fresh build gives every profile with that key |
| `PanelCache.AnswersAreFresh` | internal/httpapi/nodeconfigcache.go:145-184 | every answer, cached, shared or uncached, was read no earlier than its poll began |
| `PanelCache.BuildsAreExclusive` | internal/httpapi/nodeconfigcache.go:98-118 | at most one poll at a time builds the entry of a key and version, and at most one loads the snapshot of a version |
| `PanelCache.EntryServes` | internal/httpapi/nodeconfigcache.go:159-163 | an entry stored for one profile is right for every profile with the same key |
| `PanelCache.NodeConfigCache.Lookup` | internal/httpapi/nodeconfigcache.go:53-61 | a hit is the stored entry, and only at exactly the asked version |
| `PanelCache.NodeConfigCache.Store` | internal/httpapi/nodeconfigcache.go:63-79 | older and expired entries go, everything else stays, and the entry is kept even where a newer one stood |
| `PanelCache.NodeConfigCache.LookupSnapshot` | internal/httpapi/nodeconfigcache.go:81-88 | a hit is the one stored snapshot, at exactly the asked version |
| `PanelCache.NodeConfigCache.StoreSnapshot` | internal/httpapi/nodeconfigcache.go:90-94 | the snapshot is replaced and the entries are left alone |
| `PanelCache.StoredIsFound` | internal/httpapi/nodeconfigcache.go:53-79 | after a store its entry is found at its version, and any other unexpired entry exactly at versions not below it |
| `PanelCache.StoredSnapshotIsFound` | internal/httpapi/nodeconfigcache.go:81-94 | after a store the snapshot is found at its version and at no other, and every entry as before |
| `NodeRuns.NodeRunsLastPulled` | cmd/node/main.go:1540-1547 | in every run of ticks, stops and failing closes, builds and starts, a node that holds itself to be running lastPulled runs its build, or nothing when it has no inbounds, unless a failed hot apply is waiting to be retried |
| `NodeRuns.EveryListenerExplained` | cmd/node/main.go:1516-1536 | without that condition the core is lastPulled's and so are the listeners in tag, port and options, one for each port; each listener's users are those of lastPulled or of a config whose hot apply failed since the core was started, and such configs differ from lastPulled in user lists alone |
| `NodeRuns.RetriedCoreIsOfTwo` | cmd/node/main.go:1525-1536 | in every run in which a failed config is retried until it is taken, at most one config waits, and every running listener is as lastPulled or as that config builds it |
| `NodeRuns.TakenRetrySettles` | cmd/node/main.go:1513-1536 | after any run, an answer that retries what waits, if anything does, and is taken leaves nothing waiting and the node running that answer's config on every listener |
| `NodeRuns.StaleUsersSurvive` | cmd/node/main.go:1504-1538 | without it the invariant is false: a half applied config followed by one that reverts half of it leaves users of the failed config on a listener the node takes for up to date |
| `NodeRuns.AnswerInv` | cmd/node/main.go:1491-1538 | receiving a config keeps the run invariant in every branch |
| `NodeAgent.Server.StartNode` | cmd/node/main.go:222-239 | starts exactly when the options can be built and the core can be created and started, and then supervises its fail-open groups; otherwise nothing changes |
| `NodeAgent.Server.StopNode` | cmd/node/main.go:242-262 | the core, its supervision and the plan are gone whatever closing reports, and that is passed on; lastPulled stays |
| `NodeAgent.Server.HandleStop` | cmd/node/main.go:606-618 | stopping a node that runs nothing succeeds and changes nothing |
| `NodeAgent.Server.ApplyFull` | cmd/node/main.go:1552-1562 | a failed start leaves no core and the old lastPulled |
| `NodeAgent.Server.PullSend` | cmd/node/main.go:1466-1470 | the condition is sent exactly when lastPulled is taken to be running |
| `NodeAgent.Server.PullReceive` | cmd/node/main.go:1491-1538 | ignore, record, restart or hot apply, with the new state of every branch |
| `NodeAgent.SameVersionIsLeftAlone` | cmd/node/main.go:1491-1503 | an answer of the version the node runs leaves the node as it is |
| `HotRefinement.HotApplyRefinesRestart` | cmd/node/main.go:1513-1531 | on a core that runs the previous config, a diff without restart and a hot list the core takes give the tags, ports, options, ciphers, users and routes of a fresh build of the new config, up to listener order |
| `HotRefinement.HotApplyExact` | cmd/node/main.go:1513-1531 | on any core of the right shape the outcome is the new build if and only if every listener outside the hot list already carried the new users |
| `HotApply.RestartAvoidedExactly` | cmd/node/main.go:1578-1613 | for configs of distinct tags the core is left running if and only if the core configs are equal, the tags are the same, and each inbound differs from its namesake in nothing or in its user list alone, for one of the eight protocols that take new users and, under shadowsocks, where both lists settle on one cipher |
| `HotApply.RestartExact` | cmd/node/main.go:1578-1613 | a diff without restart is just what a running core can be taken through: same tags, and a hot change per inbound |
| `HotApply.HotListExact` | cmd/node/main.go:1596-1611 | the hot list is exactly the inbounds whose users changed |
| `HotApply.DiffPulledConfig` | cmd/node/main.go:1578-1613 | the loops decide and list just that |
| `HotApply.HotUpdate` | cmd/node/main.go:1518-1530 | one update reaches the listeners of its tags and no other, and reports whether each tag found a listener that took it |
| `HotApply.HotApplyAll` | cmd/node/main.go:1516-1531 | the loop over the hot list, with what every listener becomes and whether anything failed |
| `HotApply.HotListenerEffect` | cmd/node/main.go:1516-1531 | a listener ends up with its own inbound's users, whatever else is on the list |
| `HotApply.CompatibleCores` | cmd/node/main.go:1584-1595 | configs that need no restart compile to the same outbounds, routes and DNS |
| `HotApply.CipherIsNotProjected` | cmd/node/main.go:677-683 | dropping the cipher from hot users changes no account |
| `Listeners.BuildInbounds` | cmd/node/main.go:794-933 | builds every listener, or fails with the first inbound that cannot be built |
| `Listeners.BuildPorts` | cmd/node/main.go:806-931 | one listener per port, with the derived tags and ciphers the node remembers |
| `Listeners.ListenerTagInjective` | cmd/node/main.go:444-446 | a listener tag determines its inbound and its port |
| `Listeners.DerivedTagInjective` | cmd/node/main.go:444-446 | a derived tag determines tag and port, for tags without the separator |
| `Listeners.ListenersMembers` | cmd/node/main.go:794-933 | the listeners are exactly one per served port of each known protocol |
| `Listeners.ListenersAreDistinct` | cmd/node/main.go:794-933 | no two listeners share a tag |
| `Listeners.PlanDerived` | cmd/node/main.go:728-733 | the plan names the listeners behind every inbound, single- or multi-port |
| `Listeners.PortsByTagLookup` | cmd/node/main.go:799-805 | the port table holds every inbound's ports |
| `Listeners.ListenersServe` | cmd/node/main.go:806-931 | every listener serves one port of one inbound and every port of every inbound of the eight protocols has one: account k holds the name and the credentials of user k that its protocol uses, flow under VLESS included, and the options hold the inbound's cipher, obfuscation, bandwidths, TLS, transport or psk |
| `Listeners.BuildableExactly` | cmd/node/main.go:781-860 | a fleet can be built if and only if every transport is one of two and every shadowsocks inbound settles on a cipher the node runs |
| `Listeners.PlanCiphers` | cmd/node/main.go:855-875 | the plan remembers the cipher of each shadowsocks inbound, and of no other |
| `HotApply.BuildOptionsPlan` | cmd/node/main.go:794-947 | the whole translation, or an error when some part cannot be built |
| `CoreOptions.EmitOutbound` | cmd/node/main.go:1170-1212 | a leaf, a group, a block stub, or the three outbounds of a fail-open group |
| `CoreOptions.BuildOutbounds` | cmd/node/main.go:1159-1212 | fails exactly on an unknown type, naming its outbound |
| `CoreOptions.InboundMatchTags` | cmd/node/main.go:1117-1148 | the listener tags a rule's inbound list stands for |
| `CoreOptions.BuildRules` | cmd/node/main.go:1214-1272 | rules in order behind the sniff rule, those left without a listener dropped |
| `CoreOptions.BuildDns` | cmd/node/main.go:1274-1307 | fails exactly on an unknown DNS type |
| `CoreOptions.BuildCoreOptions` | cmd/node/main.go:1159-1310 | compiles exactly the configs whose outbound and DNS types are known; a missing core compiles like an empty one |
| `Routing.RoutingPreserved` | cmd/node/main.go:1214-1272 | for every core and every connection on a served port, the first matching compiled rule has the target of the first matching source rule, over sniffing, dropped rules, unknown inbounds, multi-port inbounds and the default route |
| `Routing.RuleExact` | cmd/node/main.go:1117-1148 | a rule keeps its meaning on a listener, for all cores and connections, if and only if it does not spell that listener's derived tag as an inbound of its own and, should it admit the listener, truncation adds no destination port |
| `Routing.InboundCriterion` | cmd/node/main.go:1117-1148 | the compiled inbound list admits a listener if and only if the source admits its inbound and port, or hijacks it |
| `Routing.CriteriaPreserved` | cmd/node/main.go:1257-1263 | destination criteria keep their meaning if and only if the ports survive the cast to 16 bits |
| `ServedRouting.QuietPanelRoutesAsSaved` | cmd/node/main.go:1214-1272 | end to end: on any reachable panel with plain tags whose database has stopped changing, one answered tick leaves the node listening on every port its profile admits, and every connection there goes where the first matching saved rule, node rules before fleet rules, sends it |
| `ServedRouting.StoredRulesNeverHijack` | internal/httpapi/coreconfig.go:378-420 | over any sequence of saves on a panel whose inbound tags hold no separator, no rule a node is served hijacks any listener |
| `ServedRouting.AcceptedHijack` | internal/httpapi/coreconfig.go:400-412 | with an inbound tag that holds the separator, which nothing rejects, a rule passes every check and on a node that does not serve that inbound blocks a port of another |
| `CoreValidation.ValidateCoreConfig` | internal/httpapi/coreconfig.go:202-362 | accepts exactly the valid configs, and a rejection names a defect the config has |
| `CoreValidation.CheckOutbounds` | internal/httpapi/coreconfig.go:206-314 | the first defect of the outbound list, and the tags seen |
| `CoreValidation.CheckRule` | internal/httpapi/coreconfig.go:315-344 | the first defect of one rule |
| `CoreValidation.CheckDns` | internal/httpapi/coreconfig.go:345-361 | the first defect of the DNS list |
| `ConfigSaves.MergedConfigsStayValid` | internal/httpapi/nodeprofile.go:402-419 | over any sequence of fleet saves and node saves, every node's merged config passes validation |
| `ConfigSaves.ServedConfigsCompile` | internal/httpapi/coreconfig.go:378-420 | so over any such sequence what a node is served compiles, and its rules go to outbounds it has |
| `ConfigSaves.ValidateCoreOverrides` | internal/httpapi/nodeprofile.go:108-130 | accepts exactly the overrides whose outbounds are distinct, whose merge is valid and whose rules name known inbounds |
| `ConfigSaves.ValidateNodesAgainstFleet` | internal/httpapi/nodeprofile.go:402-419 | accepts a fleet config exactly when every stored node still merges into a valid one |
| `ConfigSaves.Panel.ApplyCoreConfig` | internal/httpapi/coreconfig.go:378-440 | saves exactly when the fleet config and every node's merge are valid, and otherwise leaves the rows alone |
| `ConfigSaves.Panel.SaveNodeOverrides` | internal/httpapi/nodeprofile.go:368-394 | saves exactly the overrides that merge into a valid config |
| `ConfigSaves.SavesAcceptExactly` | internal/httpapi/coreconfig.go:378-420 | a fleet save is accepted if and only if the config is acceptable, names known inbounds and leaves every node an acceptable merge; a node save if and only if its merge is |
| `ConfigSaves.SavedIsServed` | internal/httpapi/coreconfig.go:378-440 | an accepted config is kept as sent but for a missing log level and the stamp, an accepted override takes effect on its node alone, and a rejected save changes nothing |
| `CompileGuarantees.OutboundTypesAgree` | internal/httpapi/coreconfig.go:38-44 | the panel's list of outbound types and the node's switch accept the same types |
| `CompileGuarantees.CompilesExactly` | internal/httpapi/coreconfig.go:38-45 | a config compiles if and only if its outbound and DNS types are on the panel's two lists |
| `CompileGuarantees.ValidCompiles` | cmd/node/main.go:1159-1310 | so a config that passes validation always compiles |
| `CompileGuarantees.RouteTargetsExist` | cmd/node/main.go:1214-1272 | and every rule goes to an emitted outbound |
| `CompileGuarantees.GroupMembersExist` | cmd/node/main.go:1176-1182 | and every member of every group is emitted |
| `CompileGuarantees.FallbackGroupsWork` | cmd/node/main.go:1183-1212 | a fail-open group dials as the admin's outbound on its primary and as that outbound without the bind on its fallback |
| `CompileGuarantees.DialsAdminPort` | cmd/node/main.go:1003-1101 | an outbound dials the admin's port if and only if the port fits 16 bits |
| `CompileGuarantees.DialPortWraps` | internal/httpapi/coreconfig.go:219-229 | an outbound for port 65979 passes validation and dials port 443 |
| `CompileGuarantees.RulePortWraps` | internal/httpapi/coreconfig.go:315-335 | a rule for port 65979 passes validation and matches port 443 |
| `CompileGuarantees.EmittedDistinct` | cmd/node/main.go:1159-1212 | emitted tags are distinct if and only if no admin tag is a generated one |
| `CompileGuarantees.CollisionValidates` | internal/httpapi/coreconfig.go:206-213 | an admin tag that collides with a generated one passes validation |
| `Acceptance.AcceptedExactly` | internal/httpapi/coreconfig.go:202-362 | a config passes validation if and only if it is acceptable, spelled out over its fields: per type what must be filled in, the listed ciphers, securities and modes, versions and bandwidths, distinct tags, members and targets that exist, and the criteria of rules and servers |
| `Acceptance.AcceptedDialersAreComplete` | internal/httpapi/coreconfig.go:202-314 | what acceptance gives the node: every dialer of an accepted config has a server where it dials one, and the uuid, password, username, cipher, security, bandwidths, version or psk its protocol cannot do without |
| `DialerGuarantees.EmittedDialers` | cmd/node/main.go:1003-1101 | every dialer a node runs is the plain one, or holds field by field what the admin put into one outbound, bound as configured or, behind a fallback, unbound |
| `DialerGuarantees.EmitsExactly` | cmd/node/main.go:1159-1212 | what each outbound runs as, and what a fail-open selector starts on |
| `DialerGuarantees.SupervisedExactly` | cmd/node/main.go:1195-1212 | the supervisor is given exactly the outbounds that are to fail open |
| `DialerGuarantees.GroupKeepsMembers` | cmd/node/main.go:1176-1182 | a group keeps its members in order, under the tags they run as |
| `DialerGuarantees.CoreKeepsDns` | cmd/node/main.go:1274-1307 | one server per configured one, asked at its address, port and path, in order |
| `Overrides.Apply` | internal/httpapi/nodeprofile.go:65-102 | the merged config is fresh memory and the fleet's slices are not written to |
| `Overrides.MergeOutbounds` | internal/httpapi/nodeprofile.go:79-95 | the tag index loop computes the merge |
| `Overrides.MergeInto` | internal/httpapi/nodeprofile.go:86-93 | one override replaces its tag's cell or is appended |
| `Overrides.MergeLookup` | internal/httpapi/nodeprofile.go:79-95 | looking up a tag gives the node's outbound if it has one, else the fleet's |
| `Overrides.MergeKeepsOrder` | internal/httpapi/nodeprofile.go:79-95 | fleet outbounds keep their positions and tags stay distinct |
| `Overrides.MergeAppendsNew` | internal/httpapi/nodeprofile.go:79-95 | new tags follow the fleet's, in the node's order |
| `Overrides.RulesShadow` | internal/httpapi/nodeprofile.go:96-100 | under first match node rules decide what they match, and the fleet's rules the rest |
| `Overrides.NodeSettingsWin` | internal/httpapi/nodeprofile.go:65-102 | log level, sniffing and DNS servers are the node's where it sets them and the fleet's elsewhere; rules are the node's, then the fleet's |
| `Overrides.ZeroChangesNothing` | internal/httpapi/nodeprofile.go:35-41 | overrides that say nothing are the only ones that count as none, and leave every fleet config as it is |
| `NodeProfile.FilterInbounds` | internal/httpapi/nodeprofile.go:182-240 | the filter loop computes the narrowed fleet |
| `NodeProfile.FilterIsExact` | internal/httpapi/nodeprofile.go:182-240 | a node serves precisely the fleet's listeners whose tag and port its profile admits, in order |
| `NodeProfile.FilterServes` | internal/httpapi/nodeprofile.go:182-240 | a port of a tag is served if and only if the fleet serves it, the profile names the tag or no tag, and it names a number that is this port modulo 65536, or none |
| `NodeProfile.FilterKeepsConsistency` | internal/httpapi/nodeprofile.go:221-236 | a served inbound differs from the fleet's in ports alone; its port is one of those served and its list is set only for two or more |
| `NodeProfile.FilterWellFormed` | internal/httpapi/nodeprofile.go:182-240 | distinct tags and ports stay distinct |
| `NodeProfile.KeysEqual` | internal/httpapi/nodeprofile.go:152-169 | keys are equal if and only if the lists hold the same things equally often and the overrides are the same |
| `NodeProfile.EqualKeysEqualPayload` | internal/httpapi/nodeprofile.go:152-169 | equal keys get equal payloads for every fleet |
| `NodeProfile.RepeatsChangeOnlyTheKey` | internal/httpapi/nodeprofile.go:152-153 | a repeat changes the key, against the comment, and nothing served |
| `FleetSnapshot.Load` | internal/httpapi/nodeconfig.go:222-340 | the three loops prepare each protocol's users and every inbound |
| `FleetSnapshot.GroupUsers` | internal/httpapi/nodeconfig.go:238-274 | each usable row lands once in its protocol's list, in order |
| `FleetSnapshot.StripFlows` | internal/httpapi/nodeconfig.go:276-293 | every inbound that must not carry flows finds its list |
| `FleetSnapshot.UsersAreComplete` | internal/httpapi/nodeconfig.go:238-309 | each row of an inbound's protocol that has settings puts its user on the inbound once, in row order, and nothing else does; protocol by protocol the user holds the row's id, password, cipher or key and nothing else, and its flow is the row's exactly on VLESS or Trojan inbounds over TLS or REALITY on raw TCP or kcp without an HTTP header |
| `FleetSnapshot.RowIsSent` | internal/httpapi/nodeconfig.go:295-340 | everything else of a row, field by field: tag, protocol, TLS or REALITY, transport, and the settings of Hysteria2, TUIC and Snell, each blank under other protocols |
| `FleetSnapshot.PortsAreTheHosts` | internal/httpapi/nodeconfig.go:172-198 | an inbound is sent with the real ports of its hosts if and only if there are two of them, or the primary host's port is real, or it wraps onto the only real one |
| `FleetSnapshot.PrimaryPortWraps` | internal/httpapi/nodeconfig.go:304-305 | an example where the primary port wraps to a port no host has |
| `FleetSnapshot.PrimaryIsServed` | internal/httpapi/nodeconfig.go:108-113 | a real primary port is one of those served |
| `FleetSnapshot.FleetWellFormed` | internal/httpapi/nodeconfig.go:222-357 | rows with distinct tags give a fleet the node can build on |
| `FleetSnapshot.MultiListenPorts` | internal/httpapi/nodeconfig.go:188-198 | empty below two real ports, else all of them |
| `NodeConfigBody.BuildBody` | internal/httpapi/nodeconfig.go:222-443 | for all rows and every profile, encoding each user list once, splicing it in and inserting the version gives the bytes of encoding the response directly |
| `NodeConfigBody.Render` | internal/httpapi/nodeconfig.go:366-403 | the spliced bytes are the canonical encoding, and the version is their digest |
| `NodeConfigBody.LoadSnapshot` | internal/httpapi/nodeconfig.go:342-357 | every inbound's prepared bytes are the encoding of its users |
| `NodeConfigBody.BodyBytes` | internal/httpapi/nodeconfig.go:416-443 | the splice is exact |
| `NodeConfigBody.SpliceIsExact` | internal/httpapi/nodeconfig.go:425-436 | the guard of the splice never fails |
| `NodeConfigBody.EtagMatches` | internal/httpapi/nodeconfig.go:468-477 | the loop looks for a matching part |
| `NodeConfigBody.ListMatchExactly` | internal/httpapi/nodeconfig.go:468-477 | on any list of weak or strong entity tags, commas inside tags included, a match if and only if the panel's tag is on it or some listed tag has a star between two commas |
| `NodeConfigBody.CommaStarMatchesAll` | internal/httpapi/nodeconfig.go:468-477 | one legal tag that is answered 304 whatever the version is |
| `NodeConfigBody.OwnTagMatches` | cmd/node/main.go:1467-1469 | the tag the node sends back matches if and only if its version is current |
| `BodyReading.BodyReadsBack` | cmd/node/main.go:448-484 | the node's structs read out of the rendered body exactly the version and inbounds that went into it, by field name and with omitted fields blank |
| `LogRing.Ring.Add` | internal/nodelog/ring.go:53-77 | a line too long is cut where a character begins, ids strictly increase whatever the clock says, and the oldest line goes when the ring is full |
| `LogRing.Ring.Since` | internal/nodelog/ring.go:87-103 | the oldest lines after a cursor, by binary search |
| `LogRing.Ring.NewestLines` | internal/nodelog/ring.go:105-120 | the newest lines |
| `LogRing.Ring.SelectLiveLogs` | cmd/node/live.go:265-275 | lines after the cursor, or the newest few when the ring does not reach back |
| `LiveLogs.PrepareNodeLogs` | internal/httpapi/nodelive.go:227-258 | filter, normalise, stable sort, dedupe over the same array, cap |
| `LiveLogs.StoredAsNormalises` | internal/httpapi/nodelive.go:236-244 | the normalisation keeps ids, leaves one of four levels, a stamp and a bounded line, and changes a line within bounds no further |
| `LiveLogs.DedupeInPlace` | internal/httpapi/nodelive.go:246-253 | compaction in place keeps the first of equal ids |
| `LiveLogs.PreparedIsExact` | internal/httpapi/nodelive.go:227-258 | what is stored of any post: above the cursor, increasing, the first line of each id, and nothing left out but under a full list of newer lines |
| `LiveLogs.PreparedExactly` | internal/httpapi/nodelive.go:230-258 | the same in terms of the posted lines: what is stored is the first line of each id above the cursor, normalised, and a line is passed over only for its id or under a full list of newer ones |
| `LiveLogs.AppendsAreSafe` | internal/httpapi/nodelive.go:126-163 | for any posts the list is strictly increasing and within its size, and the cursor is its newest id |
| `LiveLogs.NodeLogStore.Append` | internal/httpapi/nodelive.go:126-163 | chunked pushes, trim and cursor amount to one append |
| `LogDelivery.DeliveryIsGapless` | cmd/node/live.go:182-191 | in any run of logging, posts with lost answers, quiet reports and restarts in which every post reaches back, the panel's list is an unbroken run of the node's log |
| `LogDelivery.PostGapExactly` | cmd/node/live.go:265-275 | a post keeps the list gap-free if and only if the ring reaches back to the line the node was told about, or the newest few cover what is missing |
| `LogDelivery.BatchIsNext` | cmd/node/live.go:262-275 | while it does, each stored batch is exactly the next lines, up to five hundred |
| `LogReader.ReadPage` | internal/httpapi/logs.go:194-254 | the doubling read ends on every list, and gives the page of filtering the whole list: with a filter always, with a cursor when no old line stands behind a newer one, with neither on an orderly list |
| `LogReader.CursorReadExact` | internal/httpapi/logs.go:216-223 | reading after a cursor gives the page of the whole list for every page size if and only if no line at or below the cursor stands behind one above it |
| `LogReader.InterleavedLineIsMissed` | internal/httpapi/logs.go:190-193 | two lines pushed out of order, of which a reader never gets the newer |
| `LogReader.ReadLogEntries` | internal/httpapi/logs.go:194-225 | reads exactly as far as the doubling goes, whatever the list holds |
| `LogReader.EnoughIsEnough` | internal/httpapi/logs.go:216-223 | enough of the tail gives the page of the whole list |
| `LogReader.PickLogPage` | internal/httpapi/logs.go:227-245 | the newest matches without a cursor, the oldest after one |
| `LogReader.PageIsExact` | internal/httpapi/logs.go:227-245 | a page is in order, within its size and of matching lines beyond the cursor; a matching line is missing only from a full page, which holds newer lines without a cursor and older ones with one |
| `LogReader.PollingIsExact` | internal/httpapi/logs.go:227-254 | polling with the returned cursor delivers every matching line exactly once and in order, as long as trimming does not pass the cursor |
| `LogReader.ShortPageCatchesUp` | internal/httpapi/logs.go:247-254 | a page that is not full leaves nothing behind |
| `CopyText.UnescapeCopyField` | internal/legacyimport/pgdump.go:209-262 | the loop computes the unescaping |
| `CopyText.ValueRoundTrip` | internal/legacyimport/pgdump.go:209-262 | every value survives printing and parsing |
| `CopyText.OctalEscape` | internal/legacyimport/pgdump.go:243-249 | three octal digits stand for their byte whatever follows, modulo 256 |
| `CopyText.HexEscape` | internal/legacyimport/pgdump.go:250-256 | two hex digits stand for their byte |
| `CopyText.TwoOctalEscape` | internal/legacyimport/pgdump.go:243-249 | two octal digits do where no third follows |
| `CopyText.OneOctalEscape` | internal/legacyimport/pgdump.go:243-249 | and one where no second does |
| `CopyText.OneHexEscape` | internal/legacyimport/pgdump.go:250-256 | one hex digit does where no second follows |
| `CopyText.NamedEscape` | internal/legacyimport/pgdump.go:229-258 | the named escapes, and any other byte for itself |
| `CopyText.ParseCopyRow` | internal/legacyimport/pgdump.go:189-207 | the loop computes the row, or its first kind of error |
| `CopyText.RowRoundTrip` | internal/legacyimport/pgdump.go:189-207 | every row of at least one cell survives; a row of none is rejected |
| `CopyText.RowIsNeverTheEnd` | internal/legacyimport/pgdump.go:73-76 | no printed row, and no part of one, is the end marker |
| `CopyText.CellIsInert` | internal/legacyimport/pgdump.go:195-199 | a printed cell reads as NULL if and only if it is NULL |
| `CopyText.ReadIdentifier` | internal/legacyimport/pgdump.go:156-187 | the loops read one identifier |
| `CopyText.IdentRoundTrip` | internal/legacyimport/pgdump.go:156-187 | identifiers survive printing and reading, quoted or bare |
| `PgDump.ParseColumnList` | internal/legacyimport/pgdump.go:142-152 | the column loop |
| `PgDump.ParseCopyHeader` | internal/legacyimport/pgdump.go:126-154 | the header parser |
| `PgDump.HeaderRoundTrip` | internal/legacyimport/pgdump.go:126-154 | a printed header parses if and only if its table is public and has columns |
| `PgDump.ParsePgDump` | internal/legacyimport/pgdump.go:59-113 | the line loop with its two modes |
| `PgDumpRoundTrip.DumpRoundTrip` | internal/legacyimport/pgdump.go:47-113 | parsing a printed dump returns exactly the public tables it creates and all rows of the wanted public tables with columns |
| `PgDumpRoundTrip.LineEndsDoNotMatter` | internal/legacyimport/pgdump.go:68-72 | a dump whose lines end in carriage return and line feed parses as the same dump |
| `PgDumpRoundTrip.TruncatedIsRejected` | internal/legacyimport/pgdump.go:109-112 | a dump cut anywhere inside a block, from the end of its header's text to just before its end marker is complete, wanted or not, is rejected |
| `MySqlValues.ParseQuotedString` | internal/legacyimport/mysqldump.go:256-301 | one literal, or the error that it does not end |
| `MySqlValues.ParseTuple` | internal/legacyimport/mysqldump.go:206-239 | the inner loop |
| `MySqlValues.ParseValuesTuples` | internal/legacyimport/mysqldump.go:180-254 | ends on every input, with the scan offset as its measure |
| `MySqlValues.ValuesRoundTrip` | internal/legacyimport/mysqldump.go:180-254 | all tuples of NULLs, 64-bit integers, arbitrary byte strings and floating-point tokens survive |
| `MySqlValues.TextRoundTrip` | internal/legacyimport/mysqldump.go:256-301 | every escaped string survives, in front of anything but a quote |
| `MySqlValues.EscapesRead` | internal/legacyimport/mysqldump.go:256-301 | what a doubled quote and each backslash escape stand for |
| `MySqlValues.BlanksMeanNothing` | internal/legacyimport/mysqldump.go:180-239 | blanks in front of a tuple or of a value change nothing |
| `MySqlValues.IntRoundTrip` | internal/legacyimport/mysqldump.go:303-317 | every 64-bit integer survives |
| `WireGuardConf.FixWireGuardConf` | cmd/node/cli_status.go:348-380 | the loop, with both of its counters |
| `WireGuardConf.ClosePeer` | cmd/node/cli_status.go:352-362 | a peer section without a keepalive gets one in front of its trailing blanks |
| `WireGuardConf.FixIsIdempotent` | cmd/node/cli_status.go:340-380 | rewriting a rewritten config changes nothing |
| `WireGuardConf.EveryPeerIsKeptAlive` | cmd/node/cli_status.go:345-347 | behind every line that reads [Peer], in any case and between blanks, a line assigns a keepalive before the next bracket opens |
| `WireGuardConf.NoDnsIsLeft` | cmd/node/cli_status.go:341-344 | where the resolver is not running no DNS line is left |
| `WireGuardConf.OrderIsKept` | cmd/node/cli_status.go:363-379 | every line stays in order; only keepalive lines are added |
| `WireGuardConf.SetsExactly` | cmd/node/cli_status.go:340-347 | a line sets a key if and only if it is blanks, the key in any case, blanks and an equals sign in front of anything |
| `WireGuardConf.CommentsExactly` | cmd/node/cli_status.go:363-372 | a line is commented out if and only if it sets DNS and the resolver is down, and keeps its text |
| `WireGuardConf.ClosedExactly` | cmd/node/cli_status.go:352-362 | a section gets a keepalive if and only if it is a peer's without one, between its last line with anything on it and the blank ones behind |
| `ImportMerge.MergeCoreConfigForImport` | internal/httpapi/xrayimport.go:199-245 | the loops compute the merge |
| `ImportMerge.ImportIsIdempotent` | internal/httpapi/xrayimport.go:192-198 | importing and saving the same file again changes the time stamp alone, in every state of the panel and with the defaults and checks of a save |
| `ImportMerge.ImportKeepsWhatWasThere` | internal/httpapi/xrayimport.go:162-168 | existing lists stay as prefixes; behind them stand entries of the file, each once, an outbound or server only where its tag was free; every rule and every tag of the file is there afterwards |
| `ImportMerge.ImportedRuleMeans` | internal/httpapi/xrayimport.go:169-190 | an imported rule matches what the file's rule says, on every inbound port |
| `ImportMerge.ImportedOutboundKept` | internal/httpapi/xrayimport.go:199-225 | every field of an imported outbound is kept, and it never fails open |
| `ImportMerge.AppendKeepsOrder` | internal/httpapi/xrayimport.go:169-190 | additions stand in the order of the file |
| `ImportMerge.AppendUnseen` | internal/httpapi/xrayimport.go:169-190 | the seen-set loop |
| `LoadSort.SortPendingByLoad` | internal/httpapi/hostsload.go:198-219 | the slots are refilled in place |
| `LoadSort.PartialSort` | internal/httpapi/hostsload.go:198-219 | the same hosts; those not sortable never move; the others end ascending and stable in their slots |

## Left out

- HTTP handling, authentication, TLS, certificates, Redis and Postgres clients and
  subprocesses: their results are parameters or steps.
- sing-box itself: how a core matches addresses is a parameter every routing theorem ranges
  over, and what it accepts or refuses is chosen freely at each step.
- JSON details: escaping of one character, the layout of the core config and the digest's
  spelling are parameters of the encoder. A missing list and an empty one are identified.
- BodyReading.BodyReadsBack: is about the values between the two JSON libraries, whose
  reading of bytes is theirs; the reader of the core section is a parameter, as its layout is,
  and a protocol or transport kept by another name has another name.
- Wall-clock values: time-to-live, intervals and back-off.
- Field mappings of imported panels, CREATE TABLE and INSERT header
  parsing of MySQL dumps, and turning parsed rows into maps: single-branch facts.
- Presence, usage accounting, gateway replica sync and user status: no exact law holds.
- The live reporter's waiting times and warning limits.
- ConfigSync.OneTickConverges: asks that nobody stops the core during the tick and that no
  hot apply has failed other than one the answer retries; without the latter the node can
  keep stale users, as the example above shows.
- Routing.RoutingPreserved: asks every rule to be faithful on the listener. That condition is
  exact rule by rule (Routing.RuleExact), not for a whole list, where an unfaithful rule may
  stand behind one that decides first.
- PanelCache.BuildsAreExclusive: is about one panel process; several processes share only
  the database, and coherence holds in each.
- LogReader.ReadPage: what a request with neither cursor nor filter misses of a list out of
  order is not characterised further.
- LiveLogs.PrepareNodeLogs: is proved for every normalisation that keeps ids, and the
  library's stable sort is an insertion sort here. Folding case, dropping invalid UTF-8 and
  writing a time are parameters of the normalisation.
- CopyText.ReadIdentifier: strings stand for bytes; the trim behind a table name also takes
  Unicode blanks, as the program's does on well-formed text.
- Payloads without a core section, as an older panel may send them.
- PgDumpRoundTrip.DumpRoundTrip: identifiers hold no line feed, as such a name would break
  its header line, and a table of no columns is passed over.
- MySqlValues.ValuesRoundTrip: which tokens are floating-point numbers is a parameter, and
  their values are kept as text.
- What the supervisor of fail-open groups does while it runs, and which interfaces the
  tunnel monitor watches.
