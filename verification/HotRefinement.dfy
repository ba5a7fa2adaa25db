/** Replacing user lists hot brings the core to where a restart would have. */
module HotRefinement {
  import opened Options
  import opened Wire
  import opened Listeners
  import opened CoreOptions
  import opened HotApply

  function DiffHot(prev: Payload, next: Payload): seq<UserUpdate> {
    HotList(ByTag(prev.inbounds), next.inbounds)
  }

  lemma {:induction false} HotListIsUpdates(before: map<string, Inbound>, inbounds: seq<Inbound>)
    ensures UpdatesOf(HotList(before, inbounds), inbounds)
  {
    if inbounds != [] {
      var n := |inbounds| - 1;
      var init := inbounds[..n];
      HotListIsUpdates(before, init);
      var rest, hot := HotList(before, init), HotList(before, inbounds);
      forall k | 0 <= k < |hot|
        ensures exists j :: 0 <= j < |inbounds| && hot[k] == UserUpdate(inbounds[j].tag, inbounds[j].protocol)
      {
        if k < |rest| {
          assert hot[k] == rest[k];
          var j :| 0 <= j < n && rest[k] == UserUpdate(init[j].tag, init[j].protocol);
          assert init[j] == inbounds[j];
        } else {
          assert hot[k] == UserUpdate(inbounds[n].tag, inbounds[n].protocol);
        }
      }
    }
  }

  /** The inbound of a compatible pair at one tag changed its users. */
  predicate Changed(prev: Payload, next: Payload, j: nat)
    requires j < |next.inbounds|
  {
    UsersChanged(ByTag(prev.inbounds), next.inbounds[j])
  }

  /** The hot list of a diff, as a fact about one inbound. */
  lemma InHotList(prev: Payload, next: Payload, j: nat)
    requires DistinctTags(next.inbounds) && j < |next.inbounds|
    ensures UserUpdate(next.inbounds[j].tag, next.inbounds[j].protocol) in DiffHot(prev, next) <==> Changed(prev, next, j)
  {
    HotListExact(ByTag(prev.inbounds), next.inbounds, UserUpdate(next.inbounds[j].tag, next.inbounds[j].protocol));
  }

  predicate Applied(ls: seq<Listener>, plan: Plan, prev: Payload, next: Payload, accepts: string -> bool, after: seq<Listener>) {
    && (forall k | 0 <= k < |DiffHot(prev, next)| :: DiffHot(prev, next)[k].tag in ByTag(next.inbounds))
    && |after| == |ls|
    && (forall i | 0 <= i < |ls| :: after[i] == HotListener(ls[i], plan, ByTag(next.inbounds), DiffHot(prev, next), accepts))
  }

  /** Everything a hot apply is started with. */
  ghost predicate Ready(ls: seq<Listener>, plan: Plan, next: Payload) {
    && WellFormed(next.inbounds) && Supported(next) && PlanFits(plan, next.inbounds) && FramedBy(ls, next.inbounds)
  }

  /** One listener after a hot apply, whether or not every update was taken. */
  lemma AppliedListener(ls: seq<Listener>, plan: Plan, prev: Payload, next: Payload, accepts: string -> bool,
                        after: seq<Listener>, i: nat, j: nat, p: Port)
    requires Ready(ls, plan, next) && Applied(ls, plan, prev, next, accepts, after)
    requires i < |ls| && Frames(next.inbounds, ls[i], j, p)
    ensures after[i] == if Changed(prev, next, j) && accepts(ls[i].tag) then MakeListener(next.inbounds[j], p) else ls[i]
  {
    HotListIsUpdates(ByTag(prev.inbounds), next.inbounds);
    InHotList(prev, next, j);
    HotListenerEffect(next, plan, DiffHot(prev, next), accepts, ls[i], j, p);
  }

  lemma FrameOfIndex(ls: seq<Listener>, next: Payload, i: nat) returns (j: nat, p: Port)
    requires Supported(next) && FramedBy(ls, next.inbounds) && i < |ls|
    ensures Frames(next.inbounds, ls[i], j, p)
  {
    var l := ls[i];
    assert l in ls && IsFramed(next.inbounds, l);
    var j', p' :| Frames(next.inbounds, l, j', p');
    j, p := j', p';
  }

  /** A hot apply never moves a listener: the frame survives it. */
  lemma AppliedKeepsFrame(ls: seq<Listener>, plan: Plan, prev: Payload, next: Payload, accepts: string -> bool, after: seq<Listener>)
    requires Ready(ls, plan, next) && Applied(ls, plan, prev, next, accepts, after)
    ensures FramedBy(after, next.inbounds)
  {
    forall i | 0 <= i < |ls|
      ensures after[i].tag == ls[i].tag && IsFramed(next.inbounds, after[i])
    {
      var j, p := FrameOfIndex(ls, next, i);
      AppliedListener(ls, plan, prev, next, accepts, after, i, j, p);
      assert Frames(next.inbounds, after[i], j, p);
    }
    forall j, p | 0 <= j < |next.inbounds| && p in Ports(next.inbounds[j]) && Known(next.inbounds[j].protocol)
      ensures Filled(after, next.inbounds, j, p)
    {
      assert Filled(ls, next.inbounds, j, p);
      var l :| l in ls && l.tag == ListenerTag(next.inbounds[j], p);
      var i :| 0 <= i < |ls| && ls[i] == l;
      assert after[i] in after;
    }
  }

  /** If every update was taken, the core took the update of every changed listener. */
  lemma TakenEverywhere(ls: seq<Listener>, plan: Plan, prev: Payload, next: Payload, accepts: string -> bool, j: nat, p: Port)
    requires Ready(ls, plan, next) && AllUpdate(ls, plan, DiffHot(prev, next), accepts)
    requires j < |next.inbounds| && p in Ports(next.inbounds[j]) && Changed(prev, next, j)
    ensures accepts(ListenerTag(next.inbounds[j], p))
  {
    InHotList(prev, next, j);
    var hot := DiffHot(prev, next);
    var k :| 0 <= k < |hot| && hot[k] == UserUpdate(next.inbounds[j].tag, next.inbounds[j].protocol);
    UpdateReaches(next.inbounds, plan, j, p, j);
    assert Updates(ls, ListenerTag(next.inbounds[j], p), hot[k].protocol, accepts);
  }

  /** A listener that is left alone already carries the new config's users. */
  predicate UpToDate(prev: Payload, next: Payload, l: Listener, j: nat, p: Port)
    requires Supported(next) && j < |next.inbounds|
  {
    Changed(prev, next, j) || l == MakeListener(next.inbounds[j], p)
  }

  lemma ExactAt(ls: seq<Listener>, plan: Plan, prev: Payload, next: Payload, accepts: string -> bool, after: seq<Listener>,
                i: nat, j: nat, p: Port)
    requires Ready(ls, plan, next) && Applied(ls, plan, prev, next, accepts, after)
    requires AllUpdate(ls, plan, DiffHot(prev, next), accepts)
    requires i < |ls| && Frames(next.inbounds, ls[i], j, p)
    ensures after[i] in ListenersOf(next.inbounds) <==> UpToDate(prev, next, ls[i], j, p)
  {
    AppliedListener(ls, plan, prev, next, accepts, after, i, j, p);
    if Changed(prev, next, j) {
      TakenEverywhere(ls, plan, prev, next, accepts, j, p);
    }
    FramedMember(next, after[i], j, p);
  }

  /** Every listener outside the hot list already carries the new config's users. */
  ghost predicate RestUpToDate(prev: Payload, next: Payload, ls: seq<Listener>)
    requires Supported(next)
  {
    forall i, j: nat, p | 0 <= i < |ls| && Frames(next.inbounds, ls[i], j, p) :: UpToDate(prev, next, ls[i], j, p)
  }

  /** The exact outcome of a fully taken hot apply: the core runs the new config's
      listeners if and only if every listener outside the hot list already did. */
  lemma HotApplyExact(ls: seq<Listener>, plan: Plan, prev: Payload, next: Payload, accepts: string -> bool, after: seq<Listener>)
    requires Ready(ls, plan, next) && Applied(ls, plan, prev, next, accepts, after)
    requires AllUpdate(ls, plan, DiffHot(prev, next), accepts)
    ensures multiset(after) == multiset(ListenersOf(next.inbounds)) <==> RestUpToDate(prev, next, ls)
  {
    AppliedKeepsFrame(ls, plan, prev, next, accepts, after);
    SameListenersIff(after, next);
    if AllBuilt(after, next) {
      forall i, j: nat, p | 0 <= i < |ls| && Frames(next.inbounds, ls[i], j, p)
        ensures UpToDate(prev, next, ls[i], j, p)
      {
        ExactAt(ls, plan, prev, next, accepts, after, i, j, p);
      }
    }
    if RestUpToDate(prev, next, ls) {
      forall i | 0 <= i < |after|
        ensures after[i] in ListenersOf(next.inbounds)
      {
        var j, p := FrameOfIndex(ls, next, i);
        ExactAt(ls, plan, prev, next, accepts, after, i, j, p);
      }
    }
  }

  /** A framed listener belongs to a build exactly when its users are the build's. */
  lemma FramedMember(next: Payload, l: Listener, j: nat, p: Port)
    requires WellFormed(next.inbounds) && Supported(next) && Frames(next.inbounds, l, j, p)
    ensures l in ListenersOf(next.inbounds) <==> l == MakeListener(next.inbounds[j], p)
  {
    ServedIsListener(next.inbounds, j, p);
    if l in ListenersOf(next.inbounds) {
      var i, q := ListenerIsServed(next.inbounds, l);
      ListenerTagInjective(next.inbounds, i, q, j, p);
    }
  }

  lemma {:induction false} DistinctCount(ls: seq<Listener>, l: Listener)
    requires DistinctListeners(ls)
    ensures multiset(ls)[l] == if l in ls then 1 else 0
  {
    if ls != [] {
      var n := |ls| - 1;
      assert ls == ls[..n] + [ls[n]];
      DistinctCount(ls[..n], l);
    }
  }

  predicate AllBuilt(ls: seq<Listener>, c: Payload)
    requires Supported(c)
  {
    forall i | 0 <= i < |ls| :: ls[i] in ListenersOf(c.inbounds)
  }

  lemma EveryBuiltPresent(ls: seq<Listener>, c: Payload, l: Listener)
    requires WellFormed(c.inbounds) && Supported(c) && FramedBy(ls, c.inbounds) && AllBuilt(ls, c)
    requires l in ListenersOf(c.inbounds)
    ensures l in ls
  {
    BuiltIsFramed(c);
    var j, p := ListenerIsServed(c.inbounds, l);
    assert Filled(ls, c.inbounds, j, p);
    var m :| m in ls && m.tag == ListenerTag(c.inbounds[j], p);
    SameTagSameListener(ListenersOf(c.inbounds), m, l);
  }

  lemma SameMembersSameMultiset(a: seq<Listener>, b: seq<Listener>)
    requires DistinctListeners(a) && DistinctListeners(b) && forall l :: l in a <==> l in b
    ensures multiset(a) == multiset(b)
  {
    forall l
      ensures multiset(a)[l] == multiset(b)[l]
    {
      DistinctCount(a, l);
      DistinctCount(b, l);
    }
  }

  /** Framed listeners are the build's, in some order, exactly when each of them is. */
  lemma SameListenersIff(ls: seq<Listener>, c: Payload)
    requires WellFormed(c.inbounds) && Supported(c) && FramedBy(ls, c.inbounds)
    ensures multiset(ls) == multiset(ListenersOf(c.inbounds)) <==> AllBuilt(ls, c)
  {
    var built := ListenersOf(c.inbounds);
    if AllBuilt(ls, c) {
      ListenersAreDistinct(c.inbounds);
      forall l | l in built
        ensures l in ls
      {
        EveryBuiltPresent(ls, c, l);
      }
      SameMembersSameMultiset(ls, built);
    } else {
      var i :| 0 <= i < |ls| && ls[i] !in built;
      assert ls[i] in multiset(ls) && ls[i] !in multiset(built);
    }
  }

  lemma SameTagSameListener(ls: seq<Listener>, a: Listener, b: Listener)
    requires DistinctListeners(ls) && a in ls && b in ls && a.tag == b.tag
    ensures a == b
  {
    var i :| 0 <= i < |ls| && ls[i] == a;
    var j :| 0 <= j < |ls| && ls[j] == b;
  }

  /** Hot apply refines a full restart: on a core that runs the previous config, a diff
      that asks for no restart and a hot list the core takes leave exactly the listeners
      (tags, ports, options, ciphers, users) of a fresh build of the new config, up to
      their order, and that build's outbounds, routes, DNS and logging. */
  lemma HotApplyRefinesRestart(ciphers: set<string>, run: Running, plan: Plan, prev: Payload, next: Payload,
                               accepts: string -> bool, after: seq<Listener>)
    requires WellFormed(prev.inbounds) && WellFormed(next.inbounds) && CanBuild(ciphers, prev)
    requires multiset(run.listeners) == multiset(Build(ciphers, prev).listeners) && run.core == Build(ciphers, prev).core
    requires PlanFits(plan, prev.inbounds) && !NeedsRestart(Some(prev), next)
    requires Applied(run.listeners, plan, prev, next, accepts, after) && AllUpdate(run.listeners, plan, DiffHot(prev, next), accepts)
    ensures CanBuild(ciphers, next)
    ensures multiset(after) == multiset(Build(ciphers, next).listeners) && run.core == Build(ciphers, next).core
  {
    RestartExact(prev, next);
    CompatibleBuilds(ciphers, prev, next);
    CompatibleCores(prev, next);
    BuildableSupported(ciphers, prev);
    BuildableSupported(ciphers, next);
    PermutationIsFramed(run.listeners, prev);
    FramesCarryOver(run.listeners, prev, next);
    PlanFitsCompatible(plan, prev, next);
    HotApplyExact(run.listeners, plan, prev, next, accepts, after);
    forall i, j: nat, p | 0 <= i < |run.listeners| && Frames(next.inbounds, run.listeners[i], j, p)
      ensures UpToDate(prev, next, run.listeners[i], j, p)
    {
      assert run.listeners[i] in multiset(run.listeners);
      UnchangedIsUpToDate(prev, next, run.listeners[i], j, p);
    }
  }

  /** A listener of the previous build whose inbound's users did not change is one of the
      new build. */
  lemma UnchangedIsUpToDate(prev: Payload, next: Payload, l: Listener, j: nat, p: Port)
    requires WellFormed(prev.inbounds) && WellFormed(next.inbounds) && Supported(prev) && Supported(next)
    requires Compatible(prev, next) && l in ListenersOf(prev.inbounds) && Frames(next.inbounds, l, j, p)
    ensures UpToDate(prev, next, l, j, p)
  {
    CompatibleSymmetric(prev, next);
    var i := Counterpart(next, prev, j);
    SameFrameSameListener(prev.inbounds[i], next.inbounds[j], p);
    FramedMember(prev, l, i, p);
    ByTagLookup(prev.inbounds);
  }

  lemma PermutedDistinct(ls: seq<Listener>, built: seq<Listener>)
    requires DistinctListeners(built) && multiset(ls) == multiset(built)
    ensures DistinctListeners(ls)
  {
    forall i, j | 0 <= i < j < |ls|
      ensures ls[i].tag != ls[j].tag
    {
      if ls[i].tag == ls[j].tag {
        assert ls[i] in multiset(built) && ls[j] in multiset(built);
        SameTagSameListener(built, ls[i], ls[j]);
        DistinctCount(built, ls[i]);
        TwiceMeansTwo(ls, i, j);
      }
    }
  }

  lemma PermutationIsFramed(ls: seq<Listener>, c: Payload)
    requires WellFormed(c.inbounds) && Supported(c) && multiset(ls) == multiset(ListenersOf(c.inbounds))
    ensures FramedBy(ls, c.inbounds)
  {
    var built := ListenersOf(c.inbounds);
    BuiltIsFramed(c);
    PermutedDistinct(ls, built);
    assert forall l :: l in ls <==> l in multiset(ls);
    assert forall l :: l in built <==> l in multiset(built);
    forall j, p | 0 <= j < |c.inbounds| && p in Ports(c.inbounds[j]) && Known(c.inbounds[j].protocol)
      ensures Filled(ls, c.inbounds, j, p)
    {
      assert Filled(built, c.inbounds, j, p);
    }
  }

  lemma TwiceMeansTwo(ls: seq<Listener>, i: nat, j: nat)
    requires i < j < |ls| && ls[i] == ls[j]
    ensures multiset(ls)[ls[i]] >= 2
  {
    assert ls == ls[..i] + [ls[i]] + ls[i + 1..j] + [ls[j]] + ls[j + 1..];
  }

  lemma PlanFitsCompatible(plan: Plan, a: Payload, b: Payload)
    requires Compatible(a, b) && Supported(a) && PlanFits(plan, a.inbounds)
    ensures PlanFits(plan, b.inbounds)
  {
    forall j | 0 <= j < |b.inbounds|
      ensures plan.ListenerTags(b.inbounds[j].tag) == TagsOfInbound(b.inbounds[j])
    {
      CompatibleSymmetric(a, b);
      var i := Counterpart(b, a, j);
      SameFrameSameListener(a.inbounds[i], b.inbounds[j], 0);
    }
  }
}
