/** From a node's log to the panel's list: when what the panel holds is an unbroken run
    of what the node logged. */
module LogDelivery {
  import opened LogEntries
  import opened LogRing
  import opened LiveLogs
  import opened Sorting

  /** Everything the node ever logged (in the form it posts lines), the position of the
      oldest line its ring still holds, the newest line it was last told the panel has,
      and the panel's list. */
  datatype Link = Link(all: seq<Entry>, from: nat, after: int, panel: Stored)

  const UNUSED := Link([], 0, 0, NOTHING)

  datatype Event =
    | Log(line: Entry)
    | Post(answered: bool)    // a report with lines; the answer may be lost
    | Quiet                   // a report without lines, answered
    | Restart                 // the node starts again with an empty ring

  function Held(s: Link): seq<Entry>
    requires s.from <= |s.all|
  {
    s.all[s.from..]
  }

  function Batch(s: Link): seq<Entry>
    requires s.from <= |s.all|
  {
    Selected(Held(s), s.after)
  }

  function Step(normal: Normal, capacity: nat, s: Link, e: Event): (t: Link)
    requires s.from <= |s.all|
    ensures t.from <= |t.all|
  {
    match e
    case Log(line) =>
      if line.id <= (if s.all == [] then 0 else s.all[|s.all| - 1].id) then s
      else s.(all := s.all + [line], from := if |s.all| + 1 - s.from > capacity then s.from + 1 else s.from)
    case Post(answered) =>
      var panel := Posted(normal, s.panel, Batch(s));
      s.(panel := panel, after := if answered then panel.cursor else s.after)
    case Quiet => s.(after := s.panel.cursor)
    case Restart => s.(from := |s.all|, after := 0)
  }

  predicate Sound(s: Link) {
    && s.from <= |s.all| && Increasing(s.all) && AllAbove(s.all, 0)
    && Ordered(s.panel) && s.after <= s.panel.cursor
  }

  /** The panel's list is the lines before position hi, and hi is the first it lacks. */
  predicate RunAt(normal: Normal, s: Link, hi: nat) {
    && |s.panel.list| <= hi <= |s.all|
    && s.panel.list == Normalised(normal, s.all[hi - |s.panel.list|..hi])
    && FirstAbove(s.all, s.panel.cursor, hi)
  }

  /** The panel's list is an unbroken run of the node's log. */
  ghost predicate Gapless(normal: Normal, s: Link) {
    exists hi: nat :: RunAt(normal, s, hi)
  }

  predicate FromCursor(s: Link)
    requires s.from <= |s.all|
  {
    s.after > 0 && s.after >= (if Held(s) == [] then 0 else Held(s)[0].id)
  }

  /** What decides whether a post can leave a gap: whether the node's ring still reaches
      back to the line it was told about, or, when it sends its newest few instead,
      whether those cover what the panel lacks. */
  predicate Reaches(s: Link)
    requires s.from <= |s.all|
  {
    || s.panel.list == [] || Held(s) == [] || FromCursor(s)
    || (|After(s.all, s.panel.cursor)| <= LIVE_LOGS_FIRST && |After(s.all, s.panel.cursor)| <= |Held(s)|)
  }

  // ----- What a post carries -----

  /** The batch as a stretch of the log. */
  lemma BatchRange(s: Link) returns (a: nat, b: nat)
    requires Sound(s)
    ensures s.from <= a <= b <= |s.all| && Batch(s) == s.all[a..b] && b - a <= LIVE_LOGS_MAX
    ensures FromCursor(s) ==> FirstAbove(Held(s), s.after, a - s.from) && b == (if a + LIVE_LOGS_MAX < |s.all| then a + LIVE_LOGS_MAX else |s.all|)
    ensures !FromCursor(s) ==> b == |s.all| && a == (if |Held(s)| > LIVE_LOGS_FIRST then |s.all| - LIVE_LOGS_FIRST else s.from)
  {
    if FromCursor(s) {
      a, b := SinceRange(s);
    } else {
      b := |s.all|;
      a := if |Held(s)| > LIVE_LOGS_FIRST then |s.all| - LIVE_LOGS_FIRST else s.from;
    }
  }

  lemma SinceRange(s: Link) returns (a: nat, b: nat)
    requires s.from <= |s.all| && Increasing(s.all) && FromCursor(s)
    ensures s.from <= a <= b <= |s.all| && Batch(s) == s.all[a..b]
    ensures FirstAbove(Held(s), s.after, a - s.from) && b == (if a + LIVE_LOGS_MAX < |s.all| then a + LIVE_LOGS_MAX else |s.all|)
  {
    var held := Held(s);
    var k := FirstAboveExists(held, s.after);
    AfterIsSuffix(held, s.after, k);
    a := s.from + k;
    b := if a + LIVE_LOGS_MAX < |s.all| then a + LIVE_LOGS_MAX else |s.all|;
    assert held[k..] == s.all[a..];
  }

  function Max(a: nat, b: nat): nat {
    if a < b then b else a
  }

  lemma SelectFromRun(all: seq<Entry>, a: nat, b: nat, hi: nat, stored: int)
    requires a <= b <= |all| && FirstAbove(all, stored, hi) && AllAbove(all, 0)
    ensures Select((e: Entry) => IsNew(stored, e), all[a..b]) == if Max(a, hi) < b then all[Max(a, hi)..b] else []
  {
    var f := (e: Entry) => IsNew(stored, e);
    if hi <= a {
      assert forall i | 0 <= i < b - a :: all[a..b][i] == all[a + i];
      SelectAll(f, all[a..b]);
    } else if hi < b {
      assert all[a..b] == all[a..hi] + all[hi..b];
      SelectConcat(f, all[a..hi], all[hi..b]);
      SelectNone(f, all[a..hi]);
      SelectAll(f, all[hi..b]);
    } else {
      SelectNone(f, all[a..b]);
    }
  }

  lemma {:induction false} DedupeOfIncreasing(es: seq<Entry>)
    requires Increasing(es)
    ensures Dedupe(es) == es
  {
    if es != [] {
      DedupeOfIncreasing(es[..|es| - 1]);
    }
  }

  /** Of a stretch of the log the panel stores exactly what lies beyond its cursor. */
  lemma PreparedOfRun(normal: Normal, all: seq<Entry>, a: nat, b: nat, hi: nat, stored: int)
    requires KeepsIds(normal) && Increasing(all) && AllAbove(all, 0)
    requires a <= b <= |all| && b - a <= RING_SIZE && FirstAbove(all, stored, hi)
    ensures Prepared(normal, all[a..b], stored) == if Max(a, hi) < b then Normalised(normal, all[Max(a, hi)..b]) else []
  {
    SelectFromRun(all, a, b, hi, stored);
    var incoming := Incoming(normal, all[a..b], stored);
    assert Increasing(incoming);
    SortOfSorted(ById, incoming);
    DedupeOfIncreasing(incoming);
  }

  lemma StoredOfBatch(normal: Normal, s: Link, hi: nat) returns (b: nat)
    requires KeepsIds(normal) && Sound(s) && FirstAbove(s.all, s.panel.cursor, hi) && FromCursor(s)
    ensures hi <= b <= |s.all| && Prepared(normal, Batch(s), s.panel.cursor) == Normalised(normal, s.all[hi..b])
    ensures s.after == s.panel.cursor && Held(s) != [] ==> b == if hi + LIVE_LOGS_MAX < |s.all| then hi + LIVE_LOGS_MAX else |s.all|
  {
    var a, b' := BatchRange(s);
    PreparedOfRun(normal, s.all, a, b', hi, s.panel.cursor);
    CursorReaches(s, hi, a);
    b := if Max(a, hi) < b' then b' else hi;
    assert s.all[hi..hi] == [];
  }

  /** A post from a ring that still holds the cursor adds exactly the next lines the panel
      lacks; when the node knows the cursor, the next five hundred of them. */
  lemma BatchIsNext(normal: Normal, s: Link) returns (k: nat)
    requires KeepsIds(normal) && Sound(s) && FromCursor(s)
    ensures k <= |After(s.all, s.panel.cursor)|
    ensures Prepared(normal, Batch(s), s.panel.cursor) == Normalised(normal, After(s.all, s.panel.cursor)[..k])
    ensures s.after == s.panel.cursor && Held(s) != [] ==>
              After(s.all, s.panel.cursor)[..k] == Oldest(After(s.all, s.panel.cursor), LIVE_LOGS_MAX)
  {
    var hi := FirstAboveExists(s.all, s.panel.cursor);
    AfterIsSuffix(s.all, s.panel.cursor, hi);
    var b := StoredOfBatch(normal, s, hi);
    k := b - hi;
    assert s.all[hi..][..k] == s.all[hi..b];
  }

  /** Sending from the cursor never starts beyond the first line the panel lacks. */
  lemma CursorReaches(s: Link, hi: nat, a: nat)
    requires Sound(s) && FirstAbove(s.all, s.panel.cursor, hi) && FromCursor(s) && s.from <= a
    requires FirstAbove(Held(s), s.after, a - s.from)
    ensures Held(s) != [] ==> a <= hi && (s.after == s.panel.cursor ==> a == hi)
    ensures Held(s) == [] ==> a == |s.all|
  {
    if Held(s) != [] {
      assert Held(s)[a - s.from - 1] == s.all[a - 1];
      if a < hi {
        assert Held(s)[a - s.from] == s.all[a];
      }
    }
  }

  // ----- Gaps -----

  lemma FirstAboveUnique(es: seq<Entry>, id: int, j: nat, k: nat)
    requires FirstAbove(es, id, j) && FirstAbove(es, id, k)
    ensures j == k
  {
    assert j == |es| || es[j].id > id;
    assert k == |es| || es[k].id > id;
  }

  lemma LastIsCursor(all: seq<Entry>, b: nat)
    requires Increasing(all) && 0 < b <= |all|
    ensures FirstAbove(all, all[b - 1].id, b)
  {
  }

  lemma NormalisedSlice(normal: Normal, es: seq<Entry>, i: nat, j: nat)
    requires i <= j <= |es|
    ensures Normalised(normal, es)[i..j] == Normalised(normal, es[i..j])
  {
  }

  lemma NewestOfRun(normal: Normal, all: seq<Entry>, lo: nat, b: nat)
    requires lo <= b <= |all|
    ensures var list := Newest(Normalised(normal, all[lo..b]), RING_SIZE);
            |list| <= b && list == Normalised(normal, all[b - |list|..b])
  {
    var run := all[lo..b];
    if |run| > RING_SIZE {
      NormalisedSlice(normal, run, |run| - RING_SIZE, |run|);
      assert run[|run| - RING_SIZE..] == all[b - RING_SIZE..b];
    }
  }

  lemma RunsConcat(normal: Normal, all: seq<Entry>, lo: nat, mid: nat, b: nat)
    requires lo <= mid <= b <= |all|
    ensures Normalised(normal, all[lo..mid]) + Normalised(normal, all[mid..b]) == Normalised(normal, all[lo..b])
  {
  }

  lemma LastOfRun(normal: Normal, all: seq<Entry>, m: nat, b: nat)
    requires KeepsIds(normal) && m < b <= |all|
    ensures var run := Normalised(normal, all[m..b]); run != [] && run[|run| - 1].id == all[b - 1].id
  {
  }

  /** A list that ends at b in the log, whose cursor is the line before b. */
  lemma RunEndsAt(normal: Normal, s: Link, lo: nat, b: nat)
    requires Increasing(s.all) && lo < b <= |s.all|
    requires s.panel == Stored(Newest(Normalised(normal, s.all[lo..b]), RING_SIZE), s.all[b - 1].id)
    ensures RunAt(normal, s, b)
  {
    LastIsCursor(s.all, b);
    NewestOfRun(normal, s.all, lo, b);
  }

  /** What a list and a stretch behind it make together. */
  lemma Joined(normal: Normal, s: Link, hi: nat, m: nat, b: nat)
    requires RunAt(normal, s, hi) && hi <= m <= b <= |s.all| && (s.panel.list == [] || m == hi)
    ensures s.panel.list + Normalised(normal, s.all[m..b]) == Normalised(normal, s.all[m - |s.panel.list|..b])
  {
    if s.panel.list != [] {
      RunsConcat(normal, s.all, hi - |s.panel.list|, hi, b);
    }
  }

  /** Adding lines from the first one the panel lacks leaves no gap. */
  lemma JoinsUp(normal: Normal, s: Link, hi: nat, m: nat, b: nat)
    requires KeepsIds(normal) && Increasing(s.all) && RunAt(normal, s, hi)
    requires hi <= m < b <= |s.all| && (s.panel.list == [] || m == hi)
    ensures RunAt(normal, s.(panel := Grown(s.panel, Normalised(normal, s.all[m..b]))), b)
  {
    LastOfRun(normal, s.all, m, b);
    Joined(normal, s, hi, m, b);
    RunEndsAt(normal, s.(panel := Grown(s.panel, Normalised(normal, s.all[m..b]))), m - |s.panel.list|, b);
  }

  /** The line in front of the newest ones. */
  lemma BeforeNewest(list: seq<Entry>, added: seq<Entry>)
    requires list != [] && 0 < |added| < RING_SIZE
    ensures var r := Newest(list + added, RING_SIZE);
            |r| <= |list| + |added| && |r| > |added| && r[|r| - |added| - 1] == list[|list| - 1]
  {
  }

  /** The line before position a in any run that ends at b. */
  lemma BeforeStretch(normal: Normal, s: Link, a: nat, b: nat)
    requires RunAt(normal, s, b) && 0 < a < b && |s.panel.list| > b - a
    ensures s.panel.list[|s.panel.list| - (b - a) - 1] == normal(s.all[a - 1])
  {
  }

  /** Adding lines from a later one leaves a gap in what the panel keeps. */
  lemma LeavesGap(normal: Normal, s: Link, hi: nat, a: nat, b: nat)
    requires KeepsIds(normal) && Increasing(s.all) && RunAt(normal, s, hi)
    requires hi < a < b <= |s.all| && b - a <= LIVE_LOGS_MAX && s.panel.list != []
    ensures !Gapless(normal, s.(panel := Grown(s.panel, Normalised(normal, s.all[a..b]))))
  {
    var added := Normalised(normal, s.all[a..b]);
    var t := s.(panel := Grown(s.panel, added));
    LastOfRun(normal, s.all, a, b);
    LastIsCursor(s.all, b);
    BeforeNewest(s.panel.list, added);
    assert s.panel.list[|s.panel.list| - 1] == normal(s.all[hi - 1]);
    assert s.all[hi - 1].id < s.all[a - 1].id;
    forall h: nat | RunAt(normal, t, h)
      ensures false
    {
      FirstAboveUnique(t.all, t.panel.cursor, h, b);
      BeforeStretch(normal, t, a, b);
    }
  }

  lemma PostedGapExactly(normal: Normal, s: Link, hi: nat, a: nat, b: nat)
    requires KeepsIds(normal) && Sound(s) && RunAt(normal, s, hi) && a <= b <= |s.all| && b - a <= LIVE_LOGS_MAX
    ensures Gapless(normal, s.(panel := Posted(normal, s.panel, s.all[a..b]))) <==> s.panel.list == [] || a <= hi || a == b
  {
    PreparedOfRun(normal, s.all, a, b, hi, s.panel.cursor);
    if Max(a, hi) < b {
      if s.panel.list == [] || a <= hi {
        JoinsUp(normal, s, hi, Max(a, hi), b);
      } else {
        LeavesGap(normal, s, hi, a, b);
      }
    } else {
      assert s.(panel := Posted(normal, s.panel, s.all[a..b])) == s;
    }
  }

  /** Whether one post keeps the list gap-free, exactly. */
  lemma PostGapExactly(normal: Normal, capacity: nat, s: Link, answered: bool)
    requires KeepsIds(normal) && Sound(s) && Gapless(normal, s)
    ensures Gapless(normal, Step(normal, capacity, s, Post(answered))) <==> Reaches(s)
  {
    var hi: nat :| RunAt(normal, s, hi);
    var a, b := BatchRange(s);
    AfterIsSuffix(s.all, s.panel.cursor, hi);
    var t := s.(panel := Posted(normal, s.panel, s.all[a..b]));
    var u := Step(normal, capacity, s, Post(answered));
    assert forall h: nat :: RunAt(normal, t, h) <==> RunAt(normal, u, h);
    PostedGapExactly(normal, s, hi, a, b);
    if FromCursor(s) {
      CursorReaches(s, hi, a);
    }
  }

  lemma StepKeepsSound(normal: Normal, capacity: nat, s: Link, e: Event)
    requires KeepsIds(normal) && Sound(s)
    ensures Sound(Step(normal, capacity, s, e))
  {
    if e.Post? {
      PostKeepsOrder(normal, s.panel, Batch(s));
    }
  }

  /** Logging more does not disturb what the panel holds. */
  lemma LogKeepsRun(normal: Normal, s: Link, line: Entry, from: nat, hi: nat)
    requires RunAt(normal, s, hi) && line.id > s.panel.cursor
    ensures RunAt(normal, s.(all := s.all + [line], from := from), hi)
  {
    var all := s.all + [line];
    assert all[hi - |s.panel.list|..hi] == s.all[hi - |s.panel.list|..hi];
  }

  lemma QuietStepsKeepRun(normal: Normal, capacity: nat, s: Link, e: Event)
    requires KeepsIds(normal) && Sound(s) && Gapless(normal, s) && !e.Post?
    ensures Gapless(normal, Step(normal, capacity, s, e))
  {
    var hi: nat :| RunAt(normal, s, hi);
    var t := Step(normal, capacity, s, e);
    if e.Log? && t != s {
      CursorWithin(normal, s, hi);
      LogKeepsRun(normal, s, e.line, t.from, hi);
      assert t == s.(all := s.all + [e.line], from := t.from);
    }
    assert RunAt(normal, t, hi);
  }

  lemma CursorWithin(normal: Normal, s: Link, hi: nat)
    requires KeepsIds(normal) && Sound(s) && RunAt(normal, s, hi)
    ensures s.panel.cursor <= (if s.all == [] then 0 else s.all[|s.all| - 1].id)
  {
    if s.panel.list != [] {
      assert s.panel.list[|s.panel.list| - 1] == normal(s.all[hi - 1]);
    }
  }

  function Run(normal: Normal, capacity: nat, s: Link, events: seq<Event>): Link
    requires s.from <= |s.all|
    decreases |events|
  {
    if events == [] then s else Run(normal, capacity, Step(normal, capacity, s, events[0]), events[1..])
  }

  predicate AlwaysReaches(normal: Normal, capacity: nat, s: Link, events: seq<Event>)
    requires s.from <= |s.all|
    decreases |events|
  {
    events == [] || ((events[0].Post? ==> Reaches(s))
                     && AlwaysReaches(normal, capacity, Step(normal, capacity, s, events[0]), events[1..]))
  }

  lemma {:induction false} RunStaysGapless(normal: Normal, capacity: nat, s: Link, events: seq<Event>)
    requires KeepsIds(normal) && Sound(s) && Gapless(normal, s)
    requires AlwaysReaches(normal, capacity, s, events)
    ensures Sound(Run(normal, capacity, s, events)) && Gapless(normal, Run(normal, capacity, s, events))
    decreases |events|
  {
    if events != [] {
      StepKeepsSound(normal, capacity, s, events[0]);
      if events[0].Post? {
        PostGapExactly(normal, capacity, s, events[0].answered);
      } else {
        QuietStepsKeepRun(normal, capacity, s, events[0]);
      }
      RunStaysGapless(normal, capacity, Step(normal, capacity, s, events[0]), events[1..]);
    }
  }

  /** Gap-free delivery: over any run of logging, posts with or without their answers,
      quiet reports and restarts in which every post reaches back far enough, the panel's
      list is an unbroken run of the node's log ending at its cursor. */
  lemma DeliveryIsGapless(normal: Normal, capacity: nat, events: seq<Event>)
    requires KeepsIds(normal) && AlwaysReaches(normal, capacity, UNUSED, events)
    ensures Gapless(normal, Run(normal, capacity, UNUSED, events))
  {
    assert RunAt(normal, UNUSED, 0);
    RunStaysGapless(normal, capacity, UNUSED, events);
  }
}
