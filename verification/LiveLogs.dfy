/** internal/httpapi/nodelive.go, log half: how a node's posted lines join the panel's
    list. One node's posts are handled one at a time, and the list and its cursor live
    and expire together. */
module LiveLogs {
  import opened LogEntries
  import opened Seqs
  import opened Sorting

  /** How a posted line is stored: level, timestamp and size normalised, id kept. */
  type Normal = Entry -> Entry

  ghost predicate KeepsIds(normal: Normal) {
    forall e :: normal(e).id == e.id
  }

  const MAX_LINE_BYTES := 0x4000
  const LEVELS: set<string> := {"debug", "info", "warn", "error"}

  /** NormalizeLevel, of a name already trimmed and in lower case. */
  function LevelOf(name: string): string {
    if name in {"debug", "trace"} then "debug"
    else if name in {"warn", "warning"} then "warn"
    else if name in {"error", "fatal", "panic"} then "error"
    else "info"
  }

  /** What the library does to strings on the way: trimming and lower case, dropping what
      is not valid UTF-8, and writing an id as a time. */
  datatype Library = Library(fold: string -> string, clean: string -> string, stamp: int -> string)

  /** How prepareNodeLogs stores a line. */
  function StoredAs(lib: Library): Normal {
    (l: Entry) => Entry(l.id,
                        if l.ts == "" then lib.stamp(l.id) else l.ts,
                        LevelOf(lib.fold(l.level)),
                        if |l.line| > MAX_LINE_BYTES then lib.clean(l.line[..MAX_LINE_BYTES]) + "..." else l.line)
  }

  /** It is a normalisation like those the results below are about; every level is one of
      four, no line is longer than the limit and its dots, and a line within the limit is
      stored as it is, however often it passes through. */
  lemma StoredAsNormalises(lib: Library, l: Entry)
    requires (forall s :: |lib.clean(s)| <= |s|) && (forall s | s in LEVELS :: lib.fold(s) == s) && (forall id :: lib.stamp(id) != "")
    ensures KeepsIds(StoredAs(lib))
    ensures var e := StoredAs(lib)(l);
            && e.level in LEVELS && e.ts != "" && |e.line| <= MAX_LINE_BYTES + 3
            && (e.level == "debug" <==> lib.fold(l.level) == "debug" || lib.fold(l.level) == "trace")
            && (e.level == "warn" <==> lib.fold(l.level) == "warn" || lib.fold(l.level) == "warning")
            && (e.level == "error" <==> lib.fold(l.level) == "error" || lib.fold(l.level) == "fatal" || lib.fold(l.level) == "panic")
            && (l.ts != "" ==> e.ts == l.ts)
            && (|l.line| <= MAX_LINE_BYTES ==> e.line == l.line && StoredAs(lib)(e) == e)
  {
  }

  predicate ById(a: Entry, b: Entry) { a.id <= b.id }

  lemma ByIdOrders()
    ensures TotalPreorder(ById)
  {
  }

  function Normalised(normal: Normal, es: seq<Entry>): (r: seq<Entry>)
    ensures |r| == |es|
  {
    seq(|es|, i requires 0 <= i < |es| => normal(es[i]))
  }

  predicate IsNew(stored: int, e: Entry) {
    e.id > stored && e.id > 0
  }

  function Incoming(normal: Normal, lines: seq<Entry>, stored: int): seq<Entry> {
    Normalised(normal, Select((e: Entry) => IsNew(stored, e), lines))
  }

  /** Keeps the first of neighbours with one id. */
  function Dedupe(es: seq<Entry>): seq<Entry> {
    if es == [] then []
    else
      var n := |es| - 1;
      var before := Dedupe(es[..n]);
      if before != [] && before[|before| - 1].id == es[n].id then before else before + [es[n]]
  }

  function Prepared(normal: Normal, lines: seq<Entry>, stored: int): seq<Entry> {
    Newest(Dedupe(Sort(ById, Incoming(normal, lines, stored))), RING_SIZE)
  }

  lemma DedupeStep(es: seq<Entry>, i: nat)
    requires i < |es|
    ensures var before := Dedupe(es[..i]);
            Dedupe(es[..i + 1]) == if before != [] && before[|before| - 1].id == es[i].id then before else before + [es[i]]
  {
    assert es[..i + 1][..i] == es[..i];
  }

  /** The compaction loop: the entries kept are written over the front of the array they
      are read from. */
  method DedupeInPlace(a: array<Entry>) returns (n: nat)
    modifies a
    ensures n <= a.Length && a[..n] == Dedupe(old(a[..]))
  {
    ghost var all := a[..];
    n := 0;
    for i := 0 to a.Length
      invariant n <= i && forall k | i <= k < a.Length :: a[k] == all[k]
      invariant a[..n] == Dedupe(all[..i])
    {
      DedupeStep(all, i);
      if n > 0 && a[n - 1].id == a[i].id {
        continue;
      }
      a[n] := a[i];
      n := n + 1;
    }
    assert all[..a.Length] == all;
  }

  method Gather(normal: Normal, lines: seq<Entry>, stored: int) returns (gathered: seq<Entry>)
    ensures gathered == Incoming(normal, lines, stored)
  {
    ghost var f := (e: Entry) => IsNew(stored, e);
    gathered := [];
    for i := 0 to |lines|
      invariant gathered == Normalised(normal, Select(f, lines[..i]))
    {
      assert lines[..i + 1][..i] == lines[..i];
      var l := lines[i];
      if l.id <= stored || l.id <= 0 {
        continue;
      }
      gathered := gathered + [normal(l)];
    }
    assert lines[..|lines|] == lines;
  }

  method PrepareNodeLogs(normal: Normal, lines: seq<Entry>, stored: int) returns (out: seq<Entry>)
    ensures out == Prepared(normal, lines, stored)
  {
    var gathered := Gather(normal, lines, stored);
    var sorted := Sort(ById, gathered);
    var a := new Entry[|sorted|](i requires 0 <= i < |sorted| => sorted[i]);
    assert a[..] == sorted;
    var n := DedupeInPlace(a);
    out := a[..n];
    if |out| > RING_SIZE {
      out := out[|out| - RING_SIZE..];
    }
  }

  // ----- What is stored of a post -----

  lemma {:induction false} DedupeOfSorted(es: seq<Entry>)
    requires SortedBy(ById, es)
    ensures Increasing(Dedupe(es))
    ensures forall e | e in Dedupe(es) :: e in es
    ensures es != [] ==> Dedupe(es) != [] && Dedupe(es)[|Dedupe(es)| - 1].id == es[|es| - 1].id
  {
    if es != [] {
      var n := |es| - 1;
      DedupeOfSorted(es[..n]);
      assert es == es[..n] + [es[n]];
      assert n > 0 ==> es[..n][n - 1].id <= es[n].id;
    }
  }

  /** The first entry of a list with some entry's id. */
  predicate FirstWithId(es: seq<Entry>, e: Entry) {
    Class(ById, e, es) != [] && Class(ById, e, es)[0] == e
  }

  lemma {:induction false} ClassOfAbsent(es: seq<Entry>, e: Entry)
    requires forall i | 0 <= i < |es| :: es[i].id != e.id
    ensures Class(ById, e, es) == []
  {
    if es != [] {
      ClassOfAbsent(es[..|es| - 1], e);
    }
  }

  lemma {:induction false} DedupeKeepsFirst(es: seq<Entry>, e: Entry)
    requires SortedBy(ById, es) && e in Dedupe(es)
    ensures FirstWithId(es, e)
  {
    var n := |es| - 1;
    var before := Dedupe(es[..n]);
    DedupeOfSorted(es[..n]);
    if e in before {
      DedupeKeepsFirst(es[..n], e);
    } else {
      forall i | 0 <= i < n
        ensures es[..n][i].id != e.id
      {
        assert es[i].id <= es[n - 1].id && es[..n][n - 1] == es[n - 1];
      }
      ClassOfAbsent(es[..n], e);
    }
  }

  lemma {:induction false} DedupeCovers(es: seq<Entry>, x: Entry)
    requires SortedBy(ById, es) && x in es
    ensures exists e :: e in Dedupe(es) && e.id == x.id
  {
    var n := |es| - 1;
    DedupeOfSorted(es);
    if x.id == es[n].id {
      var d := Dedupe(es);
      assert d[|d| - 1] in d;
    } else {
      var k :| 0 <= k < |es| && es[k] == x;
      assert es[..n][k] == x;
      DedupeCovers(es[..n], x);
      var e :| e in Dedupe(es[..n]) && e.id == x.id;
      assert e in Dedupe(es);
    }
  }

  lemma NewestIncreasing(es: seq<Entry>, n: nat)
    requires Increasing(es)
    ensures Increasing(Newest(es, n))
    ensures forall e | e in Newest(es, n) :: e in es
    ensures forall e | e in es && e !in Newest(es, n) :: |Newest(es, n)| == n && forall x | x in Newest(es, n) :: e.id < x.id
  {
    if |es| > n {
      var cut := |es| - n;
      forall k | cut <= k < |es|
        ensures es[k] in es[cut..]
      {
        assert es[cut..][k - cut] == es[k];
      }
      forall e, x | e in es && e !in es[cut..] && x in es[cut..]
        ensures e.id < x.id
      {
        var i :| 0 <= i < |es| && es[i] == e;
        var j :| 0 <= j < n && es[cut..][j] == x;
      }
    }
  }

  lemma IncomingIsNew(normal: Normal, lines: seq<Entry>, stored: int)
    requires KeepsIds(normal)
    ensures forall e | e in Incoming(normal, lines, stored) :: IsNew(stored, e)
  {
    var kept := Select((e: Entry) => IsNew(stored, e), lines);
    SelectMembers((e: Entry) => IsNew(stored, e), lines);
    forall i | 0 <= i < |kept|
      ensures IsNew(stored, normal(kept[i]))
    {
      assert kept[i] in kept;
    }
  }

  /** What one post adds, whatever it holds: at most a list's worth of lines, strictly
      in id order and above the cursor; of lines sharing an id, the first as posted; and
      a new line is left out only if a full list of newer ones is not. */
  lemma PreparedIsExact(normal: Normal, lines: seq<Entry>, stored: int)
    requires KeepsIds(normal)
    ensures var out, incoming := Prepared(normal, lines, stored), Incoming(normal, lines, stored);
            && Increasing(out) && |out| <= RING_SIZE
            && (forall e | e in out :: IsNew(stored, e) && FirstWithId(incoming, e))
            && (forall x | x in incoming && (forall e | e in out :: e.id != x.id) :: |out| == RING_SIZE && forall e | e in out :: x.id < e.id)
  {
    var incoming := Incoming(normal, lines, stored);
    var sorted := Sort(ById, incoming);
    var d, out := Dedupe(sorted), Prepared(normal, lines, stored);
    ByIdOrders();
    SortSorts(ById, incoming);
    SortPermutes(ById, incoming);
    DedupeOfSorted(sorted);
    NewestIncreasing(d, RING_SIZE);
    IncomingIsNew(normal, lines, stored);
    forall e | e in out
      ensures IsNew(stored, e) && FirstWithId(incoming, e)
    {
      SortedMembers(incoming, e);
      DedupeKeepsFirst(sorted, e);
      SortStable(ById, incoming, e);
    }
    forall x | x in incoming && (forall e | e in out :: e.id != x.id)
      ensures |out| == RING_SIZE && forall e | e in out :: x.id < e.id
    {
      SortedMembers(incoming, x);
      DedupeCovers(sorted, x);
      var e :| e in d && e.id == x.id;
      assert e !in out;
    }
  }

  /** e is what line i is stored as: a line above the cursor, and the first of its id. */
  predicate Carries(normal: Normal, lines: seq<Entry>, stored: int, i: nat, e: Entry) {
    && i < |lines| && lines[i].id > stored && lines[i].id > 0 && e == normal(lines[i])
    && forall k | 0 <= k < i :: lines[k].id != lines[i].id
  }

  lemma IncomingSnoc(normal: Normal, lines: seq<Entry>, stored: int, l: Entry)
    ensures Incoming(normal, lines + [l], stored) ==
            Incoming(normal, lines, stored) + (if IsNew(stored, l) then [normal(l)] else [])
  {
    SelectSnoc((e: Entry) => IsNew(stored, e), lines, l);
  }

  lemma IncomingHolds(normal: Normal, lines: seq<Entry>, stored: int, i: nat)
    requires i < |lines| && IsNew(stored, lines[i])
    ensures normal(lines[i]) in Incoming(normal, lines, stored)
  {
    var f := (e: Entry) => IsNew(stored, e);
    var kept := Select(f, lines);
    SelectMembers(f, lines);
    assert lines[i] in lines && f(lines[i]);
    var k :| 0 <= k < |kept| && kept[k] == lines[i];
    assert Normalised(normal, kept)[k] == normal(lines[i]);
  }

  lemma {:induction false} NoneOfClass(es: seq<Entry>, e: Entry)
    requires Class(ById, e, es) == []
    ensures forall x | x in es :: x.id != e.id
  {
    if es != [] {
      NoneOfClass(es[..|es| - 1], e);
      InitAndLast(es);
    }
  }

  lemma {:induction false} FirstOfLines(normal: Normal, lines: seq<Entry>, stored: int, e: Entry) returns (i: nat)
    requires KeepsIds(normal) && IsNew(stored, e) && FirstWithId(Incoming(normal, lines, stored), e)
    ensures Carries(normal, lines, stored, i, e)
  {
    var n := |lines| - 1;
    var init, last := lines[..n], lines[n];
    InitAndLast(lines);
    IncomingSnoc(normal, init, stored, last);
    var before := Incoming(normal, init, stored);
    if Class(ById, e, before) != [] {
      ClassGrows(before, Incoming(normal, lines, stored), e);
      i := FirstOfLines(normal, init, stored, e);
      assert forall k | 0 <= k <= i :: lines[k] == init[k];
    } else {
      i := n;
      LastOfClass(before, normal(last), e, Incoming(normal, lines, stored));
      NoneOfClass(before, e);
      forall k | 0 <= k < n
        ensures lines[k].id != last.id
      {
        if lines[k].id == e.id {
          assert init[k] == lines[k];
          IncomingHolds(normal, init, stored, k);
        }
      }
    }
  }

  lemma ClassGrows(before: seq<Entry>, after: seq<Entry>, e: Entry)
    requires Class(ById, e, before) != [] && (after == before || (after != [] && after[..|after| - 1] == before))
    ensures Class(ById, e, after) != [] && Class(ById, e, after)[0] == Class(ById, e, before)[0]
  {
  }

  lemma LastOfClass(before: seq<Entry>, x: Entry, e: Entry, after: seq<Entry>)
    requires Class(ById, e, before) == [] && FirstWithId(after, e) && (after == before || after == before + [x])
    ensures after == before + [x] && e == x
  {
    if after == before + [x] {
      assert after[..|before|] == before;
    }
  }

  /** A line above the cursor that is not added gave way to one of its id, or to a full list
      of newer ones. */
  ghost predicate AddedOrPassedOver(out: seq<Entry>, l: Entry) {
    (exists e :: e in out && e.id == l.id) || (|out| == RING_SIZE && forall e | e in out :: l.id < e.id)
  }

  lemma LineIsAdded(normal: Normal, lines: seq<Entry>, stored: int, i: nat)
    requires KeepsIds(normal) && i < |lines| && IsNew(stored, lines[i])
    ensures AddedOrPassedOver(Prepared(normal, lines, stored), lines[i])
  {
    PreparedIsExact(normal, lines, stored);
    IncomingHolds(normal, lines, stored, i);
    assert normal(lines[i]).id == lines[i].id;
  }

  /** The same of the posted lines themselves: each line added is one of them, above the
      cursor and the first of its id, and each of them above the cursor is added or passed
      over. */
  lemma PreparedExactly(normal: Normal, lines: seq<Entry>, stored: int)
    requires KeepsIds(normal)
    ensures var out := Prepared(normal, lines, stored);
            && Increasing(out) && |out| <= RING_SIZE
            && (forall e | e in out :: exists i :: Carries(normal, lines, stored, i, e))
            && (forall i | 0 <= i < |lines| && lines[i].id > stored && lines[i].id > 0 :: AddedOrPassedOver(out, lines[i]))
  {
    var out := Prepared(normal, lines, stored);
    forall e | e in out
      ensures exists i :: Carries(normal, lines, stored, i, e)
    {
      PreparedIsExact(normal, lines, stored);
      var i := FirstOfLines(normal, lines, stored, e);
    }
    forall i | 0 <= i < |lines| && lines[i].id > stored && lines[i].id > 0
      ensures AddedOrPassedOver(out, lines[i])
    {
      LineIsAdded(normal, lines, stored, i);
    }
    PreparedIsExact(normal, lines, stored);
  }

  lemma SortedMembers(es: seq<Entry>, e: Entry)
    ensures e in es <==> e in Sort(ById, es)
  {
    SortPermutes(ById, es);
    assert e in es <==> e in multiset(es);
    assert e in Sort(ById, es) <==> e in multiset(Sort(ById, es));
  }

  // ----- The list and its cursor -----

  const LOG_PUSH_CHUNK := 500

  datatype Stored = Stored(list: seq<Entry>, cursor: int)

  const NOTHING := Stored([], 0)

  function Grown(s: Stored, added: seq<Entry>): Stored
    requires added != []
  {
    Stored(Newest(s.list + added, RING_SIZE), added[|added| - 1].id)
  }

  function Posted(normal: Normal, s: Stored, lines: seq<Entry>): Stored {
    var added := Prepared(normal, lines, s.cursor);
    if added == [] then s else Grown(s, added)
  }

  class NodeLogStore {
    var list: seq<Entry>
    var cursor: int

    constructor ()
      ensures State() == NOTHING
    {
      list, cursor := [], 0;
    }

    function State(): Stored reads this { Stored(list, cursor) }

    /** The log half of handleNodeLive: the stored cursor is read first, and the pushes,
        the trim and the new cursor are one transaction. */
    method Append(normal: Normal, lines: seq<Entry>) returns (logAfter: int)
      modifies this
      ensures State() == Posted(normal, old(State()), lines) && logAfter == cursor
    {
      var added := PrepareNodeLogs(normal, lines, cursor);
      if |added| > 0 {
        var first := 0;
        while first < |added|
          invariant 0 <= first && cursor == old(cursor)
          invariant list == old(list) + added[..if first < |added| then first else |added|]
          decreases |added| - first
        {
          var next := if first + LOG_PUSH_CHUNK < |added| then first + LOG_PUSH_CHUNK else |added|;
          assert added[..first] + added[first..next] == added[..next];
          list := list + added[first..next];
          first := first + LOG_PUSH_CHUNK;
        }
        assert added[..|added|] == added;
        if |list| > RING_SIZE {
          list := list[|list| - RING_SIZE..];
        }
        cursor := added[|added| - 1].id;
      }
      logAfter := cursor;
    }
  }

  /** Strictly increasing by id, within the ring size, and the cursor is the newest id. */
  predicate Ordered(s: Stored) {
    && Increasing(s.list) && |s.list| <= RING_SIZE
    && s.cursor == (if s.list == [] then 0 else s.list[|s.list| - 1].id)
    && forall i | 0 <= i < |s.list| :: 0 < s.list[i].id
  }

  predicate AllAbove(es: seq<Entry>, id: int) {
    forall i | 0 <= i < |es| :: es[i].id > id
  }

  lemma AppendIncreasing(a: seq<Entry>, b: seq<Entry>)
    requires Increasing(a) && Increasing(b) && (a != [] ==> AllAbove(b, a[|a| - 1].id))
    ensures Increasing(a + b)
  {
  }

  lemma PreparedAbove(normal: Normal, lines: seq<Entry>, stored: int)
    requires KeepsIds(normal) && stored >= 0
    ensures Increasing(Prepared(normal, lines, stored)) && AllAbove(Prepared(normal, lines, stored), stored)
  {
    PreparedIsExact(normal, lines, stored);
    var added := Prepared(normal, lines, stored);
    assert forall i | 0 <= i < |added| :: added[i] in added;
  }

  lemma TrimKeepsOrder(es: seq<Entry>)
    requires Increasing(es) && es != [] && AllAbove(es, 0)
    ensures Ordered(Stored(Newest(es, RING_SIZE), es[|es| - 1].id))
  {
    NewestIncreasing(es, RING_SIZE);
  }

  lemma PostKeepsOrder(normal: Normal, s: Stored, lines: seq<Entry>)
    requires KeepsIds(normal) && Ordered(s)
    ensures Ordered(Posted(normal, s, lines)) && Posted(normal, s, lines).cursor >= s.cursor
  {
    var added := Prepared(normal, lines, s.cursor);
    PreparedAbove(normal, lines, s.cursor);
    if added != [] {
      AppendIncreasing(s.list, added);
      TrimKeepsOrder(s.list + added);
    }
  }

  function PostAll(normal: Normal, s: Stored, posts: seq<seq<Entry>>): Stored {
    if posts == [] then s else Posted(normal, PostAll(normal, s, posts[..|posts| - 1]), posts[|posts| - 1])
  }

  /** Log append safety: whatever is posted, resent, out of order or with duplicates, the
      list stays strictly increasing and within its size, and its cursor is the newest
      stored id. */
  lemma {:induction false} AppendsAreSafe(normal: Normal, posts: seq<seq<Entry>>)
    requires KeepsIds(normal)
    ensures Ordered(PostAll(normal, NOTHING, posts))
  {
    if posts != [] {
      AppendsAreSafe(normal, posts[..|posts| - 1]);
      PostKeepsOrder(normal, PostAll(normal, NOTHING, posts[..|posts| - 1]), posts[|posts| - 1]);
    }
  }
}
