/** internal/httpapi/logs.go: reading a source's list from its tail, and following it
    with a cursor. A list element is the text Redis holds; how it decodes is a parameter. */
module LogReader {
  import opened Options
  import opened LogEntries
  import opened Sorting
  import Seqs
  import LiveLogs

  type Decoder = string -> Option<Entry>

  /** Only entries with a positive id decode. */
  ghost predicate Positive(decode: Decoder) {
    forall raw :: decode(raw).Some? ==> decode(raw).value.id > 0
  }

  /** One request: the cursor (0 for none), the page size, and the filter. */
  datatype Query = Query(after: int, limit: nat, filtered: bool, matches: Entry -> bool)
  {
    /** The handler's guarantees: a page holds something, and a filter is announced. */
    ghost predicate Valid() {
      limit > 0 && after >= 0 && (!filtered ==> forall e :: matches(e))
    }
  }

  function Decoded(decode: Decoder, raw: seq<string>): seq<Entry> {
    if raw == [] then []
    else
      var n := |raw| - 1;
      Decoded(decode, raw[..n]) + (if decode(raw[n]).Some? then [decode(raw[n]).value] else [])
  }

  method DecodeAll(decode: Decoder, raw: seq<string>) returns (entries: seq<Entry>)
    ensures entries == Decoded(decode, raw)
  {
    entries := [];
    for i := 0 to |raw|
      invariant entries == Decoded(decode, raw[..i])
    {
      assert raw[..i + 1][..i] == raw[..i];
      var e := decode(raw[i]);
      if e.Some? {
        entries := entries + [e.value];
      }
    }
    assert raw[..|raw|] == raw;
  }

  /** The entries of the newest n elements, by id. */
  function Tail(decode: Decoder, list: seq<string>, n: nat): seq<Entry> {
    Sort(LiveLogs.ById, Decoded(decode, Newest(list, n)))
  }

  /** What a request asks for. */
  function Wanted(q: Query): Entry -> bool {
    (e: Entry) => e.id > q.after && q.matches(e)
  }

  /** pickLogPage: the newest matches without a cursor, the oldest after one. */
  function Page(all: seq<Entry>, q: Query): seq<Entry> {
    var out := Select(Wanted(q), all);
    if q.after == 0 then Newest(out, q.limit) else Oldest(out, q.limit)
  }

  method PickLogPage(all: seq<Entry>, q: Query) returns (out: seq<Entry>)
    ensures out == Page(all, q)
  {
    ghost var f := Wanted(q);
    out := [];
    for i := 0 to |all|
      invariant out == Select(f, all[..i])
    {
      assert all[..i + 1][..i] == all[..i];
      if all[i].id > q.after && q.matches(all[i]) {
        out := out + [all[i]];
      }
    }
    assert all[..|all|] == all;
    if |out| > q.limit {
      out := if q.after == 0 then out[|out| - q.limit..] else out[..q.limit];
    }
  }

  function NextId(page: seq<Entry>, after: int): int {
    if page == [] then after else page[|page| - 1].id
  }

  predicate Covered(decode: Decoder, list: seq<string>, q: Query, n: nat) {
    var entries := Tail(decode, list, n);
    q.after == 0 || (entries != [] && entries[0].id <= q.after)
  }

  /** What stops the search for enough of the tail. */
  predicate Enough(decode: Decoder, list: seq<string>, q: Query, n: nat) {
    |Newest(list, n)| < n || n >= RING_SIZE || Covered(decode, list, q, n)
  }

  /** How much of the tail a request reads first. */
  function FirstRead(q: Query): nat {
    if q.filtered then RING_SIZE else q.limit
  }

  /** How much it reads in the end: n, doubled until it is enough. */
  function LastRead(decode: Decoder, list: seq<string>, q: Query, n: nat): (m: nat)
    requires n > 0
    ensures m >= n && Enough(decode, list, q, m)
    decreases RING_SIZE - n
  {
    if Enough(decode, list, q, n) then n
    else LastRead(decode, list, q, if n * 2 < RING_SIZE then n * 2 else RING_SIZE)
  }

  /** readLogEntries. */
  method ReadLogEntries(decode: Decoder, list: seq<string>, q: Query) returns (entries: seq<Entry>)
    requires q.Valid()
    ensures entries == Tail(decode, list, LastRead(decode, list, q, FirstRead(q)))
  {
    var n := if q.filtered then RING_SIZE else q.limit;
    while true
      invariant n > 0 && LastRead(decode, list, q, n) == LastRead(decode, list, q, FirstRead(q))
      decreases RING_SIZE - n
    {
      var raw := Newest(list, n);
      var decoded := DecodeAll(decode, raw);
      entries := Sort(LiveLogs.ById, decoded);
      var everything := |raw| < n || n >= RING_SIZE;
      var covered := q.after == 0 || (|entries| > 0 && entries[0].id <= q.after);
      if everything || covered {
        return;
      }
      n := if n * 2 < RING_SIZE then n * 2 else RING_SIZE;
    }
  }

  /** The page of a request as it is read. */
  ghost function PageRead(decode: Decoder, list: seq<string>, q: Query): seq<Entry>
    requires q.Valid()
  {
    Page(Tail(decode, list, LastRead(decode, list, q, FirstRead(q))), q)
  }

  /** The page of filtering everything there is. */
  function FullPage(decode: Decoder, list: seq<string>, q: Query): seq<Entry> {
    Page(Sort(LiveLogs.ById, Decoded(decode, list)), q)
  }

  // ----- The tail is as good as the whole list -----

  /** A list every element of which decodes, in id order, within its size: what one
      publisher and the trim keep it to. */
  ghost predicate Orderly(decode: Decoder, list: seq<string>) {
    && Positive(decode) && |list| <= RING_SIZE
    && (forall i | 0 <= i < |list| :: decode(list[i]).Some?)
    && Increasing(Decoded(decode, list))
  }

  lemma {:induction false} DecodedConcat(decode: Decoder, a: seq<string>, b: seq<string>)
    ensures Decoded(decode, a + b) == Decoded(decode, a) + Decoded(decode, b)
  {
    if b == [] {
      assert a + b == a;
    } else {
      var n := |b| - 1;
      DecodedConcat(decode, a, b[..n]);
      assert (a + b)[..|a| + n] == a + b[..n];
    }
  }

  lemma {:induction false} DecodedAll(decode: Decoder, list: seq<string>)
    requires Positive(decode) && forall i | 0 <= i < |list| :: decode(list[i]).Some?
    ensures |Decoded(decode, list)| == |list| && forall i | 0 <= i < |list| :: Decoded(decode, list)[i].id > 0
  {
    if list != [] {
      DecodedAll(decode, list[..|list| - 1]);
    }
  }

  lemma TailIsSuffix(decode: Decoder, list: seq<string>, n: nat)
    requires Orderly(decode, list)
    ensures Tail(decode, list, n) == Newest(Decoded(decode, list), n) && |Decoded(decode, list)| == |list|
  {
    var all := Decoded(decode, list);
    DecodedAll(decode, list);
    if |list| > n {
      var cut := |list| - n;
      assert list == list[..cut] + list[cut..];
      DecodedConcat(decode, list[..cut], list[cut..]);
      DecodedAll(decode, list[..cut]);
      assert all[cut..] == Decoded(decode, list[cut..]);
    }
    SortOfSorted(LiveLogs.ById, Newest(all, n));
  }

  /** Entries at or below the cursor may be left unread. */
  lemma PageSkipsOld(all: seq<Entry>, q: Query, cut: nat)
    requires cut <= |all| && forall i | 0 <= i < cut :: all[i].id <= q.after
    ensures Page(all[cut..], q) == Page(all, q)
  {
    assert all == all[..cut] + all[cut..];
    SelectConcat(Wanted(q), all[..cut], all[cut..]);
    SelectNone(Wanted(q), all[..cut]);
    assert [] + Select(Wanted(q), all[cut..]) == Select(Wanted(q), all[cut..]);
  }

  lemma NewestOfConcat(a: seq<Entry>, b: seq<Entry>, n: nat)
    requires |b| >= n
    ensures Newest(a + b, n) == Newest(b, n)
  {
    if |a + b| > n {
      assert (a + b)[|a + b| - n..] == b[|b| - n..];
    }
  }

  /** Without a cursor or a filter, so may all but the newest page. */
  lemma PageSkipsOlder(all: seq<Entry>, q: Query, cut: nat)
    requires cut + q.limit <= |all| && q.after == 0 && forall i | cut <= i < |all| :: Wanted(q)(all[i])
    ensures Page(all[cut..], q) == Page(all, q)
  {
    assert all == all[..cut] + all[cut..];
    SelectConcat(Wanted(q), all[..cut], all[cut..]);
    SelectAll(Wanted(q), all[cut..]);
    NewestOfConcat(Select(Wanted(q), all[..cut]), all[cut..], q.limit);
  }

  lemma AllWanted(all: seq<Entry>, q: Query)
    requires q.Valid() && !q.filtered && q.after == 0 && forall i | 0 <= i < |all| :: all[i].id > 0
    ensures forall i | 0 <= i < |all| :: Wanted(q)(all[i])
  {
  }

  lemma NewestPage(all: seq<Entry>, q: Query, n: nat)
    requires q.Valid() && !q.filtered && q.after == 0 && |all| > n >= q.limit && forall i | 0 <= i < |all| :: all[i].id > 0
    ensures Page(Newest(all, n), q) == Page(all, q)
  {
    AllWanted(all, q);
    PageSkipsOlder(all, q, |all| - n);
  }

  /** The first page of an orderly list is its newest lines. */
  lemma FirstPage(decode: Decoder, list: seq<string>, q: Query, n: nat)
    requires q.Valid() && !q.filtered && q.after == 0 && Orderly(decode, list) && |list| > n >= q.limit
    ensures Page(Tail(decode, list, n), q) == FullPage(decode, list, q)
  {
    TailIsSuffix(decode, list, n);
    DecodedAll(decode, list);
    SortOfSorted(LiveLogs.ById, Decoded(decode, list));
    NewestPage(Decoded(decode, list), q, n);
  }

  /** What a page is: matching lines beyond the cursor, in order and within the page size.
      One that is left out means a full page, of newer lines without a cursor and of older
      ones with one. */
  lemma PageIsExact(all: seq<Entry>, q: Query)
    requires Increasing(all) && q.after >= 0
    ensures var page := Page(all, q);
            && |page| <= q.limit && Increasing(page)
            && (forall e | e in page :: e in all && e.id > q.after && q.matches(e))
            && (forall e | e in all && e.id > q.after && q.matches(e) && e !in page ::
                  && |page| == q.limit
                  && forall p | p in page :: if q.after == 0 then e.id < p.id else p.id < e.id)
  {
    var out, page := Select(Wanted(q), all), Page(all, q);
    SelectMembers(Wanted(q), all);
    SelectIncreasing(Wanted(q), all);
    if q.after == 0 {
      LiveLogs.NewestIncreasing(out, q.limit);
    } else {
      OldestIncreasing(out, q.limit);
    }
  }

  lemma OldestIncreasing(es: seq<Entry>, n: nat)
    requires Increasing(es)
    ensures Increasing(Oldest(es, n))
    ensures forall e | e in Oldest(es, n) :: e in es
    ensures forall e | e in es && e !in Oldest(es, n) :: |Oldest(es, n)| == n && forall x | x in Oldest(es, n) :: x.id < e.id
  {
    if |es| > n {
      forall e, x | e in es && x in es[..n]
        ensures e in es[..n] || x.id < e.id
      {
        var i :| 0 <= i < |es| && es[i] == e;
        var j :| 0 <= j < n && es[..n][j] == x;
        if i < n {
          assert es[..n][i] == e;
        }
      }
    }
  }

  // ----- After a cursor -----

  /** No line at or below the cursor stands behind one above it. */
  predicate OldFirst(decode: Decoder, list: seq<string>, after: int) {
    forall i, j | 0 <= i < j < |list| && IsOld(decode, list[j], after) :: !IsRecent(decode, list[i], after)
  }

  predicate IsOld(decode: Decoder, raw: string, after: int) {
    decode(raw).Some? && decode(raw).value.id <= after
  }

  predicate IsRecent(decode: Decoder, raw: string, after: int) {
    decode(raw).Some? && decode(raw).value.id > after
  }

  lemma InsertBehind(es: seq<Entry>, e: Entry)
    requires es == [] || es[|es| - 1].id <= e.id
    ensures Insert(LiveLogs.ById, es, e) == es + [e]
  {
  }

  lemma InsertInFront(es: seq<Entry>, last: Entry, e: Entry)
    requires last.id > e.id
    ensures Insert(LiveLogs.ById, es + [last], e) == Insert(LiveLogs.ById, es, e) + [last]
  {
    assert (es + [last])[..|es|] == es;
  }

  lemma SelectedAreBehind(f: Entry -> bool, es: seq<Entry>, e: Entry)
    requires SortedBy(LiveLogs.ById, es) && es != [] && es[|es| - 1].id <= e.id
    ensures Select(f, es) == [] || Select(f, es)[|Select(f, es)| - 1].id <= e.id
  {
    var kept := Select(f, es);
    SelectMembers(f, es);
    if kept != [] {
      assert kept[|kept| - 1] in kept;
      var k :| 0 <= k < |es| && es[k] == kept[|kept| - 1];
      assert k < |es| - 1 ==> LiveLogs.ById(es[k], es[|es| - 1]);
    }
  }

  lemma {:induction false} SelectInsert(f: Entry -> bool, es: seq<Entry>, e: Entry)
    requires SortedBy(LiveLogs.ById, es)
    ensures Select(f, Insert(LiveLogs.ById, es, e)) ==
            if f(e) then Insert(LiveLogs.ById, Select(f, es), e) else Select(f, es)
  {
    if es == [] || es[|es| - 1].id <= e.id {
      InsertBehind(es, e);
      SelectSnoc(f, es, e);
      if es != [] {
        SelectedAreBehind(f, es, e);
      }
      InsertBehind(Select(f, es), e);
    } else {
      var init, last := es[..|es| - 1], es[|es| - 1];
      assert es == init + [last];
      SelectInsert(f, init, e);
      InsertInFront(init, last, e);
      SelectSnoc(f, init, last);
      SelectSnoc(f, Insert(LiveLogs.ById, init, e), last);
      InsertInFront(Select(f, init), last, e);
      Seqs.EmptyRight(Select(f, init));
    }
  }

  lemma SortSnoc(es: seq<Entry>, e: Entry)
    ensures Sort(LiveLogs.ById, es + [e]) == Insert(LiveLogs.ById, Sort(LiveLogs.ById, es), e)
  {
    assert (es + [e])[..|es|] == es;
  }

  /** Filtering and sorting commute. */
  lemma {:induction false} SelectSort(f: Entry -> bool, es: seq<Entry>)
    ensures Select(f, Sort(LiveLogs.ById, es)) == Sort(LiveLogs.ById, Select(f, es))
  {
    if es != [] {
      var init, last := es[..|es| - 1], es[|es| - 1];
      assert es == init + [last];
      SelectSort(f, init);
      SortSnoc(init, last);
      SelectSnoc(f, init, last);
      SortSnoc(Select(f, init), last);
      Seqs.EmptyRight(Select(f, init));
      LiveLogs.ByIdOrders();
      SortSorts(LiveLogs.ById, init);
      SelectInsert(f, Sort(LiveLogs.ById, init), last);
    }
  }

  lemma {:induction false} DecodedLength(decode: Decoder, raw: seq<string>)
    ensures |Decoded(decode, raw)| <= |raw|
  {
    if raw != [] {
      DecodedLength(decode, raw[..|raw| - 1]);
    }
  }

  lemma {:induction false} SelectLength(f: Entry -> bool, es: seq<Entry>)
    ensures |Select(f, es)| <= |es|
  {
    if es != [] {
      SelectLength(f, es[..|es| - 1]);
    }
  }

  lemma {:induction false} DecodedFrom(decode: Decoder, raw: seq<string>, e: Entry) returns (j: nat)
    requires e in Decoded(decode, raw)
    ensures j < |raw| && decode(raw[j]) == Some(e)
  {
    var n := |raw| - 1;
    if decode(raw[n]) == Some(e) {
      j := n;
    } else {
      j := DecodedFrom(decode, raw[..n], e);
    }
  }

  lemma {:induction false} DecodedMember(decode: Decoder, raw: seq<string>, j: nat)
    requires j < |raw| && decode(raw[j]).Some?
    ensures decode(raw[j]).value in Decoded(decode, raw)
  {
    var n := |raw| - 1;
    if j < n {
      DecodedMember(decode, raw[..n], j);
    }
  }

  lemma NoneWanted(decode: Decoder, raw: seq<string>, q: Query)
    requires forall i | 0 <= i < |raw| :: !IsRecent(decode, raw[i], q.after)
    ensures Select(Wanted(q), Decoded(decode, raw)) == []
  {
    var d := Decoded(decode, raw);
    forall k | 0 <= k < |d|
      ensures !Wanted(q)(d[k])
    {
      var j := DecodedFrom(decode, raw, d[k]);
    }
    SelectNone(Wanted(q), d);
  }

  lemma SomeWanted(decode: Decoder, raw: seq<string>, q: Query, i: nat)
    requires i < |raw| && IsRecent(decode, raw[i], q.after) && forall e :: q.matches(e)
    ensures Select(Wanted(q), Decoded(decode, raw)) != []
  {
    DecodedMember(decode, raw, i);
    SelectMembers(Wanted(q), Decoded(decode, raw));
    assert decode(raw[i]).value in Select(Wanted(q), Decoded(decode, raw));
  }

  /** A stretch that begins with an old line holds fewer wanted ones than it is long. */
  lemma FewerWanted(decode: Decoder, raw: seq<string>, q: Query)
    requires raw != [] && IsOld(decode, raw[0], q.after)
    ensures |Select(Wanted(q), Decoded(decode, raw))| < |raw|
  {
    var first, rest := [raw[0]], raw[1..];
    assert raw == first + rest;
    DecodedConcat(decode, first, rest);
    SelectConcat(Wanted(q), Decoded(decode, first), Decoded(decode, rest));
    NoneWanted(decode, first, q);
    DecodedLength(decode, rest);
    SelectLength(Wanted(q), Decoded(decode, rest));
  }

  /** What a read of n elements leaves out of the page, in front of the rest. */
  lemma WantedSplits(decode: Decoder, list: seq<string>, q: Query, n: nat)
    requires |list| >= n
    ensures var cut := |list| - n;
            Select(Wanted(q), Decoded(decode, list)) ==
            Select(Wanted(q), Decoded(decode, list[..cut])) + Select(Wanted(q), Decoded(decode, list[cut..]))
  {
    var cut := |list| - n;
    assert list == list[..cut] + list[cut..];
    DecodedConcat(decode, list[..cut], list[cut..]);
    SelectConcat(Wanted(q), Decoded(decode, list[..cut]), Decoded(decode, list[cut..]));
  }

  lemma NewestIsRest(list: seq<string>, n: nat)
    requires |list| >= n
    ensures Newest(list, n) == list[|list| - n..]
  {
  }

  /** Reading far enough for a cursor leaves out nothing that is wanted. */
  lemma CoveredPage(decode: Decoder, list: seq<string>, q: Query, n: nat)
    requires q.after > 0 && OldFirst(decode, list, q.after) && |list| > n && Covered(decode, list, q, n)
    ensures Page(Tail(decode, list, n), q) == FullPage(decode, list, q)
  {
    var cut, f := |list| - n, Wanted(q);
    var head, rest := list[..cut], list[cut..];
    NewestIsRest(list, n);
    var j := OldInTail(decode, rest, q.after);
    forall i | 0 <= i < |head|
      ensures !IsRecent(decode, head[i], q.after)
    {
      assert IsOld(decode, list[cut + j], q.after) && head[i] == list[i];
    }
    NoneWanted(decode, head, q);
    WantedSplits(decode, list, q, n);
    assert [] + Select(f, Decoded(decode, rest)) == Select(f, Decoded(decode, rest));
    SelectSort(f, Decoded(decode, list));
    SelectSort(f, Decoded(decode, rest));
  }

  lemma OldInTail(decode: Decoder, raw: seq<string>, after: int) returns (j: nat)
    requires var entries := Sort(LiveLogs.ById, Decoded(decode, raw)); entries != [] && entries[0].id <= after
    ensures j < |raw| && IsOld(decode, raw[j], after)
  {
    var d := Decoded(decode, raw);
    var e := Sort(LiveLogs.ById, d)[0];
    LiveLogs.SortedMembers(d, e);
    j := DecodedFrom(decode, raw, e);
  }

  /** A request that is answered as if the whole list had been filtered: one with a filter
      on any list, one with a cursor where old lines come first, and one with neither on an
      orderly list. */
  ghost predicate Complete(decode: Decoder, list: seq<string>, q: Query) {
    && |list| <= RING_SIZE
    && (q.filtered || if q.after == 0 then Orderly(decode, list) else OldFirst(decode, list, q.after))
  }

  /** Reading enough of the tail gives the page of the whole list. */
  lemma EnoughIsEnough(decode: Decoder, list: seq<string>, q: Query, n: nat)
    requires q.Valid() && Complete(decode, list, q) && Enough(decode, list, q, n) && n >= FirstRead(q)
    ensures Page(Tail(decode, list, n), q) == FullPage(decode, list, q)
  {
    if |list| > n {
      NewestIsRest(list, n);
      if q.after == 0 {
        FirstPage(decode, list, q, n);
      } else {
        CoveredPage(decode, list, q, n);
      }
    }
  }

  /** Log reading refines the full scan: the doubling read of the tail terminates on every
      list, and its page is that of filtering the whole list. */
  method ReadPage(decode: Decoder, list: seq<string>, q: Query) returns (page: seq<Entry>, next: int)
    requires q.Valid()
    ensures page == PageRead(decode, list, q) && next == NextId(page, q.after)
    ensures Complete(decode, list, q) ==> page == FullPage(decode, list, q)
  {
    var entries := ReadLogEntries(decode, list, q);
    if Complete(decode, list, q) {
      EnoughIsEnough(decode, list, q, LastRead(decode, list, q, FirstRead(q)));
    }
    page := PickLogPage(entries, q);
    next := if |page| == 0 then q.after else page[|page| - 1].id;
  }

  function AfterCursor(after: int, limit: nat, matches: Entry -> bool): Query {
    Query(after, limit, false, matches)
  }

  /** How long the two pages are. */
  lemma PageLengths(decode: Decoder, list: seq<string>, q: Query, n: nat)
    requires q.after > 0 && n <= |list|
    ensures |Page(Tail(decode, list, n), q)| <= |Select(Wanted(q), Decoded(decode, list[|list| - n..]))|
    ensures |FullPage(decode, list, q)| >= (var all := |Select(Wanted(q), Decoded(decode, list))|; if all < q.limit then all else q.limit)
  {
    NewestIsRest(list, n);
    var f, rest := Wanted(q), list[|list| - n..];
    SelectSort(f, Decoded(decode, list));
    SelectSort(f, Decoded(decode, rest));
    SortPermutes(LiveLogs.ById, Select(f, Decoded(decode, list)));
    SortPermutes(LiveLogs.ById, Select(f, Decoded(decode, rest)));
  }

  /** A page size for which a line out of place is missed. */
  lemma MissedLine(decode: Decoder, list: seq<string>, after: int, matches: Entry -> bool, i: nat, j: nat)
    requires |list| <= RING_SIZE && after > 0 && forall e :: matches(e)
    requires i < j < |list| && IsOld(decode, list[j], after) && IsRecent(decode, list[i], after)
    ensures var q := AfterCursor(after, |list| - j, matches);
            PageRead(decode, list, q) != FullPage(decode, list, q)
  {
    var limit := |list| - j;
    var q := AfterCursor(after, limit, matches);
    var head, rest := list[..j], list[j..];
    NewestIsRest(list, limit);
    assert rest[0] == list[j] && head[i] == list[i];
    OldIsCovered(decode, rest, after, 0);
    assert Covered(decode, list, q, limit) && LastRead(decode, list, q, limit) == limit;
    FewerWanted(decode, rest, q);
    SomeWanted(decode, head, q, i);
    WantedSplits(decode, list, q, limit);
    PageLengths(decode, list, q, limit);
  }

  lemma OldIsCovered(decode: Decoder, raw: seq<string>, after: int, j: nat)
    requires j < |raw| && IsOld(decode, raw[j], after)
    ensures var entries := Sort(LiveLogs.ById, Decoded(decode, raw)); entries != [] && entries[0].id <= after
  {
    var d := Decoded(decode, raw);
    var e, entries := decode(raw[j]).value, Sort(LiveLogs.ById, d);
    DecodedMember(decode, raw, j);
    LiveLogs.SortedMembers(d, e);
    LiveLogs.ByIdOrders();
    SortSorts(LiveLogs.ById, d);
    var k :| 0 <= k < |entries| && entries[k] == e;
    assert k > 0 ==> LiveLogs.ById(entries[0], entries[k]);
  }

  /** When a reader that follows a list sees everything on it: its pages are those of the
      whole list, whatever their size, if and only if no line at or below its cursor stands
      behind one above it. Several replicas push their batches to one list, so it can. */
  lemma CursorReadExact(decode: Decoder, list: seq<string>, after: int, matches: Entry -> bool)
    requires |list| <= RING_SIZE && after > 0 && forall e :: matches(e)
    ensures (forall limit: nat | limit > 0 ::
               PageRead(decode, list, AfterCursor(after, limit, matches)) == FullPage(decode, list, AfterCursor(after, limit, matches)))
            <==> OldFirst(decode, list, after)
  {
    if OldFirst(decode, list, after) {
      forall limit: nat | limit > 0
        ensures PageRead(decode, list, AfterCursor(after, limit, matches)) == FullPage(decode, list, AfterCursor(after, limit, matches))
      {
        var q := AfterCursor(after, limit, matches);
        EnoughIsEnough(decode, list, q, LastRead(decode, list, q, FirstRead(q)));
      }
    } else {
      var i, j :| 0 <= i < j < |list| && IsOld(decode, list[j], after) && IsRecent(decode, list[i], after);
      MissedLine(decode, list, after, matches, i, j);
    }
  }

  lemma DecodedOne(decode: Decoder, raw: string)
    requires decode(raw).Some?
    ensures Decoded(decode, [raw]) == [decode(raw).value]
  {
    assert [raw][..0] == [];
  }

  lemma FullPageOfPair(decode: Decoder, newer: string, older: string, q: Query)
    requires IsOld(decode, older, q.after) && IsRecent(decode, newer, q.after) && q.after > 0 && q.limit > 0 && forall e :: q.matches(e)
    ensures FullPage(decode, [newer, older], q) == [decode(newer).value]
  {
    var f, one := Wanted(q), [decode(newer).value];
    DecodedOne(decode, newer);
    DecodedConcat(decode, [newer], [older]);
    assert [newer] + [older] == [newer, older];
    NoneWanted(decode, [older], q);
    SelectConcat(f, one, Decoded(decode, [older]));
    SelectAll(f, one);
    SelectSort(f, Decoded(decode, [newer, older]));
    Seqs.EmptyRight(one);
    SortOfSorted(LiveLogs.ById, one);
  }

  /** The least such list: a newer line pushed before an older one. A reader that already
      has the older one is told, page after page, that there is nothing new. */
  lemma InterleavedLineIsMissed(decode: Decoder, newer: string, older: string, matches: Entry -> bool)
    requires IsOld(decode, older, 1) && IsRecent(decode, newer, 1) && forall e :: matches(e)
    ensures var q := AfterCursor(1, 1, matches);
            PageRead(decode, [newer, older], q) == [] && FullPage(decode, [newer, older], q) == [decode(newer).value]
  {
    var q, list := AfterCursor(1, 1, matches), [newer, older];
    NewestIsRest(list, 1);
    assert list[1..] == [older];
    OldIsCovered(decode, [older], 1, 0);
    assert LastRead(decode, list, q, 1) == 1;
    NoneWanted(decode, [older], q);
    SelectSort(Wanted(q), Decoded(decode, [older]));
    FullPageOfPair(decode, newer, older, q);
  }

  // ----- Following a list with a cursor -----

  /** A source and one reader of it: everything ever logged, how much of it has been
      trimmed away, the reader's cursor and what the reader has been given since it first
      had one. */
  datatype Reader = Reader(log: seq<Entry>, trimmed: nat, since: int, cursor: int, got: seq<Entry>)

  datatype Event = Append(e: Entry) | Trim | Poll(limit: nat)

  function Step(matches: Entry -> bool, r: Reader, ev: Event): (t: Reader)
    requires r.trimmed <= |r.log|
    ensures t.trimmed <= |t.log|
  {
    match ev
    case Append(e) => if r.log != [] && e.id <= r.log[|r.log| - 1].id then r else r.(log := r.log + [e])
    case Trim => if r.trimmed < |r.log| then r.(trimmed := r.trimmed + 1) else r
    case Poll(limit) =>
      var page := Page(r.log[r.trimmed..], Query(r.cursor, limit, true, matches));
      r.(cursor := NextId(page, r.cursor), got := r.got + page)
  }

  function Within(matches: Entry -> bool, lo: int, hi: int): Entry -> bool {
    (e: Entry) => matches(e) && lo < e.id <= hi
  }

  /** The matching lines between two ids, upper one included. */
  function Between(matches: Entry -> bool, log: seq<Entry>, lo: int, hi: int): seq<Entry> {
    Select(Within(matches, lo, hi), log)
  }

  /** Trimming has not passed the cursor. */
  predicate InSight(r: Reader) {
    r.trimmed <= |r.log| && forall i | 0 <= i < r.trimmed :: r.log[i].id <= r.cursor
  }

  predicate Following(matches: Entry -> bool, r: Reader) {
    && r.trimmed <= |r.log| && Increasing(r.log)
    && 0 < r.since <= r.cursor
    && (r.log != [] ==> r.cursor <= r.log[|r.log| - 1].id) && (r.log == [] ==> r.got == [] && r.cursor == r.since)
    && r.got == Between(matches, r.log, r.since, r.cursor)
  }

  lemma {:induction false} SelectSame(f: Entry -> bool, g: Entry -> bool, es: seq<Entry>)
    requires forall i | 0 <= i < |es| :: f(es[i]) == g(es[i])
    ensures Select(f, es) == Select(g, es)
  {
    if es != [] {
      SelectSame(f, g, es[..|es| - 1]);
    }
  }

  /** Matching lines up to one id, then those from there up to another. */
  lemma {:induction false} BetweenSplits(matches: Entry -> bool, log: seq<Entry>, lo: int, mid: int, hi: int)
    requires Increasing(log) && lo <= mid <= hi
    ensures Between(matches, log, lo, hi) == Between(matches, log, lo, mid) + Between(matches, log, mid, hi)
  {
    if log != [] {
      var n := |log| - 1;
      BetweenSplits(matches, log[..n], lo, mid, hi);
      if log[n].id <= mid {
        forall i | 0 <= i < n
          ensures log[..n][i].id < mid
        {
          assert log[i].id < log[n].id;
        }
        SelectNone(Within(matches, mid, hi), log[..n]);
        assert Between(matches, log[..n], mid, hi) == [];
      }
    }
  }

  function UpTo(f: Entry -> bool, top: int): Entry -> bool {
    (e: Entry) => f(e) && e.id <= top
  }

  /** The first lines of a selection are the selection up to the last of them. */
  lemma {:induction false} SelectUpTo(f: Entry -> bool, log: seq<Entry>, k: nat)
    requires Increasing(log) && 0 < k <= |Select(f, log)|
    ensures Select(f, log)[..k] == Select(UpTo(f, Select(f, log)[k - 1].id), log)
  {
    var n := |log| - 1;
    var all, init := Select(f, log), Select(f, log[..n]);
    SelectMembers(f, log[..n]);
    if k <= |init| {
      SelectUpTo(f, log[..n], k);
      assert all[..k] == init[..k] && all[k - 1] == init[k - 1];
      assert init[k - 1] in init;
      var i :| 0 <= i < n && log[..n][i] == init[k - 1];
      assert log[i].id < log[n].id;
    } else {
      assert all[k - 1] == log[n];
      SelectSame(f, UpTo(f, log[n].id), log);
    }
  }

  lemma PageOfLog(log: seq<Entry>, q: Query)
    requires Increasing(log) && q.after > 0
    ensures var page := Page(log, q);
            && page == Between(q.matches, log, q.after, NextId(page, q.after))
            && NextId(page, q.after) >= q.after
            && (page != [] ==> log != [] && NextId(page, q.after) <= log[|log| - 1].id)
  {
    var f := Wanted(q);
    var out := Select(f, log);
    var page := Page(log, q);
    SelectMembers(f, log);
    if page == [] {
      SelectNone(Within(q.matches, q.after, q.after), log);
    } else {
      var k := |page|;
      SelectUpTo(f, log, k);
      assert page == out[..k];
      var top := out[k - 1].id;
      SelectSame(UpTo(f, top), Within(q.matches, q.after, top), log);
      assert out[k - 1] in out;
    }
  }

  /** A page after a cursor, as a stretch of the whole log. */
  lemma PageIsBetween(matches: Entry -> bool, r: Reader, limit: nat)
    requires Following(matches, r) && InSight(r)
    ensures var page := Page(r.log[r.trimmed..], Query(r.cursor, limit, true, matches));
            && page == Between(matches, r.log, r.cursor, NextId(page, r.cursor))
            && NextId(page, r.cursor) >= r.cursor
            && (page != [] ==> r.log != [] && NextId(page, r.cursor) <= r.log[|r.log| - 1].id)
  {
    var q := Query(r.cursor, limit, true, matches);
    PageSkipsOld(r.log, q, r.trimmed);
    PageOfLog(r.log, q);
  }

  lemma PollFollows(matches: Entry -> bool, r: Reader, limit: nat)
    requires Following(matches, r) && InSight(r)
    ensures Following(matches, Step(matches, r, Poll(limit)))
  {
    var t := Step(matches, r, Poll(limit));
    PageIsBetween(matches, r, limit);
    BetweenSplits(matches, r.log, r.since, r.cursor, t.cursor);
  }

  lemma AppendFollows(matches: Entry -> bool, r: Reader, e: Entry)
    requires Following(matches, r)
    requires r.log == [] ==> e.id > r.cursor
    ensures Following(matches, Step(matches, r, Append(e)))
  {
    var t := Step(matches, r, Append(e));
    if t != r {
      assert t.log[..|r.log|] == r.log;
      assert t.got == Between(matches, t.log, t.since, t.cursor);
    }
  }

  function Run(matches: Entry -> bool, r: Reader, events: seq<Event>): Reader
    requires r.trimmed <= |r.log|
    decreases |events|
  {
    if events == [] then r else Run(matches, Step(matches, r, events[0]), events[1..])
  }

  /** Whenever the reader polls, trimming has not passed its cursor. */
  predicate KeepsUp(matches: Entry -> bool, r: Reader, events: seq<Event>)
    requires r.trimmed <= |r.log|
    decreases |events|
  {
    events == [] || ((events[0].Poll? ==> InSight(r)) && KeepsUp(matches, Step(matches, r, events[0]), events[1..]))
  }

  lemma {:induction false} RunFollows(matches: Entry -> bool, r: Reader, events: seq<Event>)
    requires Following(matches, r) && r.log != [] && KeepsUp(matches, r, events)
    ensures Following(matches, Run(matches, r, events)) && Run(matches, r, events).since == r.since
    decreases |events|
  {
    if events != [] {
      match events[0] {
        case Append(e) => AppendFollows(matches, r, e);
        case Trim =>
        case Poll(limit) => PollFollows(matches, r, limit);
      }
      RunFollows(matches, Step(matches, r, events[0]), events[1..]);
    }
  }

  /** Polling delivers every matching line exactly once and in order: from the first
      cursor a reader has, over any run of logging, trimming and polls with pages of any
      size in which trimming never passes the cursor before a poll, what it has been
      given is the matching lines of the whole log up to its present cursor. */
  lemma PollingIsExact(matches: Entry -> bool, log: seq<Entry>, trimmed: nat, cursor: int, events: seq<Event>)
    requires Increasing(log) && log != [] && trimmed <= |log| && 0 < cursor <= log[|log| - 1].id
    requires KeepsUp(matches, Reader(log, trimmed, cursor, cursor, []), events)
    ensures var r := Run(matches, Reader(log, trimmed, cursor, cursor, []), events);
            r.got == Between(matches, r.log, cursor, r.cursor) && Increasing(r.got)
  {
    var start := Reader(log, trimmed, cursor, cursor, []);
    SelectNone(Within(matches, cursor, cursor), log);
    assert Between(matches, log, cursor, cursor) == [];
    RunFollows(matches, start, events);
    var r := Run(matches, start, events);
    SelectIncreasing(Within(matches, cursor, r.cursor), r.log);
  }

  /** A page that is not full leaves nothing behind. */
  lemma ShortPageCatchesUp(matches: Entry -> bool, r: Reader, limit: nat, top: int)
    requires Following(matches, r) && InSight(r) && r.log != [] && top == r.log[|r.log| - 1].id
    requires |Page(r.log[r.trimmed..], Query(r.cursor, limit, true, matches))| < limit
    ensures Step(matches, r, Poll(limit)).got == Between(matches, r.log, r.since, top)
  {
    PageIsBetween(matches, r, limit);
    var t := Step(matches, r, Poll(limit));
    PollFollows(matches, r, limit);
    BetweenSplits(matches, r.log, r.since, t.cursor, top);
    NothingBeyondShortPage(matches, r, limit, t.cursor, top);
    assert t.got + [] == t.got;
  }

  /** No wanted line is newer than the last one selected. */
  lemma LastIsTop(f: Entry -> bool, log: seq<Entry>, i: nat)
    requires Increasing(log) && i < |log| && f(log[i])
    ensures Select(f, log) != [] && log[i].id <= Select(f, log)[|Select(f, log)| - 1].id
  {
    var out := Select(f, log);
    SelectMembers(f, log);
    SelectIncreasing(f, log);
    assert log[i] in out;
    var k :| 0 <= k < |out| && out[k] == log[i];
    assert k < |out| - 1 ==> out[k].id < out[|out| - 1].id;
  }

  lemma NothingBeyondShortPage(matches: Entry -> bool, r: Reader, limit: nat, cursor: int, top: int)
    requires Following(matches, r) && InSight(r)
    requires |Page(r.log[r.trimmed..], Query(r.cursor, limit, true, matches))| < limit
    requires cursor == NextId(Page(r.log[r.trimmed..], Query(r.cursor, limit, true, matches)), r.cursor)
    ensures Between(matches, r.log, cursor, top) == []
  {
    var q := Query(r.cursor, limit, true, matches);
    PageIsBetween(matches, r, limit);
    PageSkipsOld(r.log, q, r.trimmed);
    forall i | 0 <= i < |r.log| && matches(r.log[i])
      ensures r.log[i].id <= cursor
    {
      if r.log[i].id > r.cursor {
        LastIsTop(Wanted(q), r.log, i);
      }
    }
    SelectNone(Within(matches, cursor, top), r.log);
  }
}
