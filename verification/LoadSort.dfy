/** internal/httpapi/hostsload.go, sortPendingByLoad: ordering some hosts of a list by
    load, in place, while every other host stays where it is. */
module LoadSort {
  import Seqs
  import opened Sorting

  datatype Host = Host(remark: string, sortable: bool, sortKey: int)

  predicate ByLoad(a: Host, b: Host) { a.sortKey <= b.sortKey }

  lemma ByLoadOrders()
    ensures TotalPreorder(ByLoad)
  {
  }

  function Sortables(hs: seq<Host>): (r: seq<Host>)
    ensures |r| <= |hs| && forall i | 0 <= i < |r| :: r[i].sortable
  {
    if hs == [] then []
    else
      var n := |hs| - 1;
      Sortables(hs[..n]) + (if hs[n].sortable then [hs[n]] else [])
  }

  function Others(hs: seq<Host>): seq<Host> {
    if hs == [] then []
    else
      var n := |hs| - 1;
      Others(hs[..n]) + (if hs[n].sortable then [] else [hs[n]])
  }

  /** How many sortable hosts stand before position i. */
  function Rank(hs: seq<Host>, i: nat): nat
    requires i <= |hs|
  {
    |Sortables(hs[..i])|
  }

  lemma {:induction false} SortableAt(hs: seq<Host>, i: nat)
    requires i < |hs| && hs[i].sortable
    ensures Rank(hs, i) < |Sortables(hs)| && Sortables(hs)[Rank(hs, i)] == hs[i]
  {
    var n := |hs| - 1;
    if i < n {
      SortableAt(hs[..n], i);
      assert hs[..n][..i] == hs[..i];
    }
  }

  /** The list with the sortable slots filled from moved, first to last. */
  function Placed(hs: seq<Host>, moved: seq<Host>): (r: seq<Host>)
    requires |moved| == |Sortables(hs)|
    ensures |r| == |hs|
  {
    if hs == [] then []
    else
      var n := |hs| - 1;
      if hs[n].sortable then Placed(hs[..n], moved[..|moved| - 1]) + [moved[|moved| - 1]]
      else Placed(hs[..n], moved) + [hs[n]]
  }

  lemma {:induction false} PlacedAt(hs: seq<Host>, moved: seq<Host>, i: nat)
    requires |moved| == |Sortables(hs)| && i < |hs|
    ensures hs[i].sortable ==> Rank(hs, i) < |moved| && Placed(hs, moved)[i] == moved[Rank(hs, i)]
    ensures !hs[i].sortable ==> Placed(hs, moved)[i] == hs[i]
  {
    var n := |hs| - 1;
    if i < n {
      assert hs[..n][..i] == hs[..i];
      PlacedAt(hs[..n], if hs[n].sortable then moved[..|moved| - 1] else moved, i);
    }
  }

  function ByLoadInSlots(hs: seq<Host>): seq<Host> {
    SortPermutes(ByLoad, Sortables(hs));
    Placed(hs, Sort(ByLoad, Sortables(hs)))
  }

  /** The slots of the sortable hosts among the first n, first to last. */
  predicate SlotsOf(slots: seq<nat>, hs: seq<Host>, n: nat)
    requires n <= |hs|
  {
    && |slots| == Rank(hs, n)
    && (forall k | 0 <= k < |slots| :: slots[k] < n && hs[slots[k]].sortable && Rank(hs, slots[k]) == k)
    && (forall i | 0 <= i < n && hs[i].sortable :: Rank(hs, i) < |slots| && slots[Rank(hs, i)] == i)
  }

  lemma RankStep(hs: seq<Host>, n: nat)
    requires n < |hs|
    ensures Rank(hs, n + 1) == Rank(hs, n) + if hs[n].sortable then 1 else 0
  {
    assert hs[..n + 1][..n] == hs[..n];
  }

  method CollectSlots(items: array<Host>) returns (slots: seq<nat>)
    ensures SlotsOf(slots, items[..], items.Length)
  {
    slots := [];
    ghost var hs := items[..];
    for i := 0 to items.Length
      invariant SlotsOf(slots, hs, i)
    {
      RankStep(hs, i);
      if items[i].sortable {
        slots := slots + [i];
      }
    }
  }

  lemma {:induction false} PlacedBack(hs: seq<Host>)
    ensures Placed(hs, Sortables(hs)) == hs
  {
    if hs != [] {
      var n := |hs| - 1;
      PlacedBack(hs[..n]);
      assert hs == hs[..n] + [hs[n]];
      if hs[n].sortable {
        assert Sortables(hs)[..|Sortables(hs)| - 1] == Sortables(hs[..n]);
      } else {
        assert Sortables(hs) == Sortables(hs[..n]);
      }
    }
  }

  lemma FewAreSorted(hs: seq<Host>)
    requires |Sortables(hs)| < 2
    ensures ByLoadInSlots(hs) == hs
  {
    SortOfSorted(ByLoad, Sortables(hs));
    PlacedBack(hs);
  }

  method SortPendingByLoad(items: array<Host>)
    modifies items
    ensures items[..] == ByLoadInSlots(old(items[..]))
  {
    ghost var hs := items[..];
    var slots := CollectSlots(items);
    assert hs[..|hs|] == hs;
    if |slots| < 2 {
      FewAreSorted(hs);
      return;
    }
    var moved := Taken(items, slots);
    SortPermutes(ByLoad, moved);
    moved := Sort(ByLoad, moved);
    PutBack(items, slots, moved);
  }

  method Taken(items: array<Host>, slots: seq<nat>) returns (moved: seq<Host>)
    requires SlotsOf(slots, items[..], items.Length)
    ensures moved == Sortables(items[..])
  {
    moved := [];
    assert items[..][..items.Length] == items[..];
    for k := 0 to |slots|
      invariant moved == Sortables(items[..])[..k]
    {
      SortableAt(items[..], slots[k]);
      moved := moved + [items[slots[k]]];
    }
  }

  /** Position i once the first k slots are filled. */
  function Filled(hs: seq<Host>, moved: seq<Host>, i: nat, k: nat): Host
    requires i < |hs| && k <= |moved|
  {
    if hs[i].sortable && Rank(hs, i) < k then moved[Rank(hs, i)] else hs[i]
  }

  lemma OnlySlot(hs: seq<Host>, moved: seq<Host>, slots: seq<nat>, k: nat)
    requires SlotsOf(slots, hs, |hs|) && k < |slots| == |moved|
    ensures forall i | 0 <= i < |hs| :: Filled(hs, moved, i, k + 1) == if i == slots[k] then moved[k] else Filled(hs, moved, i, k)
  {
    forall i | 0 <= i < |hs|
      ensures Filled(hs, moved, i, k + 1) == if i == slots[k] then moved[k] else Filled(hs, moved, i, k)
    {
      if hs[i].sortable && Rank(hs, i) == k {
        assert slots[Rank(hs, i)] == i;
      }
    }
  }

  method PutBack(items: array<Host>, slots: seq<nat>, moved: seq<Host>)
    requires SlotsOf(slots, items[..], items.Length) && |moved| == |Sortables(items[..])|
    modifies items
    ensures items[..] == Placed(old(items[..]), moved)
  {
    ghost var hs := items[..];
    assert hs[..|hs|] == hs;
    for k := 0 to |slots|
      invariant forall i | 0 <= i < |hs| :: items[i] == Filled(hs, moved, i, k)
    {
      OnlySlot(hs, moved, slots, k);
      items[slots[k]] := moved[k];
    }
    forall i | 0 <= i < |hs|
      ensures items[i] == Placed(hs, moved)[i]
    {
      PlacedAt(hs, moved, i);
    }
  }

  // ----- What the order is -----

  lemma PartsSnoc(hs: seq<Host>, h: Host)
    ensures Sortables(hs + [h]) == Sortables(hs) + (if h.sortable then [h] else [])
    ensures Others(hs + [h]) == Others(hs) + (if h.sortable then [] else [h])
  {
    Seqs.InitOfConcat(hs, [h]);
    Seqs.EmptyRight(hs);
  }

  lemma {:induction false} PlacedParts(hs: seq<Host>, moved: seq<Host>)
    requires |moved| == |Sortables(hs)| && forall i | 0 <= i < |moved| :: moved[i].sortable
    ensures Sortables(Placed(hs, moved)) == moved && Others(Placed(hs, moved)) == Others(hs)
  {
    if hs != [] {
      var n := |hs| - 1;
      if hs[n].sortable {
        var before := moved[..|moved| - 1];
        PlacedParts(hs[..n], before);
        PartsSnoc(Placed(hs[..n], before), moved[|moved| - 1]);
        Seqs.InitAndLast(moved);
      } else {
        PlacedParts(hs[..n], moved);
        PartsSnoc(Placed(hs[..n], moved), hs[n]);
      }
    }
  }

  lemma {:induction false} PartsMakeWhole(hs: seq<Host>)
    ensures multiset(hs) == multiset(Sortables(hs)) + multiset(Others(hs))
  {
    if hs != [] {
      var init, last := hs[..|hs| - 1], hs[|hs| - 1];
      PartsMakeWhole(init);
      Seqs.InitAndLast(hs);
      PartsSnoc(init, last);
      Seqs.EmptyRight(Sortables(init));
      Seqs.EmptyRight(Others(init));
    }
  }

  lemma SortedAreSortable(hs: seq<Host>)
    ensures forall i | 0 <= i < |Sort(ByLoad, Sortables(hs))| :: Sort(ByLoad, Sortables(hs))[i].sortable
  {
    var sorted := Sort(ByLoad, Sortables(hs));
    SortPermutes(ByLoad, Sortables(hs));
    forall i | 0 <= i < |sorted|
      ensures sorted[i].sortable
    {
      assert sorted[i] in multiset(sorted);
      assert sorted[i] in multiset(Sortables(hs));
    }
  }

  /** A stable partial sort: the hosts are the same, a host that is not sortable never
      moves, sortable hosts fill the slots sortable hosts had, they end up ascending by
      load, and those of equal load keep their order. */
  lemma PartialSort(hs: seq<Host>, x: Host)
    ensures var r := ByLoadInSlots(hs);
            && |r| == |hs| && multiset(r) == multiset(hs)
            && (forall i | 0 <= i < |hs| :: r[i].sortable == hs[i].sortable && (!hs[i].sortable ==> r[i] == hs[i]))
            && (forall i, j | 0 <= i < j < |Sortables(r)| :: Sortables(r)[i].sortKey <= Sortables(r)[j].sortKey)
            && Class(ByLoad, x, Sortables(r)) == Class(ByLoad, x, Sortables(hs))
  {
    var r, sorted := ByLoadInSlots(hs), Sort(ByLoad, Sortables(hs));
    SortPermutes(ByLoad, Sortables(hs));
    SortedAreSortable(hs);
    PlacedParts(hs, sorted);
    ByLoadOrders();
    SortSorts(ByLoad, Sortables(hs));
    SortStable(ByLoad, Sortables(hs), x);
    PartsMakeWhole(hs);
    PartsMakeWhole(r);
    forall i | 0 <= i < |hs|
      ensures r[i].sortable == hs[i].sortable && (!hs[i].sortable ==> r[i] == hs[i])
    {
      PlacedAt(hs, sorted, i);
    }
  }
}
