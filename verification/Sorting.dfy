/** Stable sorting by a total preorder, as Go's sort.SliceStable; with an antisymmetric
    order the result is determined, so it also stands for sort.Strings and sort.Slice
    on plain values. */
module Sorting {

  ghost predicate TotalPreorder<T(!new)>(le: (T, T) -> bool) {
    && (forall a, b :: le(a, b) || le(b, a))
    && (forall a, b, c :: le(a, b) && le(b, c) ==> le(a, c))
  }

  ghost predicate Antisymmetric<T(!new)>(le: (T, T) -> bool) {
    forall a, b :: le(a, b) && le(b, a) ==> a == b
  }

  predicate SortedBy<T>(le: (T, T) -> bool, xs: seq<T>) {
    forall i, j | 0 <= i < j < |xs| :: le(xs[i], xs[j])
  }

  /** x goes behind everything that is not above it. */
  function Insert<T>(le: (T, T) -> bool, xs: seq<T>, x: T): seq<T> {
    if xs == [] then [x]
    else
      var n := |xs| - 1;
      if le(xs[n], x) then xs + [x] else Insert(le, xs[..n], x) + [xs[n]]
  }

  function Sort<T>(le: (T, T) -> bool, xs: seq<T>): seq<T> {
    if xs == [] then [] else Insert(le, Sort(le, xs[..|xs| - 1]), xs[|xs| - 1])
  }

  lemma {:induction false} InsertPermutes<T>(le: (T, T) -> bool, xs: seq<T>, x: T)
    ensures multiset(Insert(le, xs, x)) == multiset(xs) + multiset{x}
    ensures |Insert(le, xs, x)| == |xs| + 1
  {
    if xs != [] {
      var n := |xs| - 1;
      assert xs == xs[..n] + [xs[n]];
      InsertPermutes(le, xs[..n], x);
    }
  }

  predicate AllBelow<T>(le: (T, T) -> bool, xs: seq<T>, top: T) {
    forall i | 0 <= i < |xs| :: le(xs[i], top)
  }

  lemma SortedSnoc<T>(le: (T, T) -> bool, xs: seq<T>, x: T)
    requires SortedBy(le, xs) && AllBelow(le, xs, x)
    ensures SortedBy(le, xs + [x])
  {
  }

  lemma InsertedBelow<T>(le: (T, T) -> bool, xs: seq<T>, x: T, top: T)
    requires le(x, top) && AllBelow(le, xs, top)
    ensures AllBelow(le, Insert(le, xs, x), top)
  {
    InsertPermutes(le, xs, x);
    var inner := Insert(le, xs, x);
    forall i | 0 <= i < |inner|
      ensures le(inner[i], top)
    {
      assert inner[i] in multiset(inner);
      if inner[i] != x {
        assert inner[i] in multiset(xs);
        var k :| 0 <= k < |xs| && xs[k] == inner[i];
      }
    }
  }

  /** Under a sorted list's last element lie the others. */
  lemma LastAbove<T>(le: (T, T) -> bool, xs: seq<T>)
    requires xs != [] && SortedBy(le, xs)
    ensures AllBelow(le, xs[..|xs| - 1], xs[|xs| - 1]) && SortedBy(le, xs[..|xs| - 1])
  {
  }

  lemma AllBelowMore<T(!new)>(le: (T, T) -> bool, xs: seq<T>, x: T)
    requires TotalPreorder(le) && SortedBy(le, xs) && xs != [] && le(xs[|xs| - 1], x)
    ensures AllBelow(le, xs, x)
  {
    forall i | 0 <= i < |xs|
      ensures le(xs[i], x)
    {
      assert i < |xs| - 1 ==> le(xs[i], xs[|xs| - 1]);
    }
  }

  lemma {:induction false} InsertSorts<T(!new)>(le: (T, T) -> bool, xs: seq<T>, x: T)
    requires TotalPreorder(le) && SortedBy(le, xs)
    ensures SortedBy(le, Insert(le, xs, x))
  {
    if xs != [] {
      var n := |xs| - 1;
      if le(xs[n], x) {
        AllBelowMore(le, xs, x);
        SortedSnoc(le, xs, x);
      } else {
        LastAbove(le, xs);
        InsertSorts(le, xs[..n], x);
        InsertedBelow(le, xs[..n], x, xs[n]);
        SortedSnoc(le, Insert(le, xs[..n], x), xs[n]);
      }
    }
  }

  lemma {:induction false} SortPermutes<T>(le: (T, T) -> bool, xs: seq<T>)
    ensures multiset(Sort(le, xs)) == multiset(xs)
    ensures |Sort(le, xs)| == |xs|
  {
    if xs != [] {
      var n := |xs| - 1;
      SortPermutes(le, xs[..n]);
      InsertPermutes(le, Sort(le, xs[..n]), xs[n]);
      assert xs == xs[..n] + [xs[n]];
    }
  }

  lemma {:induction false} SortSorts<T(!new)>(le: (T, T) -> bool, xs: seq<T>)
    requires TotalPreorder(le)
    ensures SortedBy(le, Sort(le, xs))
  {
    if xs != [] {
      SortSorts(le, xs[..|xs| - 1]);
      InsertSorts(le, Sort(le, xs[..|xs| - 1]), xs[|xs| - 1]);
    }
  }

  /** A sorted list is left as it is. */
  lemma {:induction false} SortOfSorted<T>(le: (T, T) -> bool, xs: seq<T>)
    requires SortedBy(le, xs)
    ensures Sort(le, xs) == xs
  {
    if xs != [] {
      var n := |xs| - 1;
      SortOfSorted(le, xs[..n]);
      assert xs == xs[..n] + [xs[n]];
    }
  }

  /** Nothing in a sorted list is above its last element. */
  lemma LastIsTop<T(!new)>(le: (T, T) -> bool, a: seq<T>, x: T)
    requires TotalPreorder(le) && SortedBy(le, a) && x in multiset(a)
    ensures a != [] && le(x, a[|a| - 1])
  {
    var i :| 0 <= i < |a| && a[i] == x;
  }

  /** Under an antisymmetric order a multiset has one sorted listing. */
  lemma {:induction false} SortedUnique<T(!new)>(le: (T, T) -> bool, a: seq<T>, b: seq<T>)
    requires TotalPreorder(le) && Antisymmetric(le)
    requires SortedBy(le, a) && SortedBy(le, b) && multiset(a) == multiset(b)
    ensures a == b
  {
    assert |a| == |multiset(a)| == |multiset(b)| == |b|;
    if a != [] {
      var n := |a| - 1;
      LastIsTop(le, a, b[n]);
      LastIsTop(le, b, a[n]);
      SplitLast(a);
      SplitLast(b);
      SortedUnique(le, a[..n], b[..n]);
    }
  }

  lemma SplitLast<T>(a: seq<T>)
    requires a != []
    ensures a == a[..|a| - 1] + [a[|a| - 1]]
    ensures multiset(a[..|a| - 1]) == multiset(a) - multiset{a[|a| - 1]}
  {
    assert a == a[..|a| - 1] + [a[|a| - 1]];
  }

  lemma SortDeterminedByContents<T(!new)>(le: (T, T) -> bool, a: seq<T>, b: seq<T>)
    requires TotalPreorder(le) && Antisymmetric(le)
    ensures Sort(le, a) == Sort(le, b) <==> multiset(a) == multiset(b)
  {
    SortPermutes(le, a);
    SortPermutes(le, b);
    if multiset(a) == multiset(b) {
      SortSorts(le, a);
      SortSorts(le, b);
      SortedUnique(le, Sort(le, a), Sort(le, b));
    }
  }

  // ----- Stability -----

  /** The elements equivalent to x under the order, in their order. */
  function Class<T>(le: (T, T) -> bool, x: T, xs: seq<T>): seq<T> {
    if xs == [] then []
    else
      var n := |xs| - 1;
      Class(le, x, xs[..n]) + (if le(x, xs[n]) && le(xs[n], x) then [xs[n]] else [])
  }

  lemma {:induction false} InsertStable<T(!new)>(le: (T, T) -> bool, xs: seq<T>, y: T, x: T)
    requires TotalPreorder(le)
    ensures Class(le, x, Insert(le, xs, y)) == Class(le, x, xs) + (if le(x, y) && le(y, x) then [y] else [])
  {
    if xs == [] {
      assert [y][..0] == [];
    } else {
      var n := |xs| - 1;
      if le(xs[n], y) {
        assert (xs + [y])[..n + 1] == xs;
      } else {
        InsertStable(le, xs[..n], y, x);
        var inner := Insert(le, xs[..n], y);
        assert (inner + [xs[n]])[..|inner|] == inner;
        // y goes in front of xs[n] only when it is strictly below it
        assert !(le(x, y) && le(y, x) && le(x, xs[n]) && le(xs[n], x));
      }
    }
  }

  /** Equivalent elements keep their order. */
  lemma {:induction false} SortStable<T(!new)>(le: (T, T) -> bool, xs: seq<T>, x: T)
    requires TotalPreorder(le)
    ensures Class(le, x, Sort(le, xs)) == Class(le, x, xs)
  {
    if xs != [] {
      SortStable(le, xs[..|xs| - 1], x);
      InsertStable(le, Sort(le, xs[..|xs| - 1]), xs[|xs| - 1], x);
    }
  }

  // ----- Strings -----

  /** Go's string order: lexicographic. */
  predicate StringLe(a: string, b: string) {
    if a == "" then true
    else if b == "" then false
    else if a[0] != b[0] then a[0] < b[0]
    else StringLe(a[1..], b[1..])
  }

  predicate IntLe(a: int, b: int) { a <= b }

  lemma {:induction false} StringLeTotal(a: string, b: string)
    ensures StringLe(a, b) || StringLe(b, a)
    ensures StringLe(a, b) && StringLe(b, a) ==> a == b
  {
    if a != "" && b != "" && a[0] == b[0] {
      StringLeTotal(a[1..], b[1..]);
      assert a == [a[0]] + a[1..] && b == [b[0]] + b[1..];
    }
  }

  lemma {:induction false} StringLeTransitive(a: string, b: string, c: string)
    requires StringLe(a, b) && StringLe(b, c)
    ensures StringLe(a, c)
  {
    if a != "" && b != "" && c != "" && a[0] == b[0] == c[0] {
      StringLeTransitive(a[1..], b[1..], c[1..]);
    }
  }

  lemma StringOrder()
    ensures TotalPreorder(StringLe) && Antisymmetric(StringLe)
  {
    forall a, b
      ensures StringLe(a, b) || StringLe(b, a)
      ensures StringLe(a, b) && StringLe(b, a) ==> a == b
    {
      StringLeTotal(a, b);
    }
    forall a, b, c | StringLe(a, b) && StringLe(b, c)
      ensures StringLe(a, c)
    {
      StringLeTransitive(a, b, c);
    }
  }

  lemma IntOrder()
    ensures TotalPreorder(IntLe) && Antisymmetric(IntLe)
  {
  }
}
