/** internal/logstream: stored log lines, which ids keep in order. */
module LogEntries {

  /** One line. Its id is a creation time in microseconds, bumped so ids never repeat. */
  datatype Entry = Entry(id: int, ts: string, level: string, line: string)

  /** How many entries a list keeps. */
  const RING_SIZE := 2000

  predicate Increasing(es: seq<Entry>) {
    forall i, j | 0 <= i < j < |es| :: es[i].id < es[j].id
  }

  function Newest<T>(xs: seq<T>, n: nat): (r: seq<T>)
    ensures |r| <= n && |r| <= |xs|
  {
    if |xs| > n then xs[|xs| - n..] else xs
  }

  function Oldest<T>(xs: seq<T>, n: nat): (r: seq<T>)
    ensures |r| <= n && r <= xs
  {
    if |xs| > n then xs[..n] else xs
  }

  function Select(f: Entry -> bool, es: seq<Entry>): seq<Entry> {
    if es == [] then []
    else
      var n := |es| - 1;
      Select(f, es[..n]) + (if f(es[n]) then [es[n]] else [])
  }

  lemma SelectSnoc(f: Entry -> bool, es: seq<Entry>, e: Entry)
    ensures Select(f, es + [e]) == Select(f, es) + (if f(e) then [e] else [])
  {
    assert (es + [e])[..|es|] == es;
  }

  lemma {:induction false} SelectConcat(f: Entry -> bool, a: seq<Entry>, b: seq<Entry>)
    ensures Select(f, a + b) == Select(f, a) + Select(f, b)
  {
    if b == [] {
      assert a + b == a;
    } else {
      var n := |b| - 1;
      SelectConcat(f, a, b[..n]);
      assert (a + b)[..|a| + n] == a + b[..n];
    }
  }

  lemma {:induction false} SelectAll(f: Entry -> bool, es: seq<Entry>)
    requires forall i | 0 <= i < |es| :: f(es[i])
    ensures Select(f, es) == es
  {
    if es != [] {
      SelectAll(f, es[..|es| - 1]);
    }
  }

  lemma {:induction false} SelectNone(f: Entry -> bool, es: seq<Entry>)
    requires forall i | 0 <= i < |es| :: !f(es[i])
    ensures Select(f, es) == []
  {
    if es != [] {
      SelectNone(f, es[..|es| - 1]);
    }
  }

  lemma {:induction false} SelectMembers(f: Entry -> bool, es: seq<Entry>)
    ensures forall e :: e in Select(f, es) <==> e in es && f(e)
  {
    if es != [] {
      var n := |es| - 1;
      SelectMembers(f, es[..n]);
      assert es == es[..n] + [es[n]];
    }
  }

  lemma {:induction false} SelectIncreasing(f: Entry -> bool, es: seq<Entry>)
    requires Increasing(es)
    ensures Increasing(Select(f, es))
  {
    if es != [] {
      var n := |es| - 1;
      SelectIncreasing(f, es[..n]);
      SelectMembers(f, es[..n]);
      forall e | e in Select(f, es[..n])
        ensures e.id < es[n].id
      {
        var k :| 0 <= k < n && es[..n][k] == e;
      }
    }
  }

  /** Position of the first entry above an id, in a list ordered by id. */
  predicate FirstAbove(es: seq<Entry>, after: int, k: nat) {
    && k <= |es|
    && (forall i | 0 <= i < k :: es[i].id <= after)
    && (forall i | k <= i < |es| :: es[i].id > after)
  }

  /** In a list ordered by id, one entry tells about all on its side. */
  lemma AboveAfter(es: seq<Entry>, after: int, k: nat)
    requires Increasing(es) && k < |es| && es[k].id > after
    ensures forall i | k <= i < |es| :: es[i].id > after
  {
    assert forall i | k < i < |es| :: es[k].id < es[i].id;
  }

  lemma BelowBefore(es: seq<Entry>, after: int, k: nat)
    requires Increasing(es) && k < |es| && es[k].id <= after
    ensures forall i | 0 <= i <= k :: es[i].id <= after
  {
    assert forall i | 0 <= i < k :: es[i].id < es[k].id;
  }

  function After(es: seq<Entry>, after: int): seq<Entry> {
    Select((e: Entry) => e.id > after, es)
  }

  lemma AfterIsSuffix(es: seq<Entry>, after: int, k: nat)
    requires FirstAbove(es, after, k)
    ensures After(es, after) == es[k..]
  {
    var f := (e: Entry) => e.id > after;
    assert es == es[..k] + es[k..];
    SelectConcat(f, es[..k], es[k..]);
    SelectNone(f, es[..k]);
    SelectAll(f, es[k..]);
  }

  lemma {:induction false} FirstAboveExists(es: seq<Entry>, after: int) returns (k: nat)
    requires Increasing(es)
    ensures FirstAbove(es, after, k)
  {
    if es == [] {
      k := 0;
    } else {
      var n := |es| - 1;
      k := FirstAboveExists(es[..n], after);
      assert forall i | 0 <= i < n :: es[..n][i] == es[i];
      assert k < n ==> es[..n][k].id > after;
      if k == n && es[n].id <= after {
        k := n + 1;
      }
    }
  }
}
