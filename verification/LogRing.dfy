/** internal/nodelog/ring.go and the choice of lines in cmd/node/live.go: the node's
    buffer of its newest log lines, and which of them go out next. */
module LogRing {
  import opened LogEntries

  const LIVE_LOGS_MAX := 500
  const LIVE_LOGS_FIRST := 200

  /** k modulo size, for positions at most once around. */
  function Wrap(k: nat, size: nat): (r: nat)
    requires k < 2 * size
    ensures r < size
  {
    if k < size then k else k - size
  }

  lemma WrapIsModulo(k: nat, size: nat)
    requires k < 2 * size
    ensures Wrap(k, size) == k % size
  {
    if k >= size {
      assert k % size == (k - size) % size;
    }
  }

  // ----- Long lines -----

  const MAX_LINE_BYTES := 0x4000
  const CUT_MARK := "...(truncated)"

  /** Whether a byte can begin a character of UTF-8; the characters of a line stand for
      its bytes. */
  predicate RuneStart(b: char) {
    !(0x80 <= b as int < 0xC0)
  }

  /** The last place at or before n where a character begins. */
  function CutPoint(text: string, n: nat): (cut: nat)
    requires n < |text|
    ensures cut <= n && (cut == 0 || RuneStart(text[cut]))
    ensures forall k | cut < k <= n :: !RuneStart(text[k])
  {
    if n == 0 || RuneStart(text[n]) then n else CutPoint(text, n - 1)
  }

  /** A line as it is kept: one that is too long loses its end, and never part of a
      character that fits. */
  function Shortened(text: string): (kept: string)
    ensures |kept| <= MAX_LINE_BYTES + |CUT_MARK|
  {
    if |text| <= MAX_LINE_BYTES then text else text[..CutPoint(text, MAX_LINE_BYTES)] + CUT_MARK
  }

  method Shorten(text: string) returns (kept: string)
    ensures kept == Shortened(text)
  {
    kept := text;
    if |text| > MAX_LINE_BYTES {
      var cut: nat := MAX_LINE_BYTES;
      while cut > 0 && !RuneStart(text[cut])
        invariant cut <= MAX_LINE_BYTES && CutPoint(text, cut) == CutPoint(text, MAX_LINE_BYTES)
      {
        cut := cut - 1;
      }
      kept := text[..cut] + CUT_MARK;
    }
  }

  /** What the node sends of the lines it holds. */
  function Selected(held: seq<Entry>, after: int): seq<Entry> {
    if after <= 0 || after < (if held == [] then 0 else held[0].id) then Newest(held, LIVE_LOGS_FIRST)
    else Oldest(After(held, after), LIVE_LOGS_MAX)
  }

  class Ring {
    const buf: array<Entry>
    var start: nat
    var n: nat
    var last: int
    /** The lines held, oldest first. */
    ghost var held: seq<Entry>

    ghost predicate Valid()
      reads this, buf
    {
      && start < buf.Length && (n < buf.Length ==> start == 0)
      && n == |held| <= buf.Length && Increasing(held)
      && last == (if held == [] then 0 else held[|held| - 1].id)
      && forall i | 0 <= i < |held| :: buf[Wrap(start + i, buf.Length)] == held[i]
    }

    constructor (capacity: nat, blank: Entry)
      requires capacity > 0
      ensures Valid() && held == [] && buf.Length == capacity && fresh(buf)
    {
      buf := new Entry[capacity](_ => blank);
      start, n, last, held := 0, 0, 0, [];
    }

    method At(i: nat) returns (e: Entry)
      requires Valid() && i < n
      ensures e == held[i]
    {
      WrapIsModulo(start + i, buf.Length);
      e := buf[(start + i) % buf.Length];
    }

    method Append(e: Entry)
      requires Valid() && n < buf.Length && e.id > last
      modifies this, buf
      ensures Valid() && held == old(held) + [e]
    {
      WrapIsModulo(start + n, buf.Length);
      buf[(start + n) % buf.Length] := e;
      n := n + 1;
      last := e.id;
      held := held + [e];
    }

    method Overwrite(e: Entry)
      requires Valid() && n == buf.Length && e.id > last
      modifies this, buf
      ensures Valid() && held == old(held)[1..] + [e]
    {
      ghost var before, from := held, start;
      buf[start] := e;
      WrapIsModulo(start + 1, buf.Length);
      start := (start + 1) % buf.Length;
      last := e.id;
      held := before[1..] + [e];
      forall i | 0 <= i < |held|
        ensures buf[Wrap(start + i, buf.Length)] == held[i]
      {
        if i < |held| - 1 {
          assert Wrap(start + i, buf.Length) == Wrap(from + (i + 1), buf.Length);
        }
      }
    }

    /** Stores a line, cut if it is too long, under an id above every earlier one, whatever
        the clock says, and drops the oldest line when the buffer is full. */
    method Add(clock: int, ts: string, level: string, text: string) returns (id: int)
      requires Valid()
      modifies this, buf
      ensures Valid() && id >= clock && id > old(last)
      ensures held == Newest(old(held) + [Entry(id, ts, level, Shortened(text))], buf.Length)
    {
      var line := Shorten(text);
      id := clock;
      if id <= last {
        id := last + 1;
      }
      if n < buf.Length {
        Append(Entry(id, ts, level, line));
      } else {
        Overwrite(Entry(id, ts, level, line));
      }
    }

    /** sort.Search over the held lines. */
    method FirstAfter(after: int) returns (k: nat)
      requires Valid()
      ensures FirstAbove(held, after, k)
    {
      var hi := n;
      k := 0;
      while k < hi
        invariant k <= hi <= n
        invariant forall i | 0 <= i < k :: held[i].id <= after
        invariant forall i | hi <= i < n :: held[i].id > after
      {
        var mid := (k + hi) / 2;
        var e := At(mid);
        if e.id > after {
          AboveAfter(held, after, mid);
          hi := mid;
        } else {
          BelowBefore(held, after, mid);
          k := mid + 1;
        }
      }
    }

    method Copy(from: nat, count: nat) returns (out: seq<Entry>)
      requires Valid() && from + count <= n
      ensures out == held[from..from + count]
    {
      out := [];
      for i := from to from + count
        invariant out == held[from..i]
      {
        var e := At(i);
        out := out + [e];
      }
    }

    method Since(after: int, limit: nat) returns (out: seq<Entry>)
      requires Valid()
      ensures out == Oldest(After(held, after), limit)
    {
      var from := FirstAfter(after);
      AfterIsSuffix(held, after, from);
      var count := n - from;
      if count > limit {
        count := limit;
      }
      out := Copy(from, count);
    }

    method NewestLines(count: nat) returns (out: seq<Entry>)
      requires Valid()
      ensures out == Newest(held, count)
    {
      var k := if count > n then n else count;
      out := Copy(n - k, k);
    }

    method OldestId() returns (id: int)
      requires Valid()
      ensures id == if held == [] then 0 else held[0].id
    {
      if n == 0 {
        return 0;
      }
      var e := At(0);
      return e.id;
    }

    method SelectLiveLogs(after: int) returns (out: seq<Entry>)
      requires Valid()
      ensures out == Selected(held, after)
    {
      var oldest := OldestId();
      if after <= 0 || after < oldest {
        out := NewestLines(LIVE_LOGS_FIRST);
      } else {
        out := Since(after, LIVE_LOGS_MAX);
      }
    }
  }
}
