/** String helpers: joining with a one-character separator and splitting again, and the
    trims of Go's strings package. */
module Text {
  import Seqs

  function Join(parts: seq<string>, sep: char): string {
    if parts == [] then ""
    else if |parts| == 1 then parts[0]
    else Join(parts[..|parts| - 1], sep) + [sep] + parts[|parts| - 1]
  }

  lemma {:induction false} JoinFront(x: string, rest: seq<string>, sep: char)
    requires rest != []
    ensures Join([x] + rest, sep) == x + [sep] + Join(rest, sep)
  {
    var n := |rest| - 1;
    assert ([x] + rest)[..n + 1] == [x] + rest[..n];
    if n > 0 {
      JoinFront(x, rest[..n], sep);
    }
  }

  predicate Free(s: string, sep: char) {
    sep !in s
  }

  /** Strings that are one line each. */
  predicate AllFree(lines: seq<string>) {
    forall i | 0 <= i < |lines| :: Free(lines[i], '\n')
  }

  /** strings.Split for a separator of one character. */
  function Split(s: string, sep: char): (parts: seq<string>)
    ensures |parts| > 0
  {
    if s == "" then [""]
    else
      var n := |s| - 1;
      var before := Split(s[..n], sep);
      if s[n] == sep then before + [""]
      else before[..|before| - 1] + [before[|before| - 1] + [s[n]]]
  }

  /** What one more character does to the parts of a string. */
  function Extend(parts: seq<string>, c: char, sep: char): seq<string>
    requires parts != []
  {
    if c == sep then parts + [""] else parts[..|parts| - 1] + [parts[|parts| - 1] + [c]]
  }

  lemma SplitSnoc(s: string, c: char, sep: char)
    ensures Split(s + [c], sep) == Extend(Split(s, sep), c, sep)
  {
    assert (s + [c])[..|s|] == s;
  }

  lemma ExtendLast(before: seq<string>, init: string, c: char, sep: char)
    requires before != [] && c != sep
    ensures var n := |before| - 1;
            Extend(before[..n] + [before[n] + init], c, sep) == before[..n] + [before[n] + (init + [c])]
  {
    var n := |before| - 1;
    var parts := before[..n] + [before[n] + init];
    assert parts[..n] == before[..n] && parts[n] + [c] == before[n] + (init + [c]);
  }

  /** A string without separators at the end of another joins its last part. */
  function Appended(parts: seq<string>, word: string): seq<string>
    requires parts != []
  {
    parts[..|parts| - 1] + [parts[|parts| - 1] + word]
  }

  lemma AppendedMore(parts: seq<string>, init: string, c: char, sep: char)
    requires parts != [] && c != sep
    ensures Extend(Appended(parts, init), c, sep) == Appended(parts, init + [c])
  {
    ExtendLast(parts, init, c, sep);
  }

  lemma AppendedNothing(parts: seq<string>)
    requires parts != []
    ensures Appended(parts, "") == parts
  {
    assert parts[|parts| - 1] + "" == parts[|parts| - 1];
  }

  lemma {:induction false} SplitAppend(s: string, word: string, sep: char)
    requires Free(word, sep)
    ensures Split(s + word, sep) == Appended(Split(s, sep), word)
  {
    if word == "" {
      assert s + word == s;
      AppendedNothing(Split(s, sep));
    } else {
      var n := |word| - 1;
      var init, c := word[..n], word[n];
      SplitAppend(s, init, sep);
      assert s + word == (s + init) + [c] && word == init + [c];
      SplitSnoc(s + init, c, sep);
      AppendedMore(Split(s, sep), init, c, sep);
    }
  }

  /** Splitting undoes joining. */
  lemma {:induction false} SplitJoin(parts: seq<string>, sep: char)
    requires parts != [] && forall k | 0 <= k < |parts| :: Free(parts[k], sep)
    ensures Split(Join(parts, sep), sep) == parts
  {
    var n := |parts| - 1;
    var last := parts[n];
    if n == 0 {
      SplitAppend("", last, sep);
      assert "" + last == last;
      assert Split("", sep) == [""];
    } else {
      SplitJoin(parts[..n], sep);
      var front := Join(parts[..n], sep);
      assert (front + [sep])[..|front|] == front;
      assert Split(front + [sep], sep) == parts[..n] + [""];
      SplitAppend(front + [sep], last, sep);
      assert "" + last == last;
      assert parts == parts[..n] + [last];
      assert Join(parts, sep) == (front + [sep]) + last;
    }
  }

  lemma ExtendConcat(a: seq<string>, b: seq<string>, c: char, sep: char)
    requires b != []
    ensures Extend(a + b, c, sep) == a + Extend(b, c, sep)
  {
  }

  lemma ExtendPrepend(word: string, parts: seq<string>, c: char, sep: char)
    requires parts != []
    ensures Extend(parts, c, sep) != []
    ensures Extend([word + parts[0]] + parts[1..], c, sep) ==
            [word + Extend(parts, c, sep)[0]] + Extend(parts, c, sep)[1..]
  {
    if c != sep && |parts| == 1 {
      assert (word + parts[0]) + [c] == word + (parts[0] + [c]);
    }
  }

  /** A separator splits a string into what splits on either side of it. */
  lemma {:induction false} SplitConcat(a: string, b: string, sep: char)
    ensures Split(a + [sep] + b, sep) == Split(a, sep) + Split(b, sep)
  {
    var front := a + [sep];
    if b == "" {
      assert front + b == front;
      SplitSnoc(a, sep, sep);
    } else {
      var n := |b| - 1;
      var init, c := b[..n], b[n];
      SplitConcat(a, init, sep);
      assert front + b == (front + init) + [c] && b == init + [c];
      SplitSnoc(front + init, c, sep);
      SplitSnoc(init, c, sep);
      ExtendConcat(Split(a, sep), Split(init, sep), c, sep);
    }
  }

  /** Text in front of a string joins its first part. */
  lemma {:induction false} SplitPrepend(word: string, s: string, sep: char)
    requires Free(word, sep)
    ensures Split(word + s, sep) == [word + Split(s, sep)[0]] + Split(s, sep)[1..]
  {
    if s == "" {
      SplitAppend("", word, sep);
      assert "" + word == word + "" == word + s == word;
    } else {
      var n := |s| - 1;
      var init, c := s[..n], s[n];
      SplitPrepend(word, init, sep);
      assert word + s == (word + init) + [c] && s == init + [c];
      SplitSnoc(word + init, c, sep);
      SplitSnoc(init, c, sep);
      ExtendPrepend(word, Split(init, sep), c, sep);
    }
  }

  lemma JoinExtend(parts: seq<string>, c: char, sep: char)
    requires parts != []
    ensures Join(Extend(parts, c, sep), sep) == Join(parts, sep) + [c]
  {
    var all := Extend(parts, c, sep);
    assert all[..|all| - 1] == if c == sep then parts else parts[..|parts| - 1];
    if c == sep {
      assert Join(all, sep) == Join(parts, sep) + [sep] + "";
    } else if |parts| > 1 {
      var front := Join(parts[..|parts| - 1], sep) + [sep];
      assert front + (parts[|parts| - 1] + [c]) == (front + parts[|parts| - 1]) + [c];
    }
  }

  /** Joining undoes splitting. */
  lemma {:induction false} JoinSplit(s: string, sep: char)
    ensures Join(Split(s, sep), sep) == s
  {
    if s != "" {
      var n := |s| - 1;
      JoinSplit(s[..n], sep);
      assert s == s[..n] + [s[n]];
      SplitSnoc(s[..n], s[n], sep);
      JoinExtend(Split(s[..n], sep), s[n], sep);
    }
  }

  lemma {:induction false} JoinConcat(a: seq<string>, b: seq<string>, sep: char)
    requires a != [] && b != []
    ensures Join(a + b, sep) == Join(a, sep) + [sep] + Join(b, sep)
  {
    var n := |b| - 1;
    assert (a + b)[..|a| + n] == a + b[..n];
    if n == 0 {
      assert a + b[..n] == a;
    } else {
      JoinConcat(a, b[..n], sep);
    }
  }

  lemma {:induction false} PartsAreFree(s: string, sep: char)
    ensures forall k | 0 <= k < |Split(s, sep)| :: Free(Split(s, sep)[k], sep) && forall c | c in Split(s, sep)[k] :: c in s
  {
    if s != "" {
      var n := |s| - 1;
      PartsAreFree(s[..n], sep);
      assert s == s[..n] + [s[n]];
    }
  }

  predicate IsSpace(c: char) {
    || c == ' ' || '\t' <= c <= '\r' || c == '\U{0085}' || c == '\U{00A0}' || c == '\U{1680}'
    || '\U{2000}' <= c <= '\U{200A}' || c == '\U{2028}' || c == '\U{2029}' || c == '\U{202F}'
    || c == '\U{205F}' || c == '\U{3000}'
  }

  function TrimLeft(s: string): string {
    if s != "" && IsSpace(s[0]) then TrimLeft(s[1..]) else s
  }

  function TrimRight(s: string): string {
    if s != "" && IsSpace(s[|s| - 1]) then TrimRight(s[..|s| - 1]) else s
  }

  function TrimSpace(s: string): string {
    TrimRight(TrimLeft(s))
  }

  function TrimPrefix(s: string, prefix: string): string {
    if prefix <= s then s[|prefix|..] else s
  }

  /** What trimming takes off, on either side. */
  lemma {:induction false} TrimmedLeft(s: string) returns (blank: string)
    ensures s == blank + TrimLeft(s) && forall c | c in blank :: IsSpace(c)
  {
    if s != "" && IsSpace(s[0]) {
      var rest := TrimmedLeft(s[1..]);
      blank := [s[0]] + rest;
      Seqs.Regroup([s[0]], rest, TrimLeft(s));
      assert s == [s[0]] + s[1..];
    } else {
      blank := "";
    }
  }

  lemma {:induction false} TrimmedRight(s: string) returns (blank: string)
    ensures s == TrimRight(s) + blank && forall c | c in blank :: IsSpace(c)
  {
    if s != "" && IsSpace(s[|s| - 1]) {
      var rest := TrimmedRight(s[..|s| - 1]);
      blank := rest + [s[|s| - 1]];
      Seqs.Regroup(TrimRight(s), rest, [s[|s| - 1]]);
      Seqs.InitAndLast(s);
    } else {
      blank := "";
    }
  }

  lemma {:induction false} TrimBefore(blank: string, s: string)
    requires (forall c | c in blank :: IsSpace(c)) && s != "" && !IsSpace(s[0])
    ensures TrimLeft(blank + s) == s
  {
    if blank == "" {
      assert blank + s == s;
    } else {
      assert (blank + s)[1..] == blank[1..] + s;
      TrimBefore(blank[1..], s);
    }
  }

  lemma {:induction false} TrimAfter(s: string, blank: string)
    requires (forall c | c in blank :: IsSpace(c)) && s != "" && !IsSpace(s[|s| - 1])
    ensures TrimRight(s + blank) == s
  {
    if blank == "" {
      assert s + blank == s;
    } else {
      var n := |blank| - 1;
      assert (s + blank)[..|s| + n] == s + blank[..n];
      TrimAfter(s, blank[..n]);
    }
  }
}
