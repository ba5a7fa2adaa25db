/** cmd/node/cli_status.go, fixWireGuardConf: making a tunnel config safe to bring up on
    a server. */
module WireGuardConf {
  import opened Seqs
  import opened Text

  const KEEPALIVE := "PersistentKeepalive = 25"

  // ----- Kinds of lines -----

  /** Simple case folding, with the two non-ASCII letters that fold onto ASCII ones. */
  function Fold(c: char): char {
    if 'A' <= c <= 'Z' then (c as int - 'A' as int + 'a' as int) as char
    else if c == '\U{017F}' then 's'
    else if c == '\U{212A}' then 'k'
    else c
  }

  predicate EqualFold(a: string, b: string) {
    |a| == |b| && forall i | 0 <= i < |a| :: Fold(a[i]) == Fold(b[i])
  }

  /** What \s matches. */
  predicate IsRegexSpace(c: char) {
    c == ' ' || c == '\t' || c == '\n' || c == '\U{000C}' || c == '\r'
  }

  function SkipSpaces(s: string): string {
    if s != "" && IsRegexSpace(s[0]) then SkipSpaces(s[1..]) else s
  }

  /** The line sets this key: (?i)^\s*key\s*= */
  predicate Sets(line: string, key: string) {
    var t := SkipSpaces(line);
    && |t| >= |key| && EqualFold(t[..|key|], key)
    && var rest := SkipSpaces(t[|key|..]);
       rest != "" && rest[0] == '='
  }

  /** A line of blanks, a key in any case, blanks and an equals sign. */
  ghost predicate Assigns(line: string, key: string) {
    exists blank, name, gap, rest :: AssignsAs(line, key, blank, name, gap, rest)
  }

  predicate AssignsAs(line: string, key: string, blank: string, name: string, gap: string, rest: string) {
    && line == blank + (name + (gap + ("=" + rest))) && EqualFold(name, key)
    && (forall c | c in blank + gap :: c in " \t\n\U{000C}\r")
  }

  predicate IsDns(line: string) { Sets(line, "DNS") }

  predicate IsKeepalive(line: string) { Sets(line, "PersistentKeepalive") }

  predicate IsHeader(line: string) { "[" <= TrimSpace(line) }

  predicate IsPeer(line: string) { EqualFold(TrimSpace(line), "[Peer]") }

  predicate IsBlankLine(line: string) { TrimSpace(line) == "" }

  lemma {:induction false} SkipsBlanks(blank: string, s: string)
    requires (forall c | c in blank :: c in " \t\n\U{000C}\r") && (s == "" || s[0] !in " \t\n\U{000C}\r")
    ensures SkipSpaces(blank + s) == s
  {
    if blank == "" {
      assert blank + s == s;
    } else {
      assert (blank + s)[1..] == blank[1..] + s;
      assert blank[0] in blank && forall c | c in blank[1..] :: c in blank;
      SkipsBlanks(blank[1..], s);
    }
  }

  /** What is skipped in front of a string. */
  lemma {:induction false} SkippedBlanks(s: string) returns (blank: string)
    ensures s == blank + SkipSpaces(s) && forall c | c in blank :: c in " \t\n\U{000C}\r"
  {
    if s != "" && IsRegexSpace(s[0]) {
      var rest := SkippedBlanks(s[1..]);
      blank := [s[0]] + rest;
      assert s == [s[0]] + s[1..];
    } else {
      blank := "";
    }
  }

  lemma LetterFirst(name: string, key: string, rest: string)
    requires EqualFold(name, key) && key != "" && 'a' <= Fold(key[0]) <= 'z'
    ensures name != "" && (name + rest)[0] !in " \t\n\U{000C}\r"
  {
    assert Fold(name[0]) == Fold(key[0]);
  }

  /** The matching of a setting's line is exact. */
  lemma SetsAssigns(line: string, key: string)
    requires key != "" && Sets(line, key)
    ensures Assigns(line, key)
  {
    var t := SkipSpaces(line);
    var blank := SkippedBlanks(line);
    var gap := SkippedBlanks(t[|key|..]);
    var rest := SkipSpaces(t[|key|..]);
    assert rest == "=" + rest[1..];
    assert t == t[..|key|] + t[|key|..];
    assert AssignsAs(line, key, blank, t[..|key|], gap, rest[1..]);
  }

  lemma SetsExactly(line: string, key: string)
    requires key != "" && 'a' <= Fold(key[0]) <= 'z'
    ensures Sets(line, key) <==> Assigns(line, key)
  {
    if Sets(line, key) {
      SetsAssigns(line, key);
    }
    if blank, name, gap, rest :| AssignsAs(line, key, blank, name, gap, rest) {
      AssignmentSets(line, key, blank, name, gap, rest);
    }
  }

  lemma AssignmentSets(line: string, key: string, blank: string, name: string, gap: string, rest: string)
    requires key != "" && 'a' <= Fold(key[0]) <= 'z' && AssignsAs(line, key, blank, name, gap, rest)
    ensures Sets(line, key)
  {
    assert forall c | c in blank :: c in blank + gap;
    assert forall c | c in gap :: c in blank + gap;
    var value := gap + ("=" + rest);
    LetterFirst(name, key, value);
    SkipsBlanks(blank, name + value);
    assert (name + value)[..|key|] == name && (name + value)[|key|..] == value;
    SkipsBlanks(gap, "=" + rest);
  }

  lemma {:induction false} SkipThenTrim(line: string)
    ensures TrimLeft(SkipSpaces(line)) == TrimLeft(line)
    ensures SkipSpaces(line) != "" ==> SkipSpaces(line)[0] in line
  {
    if line != "" && IsRegexSpace(line[0]) {
      SkipThenTrim(line[1..]);
      assert forall c | c in line[1..] :: c in line;
    }
  }

  lemma TrimRightKeepsFirst(s: string)
    requires s != "" && !IsSpace(s[0])
    ensures TrimRight(s) != "" && TrimRight(s)[0] == s[0]
  {
    if |s| > 1 && IsSpace(s[|s| - 1]) {
      TrimRightKeepsFirst(s[..|s| - 1]);
    }
  }

  /** A line that sets a key is no header and not blank. */
  lemma SettingStandsApart(line: string, key: string)
    requires Sets(line, key) && key != "" && 'a' <= Fold(key[0]) <= 'z'
    ensures !IsHeader(line) && !IsBlankLine(line) && !IsPeer(line)
  {
    var t := SkipSpaces(line);
    SkipThenTrim(line);
    assert Fold(t[..|key|][0]) == Fold(key[0]);
    assert t[0] != '[' && !IsSpace(t[0]);
    assert TrimLeft(t) == t;
    TrimRightKeepsFirst(t);
    assert Fold('[') == '[';
  }

  lemma PeerIsHeader(line: string)
    requires IsPeer(line)
    ensures IsHeader(line) && !IsBlankLine(line)
  {
    assert Fold(TrimSpace(line)[0]) == Fold("[Peer]"[0]) == '[';
  }

  /** A line that is this name in any case, between blanks. */
  ghost predicate Names(line: string, name: string) {
    exists before, spelled, after :: NamesAs(line, name, before, spelled, after)
  }

  predicate NamesAs(line: string, name: string, before: string, spelled: string, after: string) {
    line == before + (spelled + after) && EqualFold(spelled, name) && forall c | c in before + after :: IsSpace(c)
  }

  /** A line whose first character, blanks apart, is a bracket. */
  ghost predicate Opens(line: string) {
    exists before, rest :: OpensAs(line, before, rest)
  }

  predicate OpensAs(line: string, before: string, rest: string) {
    line == before + ("[" + rest) && forall c | c in before :: IsSpace(c)
  }

  lemma OpeningIsHeader(line: string, before: string, rest: string)
    requires OpensAs(line, before, rest)
    ensures IsHeader(line)
  {
    TrimBefore(before, "[" + rest);
    TrimRightKeepsFirst("[" + rest);
  }

  lemma HeaderExactly(line: string)
    ensures IsHeader(line) <==> Opens(line)
  {
    if IsHeader(line) {
      var before := TrimmedLeft(line);
      var after := TrimmedRight(TrimLeft(line));
      var t := TrimSpace(line);
      assert TrimLeft(line) == "[" + (t[1..] + after);
      assert OpensAs(line, before, t[1..] + after);
    }
    if before, rest :| OpensAs(line, before, rest) {
      OpeningIsHeader(line, before, rest);
    }
  }

  lemma NamedIsPeer(line: string, before: string, spelled: string, after: string)
    requires NamesAs(line, "[Peer]", before, spelled, after)
    ensures IsPeer(line)
  {
    assert forall c | c in before :: c in before + after;
    assert forall c | c in after :: c in before + after;
    assert Fold(spelled[0]) == Fold("[Peer]"[0]) == '[' && Fold(spelled[5]) == Fold("[Peer]"[5]) == ']';
    TrimBefore(before, spelled + after);
    TrimAfter(spelled, after);
  }

  lemma PeerExactly(line: string)
    ensures IsPeer(line) <==> Names(line, "[Peer]")
  {
    if IsPeer(line) {
      var before := TrimmedLeft(line);
      var after := TrimmedRight(TrimLeft(line));
      assert NamesAs(line, "[Peer]", before, TrimSpace(line), after);
    }
    if before, spelled, after :| NamesAs(line, "[Peer]", before, spelled, after) {
      NamedIsPeer(line, before, spelled, after);
    }
  }

  lemma FirstLetter(line: string, key: string)
    requires Sets(line, key) && key != ""
    ensures SkipSpaces(line) != "" && Fold(SkipSpaces(line)[0]) == Fold(key[0])
  {
    var t := SkipSpaces(line);
    assert t[..|key|][0] == t[0];
  }

  lemma DnsIsNoKeepalive(line: string)
    requires IsDns(line)
    ensures !IsKeepalive(line)
  {
    FirstLetter(line, "DNS");
    if IsKeepalive(line) {
      FirstLetter(line, "PersistentKeepalive");
    }
  }

  lemma HashedIsInert(line: string)
    ensures !IsDns("#" + line) && !IsKeepalive("#" + line) && !IsHeader("#" + line) && !IsBlankLine("#" + line)
  {
    var s := "#" + line;
    assert SkipSpaces(s) == s && TrimLeft(s) == s;
    TrimRightKeepsFirst(s);
    if IsDns(s) {
      FirstLetter(s, "DNS");
    }
    if IsKeepalive(s) {
      FirstLetter(s, "PersistentKeepalive");
    }
  }

  lemma KeepaliveLine()
    ensures IsKeepalive(KEEPALIVE) && !IsDns(KEEPALIVE) && !IsHeader(KEEPALIVE) && !IsBlankLine(KEEPALIVE)
  {
    var t := KEEPALIVE;
    assert SkipSpaces(t) == t;
    assert t[..19] == "PersistentKeepalive";
    var rest := t[19..];
    assert rest[0] == ' ' && rest[1] == '=';
    assert SkipSpaces(rest) == SkipSpaces(rest[1..]) == rest[1..];
    assert IsKeepalive(t);
    SettingStandsApart(t, "PersistentKeepalive");
    if IsDns(t) {
      DnsIsNoKeepalive(t);
    }
  }

  // ----- Sections -----

  function Comment(resolved: bool, line: string): string {
    if !resolved && !IsHeader(line) && IsDns(line) then "#" + line else line
  }

  predicate HasKeepalive(section: seq<string>) {
    exists i :: 0 <= i < |section| && IsKeepalive(section[i])
  }

  /** Where the last line with anything on it ends. */
  function Solid(lines: seq<string>): (n: nat)
    ensures n <= |lines| && (n > 0 ==> !IsBlankLine(lines[n - 1]))
    ensures forall i | n <= i < |lines| :: IsBlankLine(lines[i])
  {
    if lines == [] || !IsBlankLine(lines[|lines| - 1]) then |lines| else Solid(lines[..|lines| - 1])
  }

  /** A finished section: a peer's gets its keepalive, in front of its trailing blanks. */
  function Close(section: seq<string>, peer: bool): seq<string> {
    if !peer || HasKeepalive(section) then section
    else section[..Solid(section)] + [KEEPALIVE] + section[Solid(section)..]
  }

  /** The sections finished so far, and the one under way. */
  datatype Progress = Progress(done: seq<string>, section: seq<string>, peer: bool)

  function Feed(resolved: bool, p: Progress, line: string): Progress {
    if IsHeader(line) then Progress(p.done + Close(p.section, p.peer), [line], IsPeer(line))
    else p.(section := p.section + [Comment(resolved, line)])
  }

  const START := Progress([], [], false)

  function FeedFrom(resolved: bool, p: Progress, lines: seq<string>): Progress {
    if lines == [] then p else Feed(resolved, FeedFrom(resolved, p, lines[..|lines| - 1]), lines[|lines| - 1])
  }

  function FeedAll(resolved: bool, lines: seq<string>): Progress {
    FeedFrom(resolved, START, lines)
  }

  function Finish(p: Progress): seq<string> {
    p.done + Close(p.section, p.peer)
  }

  function FixLines(resolved: bool, lines: seq<string>): seq<string> {
    Finish(FeedAll(resolved, lines))
  }

  function TrimNewlines(s: string): string {
    if s != "" && s[|s| - 1] == '\n' then TrimNewlines(s[..|s| - 1]) else s
  }

  function LinesOf(content: string): seq<string> {
    Split(TrimNewlines(content), '\n')
  }

  function Fix(resolved: bool, content: string): string {
    Join(FixLines(resolved, LinesOf(content)), '\n') + "\n"
  }

  lemma FeedStep(resolved: bool, lines: seq<string>, i: nat)
    requires i < |lines|
    ensures FeedAll(resolved, lines[..i + 1]) == Feed(resolved, FeedAll(resolved, lines[..i]), lines[i])
    ensures i + 1 == |lines| ==> lines[..i + 1] == lines
  {
    assert lines[..i + 1][..i] == lines[..i];
  }

  predicate Shaped(p: Progress) {
    && (p.peer ==> p.section != [] && IsPeer(p.section[0]))
    && (forall i | 1 <= i < |p.section| :: !IsHeader(p.section[i]))
    && (p.section != [] && IsHeader(p.section[0]) ==> p.peer == IsPeer(p.section[0]))
    && (p.section == [] || !IsHeader(p.section[0]) ==> !p.peer && p.done == [])
  }

  lemma CommentKeepsKind(resolved: bool, line: string)
    requires !IsHeader(line)
    ensures !IsHeader(Comment(resolved, line)) && (IsKeepalive(Comment(resolved, line)) <==> IsKeepalive(line))
    ensures !resolved ==> !IsDns(Comment(resolved, line))
  {
    HashedIsInert(line);
    if IsDns(line) {
      DnsIsNoKeepalive(line);
    }
  }

  lemma FeedShaped(resolved: bool, p: Progress, line: string)
    requires Shaped(p)
    ensures Shaped(Feed(resolved, p, line))
  {
    if !IsHeader(line) {
      CommentKeepsKind(resolved, line);
    } else if IsPeer(line) {
      PeerIsHeader(line);
    }
  }

  /** The trailing blanks of everything written so far are those of the section under way,
      when that is a peer's. */
  lemma SolidOfSection(p: Progress)
    requires Shaped(p) && p.peer
    ensures Solid(p.done + p.section) == |p.done| + Solid(p.section) && Solid(p.section) > 0
  {
    PeerIsHeader(p.section[0]);
    SolidUnique(p.done + p.section, |p.done| + Solid(p.section));
  }

  lemma {:induction false} SolidUnique(lines: seq<string>, n: nat)
    requires 0 < n <= |lines| && !IsBlankLine(lines[n - 1]) && forall i | n <= i < |lines| :: IsBlankLine(lines[i])
    ensures Solid(lines) == n
  {
    if n < |lines| {
      SolidUnique(lines[..|lines| - 1], n);
    }
  }

  lemma InsertedBehind(out: seq<string>, done: seq<string>, section: seq<string>, at: nat, n: nat)
    requires out == done + section && at == |done| + n && n <= |section|
    ensures out[..at] + [KEEPALIVE] + out[at..] == done + (section[..n] + [KEEPALIVE] + section[n..])
  {
  }

  lemma ClosedSolid(section: seq<string>)
    requires !HasKeepalive(section)
    ensures Close(section, true) == section[..Solid(section)] + [KEEPALIVE] + section[Solid(section)..]
  {
  }

  lemma ClosedOut(p: Progress, at: nat)
    requires Shaped(p) && p.peer && !HasKeepalive(p.section) && at == Solid(p.done + p.section)
    ensures (p.done + p.section)[..at] + [KEEPALIVE] + (p.done + p.section)[at..] == Finish(p)
  {
    SolidOfSection(p);
    ClosedSolid(p.section);
    InsertedBehind(p.done + p.section, p.done, p.section, at, Solid(p.section));
  }

  method EndOfSolid(out: seq<string>) returns (at: nat)
    ensures at == Solid(out)
  {
    at := |out|;
    while at > 0 && IsBlankLine(out[at - 1])
      invariant at <= |out| && forall i | at <= i < |out| :: IsBlankLine(out[i])
    {
      at := at - 1;
    }
    if at > 0 {
      SolidUnique(out, at);
    }
  }

  /** closePeer, on the lines written so far. */
  method ClosePeer(out: seq<string>, inPeer: bool, hasKeepalive: bool, ghost p: Progress) returns (closed: seq<string>, added: nat)
    requires Tracks(p, out, inPeer, hasKeepalive)
    ensures closed == Finish(p) && |closed| == |out| + added
  {
    if !inPeer || hasKeepalive {
      return out, 0;
    }
    var at := EndOfSolid(out);
    ClosedOut(p, at);
    closed, added := out[..at] + [KEEPALIVE] + out[at..], 1;
  }

  /** What the loop's variables stand for. */
  ghost predicate Tracks(p: Progress, out: seq<string>, inPeer: bool, hasKeepalive: bool) {
    Shaped(p) && out == p.done + p.section && inPeer == p.peer && (inPeer ==> hasKeepalive == HasKeepalive(p.section))
  }

  predicate Commented(resolved: bool, line: string) {
    !resolved && !IsHeader(line) && IsDns(line)
  }

  predicate AnyCommented(resolved: bool, lines: seq<string>) {
    exists i :: 0 <= i < |lines| && Commented(resolved, lines[i])
  }

  lemma CommentedStep(resolved: bool, lines: seq<string>, i: nat)
    requires i < |lines|
    ensures AnyCommented(resolved, lines[..i + 1]) <==> AnyCommented(resolved, lines[..i]) || Commented(resolved, lines[i])
  {
    var more, less := lines[..i + 1], lines[..i];
    assert more[i] == lines[i];
    if k :| 0 <= k < |less| && Commented(resolved, less[k]) {
      assert more[k] == less[k];
    }
    if k :| 0 <= k < |more| && Commented(resolved, more[k]) {
      assert k < i ==> less[k] == more[k];
    }
  }

  method FixLine(resolved: bool, input: string, out: seq<string>, inPeer: bool, hasKeepalive: bool, ghost p: Progress)
    returns (out': seq<string>, inPeer': bool, hasKeepalive': bool, commented: bool, added: nat)
    requires Tracks(p, out, inPeer, hasKeepalive)
    ensures Tracks(Feed(resolved, p, input), out', inPeer', hasKeepalive')
    ensures commented == Commented(resolved, input) && |out'| == |out| + added + 1
  {
    var line := input;
    out', inPeer', hasKeepalive', commented, added := out, inPeer, hasKeepalive, false, 0;
    FeedShaped(resolved, p, line);
    if IsHeader(line) {
      out', added := ClosePeer(out, inPeer, hasKeepalive, p);
      inPeer', hasKeepalive' := IsPeer(line), false;
      HeaderIsNoKeepalive(line);
    } else {
      SectionGrows(resolved, p, line);
      if !resolved && IsDns(line) {
        line := "#" + line;
        commented := true;
      } else if IsKeepalive(line) {
        hasKeepalive' := true;
      }
    }
    out' := out' + [line];
  }

  method FixWireGuardConf(content: string, resolvedRunning: bool) returns (fixed: string, commentedDns: bool, addedKeepalive: nat)
    ensures fixed == Fix(resolvedRunning, content)
    ensures commentedDns <==> AnyCommented(resolvedRunning, LinesOf(content))
    ensures addedKeepalive == |FixLines(resolvedRunning, LinesOf(content))| - |LinesOf(content)|
  {
    var lines := LinesOf(content);
    var out: seq<string> := [];
    var inPeer, hasKeepalive := false, false;
    commentedDns, addedKeepalive := false, 0;
    ghost var p := FeedAll(resolvedRunning, []);
    for i := 0 to |lines|
      invariant p == FeedAll(resolvedRunning, lines[..i]) && Tracks(p, out, inPeer, hasKeepalive)
      invariant commentedDns <==> AnyCommented(resolvedRunning, lines[..i])
      invariant |out| == i + addedKeepalive
    {
      FeedStep(resolvedRunning, lines, i);
      CommentedStep(resolvedRunning, lines, i);
      var commented, added;
      ghost var next := Feed(resolvedRunning, p, lines[i]);
      out, inPeer, hasKeepalive, commented, added := FixLine(resolvedRunning, lines[i], out, inPeer, hasKeepalive, p);
      commentedDns, addedKeepalive := commentedDns || commented, addedKeepalive + added;
      p := next;
    }
    assert lines[..|lines|] == lines;
    var added;
    out, added := ClosePeer(out, inPeer, hasKeepalive, p);
    addedKeepalive := addedKeepalive + added;
    fixed := Join(out, '\n') + "\n";
  }

  lemma HeaderIsNoKeepalive(line: string)
    requires IsHeader(line)
    ensures !IsKeepalive(line) && !IsDns(line) && !HasKeepalive([line])
  {
    if IsKeepalive(line) {
      SettingStandsApart(line, "PersistentKeepalive");
    }
    if IsDns(line) {
      SettingStandsApart(line, "DNS");
    }
  }

  lemma SectionGrows(resolved: bool, p: Progress, line: string)
    requires !IsHeader(line)
    ensures HasKeepalive(p.section + [Comment(resolved, line)]) <==> HasKeepalive(p.section) || IsKeepalive(line)
    ensures !resolved && IsDns(line) ==> !IsKeepalive(line)
  {
    CommentKeepsKind(resolved, line);
    var more := p.section + [Comment(resolved, line)];
    if IsDns(line) {
      DnsIsNoKeepalive(line);
    }
    if HasKeepalive(p.section) {
      var i :| 0 <= i < |p.section| && IsKeepalive(p.section[i]);
      assert more[i] == p.section[i];
    }
    if IsKeepalive(line) {
      assert IsKeepalive(more[|p.section|]);
    }
  }

  // ----- What the rewriter guarantees -----

  /** Every line but the inserted ones, in order: after is before with keepalive lines added. */
  predicate Inserted(before: seq<string>, after: seq<string>) {
    if after == [] then before == []
    else
      var a, last := after[..|after| - 1], after[|after| - 1];
      || (before != [] && before[|before| - 1] == last && Inserted(before[..|before| - 1], a))
      || (last == KEEPALIVE && Inserted(before, a))
  }

  lemma {:induction false} InsertedConcat(b1: seq<string>, a1: seq<string>, b2: seq<string>, a2: seq<string>)
    requires Inserted(b1, a1) && Inserted(b2, a2)
    ensures Inserted(b1 + b2, a1 + a2)
  {
    if a2 == [] {
      EmptyRight(b1);
      EmptyRight(a1);
    } else {
      var n := |a2| - 1;
      InitOfConcat(a1, a2);
      if b2 != [] && b2[|b2| - 1] == a2[n] && Inserted(b2[..|b2| - 1], a2[..n]) {
        InsertedConcat(b1, a1, b2[..|b2| - 1], a2[..n]);
        InitOfConcat(b1, b2);
      } else {
        InsertedConcat(b1, a1, b2, a2[..n]);
      }
    }
  }

  lemma {:induction false} InsertedNothing(lines: seq<string>)
    ensures Inserted(lines, lines)
  {
    if lines != [] {
      InsertedNothing(lines[..|lines| - 1]);
    }
  }

  lemma InsertedOne(lines: seq<string>)
    ensures Inserted(lines, lines + [KEEPALIVE])
  {
    InsertedNothing(lines);
    InitOfConcat(lines, [KEEPALIVE]);
    EmptyRight(lines);
  }

  lemma InsertKeepalive(lines: seq<string>, at: nat)
    requires at <= |lines|
    ensures Inserted(lines, lines[..at] + [KEEPALIVE] + lines[at..])
  {
    InsertedNothing(lines[at..]);
    InsertedOne(lines[..at]);
    InsertedConcat(lines[..at], lines[..at] + [KEEPALIVE], lines[at..], lines[at..]);
    assert lines[..at] + lines[at..] == lines;
  }

  lemma CloseInserts(section: seq<string>, peer: bool)
    ensures Inserted(section, Close(section, peer))
  {
    InsertedNothing(section);
    InsertKeepalive(section, Solid(section));
  }

  function Comments(resolved: bool, lines: seq<string>): (r: seq<string>)
    ensures |r| == |lines|
  {
    seq(|lines|, i requires 0 <= i < |lines| => Comment(resolved, lines[i]))
  }

  lemma CommentsSnoc(resolved: bool, lines: seq<string>)
    requires lines != []
    ensures Comments(resolved, lines) == Comments(resolved, lines[..|lines| - 1]) + [Comment(resolved, lines[|lines| - 1])]
  {
  }

  /** One more line, whatever it is. */
  lemma LineInserts(resolved: bool, before: seq<string>, p: Progress, line: string)
    requires Inserted(before, p.done + p.section)
    ensures var q := Feed(resolved, p, line); Inserted(before + [Comment(resolved, line)], q.done + q.section)
  {
    var shown := Comment(resolved, line);
    InsertedNothing([shown]);
    if IsHeader(line) {
      InsertedFinish(before, p);
      InsertedConcat(before, Finish(p), [shown], [shown]);
    } else {
      InsertedConcat(before, p.done + p.section, [shown], [shown]);
      assert p.done + p.section + [shown] == p.done + (p.section + [shown]);
    }
  }

  lemma {:induction false} FeedInserts(resolved: bool, lines: seq<string>)
    ensures var p := FeedAll(resolved, lines); Inserted(Comments(resolved, lines), p.done + p.section)
  {
    if lines == [] {
      InsertedNothing([]);
    } else {
      var n := |lines| - 1;
      FeedInserts(resolved, lines[..n]);
      LineInserts(resolved, Comments(resolved, lines[..n]), FeedAll(resolved, lines[..n]), lines[n]);
      CommentsSnoc(resolved, lines);
      FeedStep(resolved, lines, n);
    }
  }

  lemma {:induction false} InsertedTransitive(a: seq<string>, b: seq<string>, c: seq<string>)
    requires Inserted(a, b) && Inserted(b, c)
    ensures Inserted(a, c)
    decreases |c|
  {
    if c != [] {
      var c', last := c[..|c| - 1], c[|c| - 1];
      if b != [] && b[|b| - 1] == last && Inserted(b[..|b| - 1], c') {
        var b' := b[..|b| - 1];
        if a != [] && a[|a| - 1] == last && Inserted(a[..|a| - 1], b') {
          InsertedTransitive(a[..|a| - 1], b', c');
        } else {
          InsertedTransitive(a, b', c');
        }
      } else {
        InsertedTransitive(a, b, c');
      }
    }
  }

  lemma InsertedFinish(before: seq<string>, p: Progress)
    requires Inserted(before, p.done + p.section)
    ensures Inserted(before, Finish(p))
  {
    InsertedNothing(p.done);
    CloseInserts(p.section, p.peer);
    InsertedConcat(p.done, p.done, p.section, Close(p.section, p.peer));
    InsertedTransitive(before, p.done + p.section, Finish(p));
  }

  /** All lines stay, in their order, with DNS lines commented out; nothing but keepalive
      lines is added. */
  lemma OrderIsKept(resolved: bool, lines: seq<string>)
    ensures Inserted(Comments(resolved, lines), FixLines(resolved, lines))
  {
    FeedInserts(resolved, lines);
    InsertedFinish(Comments(resolved, lines), FeedAll(resolved, lines));
  }

  predicate Clean(resolved: bool, line: string) {
    Comment(resolved, line) == line
  }

  predicate AllClean(resolved: bool, lines: seq<string>) {
    forall i | 0 <= i < |lines| :: Clean(resolved, lines[i])
  }

  lemma CommentIsClean(resolved: bool, line: string)
    ensures Clean(resolved, Comment(resolved, line))
  {
    HashedIsInert(line);
  }

  lemma CloseStaysClean(resolved: bool, section: seq<string>, peer: bool)
    requires AllClean(resolved, section)
    ensures AllClean(resolved, Close(section, peer))
  {
    KeepaliveLine();
  }

  lemma {:induction false} FeedIsClean(resolved: bool, lines: seq<string>)
    ensures var p := FeedAll(resolved, lines); Shaped(p) && AllClean(resolved, p.done) && AllClean(resolved, p.section)
  {
    if lines != [] {
      var n := |lines| - 1;
      FeedIsClean(resolved, lines[..n]);
      var p := FeedAll(resolved, lines[..n]);
      FeedShaped(resolved, p, lines[n]);
      CloseStaysClean(resolved, p.section, p.peer);
      CommentIsClean(resolved, lines[n]);
    }
  }

  lemma CleanIsNoDns(line: string)
    requires Clean(false, line)
    ensures !IsDns(line)
  {
    assert |"#" + line| == |line| + 1;
    if IsDns(line) {
      SettingStandsApart(line, "DNS");
    }
  }

  /** Where the resolver is not running, no DNS line is left. */
  lemma NoDnsIsLeft(lines: seq<string>, i: nat)
    requires i < |FixLines(false, lines)|
    ensures !IsDns(FixLines(false, lines)[i]) && !Assigns(FixLines(false, lines)[i], "DNS")
  {
    SetsExactly(FixLines(false, lines)[i], "DNS");
    var p := FeedAll(false, lines);
    FeedIsClean(false, lines);
    CloseStaysClean(false, p.section, p.peer);
    CleanIsNoDns(FixLines(false, lines)[i]);
  }

  /** Nothing else is commented out, and a line that is keeps its text. */
  lemma CommentsExactly(resolved: bool, line: string)
    ensures Comment(resolved, line) == if !resolved && Assigns(line, "DNS") then "#" + line else line
  {
    SetsExactly(line, "DNS");
    if IsDns(line) {
      SettingStandsApart(line, "DNS");
    }
  }

  /** Some line after this header, and before the next one, sets a keepalive. */
  predicate KeptAlive(lines: seq<string>, i: nat) {
    exists j :: i < j < |lines| && IsKeepalive(lines[j]) && forall k | i < k <= j :: !IsHeader(lines[k])
  }

  predicate PeersKept(lines: seq<string>) {
    forall i | 0 <= i < |lines| && IsPeer(lines[i]) :: KeptAlive(lines, i)
  }

  lemma PeersKeptConcat(a: seq<string>, b: seq<string>)
    requires PeersKept(a) && PeersKept(b)
    ensures PeersKept(a + b)
  {
    var c := a + b;
    forall i | 0 <= i < |c| && IsPeer(c[i])
      ensures KeptAlive(c, i)
    {
      if i < |a| {
        assert KeptAlive(a, i);
        var j :| i < j < |a| && IsKeepalive(a[j]) && forall k | i < k <= j :: !IsHeader(a[k]);
        assert c[j] == a[j] && forall k | i < k <= j :: c[k] == a[k];
      } else {
        var i' := i - |a|;
        assert KeptAlive(b, i');
        var j :| i' < j < |b| && IsKeepalive(b[j]) && forall k | i' < k <= j :: !IsHeader(b[k]);
        assert c[|a| + j] == b[j] && forall k | i' < k <= j :: c[|a| + k] == b[k];
        assert forall k | i < k <= |a| + j :: c[k] == b[k - |a|];
      }
    }
  }

  /** A section that was closed: its header and lines below it that are no headers. */
  lemma ClosedSection(p: Progress)
    requires Shaped(p)
    ensures var c := Close(p.section, p.peer);
            && (p.peer ==> HasKeepalive(c) && |c| > 0 && c[0] == p.section[0])
            && (forall i | 1 <= i < |c| :: !IsHeader(c[i]))
            && (p.section != [] ==> c != [] && c[0] == p.section[0])
            && Close(c, p.peer) == c
  {
    KeepaliveLine();
    var c := Close(p.section, p.peer);
    if p.peer && !HasKeepalive(p.section) {
      SolidOfSection(p);
      assert c[Solid(p.section)] == KEEPALIVE;
      assert c[0] == p.section[0];
    }
  }

  lemma SectionKept(p: Progress)
    requires Shaped(p)
    ensures PeersKept(Close(p.section, p.peer))
  {
    ClosedSection(p);
    var c := Close(p.section, p.peer);
    forall i | 0 <= i < |c| && IsPeer(c[i])
      ensures KeptAlive(c, i)
    {
      PeerIsHeader(c[i]);
      assert i == 0 && p.peer;
      var j :| 0 <= j < |c| && IsKeepalive(c[j]);
      HeaderIsNoKeepalive(c[0]);
    }
  }

  lemma {:induction false} DoneIsKept(resolved: bool, lines: seq<string>)
    ensures PeersKept(FeedAll(resolved, lines).done)
  {
    if lines != [] {
      var n := |lines| - 1;
      var p := FeedAll(resolved, lines[..n]);
      DoneIsKept(resolved, lines[..n]);
      FeedIsClean(resolved, lines[..n]);
      SectionKept(p);
      PeersKeptConcat(p.done, Close(p.section, p.peer));
    }
  }

  /** Some line after this one, and before the next one that opens a bracket, assigns a
      keepalive. */
  ghost predicate KeepaliveFollows(lines: seq<string>, i: nat) {
    exists j :: i < j < |lines| && Assigns(lines[j], "PersistentKeepalive") && forall k | i < k <= j :: !Opens(lines[k])
  }

  lemma KeptAliveFollows(lines: seq<string>, i: nat)
    requires KeptAlive(lines, i)
    ensures KeepaliveFollows(lines, i)
  {
    var j :| i < j < |lines| && IsKeepalive(lines[j]) && forall k | i < k <= j :: !IsHeader(lines[k]);
    SetsExactly(lines[j], "PersistentKeepalive");
    forall k | i < k <= j
      ensures !Opens(lines[k])
    {
      HeaderExactly(lines[k]);
    }
  }

  /** Every [Peer] section ends up with a keepalive line of its own. */
  lemma EveryPeerIsKeptAlive(resolved: bool, lines: seq<string>)
    ensures var fixed := FixLines(resolved, lines);
            forall i | 0 <= i < |fixed| && Names(fixed[i], "[Peer]") :: KeepaliveFollows(fixed, i)
  {
    var p, fixed := FeedAll(resolved, lines), FixLines(resolved, lines);
    DoneIsKept(resolved, lines);
    FeedIsClean(resolved, lines);
    SectionKept(p);
    PeersKeptConcat(p.done, Close(p.section, p.peer));
    forall i | 0 <= i < |fixed| && Names(fixed[i], "[Peer]")
      ensures KeepaliveFollows(fixed, i)
    {
      PeerExactly(fixed[i]);
      KeptAliveFollows(fixed, i);
    }
  }

  /** A section that has a keepalive, or is no peer's, stays as it is; another gets one
      between its last line with anything on it and the blank ones that end it. */
  lemma ClosedExactly(section: seq<string>, peer: bool) returns (n: nat)
    requires peer ==> section != [] && IsPeer(section[0])
    ensures var has := exists i :: 0 <= i < |section| && Assigns(section[i], "PersistentKeepalive");
            if !peer || has then Close(section, peer) == section
            else
              && 0 < n <= |section| && TrimSpace(section[n - 1]) != ""
              && (forall i | n <= i < |section| :: TrimSpace(section[i]) == "")
              && Close(section, peer) == section[..n] + ["PersistentKeepalive = 25"] + section[n..]
  {
    n := Solid(section);
    forall i | 0 <= i < |section|
      ensures IsKeepalive(section[i]) <==> Assigns(section[i], "PersistentKeepalive")
    {
      SetsExactly(section[i], "PersistentKeepalive");
    }
    if peer {
      PeerIsHeader(section[0]);
    }
  }

  // ----- Idempotence -----

  /** Clean lines that are no headers just extend the section. */
  lemma {:induction false} FeedBody(resolved: bool, p: Progress, body: seq<string>)
    requires AllClean(resolved, body) && forall i | 0 <= i < |body| :: !IsHeader(body[i])
    ensures FeedFrom(resolved, p, body) == p.(section := p.section + body)
  {
    if body == [] {
      assert p.section + body == p.section;
    } else {
      var n := |body| - 1;
      FeedBody(resolved, p, body[..n]);
      assert Clean(resolved, body[n]);
      assert body == body[..n] + [body[n]];
    }
  }

  lemma {:induction false} FeedFromConcat(resolved: bool, p: Progress, a: seq<string>, b: seq<string>)
    ensures FeedFrom(resolved, p, a + b) == FeedFrom(resolved, FeedFrom(resolved, p, a), b)
  {
    if b == [] {
      EmptyRight(a);
    } else {
      FeedFromConcat(resolved, p, a, b[..|b| - 1]);
      InitOfConcat(a, b);
    }
  }

  lemma FeedSection(resolved: bool, p: Progress, section: seq<string>)
    requires section != [] && IsHeader(section[0]) && AllClean(resolved, section)
    requires forall i | 1 <= i < |section| :: !IsHeader(section[i])
    ensures FeedFrom(resolved, p, section) == Progress(Finish(p), section, IsPeer(section[0]))
  {
    assert section == [section[0]] + section[1..];
    FeedFromConcat(resolved, p, [section[0]], section[1..]);
    assert [section[0]][..0] == [];
    FeedBody(resolved, Progress(Finish(p), [section[0]], IsPeer(section[0])), section[1..]);
  }

  lemma FinishIsStable(resolved: bool, p: Progress)
    requires Shaped(p) && AllClean(resolved, p.section) && FixLines(resolved, p.done) == p.done
    ensures FixLines(resolved, Finish(p)) == Finish(p)
  {
    var c := Close(p.section, p.peer);
    ClosedSection(p);
    CloseStaysClean(resolved, p.section, p.peer);
    FeedFromConcat(resolved, START, p.done, c);
    if p.section != [] && IsHeader(p.section[0]) {
      FeedSection(resolved, FeedAll(resolved, p.done), c);
    } else {
      FeedBody(resolved, START, c);
      assert p.done + c == c;
    }
  }

  lemma {:induction false} DoneIsStable(resolved: bool, lines: seq<string>)
    ensures FixLines(resolved, FeedAll(resolved, lines).done) == FeedAll(resolved, lines).done
  {
    if lines == [] {
      assert Solid([]) == 0;
    } else {
      var n := |lines| - 1;
      DoneIsStable(resolved, lines[..n]);
      FeedIsClean(resolved, lines[..n]);
      FinishIsStable(resolved, FeedAll(resolved, lines[..n]));
    }
  }

  lemma LinesAreStable(resolved: bool, lines: seq<string>)
    ensures FixLines(resolved, FixLines(resolved, lines)) == FixLines(resolved, lines)
  {
    DoneIsStable(resolved, lines);
    FeedIsClean(resolved, lines);
    FinishIsStable(resolved, FeedAll(resolved, lines));
  }

  lemma CloseIsFree(section: seq<string>, peer: bool)
    requires AllFree(section)
    ensures AllFree(Close(section, peer))
  {
  }

  lemma {:induction false} FeedIsFree(resolved: bool, lines: seq<string>)
    requires AllFree(lines)
    ensures AllFree(FeedAll(resolved, lines).done) && AllFree(FeedAll(resolved, lines).section)
  {
    if lines != [] {
      var n := |lines| - 1;
      var p := FeedAll(resolved, lines[..n]);
      FeedIsFree(resolved, lines[..n]);
      CloseIsFree(p.section, p.peer);
      assert Free(Comment(resolved, lines[n]), '\n');
    }
  }

  lemma {:induction false} TrimmedEnds(s: string)
    ensures TrimNewlines(s) == "" || TrimNewlines(s)[|TrimNewlines(s)| - 1] != '\n'
  {
    if s != "" && s[|s| - 1] == '\n' {
      TrimmedEnds(s[..|s| - 1]);
    }
  }

  /** The last line is not empty, unless it is the only one. */
  predicate Closed(lines: seq<string>) {
    lines == [""] || (lines != [] && lines[|lines| - 1] != "")
  }

  lemma LinesAreClosed(content: string)
    ensures AllFree(LinesOf(content)) && Closed(LinesOf(content))
  {
    TrimmedEnds(content);
    PartsAreFree(TrimNewlines(content), '\n');
  }

  lemma FixKeepsClosed(resolved: bool, lines: seq<string>)
    requires Closed(lines)
    ensures Closed(FixLines(resolved, lines))
  {
    var n := |lines| - 1;
    var p := FeedAll(resolved, lines[..n]);
    var q := FeedAll(resolved, lines);
    assert q == Feed(resolved, p, lines[n]);
    if lines == [""] {
      assert lines[..n] == [];
      assert !IsHeader("") && !IsDns("");
      assert p.section + [""] == [""];
      assert FixLines(resolved, lines) == [""];
    } else {
      assert q.section != [] && q.section[|q.section| - 1] != "";
    }
  }

  lemma JoinEnds(lines: seq<string>)
    requires Closed(lines) && AllFree(lines)
    ensures TrimNewlines(Join(lines, '\n') + "\n") == Join(lines, '\n')
  {
    var j := Join(lines, '\n');
    assert (j + "\n")[..|j|] == j;
    var last := lines[|lines| - 1];
    if lines == [""] {
      assert j == "";
    } else {
      assert j[|j| - 1] == last[|last| - 1];
      assert last[|last| - 1] in last;
    }
  }

  /** Idempotence: rewriting a rewritten config changes nothing. */
  lemma FixIsIdempotent(resolved: bool, content: string)
    ensures Fix(resolved, Fix(resolved, content)) == Fix(resolved, content)
  {
    var lines := LinesOf(content);
    var out := FixLines(resolved, lines);
    LinesAreClosed(content);
    FixKeepsClosed(resolved, lines);
    FeedIsFree(resolved, lines);
    CloseIsFree(FeedAll(resolved, lines).section, FeedAll(resolved, lines).peer);
    assert AllFree(out);
    JoinEnds(out);
    SplitJoin(out, '\n');
    LinesAreStable(resolved, lines);
  }
}
