/** internal/legacyimport/pgdump.go, line half: the fields and rows of PostgreSQL's COPY
    text format, and the identifiers of a COPY header.

    Strings stand for bytes. The printers follow the Text Format section of the COPY
    page of the PostgreSQL documentation. */
module CopyText {
  import opened Text
  import opened Options
  import Seqs

  // ----- Fields -----

  predicate IsOctal(c: char) { '0' <= c <= '7' }

  predicate IsHexDigit(c: char) {
    '0' <= c <= '9' || 'a' <= c <= 'f' || 'A' <= c <= 'F'
  }

  function DigitOf(c: char): nat
    requires IsHexDigit(c)
  {
    if c <= '9' then c as int - '0' as int
    else if c <= 'F' then c as int - 'A' as int + 10
    else c as int - 'a' as int + 10
  }

  /** byte(v) of a Go integer. */
  function AsByte(v: nat): char {
    (v % 256) as char
  }

  /** How many of the first k characters are octal (hex) digits, from the front. */
  function OctalRun(s: string, k: nat): (n: nat)
    ensures n <= k && n <= |s| && forall i | 0 <= i < n :: IsOctal(s[i])
  {
    if k == 0 || s == "" || !IsOctal(s[0]) then 0 else 1 + OctalRun(s[1..], k - 1)
  }

  function HexRun(s: string, k: nat): (n: nat)
    ensures n <= k && n <= |s| && forall i | 0 <= i < n :: IsHexDigit(s[i])
  {
    if k == 0 || s == "" || !IsHexDigit(s[0]) then 0 else 1 + HexRun(s[1..], k - 1)
  }

  function Number(s: string, radix: nat): nat
    requires forall i | 0 <= i < |s| :: IsHexDigit(s[i])
  {
    if s == "" then 0 else Number(s[..|s| - 1], radix) * radix + DigitOf(s[|s| - 1])
  }

  /** What follows a backslash: the byte it stands for and how much it takes up. */
  function Escape(s: string): (r: (char, nat))
    requires s != ""
    ensures 0 < r.1 <= |s|
  {
    var e := s[0];
    if e == 'b' then ('\U{0008}', 1)
    else if e == 'f' then ('\U{000C}', 1)
    else if e == 'n' then ('\n', 1)
    else if e == 'r' then ('\r', 1)
    else if e == 't' then ('\t', 1)
    else if e == 'v' then ('\U{000B}', 1)
    else if IsOctal(e) then
      var n := OctalRun(s, 3);
      (AsByte(Number(s[..n], 8)), n)
    else if e == 'x' && |s| > 1 && IsHexDigit(s[1]) then
      var n := HexRun(s[1..], 2);
      (AsByte(Number(s[1..1 + n], 16)), 1 + n)
    else (e, 1)
  }

  function Prefixed(s: string, r: Option<string>): Option<string> {
    match r
    case None => None
    case Some(rest) => Some(s + rest)
  }

  /** The bytes of a field; None when it ends in a lone backslash. */
  function Unescape(f: string): Option<string>
    decreases |f|
  {
    if f == "" then Some("")
    else if f[0] != '\\' then Prefixed([f[0]], Unescape(f[1..]))
    else if |f| == 1 then None
    else
      var e := Escape(f[1..]);
      Prefixed([e.0], Unescape(f[1 + e.1..]))
  }

  lemma {:induction false} UnescapePlain(f: string)
    requires '\\' !in f
    ensures Unescape(f) == Some(f)
  {
    if f != "" {
      UnescapePlain(f[1..]);
      assert f == [f[0]] + f[1..];
    }
  }

  lemma PrefixedNothing(r: Option<string>)
    ensures Prefixed("", r) == r
  {
    if r.Some? {
      assert "" + r.value == r.value;
    }
  }

  lemma PrefixedTwice(a: string, b: string, r: Option<string>)
    ensures Prefixed(a, Prefixed(b, r)) == Prefixed(a + b, r)
  {
    if r.Some? {
      assert a + (b + r.value) == (a + b) + r.value;
    }
  }

  method UnescapeCopyField(f: string) returns (r: Option<string>)
    ensures r == Unescape(f)
  {
    if '\\' !in f {
      UnescapePlain(f);
      return Some(f);
    }
    var b := "";
    var i := 0;
    assert f[0..] == f;
    PrefixedNothing(Unescape(f));
    while i < |f|
      invariant i <= |f|
      invariant Unescape(f) == Prefixed(b, Unescape(f[i..]))
      decreases |f| - i
    {
      if f[i] != '\\' {
        PrefixedTwice(b, [f[i]], Unescape(f[i + 1..]));
        assert f[i..][1..] == f[i + 1..];
        b := b + [f[i]];
        i := i + 1;
        continue;
      }
      if i + 1 >= |f| {
        return None;
      }
      var e := Escape(f[i + 1..]);
      assert f[i..][1..] == f[i + 1..];
      assert f[i..][1 + e.1..] == f[i + 1 + e.1..];
      PrefixedTwice(b, [e.0], Unescape(f[i + 1 + e.1..]));
      b := b + [e.0];
      i := i + 1 + e.1;
    }
    assert f[i..] == "" && b + "" == b;
    return Some(b);
  }

  /** How COPY prints one byte of a value. */
  function PrintByte(c: char): string {
    if c == '\\' then "\\\\"
    else if c == '\U{0008}' then "\\b"
    else if c == '\U{000C}' then "\\f"
    else if c == '\n' then "\\n"
    else if c == '\r' then "\\r"
    else if c == '\t' then "\\t"
    else if c == '\U{000B}' then "\\v"
    else [c]
  }

  function PrintValue(v: string): string {
    if v == "" then "" else PrintByte(v[0]) + PrintValue(v[1..])
  }

  /** A printed byte is itself, or a backslash and the letter that stands for it. */
  lemma PrintedByte(c: char)
    ensures PrintByte(c) == [c] ==> c != '\\'
    ensures PrintByte(c) != [c] ==> |PrintByte(c)| == 2 && PrintByte(c)[0] == '\\' && Escape([PrintByte(c)[1]]) == (c, 1)
  {
  }

  lemma EscapeLetter(s: string)
    requires s != "" && !IsOctal(s[0]) && s[0] != 'x'
    ensures Escape(s) == Escape([s[0]])
  {
  }

  lemma ByteRoundTrip(c: char, rest: string)
    ensures Unescape(PrintByte(c) + rest) == Prefixed([c], Unescape(rest))
  {
    PrintedByte(c);
    var f := PrintByte(c) + rest;
    if PrintByte(c) == [c] {
      assert f[1..] == rest;
    } else {
      assert f == "\\" + ([PrintByte(c)[1]] + rest);
      EscapeLetter([PrintByte(c)[1]] + rest);
      UnescapeEscape([PrintByte(c)[1]] + rest);
      assert ([PrintByte(c)[1]] + rest)[1..] == rest;
    }
  }

  /** Every value survives printing and parsing. */
  lemma {:induction false} ValueRoundTrip(v: string)
    ensures Unescape(PrintValue(v)) == Some(v)
  {
    if v != "" {
      ValueRoundTrip(v[1..]);
      ByteRoundTrip(v[0], PrintValue(v[1..]));
      assert v == [v[0]] + v[1..];
    }
  }

  function OctalDigit(d: nat): char
    requires d < 8
  {
    "01234567"[d]
  }

  function HexDigit(d: nat): char
    requires d < 16
  {
    "0123456789abcdef"[d]
  }

  lemma ThreeDigits(s: string, radix: nat)
    requires |s| == 3 && forall i | 0 <= i < |s| :: IsHexDigit(s[i])
    ensures Number(s, radix) == (DigitOf(s[0]) * radix + DigitOf(s[1])) * radix + DigitOf(s[2])
  {
    TwoDigits(s[..2], radix);
  }

  lemma TwoDigits(s: string, radix: nat)
    requires |s| == 2 && forall i | 0 <= i < |s| :: IsHexDigit(s[i])
    ensures Number(s, radix) == DigitOf(s[0]) * radix + DigitOf(s[1])
  {
    assert s[..1][..0] == "";
    assert Number(s[..1], radix) == DigitOf(s[0]);
  }

  lemma UnescapeEscape(s: string)
    requires s != ""
    ensures Unescape("\\" + s) == Prefixed([Escape(s).0], Unescape(s[Escape(s).1..]))
  {
    var f := "\\" + s;
    assert f[1..] == s && f[1 + Escape(s).1..] == s[Escape(s).1..];
  }

  lemma RunOfThree(s: string)
    requires |s| >= 3 && IsOctal(s[0]) && IsOctal(s[1]) && IsOctal(s[2])
    ensures OctalRun(s, 3) == 3
  {
    assert s[1..][0] == s[1] && s[1..][1..][0] == s[2];
    assert OctalRun(s[1..][1..], 1) == 1;
    assert OctalRun(s[1..], 2) == 2;
  }

  lemma RunOfTwo(s: string)
    requires |s| >= 2 && IsHexDigit(s[0]) && IsHexDigit(s[1])
    ensures HexRun(s, 2) == 2
  {
    assert s[1..][0] == s[1];
    assert HexRun(s[1..], 1) == 1;
  }

  lemma OctalDigitOf(d: nat)
    requires d < 8
    ensures IsOctal(OctalDigit(d)) && DigitOf(OctalDigit(d)) == d
  {
  }

  lemma HexDigitOf(d: nat)
    requires d < 16
    ensures IsHexDigit(HexDigit(d)) && DigitOf(HexDigit(d)) == d
  {
  }

  lemma EscapeOctal(s: string)
    requires |s| >= 3 && IsOctal(s[0]) && IsOctal(s[1]) && IsOctal(s[2])
    ensures Escape(s) == (AsByte(64 * DigitOf(s[0]) + 8 * DigitOf(s[1]) + DigitOf(s[2])), 3)
  {
    RunOfThree(s);
    ThreeDigits(s[..3], 8);
  }

  lemma EscapeHex(s: string)
    requires |s| >= 3 && s[0] == 'x' && IsHexDigit(s[1]) && IsHexDigit(s[2])
    ensures Escape(s) == (AsByte(16 * DigitOf(s[1]) + DigitOf(s[2])), 3)
  {
    RunOfTwo(s[1..]);
    assert s[1..][0] == s[1] && s[1..][1] == s[2];
    TwoDigits(s[1..3], 16);
  }

  /** The other spellings the format allows: any byte as three octal digits, whatever
      follows. Three digits above 377 wrap around. */
  lemma OctalEscape(a: nat, b: nat, c: nat, rest: string)
    requires a < 8 && b < 8 && c < 8
    ensures Unescape("\\" + ([OctalDigit(a), OctalDigit(b), OctalDigit(c)] + rest)) ==
            Prefixed([AsByte(64 * a + 8 * b + c)], Unescape(rest))
  {
    var s := [OctalDigit(a), OctalDigit(b), OctalDigit(c)] + rest;
    OctalDigitOf(a);
    OctalDigitOf(b);
    OctalDigitOf(c);
    EscapeOctal(s);
    UnescapeEscape(s);
    assert s[3..] == rest;
  }

  /** Or as two hex digits. */
  lemma HexEscape(a: nat, b: nat, rest: string)
    requires a < 16 && b < 16
    ensures Unescape("\\" + (['x', HexDigit(a), HexDigit(b)] + rest)) == Prefixed([AsByte(16 * a + b)], Unescape(rest))
  {
    var s := ['x', HexDigit(a), HexDigit(b)] + rest;
    HexDigitOf(a);
    HexDigitOf(b);
    EscapeHex(s);
    UnescapeEscape(s);
    assert s[3..] == rest;
  }

  lemma OneDigit(s: string, radix: nat)
    requires |s| == 1 && IsHexDigit(s[0])
    ensures Number(s, radix) == DigitOf(s[0])
  {
    assert s[..0] == "";
  }

  lemma RunEnds(s: string, k: nat)
    ensures s == "" || !IsOctal(s[0]) ==> OctalRun(s, k) == 0
    ensures s == "" || !IsHexDigit(s[0]) ==> HexRun(s, k) == 0
  {
  }

  lemma RunGoesOn(s: string, k: nat)
    requires s != "" && k > 0
    ensures IsOctal(s[0]) ==> OctalRun(s, k) == 1 + OctalRun(s[1..], k - 1)
    ensures IsHexDigit(s[0]) ==> HexRun(s, k) == 1 + HexRun(s[1..], k - 1)
  {
  }

  lemma EscapeOneOctal(s: string)
    requires s != "" && IsOctal(s[0]) && (|s| == 1 || !IsOctal(s[1]))
    ensures Escape(s) == (AsByte(DigitOf(s[0])), 1)
  {
    RunGoesOn(s, 3);
    RunEnds(s[1..], 2);
    OneDigit(s[..1], 8);
  }

  lemma EscapeTwoOctal(s: string)
    requires |s| >= 2 && IsOctal(s[0]) && IsOctal(s[1]) && (|s| == 2 || !IsOctal(s[2]))
    ensures Escape(s) == (AsByte(8 * DigitOf(s[0]) + DigitOf(s[1])), 2)
  {
    RunGoesOn(s, 3);
    RunGoesOn(s[1..], 2);
    assert s[1..][1..] == s[2..];
    RunEnds(s[2..], 1);
    TwoDigits(s[..2], 8);
  }

  lemma EscapeOneHex(s: string)
    requires |s| >= 2 && s[0] == 'x' && IsHexDigit(s[1]) && (|s| == 2 || !IsHexDigit(s[2]))
    ensures Escape(s) == (AsByte(DigitOf(s[1])), 2)
  {
    RunGoesOn(s[1..], 2);
    assert s[1..][1..] == s[2..];
    RunEnds(s[2..], 1);
    OneDigit(s[1..2], 16);
  }

  /** Fewer octal digits do where something else follows them: one, */
  lemma OneOctalEscape(a: nat, rest: string)
    requires a < 8 && (rest == "" || !IsOctal(rest[0]))
    ensures Unescape("\\" + ([OctalDigit(a)] + rest)) == Prefixed([AsByte(a)], Unescape(rest))
  {
    var s := [OctalDigit(a)] + rest;
    OctalDigitOf(a);
    EscapeOneOctal(s);
    UnescapeEscape(s);
    assert s[1..] == rest;
  }

  lemma PairInFront(a: char, b: char, rest: string)
    ensures var s := [a, b] + rest;
            |s| == 2 + |rest| && s[0] == a && s[1] == b && s[2..] == rest && (rest != "" ==> s[2] == rest[0])
  {
  }

  lemma EscapePair(a: nat, b: nat, rest: string)
    requires a < 8 && b < 8 && (rest == "" || !IsOctal(rest[0]))
    ensures Escape([OctalDigit(a), OctalDigit(b)] + rest) == (AsByte(8 * a + b), 2)
  {
    PairInFront(OctalDigit(a), OctalDigit(b), rest);
    OctalDigitOf(a);
    OctalDigitOf(b);
    EscapeTwoOctal([OctalDigit(a), OctalDigit(b)] + rest);
  }

  lemma UnescapeAs(s: string, c: char, n: nat)
    requires s != "" && Escape(s) == (c, n)
    ensures Unescape("\\" + s) == Prefixed([c], Unescape(s[n..]))
  {
    UnescapeEscape(s);
  }

  /** or two. */
  lemma TwoOctalEscape(a: nat, b: nat, rest: string)
    requires a < 8 && b < 8 && (rest == "" || !IsOctal(rest[0]))
    ensures Unescape("\\" + ([OctalDigit(a), OctalDigit(b)] + rest)) == Prefixed([AsByte(8 * a + b)], Unescape(rest))
  {
    EscapePair(a, b, rest);
    PairInFront(OctalDigit(a), OctalDigit(b), rest);
    UnescapeAs([OctalDigit(a), OctalDigit(b)] + rest, AsByte(8 * a + b), 2);
  }

  /** One hex digit does as well. */
  lemma OneHexEscape(a: nat, rest: string)
    requires a < 16 && (rest == "" || !IsHexDigit(rest[0]))
    ensures Unescape("\\" + (['x', HexDigit(a)] + rest)) == Prefixed([AsByte(a)], Unescape(rest))
  {
    var s := ['x', HexDigit(a)] + rest;
    HexDigitOf(a);
    EscapeOneHex(s);
    UnescapeEscape(s);
    assert s[2..] == rest;
  }

  /** The named ones, and any other byte for itself. */
  lemma NamedEscape(e: char, rest: string)
    requires !IsOctal(e) && (e == 'x' ==> rest == "" || !IsHexDigit(rest[0]))
    ensures Unescape("\\" + ([e] + rest)) == Prefixed(
              [if e == 'b' then 8 as char else if e == 't' then 9 as char else if e == 'n' then 10 as char
               else if e == 'v' then 11 as char else if e == 'f' then 12 as char else if e == 'r' then 13 as char else e],
              Unescape(rest))
  {
    var s := [e] + rest;
    assert s[1..] == rest;
    UnescapeEscape(s);
  }

  predicate Printable(s: string) {
    forall i | 0 <= i < |s| :: s[i] != '\t' && s[i] != '\n' && s[i] != '\r'
  }

  /** A printed value holds no separator and cannot be taken for a NULL or the start of
      the end marker. */
  lemma {:induction false} ValueIsInert(v: string)
    ensures Printable(PrintValue(v))
    ensures |PrintValue(v)| >= 2 && PrintValue(v)[0] == '\\' ==> PrintValue(v)[1] in "\\bfnrtv"
    ensures |PrintValue(v)| == 1 ==> PrintValue(v)[0] != '\\'
  {
    if v != "" {
      ValueIsInert(v[1..]);
    }
  }

  // ----- Rows -----

  type Cell = Option<string>

  function PrintCell(cell: Cell): string {
    match cell
    case None => "\\N"
    case Some(v) => PrintValue(v)
  }

  function PrintCells(row: seq<Cell>): (r: seq<string>)
    ensures |r| == |row|
  {
    seq(|row|, i requires 0 <= i < |row| => PrintCell(row[i]))
  }

  function PrintRow(row: seq<Cell>): string {
    Join(PrintCells(row), '\t')
  }

  datatype Parse<T> = Parsed(value: T) | BadField | BadCount

  function ParseCells(fields: seq<string>): Parse<seq<Cell>> {
    if fields == [] then Parsed([])
    else
      var n := |fields| - 1;
      match ParseCells(fields[..n])
      case Parsed(before) =>
        if fields[n] == "\\N" then Parsed(before + [None])
        else if Unescape(fields[n]) == None then BadField
        else Parsed(before + [Unescape(fields[n])])
      case _ => BadField
  }

  function ParseRow(line: string, columns: nat): Parse<seq<Cell>> {
    var fields := Split(line, '\t');
    if |fields| != columns then BadCount else ParseCells(fields)
  }

  lemma {:induction false} BadFieldStays(fields: seq<string>, n: nat)
    requires n <= |fields| && ParseCells(fields[..n]) == BadField
    ensures ParseCells(fields) == BadField
    decreases |fields| - n
  {
    if n == |fields| {
      assert fields[..n] == fields;
    } else {
      assert fields[..n + 1][..n] == fields[..n];
      BadFieldStays(fields, n + 1);
    }
  }

  method ParseCopyRow(line: string, columns: nat) returns (r: Parse<seq<Cell>>)
    ensures r == ParseRow(line, columns)
  {
    var fields := Split(line, '\t');
    if |fields| != columns {
      return BadCount;
    }
    var row: seq<Cell> := [];
    for i := 0 to |fields|
      invariant ParseCells(fields[..i]) == Parsed(row)
    {
      assert fields[..i + 1][..i] == fields[..i];
      if fields[i] == "\\N" {
        row := row + [None];
        continue;
      }
      var v := UnescapeCopyField(fields[i]);
      if v == None {
        BadFieldStays(fields, i + 1);
        return BadField;
      }
      row := row + [v];
    }
    assert fields[..|fields|] == fields;
    return Parsed(row);
  }

  /** The line begins like the end marker. */
  predicate LikeTheEnd(s: string) {
    |s| >= 2 && s[0] == '\\' && s[1] == '.'
  }

  lemma CellIsInert(cell: Cell)
    ensures Printable(PrintCell(cell))
    ensures !LikeTheEnd(PrintCell(cell))
    ensures PrintCell(cell) == "\\N" <==> cell == None
    ensures PrintCell(cell) != "\\"
  {
    if cell.Some? {
      ValueIsInert(cell.value);
    }
  }

  lemma CellSnoc(row: seq<Cell>, cell: Cell)
    requires ParseCells(PrintCells(row)) == Parsed(row)
    ensures ParseCells(PrintCells(row + [cell])) == Parsed(row + [cell])
  {
    var fields := PrintCells(row + [cell]);
    assert fields[..|row|] == PrintCells(row);
    assert fields[|row|] == PrintCell(cell);
    CellIsInert(cell);
    if cell.Some? {
      ValueRoundTrip(cell.value);
    }
  }

  lemma {:induction false} CellsRoundTrip(row: seq<Cell>)
    ensures ParseCells(PrintCells(row)) == Parsed(row)
  {
    if row != [] {
      var n := |row| - 1;
      CellsRoundTrip(row[..n]);
      CellSnoc(row[..n], row[n]);
      Seqs.InitAndLast(row);
    }
  }

  /** The row round trip: every row of at least one cell, whatever bytes and NULLs it
      holds. A row of no cells prints as a line with one empty field. */
  lemma RowRoundTrip(row: seq<Cell>)
    ensures ParseRow(PrintRow(row), |row|) == if row == [] then BadCount else Parsed(row)
  {
    if row != [] {
      forall k | 0 <= k < |row|
        ensures Free(PrintCells(row)[k], '\t')
      {
        CellIsInert(row[k]);
      }
      SplitJoin(PrintCells(row), '\t');
      CellsRoundTrip(row);
    } else {
      assert PrintRow(row) == "";
      assert Split("", '\t') == [""];
    }
  }

  lemma {:induction false} JoinPrintable(cells: seq<string>)
    requires forall k | 0 <= k < |cells| :: Printable(cells[k])
    ensures forall i | 0 <= i < |Join(cells, '\t')| :: Join(cells, '\t')[i] != '\n' && Join(cells, '\t')[i] != '\r'
  {
    if |cells| > 1 {
      JoinPrintable(cells[..|cells| - 1]);
    }
  }

  /** No data line, and no line cut short, is ever taken for the end marker. */
  lemma RowIsNeverTheEnd(row: seq<Cell>)
    ensures forall k | 0 <= k <= |PrintRow(row)| :: PrintRow(row)[..k] != "\\."
    ensures Free(PrintRow(row), '\n') && Free(PrintRow(row), '\r')
  {
    var cells := PrintCells(row);
    forall k | 0 <= k < |row|
      ensures Printable(cells[k])
    {
      CellIsInert(row[k]);
    }
    JoinPrintable(cells);
    if row != [] {
      CellIsInert(row[0]);
      var line := PrintRow(row);
      if |row| > 1 {
        assert cells == [cells[0]] + cells[1..];
        JoinFront(cells[0], cells[1..], '\t');
      }
      assert cells[0] <= line;
      assert |cells[0]| < |line| ==> line[|cells[0]|] == '\t';
      FirstCellDecides(cells[0], line);
    }
  }

  lemma FirstCellDecides(cell: string, line: string)
    requires cell <= line && (|cell| < |line| ==> line[|cell|] == '\t')
    requires !LikeTheEnd(cell)
    ensures forall k | 0 <= k <= |line| :: line[..k] != "\\."
  {
    assert !LikeTheEnd(line);
    forall k | 0 <= k <= |line|
      ensures line[..k] != "\\."
    {
      assert k == 2 ==> line[..k][0] == line[0] && line[..k][1] == line[1];
    }
  }

  // ----- Identifiers -----

  predicate IdentChar(c: char) {
    c == '_' || c == '$' || '0' <= c <= '9' || 'a' <= c <= 'z' || 'A' <= c <= 'Z' || c >= '\U{0080}'
  }

  /** The rest of a quoted identifier: its text and what follows the closing quote. */
  function ReadQuoted(s: string): Option<(string, string)> {
    if s == "" then None
    else if s[0] != '"' then
      match ReadQuoted(s[1..])
      case None => None
      case Some(r) => Some(([s[0]] + r.0, r.1))
    else if |s| > 1 && s[1] == '"' then
      match ReadQuoted(s[2..])
      case None => None
      case Some(r) => Some((['"'] + r.0, r.1))
    else Some(("", s[1..]))
  }

  function BareLength(s: string): (n: nat)
    ensures n <= |s|
  {
    if s != "" && IdentChar(s[0]) then 1 + BareLength(s[1..]) else 0
  }

  function ReadIdent(s: string): Option<(string, string)> {
    if s != "" && s[0] == '"' then ReadQuoted(s[1..])
    else if BareLength(s) == 0 then None
    else Some((s[..BareLength(s)], s[BareLength(s)..]))
  }

  lemma {:induction false} ReadQuotedShrinks(s: string)
    ensures ReadQuoted(s).Some? ==> |ReadQuoted(s).value.1| < |s|
  {
    if s != "" {
      if s[0] != '"' {
        ReadQuotedShrinks(s[1..]);
      } else if |s| > 1 && s[1] == '"' {
        ReadQuotedShrinks(s[2..]);
      }
    }
  }

  lemma ReadIdentShrinks(s: string)
    ensures ReadIdent(s).Some? ==> |ReadIdent(s).value.1| < |s|
  {
    if s != "" {
      ReadQuotedShrinks(s[1..]);
    }
  }

  function PrefixName(b: string, r: Option<(string, string)>): Option<(string, string)> {
    match r
    case None => None
    case Some(p) => Some((b + p.0, p.1))
  }

  method ReadIdentifier(s: string) returns (r: Option<(string, string)>)
    ensures r == ReadIdent(s)
  {
    if s != "" && s[0] == '"' {
      var b := "";
      var i := 1;
      assert ReadQuoted(s[1..]).Some? ==> "" + ReadQuoted(s[1..]).value.0 == ReadQuoted(s[1..]).value.0;
      while i < |s|
        invariant 1 <= i <= |s|
        invariant ReadQuoted(s[1..]) == PrefixName(b, ReadQuoted(s[i..]))
        decreases |s| - i
      {
        QuotedStep(s, i, b);
        if s[i] == '"' {
          if i + 1 < |s| && s[i + 1] == '"' {
            b := b + ['"'];
            i := i + 2;
            continue;
          }
          assert b + "" == b;
          return Some((b, s[i + 1..]));
        }
        b := b + [s[i]];
        i := i + 1;
      }
      return None;
    }
    var end := 0;
    while end < |s| && IdentChar(s[end])
      invariant end <= |s| && BareLength(s) == end + BareLength(s[end..])
    {
      assert s[end..][1..] == s[end + 1..];
      end := end + 1;
    }
    if end == 0 {
      return None;
    }
    return Some((s[..end], s[end..]));
  }

  /** One character of a quoted identifier. */
  lemma QuotedStep(s: string, i: nat, b: string)
    requires i < |s|
    ensures s[i] != '"' ==> PrefixName(b, ReadQuoted(s[i..])) == PrefixName(b + [s[i]], ReadQuoted(s[i + 1..]))
    ensures s[i] == '"' && i + 1 < |s| && s[i + 1] == '"' ==>
              PrefixName(b, ReadQuoted(s[i..])) == PrefixName(b + ['"'], ReadQuoted(s[i + 2..]))
    ensures s[i] == '"' && !(i + 1 < |s| && s[i + 1] == '"') ==> ReadQuoted(s[i..]) == Some(("", s[i + 1..]))
  {
    var t := s[i..];
    assert t[1..] == s[i + 1..];
    if s[i] != '"' {
      var r := ReadQuoted(t[1..]);
      assert r.Some? ==> b + ([s[i]] + r.value.0) == (b + [s[i]]) + r.value.0;
    } else if i + 1 < |s| && s[i + 1] == '"' {
      assert t[2..] == s[i + 2..];
      var r := ReadQuoted(t[2..]);
      assert r.Some? ==> b + (['"'] + r.value.0) == (b + ['"']) + r.value.0;
    }
  }

  /** An identifier as pg_dump writes it: quoted, or bare where section 4.1.1 of the
      PostgreSQL documentation lets it be: letters, digits, underscores, dollar signs and
      whatever is not ASCII. */
  datatype Ident = Ident(name: string, quoted: bool)
  {
    predicate Valid() {
      && Free(name, '\n')
      && (!quoted ==>
            && name != ""
            && forall c | c in name :: 'a' <= c <= 'z' || 'A' <= c <= 'Z' || '0' <= c <= '9' || c in "_$" || c > '\U{007F}')
    }
  }

  function DoubleQuotes(s: string): string {
    if s == "" then "" else (if s[0] == '"' then "\"\"" else [s[0]]) + DoubleQuotes(s[1..])
  }

  function PrintIdent(id: Ident): string {
    if id.quoted then "\"" + DoubleQuotes(id.name) + "\"" else id.name
  }

  lemma {:induction false} QuotedRoundTrip(name: string, tail: string)
    requires tail == "" || tail[0] != '"'
    ensures ReadQuoted(DoubleQuotes(name) + "\"" + tail) == Some((name, tail))
  {
    var s := DoubleQuotes(name) + "\"" + tail;
    if name == "" {
      assert s == "\"" + tail;
    } else {
      QuotedRoundTrip(name[1..], tail);
      var rest := DoubleQuotes(name[1..]) + "\"" + tail;
      assert name == [name[0]] + name[1..];
      if name[0] == '"' {
        assert s == "\"\"" + rest && s[2..] == rest;
      } else {
        assert s == [name[0]] + rest && s[1..] == rest;
      }
    }
  }

  lemma {:induction false} BareLengthOf(name: string, tail: string)
    requires forall i | 0 <= i < |name| :: IdentChar(name[i])
    requires tail == "" || !IdentChar(tail[0])
    ensures BareLength(name + tail) == |name|
  {
    if name == "" {
      assert name + tail == tail;
    } else {
      assert (name + tail)[1..] == name[1..] + tail;
      BareLengthOf(name[1..], tail);
    }
  }

  /** Identifiers survive printing and reading, in front of anything that does not
      continue them. */
  lemma IdentRoundTrip(id: Ident, tail: string)
    requires id.Valid() && (tail == "" || (tail[0] != '"' && !IdentChar(tail[0])))
    ensures ReadIdent(PrintIdent(id) + tail) == Some((id.name, tail))
  {
    var s := PrintIdent(id) + tail;
    if id.quoted {
      assert s == "\"" + (DoubleQuotes(id.name) + "\"" + tail);
      assert s[1..] == DoubleQuotes(id.name) + "\"" + tail;
      QuotedRoundTrip(id.name, tail);
    } else {
      forall i | 0 <= i < |id.name|
        ensures IdentChar(id.name[i])
      {
        assert id.name[i] in id.name;
      }
      BareLengthOf(id.name, tail);
    }
  }
}
