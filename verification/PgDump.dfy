/** internal/legacyimport/pgdump.go, dump half: COPY headers, and reading a plain-format
    dump line by line. */
module PgDump {
  import Seqs
  import opened Text
  import opened Options
  import opened CopyText

  // ----- Headers -----

  function TrimBlanks(s: string): (r: string)
    ensures |r| <= |s|
  {
    if s != "" && s[0] == ' ' then TrimBlanks(s[1..]) else s
  }

  /** Position of the last c, -1 when there is none. */
  function LastIndex(s: string, c: char): (i: int)
    ensures -1 <= i < |s| && (i >= 0 ==> s[i] == c)
  {
    if s == "" then -1
    else if s[|s| - 1] == c then |s| - 1
    else LastIndex(s[..|s| - 1], c)
  }

  predicate HasSuffix(s: string, suffix: string) {
    |s| >= |suffix| && s[|s| - |suffix|..] == suffix
  }

  function AfterColumn(rest: string): string {
    TrimPrefix(TrimBlanks(rest), ",")
  }

  function ParseColumns(list: string): Option<seq<string>>
    decreases |list|
  {
    if list == "" then Some([])
    else
      match ReadIdent(TrimBlanks(list))
      case None => None
      case Some(r) =>
        ReadIdentShrinks(TrimBlanks(list));
        match ParseColumns(AfterColumn(r.1))
        case None => None
        case Some(rest) => Some([r.0] + rest)
  }

  /** "public.<name>" off the front of a string, with what follows the name. */
  function PublicTable(s: string): Option<(string, string)> {
    match ReadIdent(s)
    case None => None
    case Some(schema) =>
      if schema.0 == "public" && "." <= schema.1 then ReadIdent(schema.1[1..]) else None
  }

  const COPY := "COPY "
  const FROM_STDIN := " FROM stdin;"
  const CREATE_TABLE := "CREATE TABLE "

  function ParseHeader(line: string): Option<(string, seq<string>)> {
    match PublicTable(TrimPrefix(line, COPY))
    case None => None
    case Some(t) =>
      var rest := TrimSpace(t.1);
      var end := LastIndex(rest, ')');
      if !("(" <= rest) || end < 0 || !HasSuffix(rest, "FROM stdin;") then None
      else
        assert end != 0;
        match ParseColumns(rest[1..end])
        case None => None
        case Some(columns) => Some((t.0, columns))
  }

  method ParseColumnList(text: string) returns (columns: Option<seq<string>>)
    ensures columns == ParseColumns(text)
  {
    var cols: seq<string> := [];
    var list := text;
    assert ParseColumns(text).Some? ==> [] + ParseColumns(text).value == ParseColumns(text).value;
    while list != ""
      invariant ParseColumns(text) == match ParseColumns(list) case None => None case Some(rest) => Some(cols + rest)
      decreases |list|
    {
      list := TrimBlanks(list);
      var r := ReadIdentifier(list);
      if r == None {
        return None;
      }
      ReadIdentShrinks(list);
      ghost var rest := ParseColumns(AfterColumn(r.value.1));
      assert rest.Some? ==> cols + ([r.value.0] + rest.value) == (cols + [r.value.0]) + rest.value;
      cols := cols + [r.value.0];
      list := TrimPrefix(TrimBlanks(r.value.1), ",");
    }
    assert cols + [] == cols;
    return Some(cols);
  }

  method ReadPublicTable(s: string) returns (r: Option<(string, string)>)
    ensures r == PublicTable(s)
  {
    var schema := ReadIdentifier(s);
    if schema == None || schema.value.0 != "public" || !("." <= schema.value.1) {
      return None;
    }
    r := ReadIdentifier(schema.value.1[1..]);
  }

  method ParseCopyHeader(line: string) returns (r: Option<(string, seq<string>)>)
    ensures r == ParseHeader(line)
  {
    var t := ReadPublicTable(TrimPrefix(line, COPY));
    if t == None {
      return None;
    }
    var rest := TrimSpace(t.value.1);
    var end := LastIndex(rest, ')');
    if !("(" <= rest) || end < 0 || !HasSuffix(rest, "FROM stdin;") {
      return None;
    }
    assert end != 0;
    var columns := ParseColumnList(rest[1..end]);
    if columns == None {
      return None;
    }
    return Some((t.value.0, columns.value));
  }

  // ----- The line loop -----

  datatype Table = Table(columns: seq<string>, rows: seq<seq<Cell>>)

  datatype Dump = Dump(created: set<string>, tables: map<string, Table>)

  datatype Mode = Outside | Copying(name: string, table: Table) | Skipping

  datatype Progress = Reading(mode: Mode, dump: Dump) | Stuck

  const NOTHING_READ := Reading(Outside, Dump({}, map[]))

  function DropCr(line: string): string {
    if line != "" && line[|line| - 1] == '\r' then line[..|line| - 1] else line
  }

  predicate IsHeader(body: string) {
    COPY <= body && HasSuffix(body, FROM_STDIN)
  }

  function ReadLine(p: Progress, line: string, want: string -> bool): Progress {
    ReadBody(p, DropCr(line), want)
  }

  function ReadBody(p: Progress, body: string, want: string -> bool): Progress {
    match p
    case Stuck => Stuck
    case Reading(Skipping, d) => if body == "\\." then Reading(Outside, d) else p
    case Reading(Copying(name, t), d) =>
      if body == "\\." then Reading(Outside, d)
      else
        var row := ParseRow(body, |t.columns|);
        if row.Parsed? then
          var more := t.(rows := t.rows + [row.value]);
          Reading(Copying(name, more), d.(tables := d.tables[name := more]))
        else Stuck
    case Reading(Outside, d) =>
      if CREATE_TABLE <= body then
        var t := PublicTable(TrimPrefix(body, CREATE_TABLE));
        if t.Some? then Reading(Outside, d.(created := d.created + {t.value.0})) else p
      else if IsHeader(body) then
        var h := ParseHeader(body);
        if h.Some? && want(h.value.0) then
          var t := Table(h.value.1, []);
          Reading(Copying(h.value.0, t), d.(tables := d.tables[h.value.0 := t]))
        else Reading(Skipping, d)
      else p
  }

  function ReadLines(p: Progress, lines: seq<string>, want: string -> bool): Progress {
    if lines == [] then p else ReadLine(ReadLines(p, lines[..|lines| - 1], want), lines[|lines| - 1], want)
  }

  /** What the reads of a buffered reader yield: the lines, and the rest if it is not
      empty. */
  function Lines(text: string): seq<string> {
    var parts := Split(text, '\n');
    if parts[|parts| - 1] == "" then parts[..|parts| - 1] else parts
  }

  /** The result of reading a whole dump; None when it is rejected. */
  function ParseDump(text: string, want: string -> bool): Option<Dump> {
    Finished(ReadLines(NOTHING_READ, Lines(text), want))
  }

  function Finished(p: Progress): Option<Dump> {
    if p.Reading? && p.mode == Outside then Some(p.dump) else None
  }

  lemma {:induction false} StuckStays(p: Progress, lines: seq<string>, n: nat, want: string -> bool)
    requires n <= |lines| && ReadLines(p, lines[..n], want) == Stuck
    ensures ReadLines(p, lines, want) == Stuck
    decreases |lines| - n
  {
    if n == |lines| {
      assert lines[..n] == lines;
    } else {
      assert lines[..n + 1][..n] == lines[..n];
      StuckStays(p, lines, n + 1, want);
    }
  }

  /** The state of the loop's variables. */
  function ModeOf(copying: Option<(string, Table)>, skipping: bool): Mode {
    if copying.Some? then Copying(copying.value.0, copying.value.1) else if skipping then Skipping else Outside
  }

  /** A line inside a COPY block. */
  method ReadBlockLine(body: string, copying: Option<(string, Table)>, d: Dump, want: string -> bool)
    returns (within: bool, copying': Option<(string, Table)>, d': Dump, ok: bool)
    ensures ReadBody(Reading(ModeOf(copying, true), d), body, want) ==
            if !ok then Stuck else if within then Reading(ModeOf(copying', true), d') else Reading(Outside, d')
    ensures ok && within ==> (copying'.Some? <==> copying.Some?)
  {
    within, copying', d', ok := true, copying, d, true;
    if body == "\\." {
      within, copying' := false, None;
      return;
    }
    if copying.Some? {
      var row := ParseCopyRow(body, |copying.value.1.columns|);
      if !row.Parsed? {
        ok := false;
        return;
      }
      var table := copying.value.1.(rows := copying.value.1.rows + [row.value]);
      d' := d.(tables := d.tables[copying.value.0 := table]);
      copying' := Some((copying.value.0, table));
    }
  }

  /** A line outside any block. */
  method ReadOuterLine(body: string, d: Dump, want: string -> bool)
    returns (within: bool, copying: Option<(string, Table)>, d': Dump)
    ensures ReadBody(Reading(Outside, d), body, want) == Reading(if within then ModeOf(copying, true) else Outside, d')
  {
    within, copying, d' := false, None, d;
    if CREATE_TABLE <= body {
      var t := ReadPublicTable(TrimPrefix(body, CREATE_TABLE));
      if t.Some? {
        d' := d.(created := d.created + {t.value.0});
      }
    } else if IsHeader(body) {
      within := true;
      var h := ParseCopyHeader(body);
      if h == None || !want(h.value.0) {
        return;
      }
      d' := d.(tables := d.tables[h.value.0 := Table(h.value.1, [])]);
      copying := Some((h.value.0, Table(h.value.1, [])));
    }
  }

  /** What the loop's variables stand for. */
  function Status(within: bool, copying: Option<(string, Table)>, d: Dump): Progress {
    Reading(if within then ModeOf(copying, true) else Outside, d)
  }

  method ReadOne(line: string, within: bool, copying: Option<(string, Table)>, d: Dump, want: string -> bool)
    returns (within': bool, copying': Option<(string, Table)>, d': Dump, ok: bool)
    ensures ReadLine(Status(within, copying, d), line, want) == if ok then Status(within', copying', d') else Stuck
  {
    ok := true;
    if within {
      within', copying', d', ok := ReadBlockLine(DropCr(line), copying, d, want);
    } else {
      within', copying', d' := ReadOuterLine(DropCr(line), d, want);
    }
  }

  lemma ReadLinesStep(p: Progress, lines: seq<string>, i: nat, want: string -> bool)
    requires i < |lines|
    ensures ReadLines(p, lines[..i + 1], want) == ReadLine(ReadLines(p, lines[..i], want), lines[i], want)
  {
    assert lines[..i + 1][..i] == lines[..i];
  }

  method ReadAll(lines: seq<string>, want: string -> bool) returns (r: Option<Dump>)
    ensures r == Finished(ReadLines(NOTHING_READ, lines, want))
  {
    var d := Dump({}, map[]);
    var copying: Option<(string, Table)> := None;
    var within := false;
    for i := 0 to |lines|
      invariant ReadLines(NOTHING_READ, lines[..i], want) == Status(within, copying, d)
    {
      ReadLinesStep(NOTHING_READ, lines, i, want);
      var ok: bool;
      within, copying, d, ok := ReadOne(lines[i], within, copying, d, want);
      if !ok {
        StuckStays(NOTHING_READ, lines, i + 1, want);
        return None;
      }
    }
    assert lines[..|lines|] == lines;
    if within {
      return None;
    }
    return Some(d);
  }

  method ParsePgDump(text: string, want: string -> bool) returns (r: Option<Dump>)
    ensures r == ParseDump(text, want)
  {
    r := ReadAll(Lines(text), want);
  }

  // ----- Printing a dump -----

  /** One table's data as pg_dump writes it. */
  datatype Block = Block(schema: Ident, table: Ident, columns: seq<Ident>, rows: seq<seq<Cell>>)
  {
    predicate Valid() {
      && schema.Valid() && table.Valid() && (forall i | 0 <= i < |columns| :: columns[i].Valid())
      && (forall i | 0 <= i < |rows| :: |rows[i]| == |columns|)
    }
    /** A public table with at least one column. */
    predicate Public() { schema.name == "public" && columns != [] }
  }

  function PrintList(columns: seq<Ident>): string {
    if columns == [] then ""
    else if |columns| == 1 then PrintIdent(columns[0])
    else PrintIdent(columns[0]) + ", " + PrintList(columns[1..])
  }

  /** A table of no columns is written without a list. */
  function PrintColumns(columns: seq<Ident>): string {
    if columns == [] then "" else "(" + PrintList(columns) + ")"
  }

  function PrintName(schema: Ident, table: Ident): string {
    PrintIdent(schema) + "." + PrintIdent(table)
  }

  function PrintHeader(b: Block): string {
    COPY + PrintName(b.schema, b.table) + " " + PrintColumns(b.columns) + FROM_STDIN
  }

  function Names(columns: seq<Ident>): (r: seq<string>)
    ensures |r| == |columns|
  {
    seq(|columns|, i requires 0 <= i < |columns| => columns[i].name)
  }

  lemma TrimLead(s: string, lead: string)
    requires (lead == "" || lead == " ") && s != "" && s[0] != ' '
    ensures TrimBlanks(lead + s) == s
  {
    assert lead == " " ==> (lead + s)[1..] == s;
    assert lead == "" ==> lead + s == s;
  }

  /** One column off the front of a list. */
  lemma FirstColumn(c: Ident, tail: string, lead: string)
    requires c.Valid() && (lead == "" || lead == " ") && (tail == "" || tail[0] == ',')
    ensures lead + (PrintIdent(c) + tail) != ""
    ensures ReadIdent(TrimBlanks(lead + (PrintIdent(c) + tail))) == Some((c.name, tail))
  {
    IdentStart(c);
    TrimLead(PrintIdent(c) + tail, lead);
    IdentRoundTrip(c, tail);
  }

  lemma NextColumn(list: string)
    ensures AfterColumn(", " + list) == " " + list && AfterColumn("") == ""
  {
    assert (", " + list)[1..] == " " + list;
  }

  lemma ColumnsStep(list: string, name: string, after: string, rest: seq<string>)
    requires list != "" && ReadIdent(TrimBlanks(list)) == Some((name, after)) && ParseColumns(AfterColumn(after)) == Some(rest)
    ensures ParseColumns(list) == Some([name] + rest)
  {
  }

  lemma LastColumn(c: Ident, lead: string)
    requires c.Valid() && (lead == "" || lead == " ")
    ensures ParseColumns(lead + PrintIdent(c)) == Some([c.name])
  {
    FirstColumn(c, "", lead);
    NextColumn("");
    ColumnsStep(lead + (PrintIdent(c) + ""), c.name, "", []);
    assert PrintIdent(c) + "" == PrintIdent(c) && [c.name] + [] == [c.name];
  }

  lemma OneMoreColumn(c: Ident, lead: string, printed: string, names: seq<string>)
    requires c.Valid() && (lead == "" || lead == " ") && ParseColumns(" " + printed) == Some(names)
    ensures ParseColumns(lead + (PrintIdent(c) + (", " + printed))) == Some([c.name] + names)
  {
    FirstColumn(c, ", " + printed, lead);
    NextColumn(printed);
    ColumnsStep(lead + (PrintIdent(c) + (", " + printed)), c.name, ", " + printed, names);
  }

  lemma {:induction false} ListRoundTrip(columns: seq<Ident>, lead: string)
    requires columns != [] && (lead == "" || lead == " ") && forall i | 0 <= i < |columns| :: columns[i].Valid()
    ensures ParseColumns(lead + PrintList(columns)) == Some(Names(columns))
    decreases |columns|
  {
    if |columns| == 1 {
      LastColumn(columns[0], lead);
      assert Names(columns) == [columns[0].name];
    } else {
      ListRoundTrip(columns[1..], " ");
      OneMoreColumn(columns[0], lead, PrintList(columns[1..]), Names(columns[1..]));
      Seqs.Regroup(PrintIdent(columns[0]), ", ", PrintList(columns[1..]));
      assert Names(columns) == [columns[0].name] + Names(columns[1..]);
    }
  }

  lemma IdentStart(id: Ident)
    requires id.Valid()
    ensures PrintIdent(id) != "" && PrintIdent(id)[0] != ' '
  {
    if !id.quoted {
      assert id.name[0] in id.name;
    }
  }

  lemma NameRoundTrip(schema: Ident, table: Ident, tail: string)
    requires schema.Valid() && table.Valid() && tail != "" && tail[0] == ' '
    ensures PublicTable(PrintName(schema, table) + tail) == if schema.name == "public" then Some((table.name, tail)) else None
  {
    var rest := "." + (PrintIdent(table) + tail);
    assert PrintName(schema, table) + tail == PrintIdent(schema) + rest;
    IdentRoundTrip(schema, rest);
    assert rest[1..] == PrintIdent(table) + tail;
    IdentRoundTrip(table, tail);
  }

  lemma {:induction false} LastIndexOf(a: string, c: char, b: string)
    requires c !in b
    ensures LastIndex(a + [c] + b, c) == |a|
  {
    var s := a + [c] + b;
    if b != "" {
      assert s[..|s| - 1] == a + [c] + b[..|b| - 1];
      LastIndexOf(a, c, b[..|b| - 1]);
    }
  }

  lemma HeaderTail(columns: seq<Ident>)
    ensures TrimSpace(" " + PrintColumns(columns) + FROM_STDIN) ==
            if columns == [] then "FROM stdin;" else "(" + PrintList(columns) + ")" + FROM_STDIN
  {
    if columns == [] {
      assert " " + PrintColumns(columns) + FROM_STDIN == "  " + ("FROM stdin;" + "");
      TrimBefore("  ", "FROM stdin;" + "");
      TrimAfter("FROM stdin;", "");
      assert "FROM stdin;" + "" == "FROM stdin;";
    } else {
      var body := PrintColumns(columns) + FROM_STDIN;
      assert " " + PrintColumns(columns) + FROM_STDIN == " " + (body + "");
      assert body[0] == '(' && body[|body| - 1] == ';';
      TrimBefore(" ", body + "");
      TrimAfter(body, "");
      assert body + "" == body;
    }
  }

  lemma ListEnds(list: string)
    ensures var rest := "(" + list + ")" + FROM_STDIN;
            && "(" <= rest && LastIndex(rest, ')') == 1 + |list| && rest[1..1 + |list|] == list && HasSuffix(rest, "FROM stdin;")
  {
    var rest := "(" + list + ")" + FROM_STDIN;
    LastIndexOf("(" + list, ')', FROM_STDIN);
    assert "(" + list + [')'] + FROM_STDIN == rest;
    assert rest[|rest| - |"FROM stdin;"|..] == "FROM stdin;";
  }

  /** The part of a header behind the table's name. */
  lemma ColumnsRoundTrip(columns: seq<Ident>)
    requires columns != [] && forall i | 0 <= i < |columns| :: columns[i].Valid()
    ensures var rest := "(" + PrintList(columns) + ")" + FROM_STDIN;
            && "(" <= rest && LastIndex(rest, ')') == 1 + |PrintList(columns)| && HasSuffix(rest, "FROM stdin;")
            && ParseColumns(rest[1..LastIndex(rest, ')')]) == Some(Names(columns))
  {
    ListEnds(PrintList(columns));
    ListRoundTrip(columns, "");
    assert "" + PrintList(columns) == PrintList(columns);
  }

  lemma Regrouped(name: string, columns: string)
    ensures COPY + name + " " + columns + FROM_STDIN == COPY + (name + (" " + columns + FROM_STDIN))
  {
  }

  lemma PrefixDropped(prefix: string, s: string)
    ensures TrimPrefix(prefix + s, prefix) == s
  {
  }

  lemma HeaderName(b: Block)
    requires b.Valid()
    ensures var tail := " " + PrintColumns(b.columns) + FROM_STDIN;
            PublicTable(TrimPrefix(PrintHeader(b), COPY)) == if b.schema.name == "public" then Some((b.table.name, tail)) else None
  {
    var tail := " " + PrintColumns(b.columns) + FROM_STDIN;
    Regrouped(PrintName(b.schema, b.table), PrintColumns(b.columns));
    PrefixDropped(COPY, PrintName(b.schema, b.table) + tail);
    NameRoundTrip(b.schema, b.table, tail);
  }

  /** Parsing a printed header gives the table and its columns, for exactly the public
      tables that have columns. */
  lemma HeaderRoundTrip(b: Block)
    requires b.Valid()
    ensures ParseHeader(PrintHeader(b)) == if b.Public() then Some((b.table.name, Names(b.columns))) else None
  {
    HeaderName(b);
    HeaderTail(b.columns);
    if b.columns != [] {
      ColumnsRoundTrip(b.columns);
    }
  }
}
