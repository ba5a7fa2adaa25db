/** Reading back a printed dump, and a dump that was cut short. */
module PgDumpRoundTrip {
  import opened Text
  import opened Options
  import opened CopyText
  import opened PgDump
  import opened Seqs

  /** What a plain-format dump is made of: COPY blocks, CREATE TABLE statements, and any
      other line the parser has no interest in. */
  datatype Item =
    | Sql(line: string)
    | Create(schema: Ident, table: Ident, rest: string)
    | Data(block: Block)

  predicate Ignored(line: string) {
    Free(line, '\n') && !(CREATE_TABLE <= DropCr(line)) && !IsHeader(DropCr(line))
  }

  predicate ValidItem(item: Item) {
    match item
    case Sql(line) => Ignored(line)
    case Create(schema, table, rest) => schema.Valid() && table.Valid() && Free(rest, '\n') && Free(rest, '\r')
    case Data(block) => block.Valid()
  }

  function PrintRows(rows: seq<seq<Cell>>): (r: seq<string>)
    ensures |r| == |rows|
  {
    seq(|rows|, i requires 0 <= i < |rows| => PrintRow(rows[i]))
  }

  function BlockLines(b: Block): seq<string> {
    [PrintHeader(b)] + PrintRows(b.rows) + ["\\."]
  }

  function ItemLines(item: Item): seq<string> {
    match item
    case Sql(line) => [line]
    case Create(schema, table, rest) => [CREATE_TABLE + (PrintName(schema, table) + (" " + rest))]
    case Data(block) => BlockLines(block)
  }

  function DumpLines(items: seq<Item>): seq<string> {
    if items == [] then [] else DumpLines(items[..|items| - 1]) + ItemLines(items[|items| - 1])
  }

  function TextOf(lines: seq<string>): string {
    if lines == [] then "" else TextOf(lines[..|lines| - 1]) + lines[|lines| - 1] + "\n"
  }

  function PrintDump(items: seq<Item>): string {
    TextOf(DumpLines(items))
  }

  /** What a dump holds, item by item: a later block of one table replaces an earlier. */
  function Holds(d: Dump, item: Item, want: string -> bool): Dump {
    match item
    case Sql(_) => d
    case Create(schema, table, _) => if schema.name == "public" then d.(created := d.created + {table.name}) else d
    case Data(b) =>
      if b.Public() && want(b.table.name) then d.(tables := d.tables[b.table.name := Table(Names(b.columns), b.rows)]) else d
  }

  function Contents(items: seq<Item>, want: string -> bool): Dump {
    if items == [] then Dump({}, map[]) else Holds(Contents(items[..|items| - 1], want), items[|items| - 1], want)
  }

  // ----- Reading lines -----

  lemma {:induction false} ReadConcat(p: Progress, a: seq<string>, b: seq<string>, want: string -> bool)
    ensures ReadLines(p, a + b, want) == ReadLines(ReadLines(p, a, want), b, want)
  {
    if b == [] {
      EmptyRight(a);
    } else {
      ReadConcat(p, a, b[..|b| - 1], want);
      InitOfConcat(a, b);
    }
  }

  lemma ReadSingle(p: Progress, line: string, want: string -> bool)
    ensures ReadLines(p, [line], want) == ReadLine(p, line, want)
  {
    assert [line][..0] == [];
  }

  lemma RowLine(row: seq<Cell>)
    ensures DropCr(PrintRow(row)) == PrintRow(row) && PrintRow(row) != "\\." && Free(PrintRow(row), '\n')
  {
    RowIsNeverTheEnd(row);
    var line := PrintRow(row);
    assert line[..|line|] == line;
    assert line != "" ==> line[|line| - 1] in line;
  }

  lemma RowRead(d: Dump, name: string, t: Table, row: seq<Cell>, want: string -> bool)
    requires t.columns != [] && |row| == |t.columns|
    ensures var more := t.(rows := t.rows + [row]);
            ReadLine(Reading(Copying(name, t), d), PrintRow(row), want) == Reading(Copying(name, more), d.(tables := d.tables[name := more]))
  {
    RowLine(row);
    RowRoundTrip(row);
  }

  lemma UpdatedTwice<K, V>(m: map<K, V>, k: K, a: V, b: V)
    ensures m[k := a][k := b] == m[k := b]
  {
  }

  lemma RowsSnoc(rows: seq<seq<Cell>>)
    requires rows != []
    ensures var n := |rows| - 1;
            PrintRows(rows)[..n] == PrintRows(rows[..n]) && PrintRows(rows)[n] == PrintRow(rows[n]) && rows[..n] + [rows[n]] == rows
  {
  }

  /** The state of a kept block once some of its rows are read. */
  function Midway(d: Dump, name: string, t: Table): Progress {
    Reading(Copying(name, t), d.(tables := d.tables[name := t]))
  }

  lemma MidwayRead(d: Dump, name: string, columns: seq<string>, rows: seq<seq<Cell>>, row: seq<Cell>, want: string -> bool)
    requires columns != [] && |row| == |columns|
    ensures ReadLine(Midway(d, name, Table(columns, rows)), PrintRow(row), want) == Midway(d, name, Table(columns, rows + [row]))
  {
    RowRead(d.(tables := d.tables[name := Table(columns, rows)]), name, Table(columns, rows), row, want);
    UpdatedTwice(d.tables, name, Table(columns, rows), Table(columns, rows + [row]));
  }

  lemma {:induction false} RowsRead(d: Dump, name: string, columns: seq<string>, rows: seq<seq<Cell>>, want: string -> bool)
    requires columns != [] && forall i | 0 <= i < |rows| :: |rows[i]| == |columns|
    ensures ReadLines(Midway(d, name, Table(columns, [])), PrintRows(rows), want) == Midway(d, name, Table(columns, rows))
  {
    var start := Midway(d, name, Table(columns, []));
    if rows == [] {
      assert ReadLines(start, [], want) == start;
    } else {
      var n := |rows| - 1;
      RowsRead(d, name, columns, rows[..n], want);
      MidwayRead(d, name, columns, rows[..n], rows[n], want);
      RowsSnoc(rows);
      ReadLast(start, PrintRows(rows), PrintRows(rows[..n]), want);
    }
  }

  lemma ReadLast(p: Progress, lines: seq<string>, before: seq<string>, want: string -> bool)
    requires |lines| > 0 && |before| == |lines| - 1 && before == lines[..|lines| - 1]
    ensures ReadLines(p, lines, want) == ReadLine(ReadLines(p, before, want), lines[|lines| - 1], want)
  {
  }

  lemma {:induction false} RowsSkipped(d: Dump, rows: seq<seq<Cell>>, want: string -> bool)
    ensures ReadLines(Reading(Skipping, d), PrintRows(rows), want) == Reading(Skipping, d)
  {
    if rows != [] {
      var n := |rows| - 1;
      RowsSkipped(d, rows[..n], want);
      assert PrintRows(rows)[..n] == PrintRows(rows[..n]);
      RowLine(rows[n]);
    }
  }

  lemma HeaderLine(b: Block)
    ensures var h := PrintHeader(b); DropCr(h) == h && IsHeader(h) && !(CREATE_TABLE <= h)
  {
    var h := PrintHeader(b);
    assert h[|h| - |FROM_STDIN|..] == FROM_STDIN;
    assert h[|h| - 1] == FROM_STDIN[|FROM_STDIN| - 1] == ';';
    assert h[0] == 'C' && h[1] == 'O';
  }

  lemma HeaderRead(d: Dump, b: Block, want: string -> bool)
    requires b.Valid()
    ensures ReadLine(Reading(Outside, d), PrintHeader(b), want) ==
            if b.Public() && want(b.table.name) then
              Reading(Copying(b.table.name, Table(Names(b.columns), [])), d.(tables := d.tables[b.table.name := Table(Names(b.columns), [])]))
            else Reading(Skipping, d)
  {
    HeaderLine(b);
    HeaderRoundTrip(b);
  }

  lemma EndRead(p: Progress, want: string -> bool)
    requires p.Reading? && p.mode != Outside
    ensures ReadLine(p, "\\.", want) == Reading(Outside, p.dump)
  {
  }

  /** A block is its header, its rows and its end. */
  lemma BlockSteps(p: Progress, b: Block, want: string -> bool)
    ensures ReadLines(p, BlockLines(b), want) ==
            ReadLine(ReadLines(ReadLine(p, PrintHeader(b), want), PrintRows(b.rows), want), "\\.", want)
  {
    var header, rows := [PrintHeader(b)], PrintRows(b.rows);
    ReadConcat(p, header, rows, want);
    ReadSingle(p, PrintHeader(b), want);
    ReadLast(p, BlockLines(b), header + rows, want);
  }

  lemma BlockRead(d: Dump, b: Block, want: string -> bool)
    requires b.Valid()
    ensures ReadLines(Reading(Outside, d), BlockLines(b), want) == Reading(Outside, Holds(d, Data(b), want))
  {
    BlockSteps(Reading(Outside, d), b, want);
    HeaderRead(d, b, want);
    if b.Public() && want(b.table.name) {
      RowsRead(d, b.table.name, Names(b.columns), b.rows, want);
    } else {
      RowsSkipped(d, b.rows, want);
    }
    EndRead(ReadLines(ReadLine(Reading(Outside, d), PrintHeader(b), want), PrintRows(b.rows), want), want);
  }

  lemma CreateLine(name: string, rest: string)
    requires Free(rest, '\r')
    ensures var line := CREATE_TABLE + (name + (" " + rest));
            DropCr(line) == line && CREATE_TABLE <= line && TrimPrefix(line, CREATE_TABLE) == name + (" " + rest)
  {
    var line := CREATE_TABLE + (name + (" " + rest));
    assert line[|line| - 1] == (" " + rest)[|rest|];
    assert rest != "" ==> rest[|rest| - 1] in rest && (" " + rest)[|rest|] == rest[|rest| - 1];
  }

  lemma CreateRead(d: Dump, schema: Ident, table: Ident, rest: string, want: string -> bool)
    requires ValidItem(Create(schema, table, rest))
    ensures ReadLine(Reading(Outside, d), CREATE_TABLE + (PrintName(schema, table) + (" " + rest)), want) ==
            Reading(Outside, Holds(d, Create(schema, table, rest), want))
  {
    CreateLine(PrintName(schema, table), rest);
    NameRoundTrip(schema, table, " " + rest);
  }

  lemma ItemRead(d: Dump, item: Item, want: string -> bool)
    requires ValidItem(item)
    ensures ReadLines(Reading(Outside, d), ItemLines(item), want) == Reading(Outside, Holds(d, item, want))
  {
    match item
    case Sql(line) => ReadSingle(Reading(Outside, d), line, want);
    case Create(schema, table, rest) =>
      ReadSingle(Reading(Outside, d), CREATE_TABLE + (PrintName(schema, table) + (" " + rest)), want);
      CreateRead(d, schema, table, rest, want);
    case Data(b) => BlockRead(d, b, want);
  }

  predicate ValidItems(items: seq<Item>) {
    forall i | 0 <= i < |items| :: ValidItem(items[i])
  }

  lemma ReadOn(p: Progress, before: seq<string>, q: Progress, lines: seq<string>, r: Progress, want: string -> bool)
    requires ReadLines(p, before, want) == q && ReadLines(q, lines, want) == r
    ensures ReadLines(p, before + lines, want) == r
  {
    ReadConcat(p, before, lines, want);
  }

  lemma {:induction false} DumpRead(items: seq<Item>, want: string -> bool)
    requires ValidItems(items)
    ensures ReadLines(NOTHING_READ, DumpLines(items), want) == Reading(Outside, Contents(items, want))
  {
    if items == [] {
      assert ReadLines(NOTHING_READ, [], want) == NOTHING_READ;
    } else {
      var n := |items| - 1;
      var before, after := Contents(items[..n], want), Contents(items, want);
      DumpRead(items[..n], want);
      ItemRead(before, items[n], want);
      ReadOn(NOTHING_READ, DumpLines(items[..n]), Reading(Outside, before), ItemLines(items[n]), Reading(Outside, after), want);
    }
  }

  // ----- Lines and text -----

  lemma {:induction false} JoinIsText(lines: seq<string>, last: string)
    ensures Join(lines + [last], '\n') == TextOf(lines) + last
  {
    var all := lines + [last];
    if lines == [] {
      assert all == [last] && "" + last == last;
    } else {
      var n := |lines| - 1;
      assert all[..|lines|] == lines;
      JoinIsText(lines[..n], lines[n]);
      assert lines == lines[..n] + [lines[n]];
    }
  }

  lemma LinesOfParts(text: string, lines: seq<string>, last: string)
    requires Split(text, '\n') == lines + [last]
    ensures Lines(text) == if last == "" then lines else lines + [last]
  {
    assert (lines + [last])[..|lines|] == lines;
  }

  /** Reading a text gives back its lines, and an unfinished last one. */
  lemma LinesOfText(lines: seq<string>, last: string)
    requires AllFree(lines) && Free(last, '\n')
    ensures Lines(TextOf(lines) + last) == if last == "" then lines else lines + [last]
  {
    JoinIsText(lines, last);
    SplitJoin(lines + [last], '\n');
    LinesOfParts(TextOf(lines) + last, lines, last);
  }

  lemma {:induction false} QuotesAreFree(s: string)
    requires Free(s, '\n')
    ensures Free(DoubleQuotes(s), '\n')
  {
    if s != "" {
      assert s == [s[0]] + s[1..];
      assert s[0] in s;
      assert forall c | c in s[1..] :: c in s;
      QuotesAreFree(s[1..]);
    }
  }

  lemma IdentIsFree(id: Ident)
    requires id.Valid()
    ensures Free(PrintIdent(id), '\n')
  {
    QuotesAreFree(id.name);
  }

  lemma {:induction false} ListIsFree(columns: seq<Ident>)
    requires forall i | 0 <= i < |columns| :: columns[i].Valid()
    ensures Free(PrintList(columns), '\n')
  {
    if columns != [] {
      IdentIsFree(columns[0]);
      ListIsFree(columns[1..]);
    }
  }

  lemma NameIsFree(schema: Ident, table: Ident)
    requires schema.Valid() && table.Valid()
    ensures Free(PrintName(schema, table), '\n')
  {
    IdentIsFree(schema);
    IdentIsFree(table);
  }

  lemma HeaderIsFree(b: Block)
    requires b.Valid()
    ensures Free(PrintHeader(b), '\n')
  {
    NameIsFree(b.schema, b.table);
    ListIsFree(b.columns);
    assert Free(PrintColumns(b.columns), '\n') && Free(COPY, '\n') && Free(FROM_STDIN, '\n');
  }

  /** The lines of a block, one by one. */
  lemma LineOfBlock(b: Block, i: nat)
    requires i < |BlockLines(b)|
    ensures BlockLines(b)[i] == if i == 0 then PrintHeader(b) else if i <= |b.rows| then PrintRow(b.rows[i - 1]) else "\\."
  {
  }

  lemma BlockIsFree(b: Block, i: nat)
    requires b.Valid() && i < |BlockLines(b)|
    ensures Free(BlockLines(b)[i], '\n')
  {
    LineOfBlock(b, i);
    if i == 0 {
      HeaderIsFree(b);
    } else if i <= |b.rows| {
      RowLine(b.rows[i - 1]);
    }
  }

  lemma CreateIsFree(schema: Ident, table: Ident, rest: string)
    requires schema.Valid() && table.Valid() && Free(rest, '\n')
    ensures Free(CREATE_TABLE + (PrintName(schema, table) + (" " + rest)), '\n')
  {
    NameIsFree(schema, table);
    assert Free(CREATE_TABLE, '\n');
  }

  lemma ItemIsFree(item: Item, i: nat)
    requires ValidItem(item) && i < |ItemLines(item)|
    ensures Free(ItemLines(item)[i], '\n')
  {
    match item
    case Sql(_) =>
    case Create(schema, table, rest) => CreateIsFree(schema, table, rest);
    case Data(b) => BlockIsFree(b, i);
  }

  lemma {:induction false} DumpIsFree(items: seq<Item>)
    requires ValidItems(items)
    ensures forall k | 0 <= k < |DumpLines(items)| :: Free(DumpLines(items)[k], '\n')
  {
    if items != [] {
      var n := |items| - 1;
      DumpIsFree(items[..n]);
      forall i | 0 <= i < |ItemLines(items[n])|
        ensures Free(ItemLines(items[n])[i], '\n')
      {
        ItemIsFree(items[n], i);
      }
    }
  }

  /** The dump round trip: parsing a printed dump returns exactly the public tables it
      creates and, with all their rows, the wanted public tables that have columns. */
  lemma DumpRoundTrip(items: seq<Item>, want: string -> bool)
    requires ValidItems(items)
    ensures ParseDump(PrintDump(items), want) == Some(Contents(items, want))
  {
    DumpRead(items, want);
    DumpIsFree(items);
    LinesOfText(DumpLines(items), "");
    assert TextOf(DumpLines(items)) + "" == PrintDump(items);
  }

  /** The same lines with carriage returns in front of their line feeds. */
  function WithReturns(lines: seq<string>): (r: seq<string>)
    ensures |r| == |lines|
  {
    seq(|lines|, i requires 0 <= i < |lines| => lines[i] + "\r")
  }

  predicate NoReturns(lines: seq<string>) {
    forall i | 0 <= i < |lines| :: lines[i] == "" || lines[i][|lines[i]| - 1] != '\r'
  }

  lemma ReturnDropped(line: string)
    requires line == "" || line[|line| - 1] != '\r'
    ensures DropCr(line + "\r") == line == DropCr(line)
  {
  }

  lemma {:induction false} ReturnsReadAlike(p: Progress, lines: seq<string>, want: string -> bool)
    requires NoReturns(lines)
    ensures ReadLines(p, WithReturns(lines), want) == ReadLines(p, lines, want)
  {
    if lines != [] {
      var n := |lines| - 1;
      ReturnsReadAlike(p, lines[..n], want);
      assert WithReturns(lines)[..n] == WithReturns(lines[..n]);
      ReturnDropped(lines[n]);
    }
  }

  /** A dump with the other kind of line ends is the same dump. */
  lemma LineEndsDoNotMatter(lines: seq<string>, want: string -> bool)
    requires AllFree(lines) && NoReturns(lines)
    ensures ParseDump(TextOf(WithReturns(lines)), want) == ParseDump(TextOf(lines), want)
  {
    ReturnsReadAlike(NOTHING_READ, lines, want);
    LinesOfText(lines, "");
    LinesOfText(WithReturns(lines), "");
    EmptyRight(TextOf(lines));
    EmptyRight(TextOf(WithReturns(lines)));
  }

  // ----- Truncation -----

  /** A cut through a text leaves whole lines and the start of one. */
  lemma {:induction false} CutText(lines: seq<string>, n: nat) returns (k: nat, part: string)
    requires n < |TextOf(lines)|
    ensures k < |lines| && part <= lines[k] && TextOf(lines)[..n] == TextOf(lines[..k]) + part
  {
    var m := |lines| - 1;
    var before := TextOf(lines[..m]);
    if n < |before| {
      k, part := CutText(lines[..m], n);
      assert lines[..m][..k] == lines[..k];
    } else {
      k, part := m, lines[m][..n - |before|];
    }
  }

  predicate Inside(p: Progress) {
    p.Stuck? || p.mode != Outside
  }

  lemma {:induction false} StaysInside(p: Progress, lines: seq<string>, want: string -> bool)
    requires Inside(p) && forall i | 0 <= i < |lines| :: DropCr(lines[i]) != "\\."
    ensures Inside(ReadLines(p, lines, want))
  {
    if lines != [] {
      StaysInside(p, lines[..|lines| - 1], want);
    }
  }

  lemma PartOfRow(row: seq<Cell>, part: string)
    requires part <= PrintRow(row)
    ensures DropCr(part) != "\\." && Free(part, '\n')
  {
    RowIsNeverTheEnd(row);
    var line := PrintRow(row);
    assert part == line[..|part|];
    assert forall c | c in part :: c in line;
    assert part != "" ==> part[|part| - 1] in part;
  }

  /** No line of a block but the last ends it. */
  lemma RowLinesGoOn(b: Block, k: nat)
    requires 1 <= k <= |b.rows| + 1
    ensures forall i | 1 <= i < k :: DropCr(BlockLines(b)[i]) != "\\."
  {
    forall i | 1 <= i < k
      ensures DropCr(BlockLines(b)[i]) != "\\."
    {
      LineOfBlock(b, i);
      RowLine(b.rows[i - 1]);
    }
  }

  /** Nor does what is left of the line a cut falls in. */
  lemma CutLineGoesOn(b: Block, k: nat, part: string)
    requires 1 <= k < |BlockLines(b)| && part <= BlockLines(b)[k]
    requires !(k == |b.rows| + 1 && part == "\\.")
    ensures DropCr(part) != "\\." && Free(part, '\n')
  {
    if k <= |b.rows| {
      assert BlockLines(b)[k] == PrintRow(b.rows[k - 1]);
      PartOfRow(b.rows[k - 1], part);
    } else {
      assert BlockLines(b)[k] == "\\.";
      assert part == "" || part == "\\";
    }
  }

  lemma TextGrows(lines: seq<string>, k: nat)
    requires k < |lines|
    ensures |TextOf(lines[..k])| + |lines[k]| + 1 == |TextOf(lines[..k + 1])|
  {
    assert lines[..k + 1][..k] == lines[..k];
  }

  /** Where a cut strictly inside a block falls. */
  lemma CutInBlock(b: Block, n: nat) returns (k: nat, part: string)
    requires |PrintHeader(b)| < n < |TextOf(BlockLines(b))| - 1
    ensures 1 <= k < |BlockLines(b)| && part <= BlockLines(b)[k]
    ensures TextOf(BlockLines(b))[..n] == TextOf(BlockLines(b)[..k]) + part
    ensures !(k == |b.rows| + 1 && part == "\\.")
  {
    var lines := BlockLines(b);
    k, part := CutText(lines, n);
    assert TextOf(lines[..0]) == "" && lines[0] == PrintHeader(b);
    if k == |b.rows| + 1 {
      TextGrows(lines, k);
      assert lines[..k + 1] == lines;
    }
  }

  lemma {:induction false} TextConcat(a: seq<string>, b: seq<string>)
    ensures TextOf(a + b) == TextOf(a) + TextOf(b)
  {
    if b == [] {
      EmptyRight(a);
      EmptyRight(TextOf(a));
    } else {
      var n := |b| - 1;
      TextConcat(a, b[..n]);
      InitOfConcat(a, b);
      Regroup(TextOf(a), TextOf(b[..n]), b[n]);
      Regroup(TextOf(a), TextOf(b[..n]) + b[n], "\n");
    }
  }

  /** What is left of a block cut at line k, without its header. */
  function Remainder(b: Block, k: nat, part: string): seq<string>
    requires 1 <= k < |BlockLines(b)|
  {
    BlockLines(b)[1..k] + (if part == "" then [] else [part])
  }

  lemma RemainderGoesOn(b: Block, k: nat, part: string)
    requires 1 <= k < |BlockLines(b)| && part <= BlockLines(b)[k]
    requires !(k == |b.rows| + 1 && part == "\\.")
    ensures forall i | 0 <= i < |Remainder(b, k, part)| :: DropCr(Remainder(b, k, part)[i]) != "\\."
  {
    RowLinesGoOn(b, k);
    CutLineGoesOn(b, k, part);
    var rest := Remainder(b, k, part);
    forall i | 0 <= i < |rest|
      ensures DropCr(rest[i]) != "\\."
    {
      if i < k - 1 {
        assert rest[i] == BlockLines(b)[i + 1];
      }
    }
  }

  lemma RemainderLines(b: Block, k: nat, part: string)
    requires 1 <= k < |BlockLines(b)|
    ensures BlockLines(b)[..k] + (if part == "" then [] else [part]) == [PrintHeader(b)] + Remainder(b, k, part)
  {
  }

  lemma HeaderOpens(d: Dump, b: Block, want: string -> bool)
    requires b.Valid()
    ensures Inside(ReadLines(Reading(Outside, d), [PrintHeader(b)], want))
  {
    ReadSingle(Reading(Outside, d), PrintHeader(b), want);
    HeaderRead(d, b, want);
  }

  lemma BlockIsOpen(d: Dump, b: Block, k: nat, part: string, want: string -> bool)
    requires b.Valid() && 1 <= k < |BlockLines(b)| && part <= BlockLines(b)[k]
    requires !(k == |b.rows| + 1 && part == "\\.")
    ensures var lines := BlockLines(b)[..k] + (if part == "" then [] else [part]);
            Inside(ReadLines(Reading(Outside, d), lines, want))
  {
    RemainderGoesOn(b, k, part);
    RemainderLines(b, k, part);
    HeaderOpens(d, b, want);
    ReadConcat(Reading(Outside, d), [PrintHeader(b)], Remainder(b, k, part), want);
    StaysInside(ReadLines(Reading(Outside, d), [PrintHeader(b)], want), Remainder(b, k, part), want);
  }

  lemma BlockAllFree(b: Block)
    requires b.Valid()
    ensures AllFree(BlockLines(b))
  {
    forall i | 0 <= i < |BlockLines(b)|
      ensures Free(BlockLines(b)[i], '\n')
    {
      BlockIsFree(b, i);
    }
  }

  lemma AllFreeConcat(a: seq<string>, b: seq<string>)
    requires AllFree(a) && AllFree(b)
    ensures AllFree(a + b)
  {
  }

  lemma LinesOfCut(before: seq<string>, lines: seq<string>, part: string)
    requires AllFree(before) && AllFree(lines) && Free(part, '\n')
    ensures Lines(TextOf(before) + (TextOf(lines) + part)) == before + (lines + (if part == "" then [] else [part]))
  {
    TextConcat(before, lines);
    Regroup(TextOf(before), TextOf(lines), part);
    AllFreeConcat(before, lines);
    LinesOfText(before + lines, part);
    Regroup(before, lines, if part == "" then [] else [part]);
    assert (before + lines) + [] == before + lines;
  }

  lemma CutAfterHeader(b: Block)
    ensures |PrintHeader(b)| <= |TextOf(BlockLines(b))|
    ensures TextOf(BlockLines(b))[..|PrintHeader(b)|] == PrintHeader(b)
  {
    var lines := BlockLines(b);
    var rest := lines[1..];
    assert lines == [PrintHeader(b)] + rest;
    TextConcat([PrintHeader(b)], rest);
    assert TextOf([PrintHeader(b)]) == TextOf([]) + PrintHeader(b) + "\n" by {
      assert [PrintHeader(b)][..0] == [];
    }
  }

  lemma LinesOfHeaderCut(before: seq<string>, b: Block)
    requires AllFree(before) && b.Valid()
    ensures |PrintHeader(b)| <= |TextOf(BlockLines(b))|
    ensures Lines(TextOf(before) + TextOf(BlockLines(b))[..|PrintHeader(b)|]) == before + BlockLines(b)[..1]
  {
    CutAfterHeader(b);
    assert BlockLines(b)[0] == PrintHeader(b);
    BlockIsFree(b, 0);
    LinesOfText(before, PrintHeader(b));
    assert BlockLines(b)[..1] == [PrintHeader(b)];
  }

  /** The lines of a dump cut inside its last block; a cut right behind the header reads
      like one behind its line feed. */
  lemma LinesOfCutBlock(before: seq<string>, b: Block, n: nat) returns (k: nat, part: string)
    requires AllFree(before) && b.Valid()
    requires |PrintHeader(b)| <= n < |TextOf(BlockLines(b))| - 1
    ensures 1 <= k < |BlockLines(b)| && part <= BlockLines(b)[k] && !(k == |b.rows| + 1 && part == "\\.")
    ensures Lines(TextOf(before) + TextOf(BlockLines(b))[..n]) ==
            before + (BlockLines(b)[..k] + (if part == "" then [] else [part]))
  {
    if n == |PrintHeader(b)| {
      k, part := 1, "";
      LinesOfHeaderCut(before, b);
      EmptyRight(BlockLines(b)[..1]);
    } else {
      k, part := CutInBlock(b, n);
      CutLineGoesOn(b, k, part);
      BlockAllFree(b);
      LinesOfCut(before, BlockLines(b)[..k], part);
    }
  }

  /** A dump cut anywhere inside a block, from where its header is complete to just before
      its end marker is, is rejected. */
  lemma TruncatedIsRejected(items: seq<Item>, b: Block, n: nat, want: string -> bool)
    requires ValidItems(items) && b.Valid()
    requires |PrintHeader(b)| <= n < |TextOf(BlockLines(b))| - 1
    ensures ParseDump(PrintDump(items) + TextOf(BlockLines(b))[..n], want) == None
  {
    var before := DumpLines(items);
    DumpIsFree(items);
    var k, part := LinesOfCutBlock(before, b, n);
    var tail := BlockLines(b)[..k] + (if part == "" then [] else [part]);
    DumpRead(items, want);
    BlockIsOpen(Contents(items, want), b, k, part, want);
    ReadOn(NOTHING_READ, before, Reading(Outside, Contents(items, want)), tail,
           ReadLines(Reading(Outside, Contents(items, want)), tail, want), want);
  }
}
