/** internal/legacyimport/mysqldump.go, value half: the tuples of an INSERT statement.
    Strings stand for bytes. The printer follows section 9.1.1 (String Literals) of the
    MySQL Reference Manual in the way mysqldump uses it. */
module MySqlValues {
  import opened Decimal
  import Seqs
  import opened Text
  import opened Options

  /** A value as the parser hands it on. A token that is a number but no 64-bit integer
      keeps its text. */
  datatype Value = Null | Str(text: string) | Int(n: int) | Float(token: string)

  datatype ScanError = ExpectedTuple | EndInsideTuple | Unterminated

  datatype Scan<+T> = Scanned(value: T, rest: string) | Failed(error: ScanError)

  predicate IsBlank(c: char) {
    c == ' ' || c == '\t' || c == '\r' || c == '\n'
  }

  function SkipBlanks(t: string): (r: string)
    ensures |r| <= |t| && (r == "" || !IsBlank(r[0]))
  {
    if t != "" && IsBlank(t[0]) then SkipBlanks(t[1..]) else t
  }

  // ----- Quoted strings -----

  /** What a backslash makes of the next byte. */
  function Unescaped(c: char): char {
    if c == 'n' then '\n'
    else if c == 'r' then '\r'
    else if c == 't' then '\t'
    else if c == '0' then '\0'
    else if c == 'Z' then '\U{001A}'
    else c
  }

  function Put(c: char, r: Scan<string>): Scan<string> {
    match r
    case Failed(e) => Failed(e)
    case Scanned(v, rest) => Scanned([c] + v, rest)
  }

  /** A literal behind its opening quote. */
  function ScanQuoted(t: string): (r: Scan<string>)
    ensures r.Scanned? ==> |r.rest| < |t|
  {
    if t == "" then Failed(Unterminated)
    else if t[0] == '\\' && |t| > 1 then Put(Unescaped(t[1]), ScanQuoted(t[2..]))
    else if t[0] == '\'' then
      if |t| > 1 && t[1] == '\'' then Put('\'', ScanQuoted(t[2..])) else Scanned("", t[1..])
    else Put(t[0], ScanQuoted(t[1..]))
  }

  function PutAll(b: string, r: Scan<string>): Scan<string> {
    match r
    case Failed(e) => Failed(e)
    case Scanned(v, rest) => Scanned(b + v, rest)
  }

  lemma PutAllPut(b: string, c: char, r: Scan<string>)
    ensures PutAll(b, Put(c, r)) == PutAll(b + [c], r)
  {
    if r.Scanned? {
      assert b + ([c] + r.value) == (b + [c]) + r.value;
    }
  }

  lemma PutNothing(r: Scan<string>)
    ensures PutAll("", r) == r
  {
    if r.Scanned? {
      assert "" + r.value == r.value;
    }
  }

  /** start is the offset of the opening quote; the result carries the offset behind the
      closing one. */
  method ParseQuotedString(s: string, start: nat) returns (value: string, next: nat, ok: bool)
    requires start < |s| && s[start] == '\''
    ensures ok ==> start < next <= |s| && ScanQuoted(s[start + 1..]) == Scanned(value, s[next..])
    ensures !ok ==> ScanQuoted(s[start + 1..]) == Failed(Unterminated)
  {
    var i := start + 1;
    value, next, ok := "", 0, false;
    ghost var whole := ScanQuoted(s[start + 1..]);
    PutNothing(whole);
    while i < |s|
      invariant start < i <= |s|
      invariant whole == PutAll(value, ScanQuoted(s[i..]))
      decreases |s| - i
    {
      var c := s[i];
      var t := s[i..];
      assert t[1..] == s[i + 1..];
      if i + 1 < |s| {
        assert t[2..] == s[i + 2..];
      }
      if c == '\\' && i + 1 < |s| {
        PutAllPut(value, Unescaped(s[i + 1]), ScanQuoted(s[i + 2..]));
        value := value + [Unescaped(s[i + 1])];
        i := i + 2;
        continue;
      }
      if c == '\'' {
        if i + 1 < |s| && s[i + 1] == '\'' {
          PutAllPut(value, '\'', ScanQuoted(s[i + 2..]));
          value := value + ['\''];
          i := i + 2;
          continue;
        }
        assert value + "" == value;
        next, ok := i + 1, true;
        return;
      }
      PutAllPut(value, c, ScanQuoted(s[i + 1..]));
      value := value + [c];
      i := i + 1;
    }
  }

  // ----- Bare literals -----

  const MIN_INT := -0x8000_0000_0000_0000
  const MAX_INT := 0x7FFF_FFFF_FFFF_FFFF

  /** strconv.ParseInt in base 10 for 64 bits. */
  function ParseInt(tok: string): Option<int> {
    var signed := tok != "" && (tok[0] == '-' || tok[0] == '+');
    var digits := if signed then tok[1..] else tok;
    if digits == "" || !AllDigits(digits) then None
    else
      var m: int := Decimal.Value(digits);
      var n := if signed && tok[0] == '-' then -m else m;
      if MIN_INT <= n <= MAX_INT then Some(n) else None
  }

  /** isFloat says which tokens strconv.ParseFloat accepts. */
  function ParseLiteral(isFloat: string -> bool, tok: string): Value {
    if tok == "NULL" then Null
    else if ParseInt(tok).Some? then Int(ParseInt(tok).value)
    else if isFloat(tok) then Float(tok)
    else Str(tok)
  }

  function BareLength(t: string): (n: nat)
    ensures n <= |t| && (n < |t| ==> t[n] == ',' || t[n] == ')')
    ensures forall i | 0 <= i < n :: t[i] != ',' && t[i] != ')'
  {
    if t == "" || t[0] == ',' || t[0] == ')' then 0 else 1 + BareLength(t[1..])
  }

  // ----- Tuples -----

  /** One value, at its first byte. */
  function ScanValue(isFloat: string -> bool, t: string): (r: Scan<Value>)
    requires t != ""
    ensures r.Scanned? ==> |r.rest| <= |t| && (|r.rest| == |t| ==> t[0] == ',' || t[0] == ')')
  {
    if t[0] == '\'' then
      match ScanQuoted(t[1..])
      case Failed(e) => Failed(e)
      case Scanned(v, rest) => Scanned(Str(v), rest)
    else
      Scanned(ParseLiteral(isFloat, TrimSpace(t[..BareLength(t)])), t[BareLength(t)..])
  }

  function PutFirst<T>(x: T, r: Scan<seq<T>>): Scan<seq<T>> {
    match r
    case Failed(e) => Failed(e)
    case Scanned(xs, rest) => Scanned([x] + xs, rest)
  }

  /** One turn of the inner loop: the tuple ends, or a value with more or nothing behind. */
  datatype Turn<+T> = Ends(rest: string) | More(value: T, rest: string) | Last(value: T, rest: string) | Wrong(error: ScanError)

  function RowTurn(isFloat: string -> bool, t: string): (r: Turn<Value>)
    ensures !r.Wrong? ==> |r.rest| < |t|
  {
    var t1 := SkipBlanks(t);
    if t1 == "" then Wrong(EndInsideTuple)
    else if t1[0] == ')' then Ends(t1[1..])
    else
      match ScanValue(isFloat, t1)
      case Failed(e) => Wrong(e)
      case Scanned(v, rest) =>
        var t2 := SkipBlanks(rest);
        if t2 != "" && t2[0] == ',' then More(v, t2[1..])
        else if t2 != "" && t2[0] == ')' then Last(v, t2[1..])
        else
          assert |rest| == |t1| ==> t2 == rest == t1;
          More(v, t2)
  }

  /** A tuple behind its opening parenthesis. */
  function ScanRow(isFloat: string -> bool, t: string): (r: Scan<seq<Value>>)
    ensures r.Scanned? ==> |r.rest| < |t|
    decreases |t|
  {
    match RowTurn(isFloat, t)
    case Wrong(e) => Failed(e)
    case Ends(rest) => Scanned([], rest)
    case Last(v, rest) => Scanned([v], rest)
    case More(v, rest) => PutFirst(v, ScanRow(isFloat, rest))
  }

  /** What stands behind a tuple decides whether the list goes on. */
  /** Blanks are no part of the list: in front of a tuple, or of a value in one. */
  lemma {:induction false} BlanksSkipped(gap: string, t: string)
    requires forall c | c in gap :: c in " \t\r\n"
    ensures SkipBlanks(gap + t) == SkipBlanks(t)
  {
    if gap == "" {
      assert gap + t == t;
    } else {
      assert gap[0] in gap && forall c | c in gap[1..] :: c in gap;
      assert (gap + t)[1..] == gap[1..] + t;
      BlanksSkipped(gap[1..], t);
    }
  }

  function Behind(row: seq<Value>, rest: string): Turn<seq<Value>> {
    var t := SkipBlanks(rest);
    if t == "" || t[0] == ';' then Last(row, "") else More(row, if t[0] == ',' then t[1..] else t)
  }

  function ListTurn(isFloat: string -> bool, t: string): (r: Turn<seq<Value>>)
    ensures r.More? ==> |r.rest| < |t|
  {
    var t1 := SkipBlanks(t);
    if t1 == "" || t1[0] == ';' then Ends("")
    else if t1[0] != '(' then Wrong(ExpectedTuple)
    else
      match ScanRow(isFloat, t1[1..])
      case Failed(e) => Wrong(e)
      case Scanned(row, rest) => Behind(row, rest)
  }

  function ScanTuples(isFloat: string -> bool, t: string): Scan<seq<seq<Value>>>
    decreases |t|
  {
    match ListTurn(isFloat, t)
    case Wrong(e) => Failed(e)
    case Ends(_) => Scanned([], "")
    case Last(row, _) => Scanned([row], "")
    case More(row, rest) => PutFirst(row, ScanTuples(isFloat, rest))
  }

  function PutFront<T>(xs: seq<T>, r: Scan<seq<T>>): Scan<seq<T>> {
    match r
    case Failed(e) => Failed(e)
    case Scanned(ys, rest) => Scanned(xs + ys, rest)
  }

  lemma BlanksMeanNothing(isFloat: string -> bool, gap: string, t: string)
    requires forall c | c in gap :: c in " \t\r\n"
    ensures ScanRow(isFloat, gap + t) == ScanRow(isFloat, t)
    ensures ScanTuples(isFloat, gap + t) == ScanTuples(isFloat, t)
  {
    BlanksSkipped(gap, t);
    assert RowTurn(isFloat, gap + t) == RowTurn(isFloat, t);
    assert ListTurn(isFloat, gap + t) == ListTurn(isFloat, t);
  }

  lemma PutFrontFirst<T>(xs: seq<T>, x: T, r: Scan<seq<T>>)
    ensures PutFront(xs, PutFirst(x, r)) == PutFront(xs + [x], r)
  {
    if r.Scanned? {
      assert xs + ([x] + r.value) == (xs + [x]) + r.value;
    }
  }

  lemma PutFrontNothing<T>(r: Scan<seq<T>>)
    ensures PutFront([], r) == r
  {
    if r.Scanned? {
      assert [] + r.value == r.value;
    }
  }

  method SkipSpace(s: string, from: nat) returns (i: nat)
    requires from <= |s|
    ensures from <= i <= |s| && s[i..] == SkipBlanks(s[from..])
  {
    i := from;
    while i < |s| && IsBlank(s[i])
      invariant from <= i <= |s| && SkipBlanks(s[from..]) == SkipBlanks(s[i..])
    {
      assert s[i..][1..] == s[i + 1..];
      i := i + 1;
    }
  }

  method ParseValue(isFloat: string -> bool, s: string, start: nat) returns (value: Value, next: nat, ok: bool)
    requires start < |s|
    ensures ok ==> start <= next <= |s| && ScanValue(isFloat, s[start..]) == Scanned(value, s[next..])
    ensures !ok ==> ScanValue(isFloat, s[start..]) == Failed(Unterminated)
  {
    assert s[start..][1..] == s[start + 1..];
    value := Null;
    if s[start] == '\'' {
      var text: string;
      text, next, ok := ParseQuotedString(s, start);
      value := Str(text);
    } else {
      next, ok := start, true;
      while next < |s| && s[next] != ',' && s[next] != ')'
        invariant start <= next <= |s|
        invariant BareLength(s[start..]) == next - start + BareLength(s[next..])
      {
        assert s[next..][1..] == s[next + 1..];
        next := next + 1;
      }
      assert s[start..][..next - start] == s[start..next] && s[start..][next - start..] == s[next..];
      value := ParseLiteral(isFloat, TrimSpace(s[start..next]));
    }
  }

  /** A turn of the inner loop at offset i; next is where the turn leaves off. */
  method ParseEntry(isFloat: string -> bool, s: string, from: nat) returns (turn: Turn<Value>, next: nat)
    requires from <= |s|
    ensures next <= |s| && turn == RowTurn(isFloat, s[from..])
    ensures !turn.Wrong? ==> from < next && turn.rest == s[next..]
  {
    next := 0;
    var i := SkipSpace(s, from);
    if i >= |s| {
      return Wrong(EndInsideTuple), 0;
    }
    if s[i] == ')' {
      assert s[i..][1..] == s[i + 1..];
      return Ends(s[i + 1..]), i + 1;
    }
    var value, after, ok := ParseValue(isFloat, s, i);
    if !ok {
      return Wrong(Unterminated), 0;
    }
    var k := SkipSpace(s, after);
    if k < |s| && (s[k] == ',' || s[k] == ')') {
      assert s[k..][1..] == s[k + 1..];
      return if s[k] == ',' then More(value, s[k + 1..]) else Last(value, s[k + 1..]), k + 1;
    }
    assert after == i ==> s[i] == ',';
    return More(value, s[k..]), k;
  }

  lemma RowStep(isFloat: string -> bool, row: seq<Value>, t: string)
    ensures RowTurn(isFloat, t).Ends? ==> PutFront(row, ScanRow(isFloat, t)) == Scanned(row, RowTurn(isFloat, t).rest)
    ensures RowTurn(isFloat, t).Last? ==> PutFront(row, ScanRow(isFloat, t)) == Scanned(row + [RowTurn(isFloat, t).value], RowTurn(isFloat, t).rest)
    ensures RowTurn(isFloat, t).Wrong? ==> PutFront(row, ScanRow(isFloat, t)) == Failed(RowTurn(isFloat, t).error)
    ensures RowTurn(isFloat, t).More? ==>
              PutFront(row, ScanRow(isFloat, t)) == PutFront(row + [RowTurn(isFloat, t).value], ScanRow(isFloat, RowTurn(isFloat, t).rest))
  {
    var turn := RowTurn(isFloat, t);
    assert row + [] == row;
    if turn.More? {
      PutFrontFirst(row, turn.value, ScanRow(isFloat, turn.rest));
    }
  }

  /** The inner loop; start is the offset behind the opening parenthesis. */
  method ParseTuple(isFloat: string -> bool, s: string, start: nat) returns (row: seq<Value>, next: nat, error: Option<ScanError>)
    requires start <= |s|
    ensures error == None ==> start < next <= |s| && ScanRow(isFloat, s[start..]) == Scanned(row, s[next..])
    ensures error.Some? ==> ScanRow(isFloat, s[start..]) == Failed(error.value)
  {
    row, error, next := [], None, 0;
    var i := start;
    PutFrontNothing(ScanRow(isFloat, s[start..]));
    while true
      invariant start <= i <= |s|
      invariant ScanRow(isFloat, s[start..]) == PutFront(row, ScanRow(isFloat, s[i..]))
      decreases |s| - i
    {
      RowStep(isFloat, row, s[i..]);
      var turn, k := ParseEntry(isFloat, s, i);
      match turn {
        case Wrong(e) => return [], 0, Some(e);
        case Ends(_) => return row, k, None;
        case Last(v, _) => return row + [v], k, None;
        case More(v, _) => row, i := row + [v], k;
      }
    }
  }

  method ParseBehind(s: string, row: seq<Value>, after: nat) returns (turn: Turn<seq<Value>>, next: nat)
    requires after <= |s|
    ensures next <= |s| && turn == Behind(row, s[after..])
    ensures turn.More? ==> after <= next && turn.rest == s[next..]
  {
    var k := SkipSpace(s, after);
    if k < |s| && s[k] == ',' {
      assert s[k..][1..] == s[k + 1..];
      return More(row, s[k + 1..]), k + 1;
    }
    if k >= |s| || s[k] == ';' {
      return Last(row, ""), 0;
    }
    return More(row, s[k..]), k;
  }

  method ParseListed(isFloat: string -> bool, s: string, from: nat) returns (turn: Turn<seq<Value>>, next: nat)
    requires from <= |s|
    ensures next <= |s| && turn == ListTurn(isFloat, s[from..])
    ensures turn.More? ==> from < next && turn.rest == s[next..]
  {
    next := 0;
    var i := SkipSpace(s, from);
    if i >= |s| || s[i] == ';' {
      return Ends(""), 0;
    }
    if s[i] != '(' {
      return Wrong(ExpectedTuple), 0;
    }
    assert s[i..][1..] == s[i + 1..];
    var row, after, error := ParseTuple(isFloat, s, i + 1);
    if error.Some? {
      return Wrong(error.value), 0;
    }
    turn, next := ParseBehind(s, row, after);
  }

  lemma ListStep(isFloat: string -> bool, rows: seq<seq<Value>>, t: string)
    ensures ListTurn(isFloat, t).Ends? ==> PutFront(rows, ScanTuples(isFloat, t)) == Scanned(rows, "")
    ensures ListTurn(isFloat, t).Last? ==> PutFront(rows, ScanTuples(isFloat, t)) == Scanned(rows + [ListTurn(isFloat, t).value], "")
    ensures ListTurn(isFloat, t).Wrong? ==> PutFront(rows, ScanTuples(isFloat, t)) == Failed(ListTurn(isFloat, t).error)
    ensures ListTurn(isFloat, t).More? ==>
              PutFront(rows, ScanTuples(isFloat, t)) == PutFront(rows + [ListTurn(isFloat, t).value], ScanTuples(isFloat, ListTurn(isFloat, t).rest))
  {
    var turn := ListTurn(isFloat, t);
    assert rows + [] == rows;
    if turn.More? {
      PutFrontFirst(rows, turn.value, ScanTuples(isFloat, turn.rest));
    }
  }

  /** parseValuesTuples: ends on every input, because the scan offset always moves on. */
  method ParseValuesTuples(isFloat: string -> bool, s: string) returns (tuples: seq<seq<Value>>, error: Option<ScanError>)
    ensures ScanTuples(isFloat, s) == if error == None then Scanned(tuples, "") else Failed(error.value)
  {
    tuples, error := [], None;
    var i := 0;
    PutFrontNothing(ScanTuples(isFloat, s));
    assert s[0..] == s;
    while true
      invariant i <= |s|
      invariant ScanTuples(isFloat, s) == PutFront(tuples, ScanTuples(isFloat, s[i..]))
      decreases |s| - i
    {
      ListStep(isFloat, tuples, s[i..]);
      var turn, k := ParseListed(isFloat, s, i);
      match turn {
        case Wrong(e) => return [], Some(e);
        case Ends(_) => return tuples, None;
        case Last(row, _) => return tuples + [row], None;
        case More(row, _) => tuples, i := tuples + [row], k;
      }
    }
  }

  // ----- Round trip -----

  /** How mysqldump writes one byte of a string. */
  function EscapeByte(c: char): string {
    if c == '\0' then "\\0"
    else if c == '\n' then "\\n"
    else if c == '\r' then "\\r"
    else if c == '\\' then "\\\\"
    else if c == '\'' then "\\'"
    else if c == '"' then "\\\""
    else if c == '\U{001A}' then "\\Z"
    else [c]
  }

  function EscapeText(v: string): string {
    if v == "" then "" else EscapeByte(v[0]) + EscapeText(v[1..])
  }

  function PrintInt(n: int): string {
    if n < 0 then "-" + Itoa(-n) else Itoa(n)
  }

  /** A token no trim, separator or quote interferes with. */
  predicate PlainToken(s: string) {
    && s != "" && !IsSpace(s[0]) && !IsSpace(s[|s| - 1]) && s[0] != '\'' && !IsBlank(s[0])
    && forall i | 0 <= i < |s| :: s[i] != ',' && s[i] != ')'
  }

  /** A value mysqldump writes: NULL, a 64-bit integer, another number, as one token that
      reads as a float and not as an integer, or a quoted string. */
  predicate Dumped(isFloat: string -> bool, v: Value) {
    match v
    case Null => true
    case Str(_) => true
    case Int(n) => MIN_INT <= n <= MAX_INT
    case Float(tok) => isFloat(tok) && ParseInt(tok) == None && tok != "NULL" && PlainToken(tok)
  }

  function PrintValue(v: Value): string {
    match v
    case Null => "NULL"
    case Str(text) => "'" + EscapeText(text) + "'"
    case Int(n) => PrintInt(n)
    case Float(tok) => tok
  }

  function PrintValues(row: seq<Value>): string {
    if row == [] then ""
    else if |row| == 1 then PrintValue(row[0])
    else PrintValue(row[0]) + "," + PrintValues(row[1..])
  }

  predicate DumpedRow(isFloat: string -> bool, row: seq<Value>) {
    forall i | 0 <= i < |row| :: Dumped(isFloat, row[i])
  }

  predicate DumpedRows(isFloat: string -> bool, rows: seq<seq<Value>>) {
    forall i | 0 <= i < |rows| :: DumpedRow(isFloat, rows[i])
  }

  function PrintTuple(row: seq<Value>): string {
    "(" + (PrintValues(row) + ")")
  }

  function PrintTuples(rows: seq<seq<Value>>): string {
    if rows == [] then ";"
    else PrintTuple(rows[0]) + (if |rows| == 1 then ";" else "," + PrintTuples(rows[1..]))
  }

  /** What every escape of section 9.1.1 of the MySQL Reference Manual that the program
      knows stands for: a doubled quote, the named ones, and any other byte for itself. */
  lemma EscapesRead(e: char, rest: string)
    ensures ScanQuoted("''" + rest) == Put('\'', ScanQuoted(rest))
    ensures ScanQuoted("\\" + ([e] + rest)) == Put(
              if e == 'n' then 10 as char else if e == 'r' then 13 as char else if e == 't' then 9 as char
              else if e == '0' then 0 as char else if e == 'Z' then 26 as char else e,
              ScanQuoted(rest))
  {
    assert ("''" + rest)[2..] == rest;
    assert ("\\" + ([e] + rest))[2..] == rest;
  }

  /** An escaped byte is itself, or a backslash and what stands for it. */
  lemma EscapedByte(c: char)
    ensures EscapeByte(c) == [c] ==> c != '\\' && c != '\''
    ensures EscapeByte(c) != [c] ==> |EscapeByte(c)| == 2 && EscapeByte(c)[0] == '\\' && Unescaped(EscapeByte(c)[1]) == c
  {
  }

  lemma ByteScans(c: char, rest: string)
    ensures ScanQuoted(EscapeByte(c) + rest) == Put(c, ScanQuoted(rest))
  {
    EscapedByte(c);
    var t := EscapeByte(c) + rest;
    if EscapeByte(c) == [c] {
      assert t[1..] == rest;
    } else {
      assert t[2..] == rest;
    }
  }

  lemma {:induction false} TextRoundTrip(v: string, tail: string)
    requires tail == "" || tail[0] != '\''
    ensures ScanQuoted(EscapeText(v) + ("'" + tail)) == Scanned(v, tail)
  {
    if v == "" {
      assert "" + ("'" + tail) == "'" + tail && ("'" + tail)[1..] == tail;
    } else {
      TextRoundTrip(v[1..], tail);
      ByteScans(v[0], EscapeText(v[1..]) + ("'" + tail));
      Seqs.Regroup(EscapeByte(v[0]), EscapeText(v[1..]), "'" + tail);
      assert v == [v[0]] + v[1..];
    }
  }

  lemma DigitsArePlain(s: string)
    requires s != "" && AllDigits(s)
    ensures !IsSpace(s[0]) && !IsSpace(s[|s| - 1])
    ensures forall i | 0 <= i < |s| :: s[i] != ',' && s[i] != ')'
  {
    assert forall i | 0 <= i < |s| :: s[i] in s;
  }

  lemma DigitsRead(m: nat)
    ensures Itoa(m) != "" && AllDigits(Itoa(m)) && Decimal.Value(Itoa(m)) == m && IsDigit(Itoa(m)[0])
  {
    ItoaIsDigits(m);
    ValueOfItoa(m);
    assert Itoa(m)[0] in Itoa(m);
  }

  lemma DigitsParse(s: string)
    requires s != "" && AllDigits(s) && IsDigit(s[0])
    ensures var m: int := Decimal.Value(s); ParseInt(s) == if m <= MAX_INT then Some(m) else None
  {
  }

  lemma NegativeParses(s: string)
    requires s != "" && AllDigits(s)
    ensures var m: int := Decimal.Value(s); ParseInt("-" + s) == if MIN_INT <= -m then Some(-m) else None
  {
    assert ("-" + s)[1..] == s;
  }

  lemma NaturalReads(n: nat)
    requires n <= MAX_INT
    ensures ParseInt(Itoa(n)) == Some(n)
  {
    DigitsRead(n);
    DigitsParse(Itoa(n));
  }

  lemma NegativeReads(m: int)
    requires 0 <= m <= -MIN_INT
    ensures ParseInt("-" + Itoa(m)) == Some(-m)
  {
    DigitsRead(m);
    NegativeParses(Itoa(m));
  }

  lemma PrintedIntReads(n: int)
    requires MIN_INT <= n <= MAX_INT
    ensures ParseInt(PrintInt(n)) == Some(n)
  {
    if n < 0 {
      NegativeReads(-n);
    } else {
      NaturalReads(n);
    }
  }

  /** A printed integer is one plain token, and reads back. */
  lemma IntRoundTrip(n: int)
    requires MIN_INT <= n <= MAX_INT
    ensures ParseInt(PrintInt(n)) == Some(n) && PrintInt(n) != "NULL" && PlainToken(PrintInt(n))
  {
    PrintedIntReads(n);
    var m := if n < 0 then -n else n;
    DigitsRead(m);
    DigitsArePlain(Itoa(m));
    assert PrintInt(n)[|PrintInt(n)| - 1] == Itoa(m)[|Itoa(m)| - 1];
    assert PrintInt(n)[0] == '-' || IsDigit(PrintInt(n)[0]);
    assert "NULL"[0] == 'N';
  }

  lemma {:induction false} BareLengthOf(tok: string, tail: string)
    requires forall i | 0 <= i < |tok| :: tok[i] != ',' && tok[i] != ')'
    requires tail != "" && (tail[0] == ',' || tail[0] == ')')
    ensures BareLength(tok + tail) == |tok|
  {
    if tok == "" {
      assert tok + tail == tail;
    } else {
      assert (tok + tail)[1..] == tok[1..] + tail;
      BareLengthOf(tok[1..], tail);
    }
  }

  lemma PlainTrim(tok: string)
    requires PlainToken(tok)
    ensures TrimSpace(tok) == tok
  {
  }

  lemma TokenScans(isFloat: string -> bool, tok: string, tail: string)
    requires PlainToken(tok) && tail != "" && (tail[0] == ',' || tail[0] == ')')
    ensures ScanValue(isFloat, tok + tail) == Scanned(ParseLiteral(isFloat, tok), tail)
  {
    BareLengthOf(tok, tail);
    PlainTrim(tok);
    assert (tok + tail)[..|tok|] == tok && (tok + tail)[|tok|..] == tail;
  }

  /** One printed value in front of a separator. */
  lemma ValueRoundTrip(isFloat: string -> bool, v: Value, tail: string)
    requires Dumped(isFloat, v) && tail != "" && (tail[0] == ',' || tail[0] == ')')
    ensures PrintValue(v) != "" && !IsBlank(PrintValue(v)[0]) && PrintValue(v)[0] != ')'
    ensures ScanValue(isFloat, PrintValue(v) + tail) == Scanned(v, tail)
  {
    match v
    case Null =>
      TokenScans(isFloat, "NULL", tail);
    case Str(text) =>
      var t := PrintValue(v) + tail;
      assert t[1..] == EscapeText(text) + ("'" + tail);
      TextRoundTrip(text, tail);
    case Int(n) =>
      IntRoundTrip(n);
      TokenScans(isFloat, PrintInt(n), tail);
    case Float(tok) =>
      TokenScans(isFloat, tok, tail);
  }

  lemma NoBlanks(t: string)
    requires t == "" || !IsBlank(t[0])
    ensures SkipBlanks(t) == t
  {
  }

  /** One turn over a printed value and the comma or parenthesis behind it. */
  lemma PrintedTurn(isFloat: string -> bool, v: Value, tail: string)
    requires Dumped(isFloat, v) && tail != "" && (tail[0] == ',' || tail[0] == ')')
    ensures RowTurn(isFloat, PrintValue(v) + tail) == if tail[0] == ')' then Last(v, tail[1..]) else More(v, tail[1..])
  {
    var t := PrintValue(v) + tail;
    ValueRoundTrip(isFloat, v, tail);
    assert t[0] == PrintValue(v)[0];
    NoBlanks(t);
    NoBlanks(tail);
  }

  lemma MoreScans(isFloat: string -> bool, t: string, v: Value, rest: string, xs: seq<Value>, tail: string)
    requires RowTurn(isFloat, t) == More(v, rest) && ScanRow(isFloat, rest) == Scanned(xs, tail)
    ensures ScanRow(isFloat, t) == Scanned([v] + xs, tail)
  {
  }

  lemma LastScans(isFloat: string -> bool, v: Value, tail: string)
    requires Dumped(isFloat, v)
    ensures ScanRow(isFloat, PrintValue(v) + (")" + tail)) == Scanned([v], tail)
  {
    PrintedTurn(isFloat, v, ")" + tail);
    assert (")" + tail)[1..] == tail;
  }

  lemma EmptyScans(isFloat: string -> bool, tail: string)
    ensures ScanRow(isFloat, ")" + tail) == Scanned([], tail)
  {
    NoBlanks(")" + tail);
    assert (")" + tail)[1..] == tail;
  }

  lemma CommaTurn(isFloat: string -> bool, v: Value, next: string)
    requires Dumped(isFloat, v)
    ensures RowTurn(isFloat, PrintValue(v) + ("," + next)) == More(v, next)
  {
    PrintedTurn(isFloat, v, "," + next);
    assert ("," + next)[1..] == next;
  }

  lemma ConsScans(isFloat: string -> bool, v: Value, inner: string, xs: seq<Value>, tail: string)
    requires Dumped(isFloat, v) && ScanRow(isFloat, inner + (")" + tail)) == Scanned(xs, tail)
    ensures ScanRow(isFloat, PrintValue(v) + "," + inner + (")" + tail)) == Scanned([v] + xs, tail)
  {
    var next := inner + (")" + tail);
    CommaTurn(isFloat, v, next);
    MoreScans(isFloat, PrintValue(v) + ("," + next), v, next, xs, tail);
    Seqs.Regroup(PrintValue(v) + ",", inner, ")" + tail);
    Seqs.Regroup(PrintValue(v), ",", next);
  }

  lemma NothingPrinted(tail: string)
    ensures PrintValues([]) + (")" + tail) == ")" + tail
  {
  }

  lemma PrintedFront(row: seq<Value>)
    requires |row| > 1
    ensures row == [row[0]] + row[1..] && PrintValues(row) == PrintValue(row[0]) + "," + PrintValues(row[1..])
  {
  }

  lemma {:induction false} RowRoundTrip(isFloat: string -> bool, row: seq<Value>, tail: string)
    requires DumpedRow(isFloat, row)
    ensures ScanRow(isFloat, PrintValues(row) + (")" + tail)) == Scanned(row, tail)
    decreases |row|
  {
    if row == [] {
      EmptyScans(isFloat, tail);
      NothingPrinted(tail);
    } else if |row| == 1 {
      LastScans(isFloat, row[0], tail);
      assert row == [row[0]];
    } else {
      RowRoundTrip(isFloat, row[1..], tail);
      ConsScans(isFloat, row[0], PrintValues(row[1..]), row[1..], tail);
      PrintedFront(row);
    }
  }

  lemma TupleOpens(row: seq<Value>, tail: string)
    ensures var t := PrintTuple(row) + tail; t != "" && t[0] == '(' && t[1..] == PrintValues(row) + (")" + tail)
  {
  }

  lemma TupleTurn(isFloat: string -> bool, row: seq<Value>, tail: string)
    requires DumpedRow(isFloat, row) && tail != "" && (tail[0] == ',' || tail[0] == ';')
    ensures ListTurn(isFloat, PrintTuple(row) + tail) == if tail[0] == ';' then Last(row, "") else More(row, tail[1..])
  {
    TupleOpens(row, tail);
    NoBlanks(PrintTuple(row) + tail);
    NoBlanks(tail);
    RowRoundTrip(isFloat, row, tail);
  }

  lemma LastTuple(isFloat: string -> bool, row: seq<Value>)
    requires DumpedRow(isFloat, row)
    ensures ScanTuples(isFloat, PrintTuple(row) + ";") == Scanned([row], "")
  {
    TupleTurn(isFloat, row, ";");
  }

  lemma OneMoreTuple(isFloat: string -> bool, row: seq<Value>, printed: string, rows: seq<seq<Value>>)
    requires DumpedRow(isFloat, row) && ScanTuples(isFloat, printed) == Scanned(rows, "")
    ensures ScanTuples(isFloat, PrintTuple(row) + ("," + printed)) == Scanned([row] + rows, "")
  {
    TupleTurn(isFloat, row, "," + printed);
    assert ("," + printed)[1..] == printed;
  }

  lemma {:induction false} PrintedRoundTrip(isFloat: string -> bool, rows: seq<seq<Value>>)
    requires DumpedRows(isFloat, rows)
    ensures ScanTuples(isFloat, PrintTuples(rows)) == Scanned(rows, "")
    decreases |rows|
  {
    if rows == [] {
      NoBlanks(";");
    } else if |rows| == 1 {
      LastTuple(isFloat, rows[0]);
      assert rows == [rows[0]];
    } else {
      PrintedRoundTrip(isFloat, rows[1..]);
      OneMoreTuple(isFloat, rows[0], PrintTuples(rows[1..]), rows[1..]);
      assert rows == [rows[0]] + rows[1..];
    }
  }

  /** The VALUES round trip: for all tuples of NULLs, 64-bit integers, other numbers and
      arbitrary byte strings, what mysqldump writes behind VALUES parses to the tuples. */
  lemma ValuesRoundTrip(isFloat: string -> bool, rows: seq<seq<Value>>)
    requires DumpedRows(isFloat, rows)
    ensures ScanTuples(isFloat, " " + PrintTuples(rows)) == Scanned(rows, "")
  {
    var printed := PrintTuples(rows);
    assert (" " + printed)[1..] == printed;
    assert SkipBlanks(" " + printed) == SkipBlanks(printed);
    PrintedRoundTrip(isFloat, rows);
  }
}
