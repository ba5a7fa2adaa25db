/** What encoding/json does that the panel relies on: objects and arrays are printed
    compositionally, and a raw message is printed as it is. How one character of a
    string is escaped is a parameter. */
module Json {
  import opened Text

  datatype Field = Field(name: string, value: Value)

  datatype Value =
    | Raw(bytes: string)
    | Literal(text: string)
    | Str(text: string)
    | Arr(items: seq<Value>)
    | Obj(fields: seq<Field>)

  type Escape = char -> string

  function Escaped(esc: Escape, s: string): string {
    if s == "" then "" else Escaped(esc, s[..|s| - 1]) + esc(s[|s| - 1])
  }

  function Quote(esc: Escape, s: string): string {
    "\"" + Escaped(esc, s) + "\""
  }

  function Marshal(esc: Escape, v: Value): string
    decreases v
  {
    match v
    case Raw(bytes) => bytes
    case Literal(text) => text
    case Str(text) => Quote(esc, text)
    case Arr(items) => "[" + Join(seq(|items|, i requires 0 <= i < |items| => Marshal(esc, items[i])), ',') + "]"
    case Obj(fields) => "{" + Join(seq(|fields|, i requires 0 <= i < |fields| => Member(esc, fields[i])), ',') + "}"
  }

  function Member(esc: Escape, f: Field): string
    decreases f
  {
    "\"" + f.name + "\":" + Marshal(esc, f.value)
  }

  function Members(esc: Escape, fields: seq<Field>): seq<string> {
    seq(|fields|, i requires 0 <= i < |fields| => Member(esc, fields[i]))
  }

  function Items(esc: Escape, items: seq<Value>): seq<string> {
    seq(|items|, i requires 0 <= i < |items| => Marshal(esc, items[i]))
  }

  lemma MarshalObj(esc: Escape, fields: seq<Field>)
    ensures Marshal(esc, Obj(fields)) == "{" + Join(Members(esc, fields), ',') + "}"
  {
    assert seq(|fields|, i requires 0 <= i < |fields| => Member(esc, fields[i])) == Members(esc, fields);
  }

  lemma MarshalArr(esc: Escape, items: seq<Value>)
    ensures Marshal(esc, Arr(items)) == "[" + Join(Items(esc, items), ',') + "]"
  {
    assert seq(|items|, i requires 0 <= i < |items| => Marshal(esc, items[i])) == Items(esc, items);
  }

  /** Values that print alike, field by field, may stand in for each other. */
  lemma SameMembers(esc: Escape, a: seq<Field>, b: seq<Field>)
    requires |a| == |b|
    requires forall i | 0 <= i < |a| :: a[i].name == b[i].name && Marshal(esc, a[i].value) == Marshal(esc, b[i].value)
    ensures Marshal(esc, Obj(a)) == Marshal(esc, Obj(b))
  {
    MarshalObj(esc, a);
    MarshalObj(esc, b);
    assert Members(esc, a) == Members(esc, b);
  }

  lemma SameItems(esc: Escape, a: seq<Value>, b: seq<Value>)
    requires |a| == |b| && forall i | 0 <= i < |a| :: Marshal(esc, a[i]) == Marshal(esc, b[i])
    ensures Marshal(esc, Arr(a)) == Marshal(esc, Arr(b))
  {
    MarshalArr(esc, a);
    MarshalArr(esc, b);
    assert Items(esc, a) == Items(esc, b);
  }

  lemma MembersCons(esc: Escape, first: Field, fields: seq<Field>)
    ensures Members(esc, [first] + fields) == [Member(esc, first)] + Members(esc, fields)
  {
  }

  lemma JoinStarts(parts: seq<string>, sep: char)
    requires parts != [] && parts[0] != ""
    ensures Join(parts, sep) != "" && Join(parts, sep)[0] == parts[0][0]
  {
    if |parts| > 1 {
      assert parts == [parts[0]] + parts[1..];
      JoinFront(parts[0], parts[1..], sep);
    }
  }

  /** Printing an object with one more leading field is a splice after its brace. */
  lemma LeadingField(esc: Escape, first: Field, fields: seq<Field>)
    requires fields != []
    ensures var rest := Marshal(esc, Obj(fields));
            && |rest| >= 2 && rest[0] == '{' && rest[1] == '"'
            && Marshal(esc, Obj([first] + fields)) == "{" + Member(esc, first) + "," + rest[1..]
  {
    MarshalObj(esc, fields);
    MarshalObj(esc, [first] + fields);
    var parts := Members(esc, fields);
    MembersCons(esc, first, fields);
    JoinFront(Member(esc, first), parts, ',');
    JoinStarts(parts, ',');
    var joined := Join(parts, ',');
    assert ("{" + joined + "}")[1..] == joined + "}";
  }
}
