/**
 A reader for JSON documents of strings, lists and objects (RFC 8259, sections 2, 4, 5 and 7), and what it makes of the
 documents that Go prints: themselves.
 */
module JsonReading {
  import opened JsonText

  /** Insignificant whitespace. */
  predicate IsBlank(c: char) {
    c == ' ' || c == '\t' || c == '\n' || c == '\r'
  }

  function SkipBlanks(t: string): (r: string)
    ensures |r| <= |t|
  {
    if t != "" && IsBlank(t[0]) then SkipBlanks(t[1..]) else t
  }

  datatype Parsed = NoValue | Parsed(value: Json, rest: string)

  datatype ParsedEntries = NoEntries | ParsedEntries(entries: Entries, rest: string)

  function Opening(named: bool): char {
    if named then '{' else '['
  }

  function Closing(named: bool): char {
    if named then '}' else ']'
  }

  /** A value, and what follows it. */
  function ReadValue(t: string): (r: Parsed)
    ensures r.Parsed? ==> |r.rest| < |t|
    decreases |t|, 0
  {
    var u := SkipBlanks(t);
    if u == "" then NoValue
    else if u[0] == '"' then
      var s := ReadString(u[1..]);
      if s.Bad? then NoValue else Parsed(Text(s.text), s.rest)
    else if u[0] == Opening(false) || u[0] == Opening(true) then
      var named := u[0] == Opening(true);
      var inner := ReadEntries(u[1..], named);
      if inner.NoEntries? then NoValue
      else Parsed(if named then Object(inner.entries) else List(inner.entries), inner.rest)
    else NoValue
  }

  /** After the opening bracket: nothing but the closing one, or entries. */
  function ReadEntries(t: string, named: bool): (r: ParsedEntries)
    ensures r.ParsedEntries? ==> |r.rest| < |t|
    decreases |t|, 2
  {
    var u := SkipBlanks(t);
    if u != "" && u[0] == Closing(named) then ParsedEntries(End, u[1..]) else ReadEntry(t, named)
  }

  /** An entry, and after a comma the next ones. */
  function ReadEntry(t: string, named: bool): (r: ParsedEntries)
    ensures r.ParsedEntries? ==> |r.rest| < |t|
    decreases |t|, 1
  {
    var lead := if named then ReadName(t) else Read("", t);
    if lead.Bad? then NoEntries
    else
      var value := ReadValue(lead.rest);
      if value.NoValue? then NoEntries
      else
        var u := SkipBlanks(value.rest);
        if u == "" then NoEntries
        else if u[0] == Closing(named) then ParsedEntries(Entry(lead.text, value.value, End), u[1..])
        else if u[0] == ',' then
          var more := ReadEntry(u[1..], named);
          if more.NoEntries? then NoEntries else ParsedEntries(Entry(lead.text, value.value, more.entries), more.rest)
        else NoEntries
  }

  /** A name and its colon. */
  function ReadName(t: string): (r: Reading)
    ensures r.Read? ==> |r.rest| < |t|
  {
    var u := SkipBlanks(t);
    if u == "" || u[0] != '"' then Bad
    else
      var s := ReadString(u[1..]);
      if s.Bad? then Bad
      else
        var v := SkipBlanks(s.rest);
        if v == "" || v[0] != ':' then Bad else Read(s.text, v[1..])
  }

  datatype ParsedDocument = NoDocument | Document(value: Json)

  /** A whole document, with nothing but whitespace around it. */
  function ReadDocument(t: string): ParsedDocument {
    var r := ReadValue(t);
    if r.Parsed? && SkipBlanks(r.rest) == "" then Document(r.value) else NoDocument
  }

  // ----- what is printed, as text

  lemma {:induction false} JoinConcat(a: seq<Token>, b: seq<Token>)
    ensures Join(a + b) == Join(a) + Join(b)
  {
    if a == [] {
      assert a + b == b;
    } else {
      assert (a + b)[0] == a[0] && (a + b)[1..] == a[1..] + b;
      JoinConcat(a[1..], b);
    }
  }

  lemma {:induction false} JoinMarks(s: string)
    ensures Join(Marks(s)) == s
  {
    if s != "" {
      JoinMarks(s[1..]);
      assert Marks(s)[1..] == Marks(s[1..]);
      assert s == [s[0]] + s[1..];
    }
  }

  lemma JoinOne(t: Token)
    ensures Join([t]) == Raw(t)
  {
    assert [t][1..] == [];
  }

  function Label(name: string, named: bool): string {
    if named then JsonString(name) + ": " else ""
  }

  lemma JoinLabel(name: string, named: bool)
    ensures Join(if named then [Quoted(name)] + Marks(": ") else []) == Label(name, named)
  {
    JoinConcat([Quoted(name)], Marks(": "));
    JoinOne(Quoted(name));
    JoinMarks(": ");
  }

  function Comma(tail: Entries, named: bool, depth: nat): string {
    if tail.End? then "" else "," + Join(EntryTokens(tail, named, depth))
  }

  lemma JoinComma(tail: Entries, named: bool, depth: nat)
    ensures Join(if tail.End? then [] else [Mark(',')] + EntryTokens(tail, named, depth)) == Comma(tail, named, depth)
  {
    JoinConcat([Mark(',')], EntryTokens(tail, named, depth));
    JoinOne(Mark(','));
  }

  /** A line break, the name, the value, and a comma with the rest. */
  lemma EntryText(name: string, value: Json, tail: Entries, named: bool, depth: nat)
    ensures Join(EntryTokens(Entry(name, value, tail), named, depth)) ==
      NewLine(depth) + Label(name, named) + Join(Tokens(value, depth)) + Comma(tail, named, depth)
  {
    var lead := if named then [Quoted(name)] + Marks(": ") else [];
    var more := if tail.End? then [] else [Mark(',')] + EntryTokens(tail, named, depth);
    JoinMarks(NewLine(depth));
    JoinLabel(name, named);
    JoinComma(tail, named, depth);
    JoinConcat(Marks(NewLine(depth)), lead);
    JoinConcat(Marks(NewLine(depth)) + lead, Tokens(value, depth));
    JoinConcat(Marks(NewLine(depth)) + lead + Tokens(value, depth), more);
  }

  /** The last line break before the closing bracket. */
  function Gap(entries: Entries, depth: nat): string {
    if entries.End? then "" else NewLine(depth)
  }

  lemma WithinText(entries: Entries, named: bool, depth: nat)
    ensures Join([Mark(Opening(named))] + Within(entries, named, depth) + [Mark(Closing(named))]) ==
      [Opening(named)] + (Join(EntryTokens(entries, named, depth + 1)) + Gap(entries, depth)) + [Closing(named)]
  {
    var inner := Within(entries, named, depth);
    JoinOne(Mark(Opening(named)));
    JoinOne(Mark(Closing(named)));
    JoinConcat([Mark(Opening(named))], inner);
    JoinConcat([Mark(Opening(named))] + inner, [Mark(Closing(named))]);
    JoinMarks(NewLine(depth));
    JoinConcat(EntryTokens(entries, named, depth + 1), Marks(NewLine(depth)));
    assert Join(inner) == Join(EntryTokens(entries, named, depth + 1)) + Gap(entries, depth);
  }

  // ----- reading it back

  ghost predicate Blank(s: string) {
    forall c :: c in s ==> IsBlank(c)
  }

  lemma {:induction false} SkipsBlank(b: string, t: string)
    requires Blank(b)
    ensures SkipBlanks(b + t) == SkipBlanks(t)
  {
    if b == "" {
      assert b + t == t;
    } else {
      assert b[0] in b && (b + t)[1..] == b[1..] + t;
      SkipsBlank(b[1..], t);
    }
  }

  lemma {:induction false} SpacesBlank(n: nat)
    ensures Blank(Spaces(n))
  {
    if n > 0 { SpacesBlank(n - 1); }
  }

  lemma NewLineBlank(depth: nat)
    ensures Blank(NewLine(depth))
  {
    SpacesBlank(2 * depth);
  }

  /** Leading whitespace does not matter to any part of the reader. */
  lemma BlankBefore(b: string, t: string, named: bool)
    requires Blank(b)
    ensures ReadValue(b + t) == ReadValue(t) && ReadName(b + t) == ReadName(t)
    ensures ReadEntry(b + t, named) == ReadEntry(t, named)
  {
    SkipsBlank(b, t);
  }

  lemma ReadsText(s: string, rest: string)
    ensures ReadValue(JsonString(s) + rest) == Parsed(Text(s), rest)
  {
    ReadsBack(s, rest);
    assert (JsonString(s) + rest)[1..] == EncodeBody(s) + "\"" + rest;
  }

  lemma ReadsNameBefore(s: string, colon: string)
    requires colon != "" && colon[0] == ':'
    ensures ReadName(JsonString(s) + colon) == Read(s, colon[1..])
  {
    ReadsBack(s, colon);
    assert (JsonString(s) + colon)[1..] == EncodeBody(s) + "\"" + colon;
  }

  lemma ReadsName(s: string, rest: string)
    ensures ReadName(Label(s, true) + rest) == Read(s, " " + rest)
  {
    ReadsNameBefore(s, ": " + rest);
    assert Label(s, true) + rest == JsonString(s) + (": " + rest);
    assert (": " + rest)[1..] == " " + rest;
  }

  /** In a list the entries have no names. */
  ghost predicate WellNamed(v: Json) {
    match v
    case Text(_) => true
    case List(entries) => WellNamedAll(entries, false)
    case Object(entries) => WellNamedAll(entries, true)
  }

  ghost predicate WellNamedAll(entries: Entries, named: bool) {
    entries.Entry? ==> (named || entries.name == "") && WellNamed(entries.value) && WellNamedAll(entries.tail, named)
  }

  /** The reader gets every value back, and what follows it. */
  lemma {:induction false} ReadsValue(v: Json, depth: nat, rest: string)
    requires WellNamed(v)
    ensures ReadValue(Join(Tokens(v, depth)) + rest) == Parsed(v, rest)
    decreases v, 1
  {
    match v
    case Text(s) =>
      JoinOne(Quoted(s));
      ReadsText(s, rest);
    case List(entries) => ReadsBrackets(entries, false, depth, rest);
    case Object(entries) => ReadsBrackets(entries, true, depth, rest);
  }

  lemma {:induction false} ReadsBrackets(entries: Entries, named: bool, depth: nat, rest: string)
    requires WellNamedAll(entries, named)
    ensures ReadValue(Join([Mark(Opening(named))] + Within(entries, named, depth) + [Mark(Closing(named))]) + rest) ==
      Parsed(if named then Object(entries) else List(entries), rest)
    decreases entries, 1
  {
    WithinText(entries, named, depth);
    var printed, gap := Join(EntryTokens(entries, named, depth + 1)), Gap(entries, depth);
    BracketParts([Opening(named)], printed, gap, [Closing(named)], rest);
    if entries.End? {
      assert printed + gap + [Closing(named)] + rest == [Closing(named)] + rest;
      ReadsEmpty(named, rest);
    } else {
      NewLineBlank(depth);
      ReadsEntry(entries, named, depth + 1, gap, rest);
      StartsEntry(entries, named, depth + 1, gap + [Closing(named)] + rest);
      BracketParts([], printed, gap, [Closing(named)], rest);
    }
    ReadsInner(printed + gap + [Closing(named)] + rest, entries, named, rest);
  }

  lemma BracketParts(open: string, printed: string, gap: string, close: string, rest: string)
    ensures open + (printed + gap) + close + rest == open + (printed + gap + close + rest)
    ensures printed + gap + close + rest == printed + (gap + close + rest)
  {
  }

  lemma ReadsEmpty(named: bool, rest: string)
    ensures ReadEntries([Closing(named)] + rest, named) == ParsedEntries(End, rest)
  {
    assert ([Closing(named)] + rest)[1..] == rest;
  }

  lemma ReadsInner(inner: string, entries: Entries, named: bool, rest: string)
    requires ReadEntries(inner, named) == ParsedEntries(entries, rest)
    ensures ReadValue([Opening(named)] + inner) == Parsed(if named then Object(entries) else List(entries), rest)
  {
    assert ([Opening(named)] + inner)[1..] == inner;
  }

  /** What starts with an entry is not an empty list. */
  lemma StartsEntry(entries: Entries, named: bool, depth: nat, rest: string)
    requires entries.Entry?
    ensures var t := Join(EntryTokens(entries, named, depth)) + rest; ReadEntries(t, named) == ReadEntry(t, named)
  {
    var Entry(name, value, tail) := entries;
    var v := Join(Tokens(value, depth));
    var after := Label(name, named) + (v + (Comma(tail, named, depth) + rest));
    EntryText(name, value, tail, named, depth);
    NewLineBlank(depth);
    SkipsBlank(NewLine(depth), after);
    StartParts(NewLine(depth), Label(name, named), v, Comma(tail, named, depth), rest);
    FirstOfValue(value, depth);
    assert after[0] == if named then '"' else v[0];
  }

  lemma StartParts(line: string, lead: string, value: string, comma: string, rest: string)
    ensures line + lead + value + comma + rest == line + (lead + (value + (comma + rest)))
  {
  }

  lemma FirstOfValue(v: Json, depth: nat)
    ensures Join(Tokens(v, depth)) != "" && Join(Tokens(v, depth))[0] in ['"', '[', '{']
  {
    match v
    case Text(s) => JoinOne(Quoted(s));
    case List(entries) => WithinText(entries, false, depth);
    case Object(entries) => WithinText(entries, true, depth);
  }

  lemma {:induction false} ReadsEntry(entries: Entries, named: bool, depth: nat, gap: string, rest: string)
    requires entries.Entry? && WellNamedAll(entries, named) && Blank(gap)
    ensures ReadEntry(Join(EntryTokens(entries, named, depth)) + gap + [Closing(named)] + rest, named) ==
      ParsedEntries(entries, rest)
    decreases entries, 0
  {
    var Entry(name, value, tail) := entries;
    var v, end := Join(Tokens(value, depth)), gap + [Closing(named)] + rest;
    var after := Comma(tail, named, depth) + gap + [Closing(named)] + rest;
    EntryText(name, value, tail, named, depth);
    NewLineBlank(depth);
    BlankBefore(NewLine(depth), Label(name, named) + (v + after), named);
    EntryParts(NewLine(depth), Label(name, named), v, Comma(tail, named, depth), gap, [Closing(named)], rest);
    ReadsValue(value, depth, after);
    if !tail.End? { ReadsEntry(tail, named, depth, gap, rest); }
    ReadsAfter(tail, named, depth, gap, rest);
    ReadsOne(name, value, named, v, after, tail, rest);
  }

  /** What follows a value: the end, or a comma and the next entries. */
  ghost predicate Continues(after: string, tail: Entries, named: bool, rest: string) {
    var u := SkipBlanks(after);
    && u != ""
    && if tail.End? then u == [Closing(named)] + rest
       else u[0] == ',' && ReadEntry(u[1..], named) == ParsedEntries(tail, rest)
  }

  lemma ReadsAfter(tail: Entries, named: bool, depth: nat, gap: string, rest: string)
    requires Blank(gap)
    requires tail.Entry? ==>
      ReadEntry(Join(EntryTokens(tail, named, depth)) + gap + [Closing(named)] + rest, named) == ParsedEntries(tail, rest)
    ensures Continues(Comma(tail, named, depth) + gap + [Closing(named)] + rest, tail, named, rest)
  {
    if tail.End? {
      SkipsBlank(gap, [Closing(named)] + rest);
      assert Comma(tail, named, depth) + gap + [Closing(named)] + rest == gap + ([Closing(named)] + rest);
    } else {
      CommaParts(Join(EntryTokens(tail, named, depth)), gap, [Closing(named)], rest);
    }
  }

  lemma CommaParts(printed: string, gap: string, close: string, rest: string)
    ensures var t := "," + printed + gap + close + rest; t[0] == ',' && t[1..] == printed + gap + close + rest
  {
  }

  lemma ReadsOne(name: string, value: Json, named: bool, v: string, after: string, tail: Entries, rest: string)
    requires named || name == ""
    requires ReadValue(v + after) == Parsed(value, after) && Continues(after, tail, named, rest)
    ensures ReadEntry(Label(name, named) + (v + after), named) == ParsedEntries(Entry(name, value, tail), rest)
  {
    ReadsLabel(name, named, v + after);
    if tail.End? { assert ([Closing(named)] + rest)[1..] == rest; }
  }

  lemma EntryParts(line: string, lead: string, value: string, comma: string, gap: string, close: string, rest: string)
    ensures line + lead + value + comma + gap + close + rest == line + (lead + (value + (comma + gap + close + rest)))
  {
  }

  /** After the name, the same value follows. */
  lemma ReadsLabel(name: string, named: bool, t: string)
    requires named || name == ""
    ensures var lead := if named then ReadName(Label(name, named) + t) else Read("", Label(name, named) + t);
      lead.Read? && lead.text == name && ReadValue(lead.rest) == ReadValue(t)
  {
    if named {
      ReadsName(name, t);
      BlankBefore(" ", t, named);
    } else {
      assert "" + t == t;
    }
  }

  /** A JSON reader makes of every printed document that very document. */
  lemma PrintReadsBack(v: Json)
    requires WellNamed(v)
    ensures ReadDocument(Print(v)) == Document(v)
  {
    ReadsValue(v, 0, "");
    assert Print(v) + "" == Print(v);
  }
}
