/** Which colours a painted configuration has: its names are keys, its texts are strings, and nothing else is coloured. */
module Colours {
  import opened Painting
  import opened Highlight
  import opened JsonText
  import opened Formats
  import T = Text

  /** The coloured texts of one kind, in order. */
  function Coloured(ps: seq<Piece>, kind: Kind): seq<string> {
    if ps == [] then []
    else (if ps[0].Plain? || ps[0].kind != kind then [] else [ps[0].text]) + Coloured(ps[1..], kind)
  }

  // ----- tokens

  ghost predicate LaidOut(toks: seq<Token>) {
    forall t :: t in toks && t.Mark? ==> IsLayout(t.c)
  }

  /** The next thing that is not whitespace is a colon. */
  predicate ColonNext(toks: seq<Token>) {
    toks != [] && toks[0].Mark? && if toks[0].c in [' ', '\n'] then ColonNext(toks[1..]) else toks[0].c == ':'
  }

  /** The strings that a colon follows, and the others. */
  function Strung(toks: seq<Token>, named: bool): seq<string> {
    if toks == [] then []
    else
      (if toks[0].Quoted? && ColonNext(toks[1..]) == named then [JsonString(toks[0].text)] else [])
      + Strung(toks[1..], named)
  }

  lemma FirstOfTokens(t: Token, rest: string)
    ensures (Raw(t) + rest)[0] == (if t.Mark? then t.c else '"') && (t.Mark? ==> (Raw(t) + rest)[1..] == rest)
  {
  }

  lemma {:induction false} ColonInText(u: Unicode, toks: seq<Token>)
    requires LaidOut(toks)
    ensures ColonFollows(u, Join(toks)) <==> ColonNext(toks)
  {
    if toks != [] {
      assert toks[0] in toks;
      FirstOfTokens(toks[0], Join(toks[1..]));
      ColonInText(u, toks[1..]);
    }
  }

  lemma TokenColoured(u: Unicode, t: Token, rest: string)
    requires t.Mark? ==> IsLayout(t.c)
    ensures Raw(t) + rest != "" && (Raw(t) + rest)[|Raw(t)|..] == rest
    ensures var p := FirstJson(u, Raw(t) + rest);
      && p.text == Raw(t) && (t.Mark? ==> p.Plain?)
      && (t.Quoted? ==> !p.Plain? && p.kind == if ColonFollows(u, rest) then Key else Str)
  {
    FirstOfTokens(t, rest);
    if t.Quoted? { StopsAtQuote(t.text, rest); }
  }

  lemma {:induction false} TokensColoured(u: Unicode, toks: seq<Token>)
    requires LaidOut(toks)
    ensures var ps := JsonPieces(u, Join(toks));
      && Coloured(ps, Key) == Strung(toks, true) && Coloured(ps, Str) == Strung(toks, false)
      && forall kind :: kind != Key && kind != Str ==> Coloured(ps, kind) == []
  {
    if toks != [] {
      var t, rest := toks[0], Join(toks[1..]);
      assert t in toks;
      TokensColoured(u, toks[1..]);
      ColonInText(u, toks[1..]);
      TokenColoured(u, t, rest);
      var p := FirstJson(u, Raw(t) + rest);
      assert JsonPieces(u, Join(toks)) == [p] + JsonPieces(u, rest);
      assert ([p] + JsonPieces(u, rest))[1..] == JsonPieces(u, rest);
    }
  }

  // ----- documents

  /** The names of a document as they are written, in order. */
  function NamesOf(v: Json): seq<string> {
    match v
    case Text(_) => []
    case List(entries) => NamesIn(entries, false)
    case Object(entries) => NamesIn(entries, true)
  }

  function NamesIn(entries: Entries, named: bool): seq<string> {
    if entries.End? then []
    else (if named then [JsonString(entries.name)] else []) + NamesOf(entries.value) + NamesIn(entries.tail, named)
  }

  /** Its texts. */
  function StringsOf(v: Json): seq<string> {
    match v
    case Text(s) => [JsonString(s)]
    case List(entries) => StringsIn(entries)
    case Object(entries) => StringsIn(entries)
  }

  function StringsIn(entries: Entries): seq<string> {
    if entries.End? then [] else StringsOf(entries.value) + StringsIn(entries.tail)
  }

  /** What `toks` add in front of `after`, where no colon comes first. */
  ghost predicate Adds(toks: seq<Token>, after: seq<Token>, names: seq<string>, strings: seq<string>) {
    Strung(toks + after, true) == names + Strung(after, true) && Strung(toks + after, false) == strings + Strung(after, false)
  }

  lemma OneMark(c: char, after: seq<Token>)
    ensures Adds([Mark(c)], after, [], [])
    ensures ColonNext([Mark(c)] + after) <==> if c in [' ', '\n'] then ColonNext(after) else c == ':'
  {
    assert ([Mark(c)] + after)[1..] == after;
  }

  lemma {:induction false} SomeMarks(s: string, after: seq<Token>)
    ensures Adds(Marks(s), after, [], [])
  {
    if s == "" {
      assert Marks(s) + after == after;
    } else {
      SomeMarks(s[1..], after);
      OneMark(s[0], Marks(s[1..]) + after);
      assert Marks(s) + after == [Mark(s[0])] + (Marks(s[1..]) + after);
    }
  }

  lemma OneQuoted(s: string, after: seq<Token>)
    ensures Adds([Quoted(s)], after, if ColonNext(after) then [JsonString(s)] else [], if ColonNext(after) then [] else [JsonString(s)])
  {
    assert ([Quoted(s)] + after)[1..] == after;
  }

  lemma AddsMore(a: seq<Token>, b: seq<Token>, after: seq<Token>,
                 n: seq<string>, s: seq<string>, n': seq<string>, s': seq<string>)
    requires Adds(a, b + after, n, s) && Adds(b, after, n', s')
    ensures Adds(a + b, after, n + n', s + s')
  {
    assert a + b + after == a + (b + after);
  }

  lemma {:induction false} BlankMarks(s: string, after: seq<Token>)
    requires forall c :: c in s ==> c in [' ', '\n']
    ensures ColonNext(Marks(s) + after) <==> ColonNext(after)
  {
    if s == "" {
      assert Marks(s) + after == after;
    } else {
      BlankMarks(s[1..], after);
      OneMark(s[0], Marks(s[1..]) + after);
      assert Marks(s) + after == [Mark(s[0])] + (Marks(s[1..]) + after);
    }
  }

  lemma {:induction false} ValueAdds(v: Json, depth: nat, after: seq<Token>)
    requires !ColonNext(after)
    ensures Adds(Tokens(v, depth), after, NamesOf(v), StringsOf(v))
    decreases v, 1
  {
    match v
    case Text(s) => OneQuoted(s, after);
    case List(entries) => BracketsAdd('[', entries, false, ']', depth, after);
    case Object(entries) => BracketsAdd('{', entries, true, '}', depth, after);
  }

  lemma {:induction false} BracketsAdd(open: char, entries: Entries, named: bool, close: char, depth: nat, after: seq<Token>)
    requires close in [']', '}']
    ensures Adds([Mark(open)] + Within(entries, named, depth) + [Mark(close)], after, NamesIn(entries, named), StringsIn(entries))
    decreases entries, 1
  {
    var inner, end := Within(entries, named, depth), [Mark(close)] + after;
    OneMark(close, after);
    OneMark(open, inner + end);
    if entries.End? {
      assert inner + end == end;
    } else {
      SpacesOnly(2 * depth);
      SomeMarks(NewLine(depth), end);
      BlankMarks(NewLine(depth), end);
      EntriesAdd(entries, named, depth + 1, Marks(NewLine(depth)) + end);
      AddsMore(EntryTokens(entries, named, depth + 1), Marks(NewLine(depth)), end, NamesIn(entries, named), StringsIn(entries), [], []);
      NothingAdded(NamesIn(entries, named), StringsIn(entries));
    }
    Framed([Mark(open)], inner, [Mark(close)], after, NamesIn(entries, named), StringsIn(entries));
  }

  lemma NothingAdded(n: seq<string>, s: seq<string>)
    ensures n + [] == n && s + [] == s && [] + n == n && [] + s == s
  {
  }

  lemma Framed(open: seq<Token>, inner: seq<Token>, close: seq<Token>, after: seq<Token>, n: seq<string>, s: seq<string>)
    requires Adds(open, inner + (close + after), [], []) && Adds(inner, close + after, n, s) && Adds(close, after, [], [])
    ensures Adds(open + inner + close, after, n, s)
  {
    AddsMore(open, inner, close + after, [], [], n, s);
    AddsMore(open + inner, close, after, [] + n, [] + s, [], []);
    NothingAdded(n, s);
  }

  lemma {:induction false} EntriesAdd(entries: Entries, named: bool, depth: nat, after: seq<Token>)
    requires entries.Entry? && !ColonNext(after)
    ensures Adds(EntryTokens(entries, named, depth), after, NamesIn(entries, named), StringsIn(entries))
    decreases entries, 0
  {
    var Entry(name, value, tail) := entries;
    var more := if tail.End? then [] else [Mark(',')] + EntryTokens(tail, named, depth);
    var lead := if named then [Quoted(name)] + Marks(": ") else [];
    var v := Tokens(value, depth);
    if !tail.End? { EntriesAdd(tail, named, depth, after); }
    TailAdds(tail, named, depth, after);
    ValueAdds(value, depth, more + after);
    LeadAdds(name, named, v + (more + after));
    SomeMarks(NewLine(depth), lead + (v + (more + after)));
    EntryAdds(Marks(NewLine(depth)), lead, v, more, after, if named then [JsonString(name)] else [], NamesOf(value),
      StringsOf(value), NamesIn(tail, named), StringsIn(tail));
  }

  lemma TailAdds(tail: Entries, named: bool, depth: nat, after: seq<Token>)
    requires !ColonNext(after)
    requires tail.Entry? ==> Adds(EntryTokens(tail, named, depth), after, NamesIn(tail, named), StringsIn(tail))
    ensures var more := if tail.End? then [] else [Mark(',')] + EntryTokens(tail, named, depth);
      Adds(more, after, NamesIn(tail, named), StringsIn(tail)) && !ColonNext(more + after)
  {
    if tail.End? {
      assert [] + after == after;
    } else {
      OneMark(',', EntryTokens(tail, named, depth) + after);
      AddsMore([Mark(',')], EntryTokens(tail, named, depth), after, [], [], NamesIn(tail, named), StringsIn(tail));
      NothingAdded(NamesIn(tail, named), StringsIn(tail));
      assert [Mark(',')] + EntryTokens(tail, named, depth) + after == [Mark(',')] + (EntryTokens(tail, named, depth) + after);
    }
  }

  lemma EntryAdds(line: seq<Token>, lead: seq<Token>, v: seq<Token>, more: seq<Token>, after: seq<Token>, n0: seq<string>,
                  n1: seq<string>, s1: seq<string>, n2: seq<string>, s2: seq<string>)
    requires Adds(line, lead + (v + (more + after)), [], []) && Adds(lead, v + (more + after), n0, [])
    requires Adds(v, more + after, n1, s1) && Adds(more, after, n2, s2)
    ensures Adds(line + lead + v + more, after, n0 + n1 + n2, s1 + s2)
  {
    AddsMore(line, lead, v + (more + after), [], [], n0, []);
    NothingAdded(n0, []);
    AddsMore(line + lead, v, more + after, n0, [], n1, s1);
    NothingAdded([], s1);
    AddsMore(line + lead + v, more, after, n0 + n1, s1, n2, s2);
  }

  lemma LeadAdds(name: string, named: bool, after: seq<Token>)
    ensures Adds(if named then [Quoted(name)] + Marks(": ") else [], after, if named then [JsonString(name)] else [], [])
  {
    if named {
      SomeMarks(": ", after);
      OneQuoted(name, Marks(": ") + after);
      AddsMore([Quoted(name)], Marks(": "), after, [JsonString(name)], [], [], []);
      NothingAdded([JsonString(name)], []);
    } else {
      assert [] + after == after;
    }
  }

  /** In every painted document the names are coloured as keys and the texts as strings, and nothing else is coloured. */
  lemma DocumentColoured(u: Unicode, v: Json)
    requires CleanJson(v)
    ensures var ps := JsonPieces(u, Print(v));
      && Coloured(ps, Key) == NamesOf(v) && Coloured(ps, Str) == StringsOf(v)
      && forall kind :: kind != Key && kind != Str ==> Coloured(ps, kind) == []
  {
    PrintsJson(v, 0);
    TokensColoured(u, Tokens(v, 0));
    ValueAdds(v, 0, []);
    assert Tokens(v, 0) + [] == Tokens(v, 0);
  }

  // ----- TOML

  lemma {:induction false} ColouredConcat(a: seq<Piece>, b: seq<Piece>, kind: Kind)
    ensures Coloured(a + b, kind) == Coloured(a, kind) + Coloured(b, kind)
  {
    if a == [] {
      assert a + b == b;
    } else {
      assert (a + b)[1..] == a[1..] + b;
      ColouredConcat(a[1..], b, kind);
    }
  }

  lemma OneColoured(p: Piece, kind: Kind)
    ensures Coloured([p], kind) == if p.Plain? || p.kind != kind then [] else [p.text]
  {
    assert [p][1..] == [];
  }

  lemma {:induction false} ValueColoured(value: string, kind: Kind)
    requires kind != Str
    ensures Coloured(ValuePieces(value), kind) == []
    decreases |value|
  {
    var (start, end) := FirstQuoted(value);
    if start == end {
      OneColoured(Plain(value), kind);
    } else {
      var (a, b) := (Plain(value[..start]), StringPiece(Str, value[start..end]));
      ValueColoured(value[end..], kind);
      OneColoured(a, kind);
      OneColoured(b, kind);
      ColouredConcat([a], [b], kind);
      ColouredConcat([a] + [b], ValuePieces(value[end..]), kind);
    }
  }

  /** The table header of a line: all of it, if a bracket comes first. */
  function TableOf(u: Unicode, line: string): seq<string> {
    if IsHeader(u, line) then [line] else []
  }

  /** The key of any other line: what stands before the first equals sign. */
  function KeyOf(u: Unicode, line: string): seq<string> {
    if !IsHeader(u, line) && '=' in line then [line[..T.IndexOf(line, '=')]] else []
  }

  function OfLine(u: Unicode, line: string, kind: Kind): seq<string> {
    if kind == Table then TableOf(u, line) else KeyOf(u, line)
  }

  lemma KeyColoured(key: string, value: string, kind: Kind)
    requires kind == Table || kind == Key
    ensures Coloured([Painted(Key, key)] + [Plain("=")] + ValuePieces(value), kind) == if kind == Key then [key] else []
  {
    OneColoured(Painted(Key, key), kind);
    OneColoured(Plain("="), kind);
    ValueColoured(value, kind);
    ColouredConcat([Painted(Key, key)], [Plain("=")], kind);
    ColouredConcat([Painted(Key, key)] + [Plain("=")], ValuePieces(value), kind);
  }

  lemma LineColoured(u: Unicode, line: string, kind: Kind)
    requires kind == Table || kind == Key
    ensures Coloured(LinePieces(u, line), kind) == OfLine(u, line, kind)
  {
    if IsHeader(u, line) {
      OneColoured(Painted(Table, line), kind);
    } else if '=' in line {
      KeyColoured(line[..T.IndexOf(line, '=')], line[T.IndexOf(line, '=') + 1..], kind);
    } else {
      OneColoured(Plain(line), kind);
    }
  }

  function OfLines(u: Unicode, lines: seq<string>, kind: Kind): seq<string> {
    if lines == [] then [] else OfLines(u, lines[..|lines| - 1], kind) + OfLine(u, lines[|lines| - 1], kind)
  }

  /** In every TOML text the header lines are coloured as tables, and what stands before the equals signs as keys. */
  lemma {:induction false} TomlColoured(u: Unicode, lines: seq<string>, kind: Kind)
    requires lines != [] && (kind == Table || kind == Key)
    ensures Coloured(LinesPieces(u, lines), kind) == OfLines(u, lines, kind)
  {
    var front, last := lines[..|lines| - 1], lines[|lines| - 1];
    LineColoured(u, last, kind);
    if |lines| > 1 {
      TomlColoured(u, front, kind);
      BreakColoured(LinesPieces(u, front), LinePieces(u, last), kind);
    } else {
      assert front == [] && [] + OfLine(u, last, kind) == OfLine(u, last, kind);
    }
  }

  lemma BreakColoured(a: seq<Piece>, b: seq<Piece>, kind: Kind)
    ensures Coloured(a + [Plain("\n")] + b, kind) == Coloured(a, kind) + Coloured(b, kind)
  {
    OneColoured(Plain("\n"), kind);
    ColouredConcat(a, [Plain("\n")], kind);
    ColouredConcat(a + [Plain("\n")], b, kind);
  }

  /** The tags that the page's style sheet and its copy handler look for. */
  lemma Tags()
    ensures Open(Key) == "<span class=\"k\">" && Open(Str) == "<span class=\"s\">" && Open(Number) == "<span class=\"n\">"
    ensures Open(Table) == "<span class=\"t\">" && Open(Kind.Token) == "<span class=\"tok\">" && CLOSE == "</span>"
  {
    assert "<span class=\"" + "k" + "\">" == "<span class=\"k\">" && "<span class=\"" + "s" + "\">" == "<span class=\"s\">";
    assert "<span class=\"" + "n" + "\">" == "<span class=\"n\">" && "<span class=\"" + "t" + "\">" == "<span class=\"t\">";
    assert "<span class=\"" + "tok" + "\">" == "<span class=\"tok\">";
  }
}
