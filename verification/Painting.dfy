/** HTML text, and the painter that the highlighters write to. */
module Painting {
  import T = Text

  /** Stands for the secret while a snippet is built. */
  const SENTINEL: string := "__GRAFANA_MCP_TOKEN__"

  // ----- escaping, and how a reader gets the text back

  /** `template.HTMLEscape`, character by character. */
  function EscapeChar(c: char): string {
    if c == '"' then "&#34;"
    else if c == '\'' then "&#39;"
    else if c == '&' then "&amp;"
    else if c == '<' then "&lt;"
    else if c == '>' then "&gt;"
    else if c == '\0' then "\U{FFFD}"
    else [c]
  }

  function Escape(text: string): string {
    if text == "" then "" else EscapeChar(text[0]) + Escape(text[1..])
  }

  /** Text outside tags, starting inside `depth` open angle brackets. */
  function StripTags(s: string, depth: int): string {
    if s == "" then ""
    else if s[0] == '<' then StripTags(s[1..], depth + 1)
    else if s[0] == '>' then StripTags(s[1..], depth - 1)
    else (if depth == 0 then [s[0]] else "") + StripTags(s[1..], depth)
  }

  function Depth(s: string, depth: int): int {
    if s == "" then depth
    else Depth(s[1..], if s[0] == '<' then depth + 1 else if s[0] == '>' then depth - 1 else depth)
  }

  function Unescape(s: string): string {
    if s == "" then ""
    else if "&#34;" <= s then "\"" + Unescape(s[5..])
    else if "&amp;" <= s then "&" + Unescape(s[5..])
    else if "&lt;" <= s then "<" + Unescape(s[4..])
    else if "&gt;" <= s then ">" + Unescape(s[4..])
    else if "&#39;" <= s then "'" + Unescape(s[5..])
    else [s[0]] + Unescape(s[1..])
  }

  /** What a reader copies from painted HTML. */
  function Visible(html: string): string {
    Unescape(StripTags(html, 0))
  }

  lemma {:induction false} StripConcat(a: string, b: string, depth: int)
    ensures StripTags(a + b, depth) == StripTags(a, depth) + StripTags(b, Depth(a, depth))
    ensures Depth(a + b, depth) == Depth(b, Depth(a, depth))
  {
    if a == "" {
      assert a + b == b;
    } else {
      assert (a + b)[0] == a[0] && (a + b)[1..] == a[1..] + b;
      StripConcat(a[1..], b, if a[0] == '<' then depth + 1 else if a[0] == '>' then depth - 1 else depth);
    }
  }

  lemma {:induction false} EscapeConcat(a: string, b: string)
    ensures Escape(a + b) == Escape(a) + Escape(b)
  {
    if a == "" {
      assert a + b == b;
    } else {
      assert (a + b)[0] == a[0] && (a + b)[1..] == a[1..] + b;
      EscapeConcat(a[1..], b);
    }
  }

  lemma {:induction false} NoTagsStrip(s: string)
    requires '<' !in s && '>' !in s
    ensures StripTags(s, 0) == s && Depth(s, 0) == 0
  {
    if s != "" {
      assert s[0] in s && s == [s[0]] + s[1..];
      NoTagsStrip(s[1..]);
    }
  }

  lemma {:induction false} EscapedStrips(text: string)
    ensures StripTags(Escape(text), 0) == Escape(text) && Depth(Escape(text), 0) == 0
  {
    if text != "" {
      EscapedStrips(text[1..]);
      NoTagsStrip(EscapeChar(text[0]));
      StripConcat(EscapeChar(text[0]), Escape(text[1..]), 0);
    }
  }

  lemma {:induction false} UnescapeEscape(text: string)
    requires '\0' !in text
    ensures Unescape(Escape(text)) == text
  {
    if text != "" {
      var c, rest := text[0], Escape(text[1..]);
      assert c in text && text == [c] + text[1..];
      UnescapeEscape(text[1..]);
      UnescapeChar(c, rest);
    }
  }

  lemma UnescapeChar(c: char, rest: string)
    requires c != '\0'
    ensures Unescape(EscapeChar(c) + rest) == [c] + Unescape(rest)
  {
    var s := EscapeChar(c) + rest;
    if c in "\"'&<>" {
      assert s[|EscapeChar(c)|..] == rest;
      assert s[0] == '&';
      assert s[1] == EscapeChar(c)[1] && s[2] == EscapeChar(c)[2] && s[3] == EscapeChar(c)[3];
    } else {
      assert s[0] == c && s[1..] == rest;
    }
  }

  // ----- pieces

  /** A stretch of the source and how it is shown; a secret is a quoted string that holds the sentinel. */
  datatype Piece =
    | Plain(text: string)
    | Painted(kind: Kind, text: string)
    | Secret(kind: Kind, text: string)

  datatype Kind = Key | Str | Number | Table | Token

  /** The class of the span. */
  function ClassName(kind: Kind): string {
    match kind
    case Key => "k"
    case Str => "s"
    case Number => "n"
    case Table => "t"
    case Token => "tok"
  }

  function Open(kind: Kind): string {
    "<span class=\"" + ClassName(kind) + "\">"
  }

  const CLOSE: string := "</span>"

  function Span(kind: Kind, text: string): string {
    Open(kind) + Escape(text) + CLOSE
  }

  function Render(p: Piece, mask: string): string {
    match p
    case Plain(text) => Escape(text)
    case Painted(kind, text) => Span(kind, text)
    case Secret(kind, _) => Span(kind, "\"") + Span(Token, mask) + Span(kind, "\"")
  }

  function Shown(p: Piece, mask: string): string {
    if p.Secret? then "\"" + mask + "\"" else p.text
  }

  function RenderAll(ps: seq<Piece>, mask: string): string {
    if ps == [] then "" else RenderAll(ps[..|ps| - 1], mask) + Render(ps[|ps| - 1], mask)
  }

  function ShownAll(ps: seq<Piece>, mask: string): string {
    if ps == [] then "" else ShownAll(ps[..|ps| - 1], mask) + Shown(ps[|ps| - 1], mask)
  }

  function TextOf(ps: seq<Piece>): string {
    if ps == [] then "" else TextOf(ps[..|ps| - 1]) + ps[|ps| - 1].text
  }

  function Secrets(ps: seq<Piece>): nat {
    if ps == [] then 0 else Secrets(ps[..|ps| - 1]) + if ps[|ps| - 1].Secret? then 1 else 0
  }

  lemma LastOfConcat(a: seq<Piece>, b: seq<Piece>)
    ensures b == [] ==> a + b == a
    ensures b != [] ==> (a + b)[..|a + b| - 1] == a + b[..|b| - 1] && (a + b)[|a + b| - 1] == b[|b| - 1]
  {
  }

  lemma {:induction false} ShownConcat(a: seq<Piece>, b: seq<Piece>, mask: string)
    ensures ShownAll(a + b, mask) == ShownAll(a, mask) + ShownAll(b, mask)
    decreases |b|
  {
    LastOfConcat(a, b);
    if b == [] {
      T.Associate(ShownAll(a, mask), "", "");
    } else {
      var front, last := b[..|b| - 1], b[|b| - 1];
      ShownConcat(a, front, mask);
      T.Associate(ShownAll(a, mask), ShownAll(front, mask), Shown(last, mask));
    }
  }

  lemma {:induction false} TextConcat(a: seq<Piece>, b: seq<Piece>)
    ensures TextOf(a + b) == TextOf(a) + TextOf(b)
    decreases |b|
  {
    LastOfConcat(a, b);
    if b == [] {
      T.Associate(TextOf(a), "", "");
    } else {
      var front, last := b[..|b| - 1], b[|b| - 1];
      TextConcat(a, front);
      T.Associate(TextOf(a), TextOf(front), last.text);
    }
  }

  lemma {:induction false} SecretsConcat(a: seq<Piece>, b: seq<Piece>)
    ensures Secrets(a + b) == Secrets(a) + Secrets(b)
    decreases |b|
  {
    LastOfConcat(a, b);
    if b != [] {
      SecretsConcat(a, b[..|b| - 1]);
    }
  }

  lemma SpanStrips(kind: Kind, text: string)
    ensures StripTags(Span(kind, text), 0) == Escape(text) && Depth(Span(kind, text), 0) == 0
  {
    OpenStrips(kind);
    EscapedStrips(text);
    InsideTag("/span");
    assert CLOSE == "<" + "/span" + ">";
    StripConcat(Open(kind), Escape(text), 0);
    StripConcat(Open(kind) + Escape(text), CLOSE, 0);
  }

  lemma ClassIsName(kind: Kind)
    ensures '<' !in ClassName(kind) && '>' !in ClassName(kind)
  {
  }

  lemma TagOfClass(class_: string)
    requires '<' !in class_ && '>' !in class_
    ensures var inner := "span class=\"" + class_ + "\"";
      '<' !in inner && '>' !in inner && "<span class=\"" + class_ + "\">" == "<" + inner + ">"
  {
  }

  lemma OpenStrips(kind: Kind)
    ensures StripTags(Open(kind), 0) == "" && Depth(Open(kind), 0) == 0
  {
    ClassIsName(kind);
    TagOfClass(ClassName(kind));
    InsideTag("span class=\"" + ClassName(kind) + "\"");
  }

  lemma {:induction false} InsideBrackets(s: string)
    requires '<' !in s && '>' !in s
    ensures StripTags(s, 1) == "" && Depth(s, 1) == 1
  {
    if s != "" {
      assert s[0] in s;
      InsideBrackets(s[1..]);
    }
  }

  lemma InsideTag(s: string)
    requires '<' !in s && '>' !in s
    ensures StripTags("<" + s + ">", 0) == "" && Depth("<" + s + ">", 0) == 0
  {
    InsideBrackets(s);
    assert ("<" + s + ">")[1..] == s + ">";
    StripConcat(s, ">", 1);
    assert StripTags(">", 1) == "" && Depth(">", 1) == 0;
  }

  lemma RenderStrips(p: Piece, mask: string)
    ensures StripTags(Render(p, mask), 0) == Escape(Shown(p, mask)) && Depth(Render(p, mask), 0) == 0
  {
    match p
    case Plain(text) => EscapedStrips(text);
    case Painted(kind, text) => SpanStrips(kind, text);
    case Secret(kind, _) =>
      var quote, tok := Span(kind, "\""), Span(Token, mask);
      SpanStrips(kind, "\"");
      SpanStrips(Token, mask);
      StripConcat(quote, tok, 0);
      StripConcat(quote + tok, quote, 0);
      EscapeConcat("\"", mask);
      EscapeConcat("\"" + mask, "\"");
  }

  lemma {:induction false} RenderAllStrips(ps: seq<Piece>, mask: string)
    ensures StripTags(RenderAll(ps, mask), 0) == Escape(ShownAll(ps, mask)) && Depth(RenderAll(ps, mask), 0) == 0
  {
    if ps != [] {
      var front, last := ps[..|ps| - 1], ps[|ps| - 1];
      assert last in ps;
      RenderAllStrips(front, mask);
      RenderStrips(last, mask);
      StripConcat(RenderAll(front, mask), Render(last, mask), 0);
      EscapeConcat(ShownAll(front, mask), Shown(last, mask));
    }
  }

  /** Painting hides nothing and adds nothing: what is visible is what the pieces show. */
  lemma PaintedVisible(ps: seq<Piece>, mask: string)
    requires '\0' !in ShownAll(ps, mask)
    ensures Visible(RenderAll(ps, mask)) == ShownAll(ps, mask)
  {
    RenderAllStrips(ps, mask);
    UnescapeEscape(ShownAll(ps, mask));
  }

  /** `strings.Contains`. */
  predicate Contains(s: string, w: string) {
    w <= s || (s != "" && Contains(s[1..], w))
  }

  function StringPiece(kind: Kind, quoted: string): Piece {
    if Contains(quoted, SENTINEL) then Secret(kind, quoted) else Painted(kind, quoted)
  }

  /** The buffer and the mask; `pieces` is what was written so far. */
  class Painter {
    const mask: string
    var b: string
    ghost var pieces: seq<Piece>

    constructor (mask: string)
      ensures Valid() && this.mask == mask && pieces == []
    {
      this.mask := mask;
      b := "";
      pieces := [];
    }

    ghost predicate Valid()
      reads this
    {
      forall m :: m == mask ==> b == RenderAll(pieces, m)
    }

    method Write(kind: Kind, text: string)
      modifies this`b
      ensures b == old(b) + Span(kind, text)
    {
      b := b + Open(kind);
      b := b + Escape(text);
      b := b + CLOSE;
    }

    method PaintSpan(kind: Kind, text: string)
      requires Valid()
      modifies this
      ensures Valid() && pieces == old(pieces) + [Painted(kind, text)]
    {
      ghost var before := b;
      Write(kind, text);
      Record(Painted(kind, text), before);
    }

    method PaintPlain(text: string)
      requires Valid()
      modifies this
      ensures Valid() && pieces == old(pieces) + [Plain(text)]
    {
      ghost var before := b;
      b := b + Escape(text);
      Record(Plain(text), before);
    }

    ghost method Record(piece: Piece, before: string)
      requires before == RenderAll(pieces, mask) && b == before + Render(piece, mask)
      modifies this`pieces
      ensures Valid() && pieces == old(pieces) + [piece]
    {
      pieces := pieces + [piece];
    }

    method PaintSecret(kind: Kind, ghost quoted: string)
      requires Valid()
      modifies this
      ensures Valid() && pieces == old(pieces) + [Secret(kind, quoted)]
    {
      ghost var before := b;
      Write(kind, "\"");
      Write(Token, mask);
      Write(kind, "\"");
      Regroup(before, Span(kind, "\""), Span(Token, mask));
      Record(Secret(kind, quoted), before);
    }

    /** A quoted string, or the masked placeholder when it holds the sentinel. */
    method PaintString(kind: Kind, quoted: string)
      requires Valid()
      modifies this
      ensures Valid() && pieces == old(pieces) + [StringPiece(kind, quoted)]
    {
      if Contains(quoted, SENTINEL) {
        PaintSecret(kind, quoted);
      } else {
        PaintSpan(kind, quoted);
      }
    }
  }

  lemma Regroup(a: string, x: string, y: string)
    ensures a + x + y + x == a + (x + y + x)
  {
  }
}
