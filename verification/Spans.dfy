/** How many token spans painted HTML has. */
module Spans {
  import opened Painting
  import T = Text

  /** The positions at which `w` occurs. */
  function Occurrences(s: string, w: string): nat {
    if s == "" then 0 else (if w <= s then 1 else 0) + Occurrences(s[1..], w)
  }

  /** The tag that the page looks for: `<span class="tok">`. */
  const TOKEN_TAG: string := Open(Token)

  /** Nothing starts inside text without an opening bracket. */
  lemma {:induction false} NoneInside(x: string, rest: string, w: string)
    requires w != "" && w[0] !in x
    ensures Occurrences(x + rest, w) == Occurrences(rest, w)
  {
    if x == "" {
      assert x + rest == rest;
    } else {
      assert x[0] in x && (x + rest)[0] == x[0] && (x + rest)[1..] == x[1..] + rest;
      NoneInside(x[1..], rest, w);
    }
  }

  /** After its opening bracket a tag is text like that. */
  lemma TagAtStart(x: string, rest: string, w: string)
    requires x != "" && w != "" && w[0] !in x[1..]
    ensures Occurrences(x + rest, w) == (if w <= x + rest then 1 else 0) + Occurrences(rest, w)
  {
    assert (x + rest)[1..] == x[1..] + rest;
    NoneInside(x[1..], rest, w);
  }

  lemma {:induction false} EscapedHasNone(text: string)
    ensures '<' !in Escape(text)
  {
    if text != "" {
      EscapedHasNone(text[1..]);
    }
  }

  lemma OpenTail(kind: Kind)
    ensures Open(kind) != "" && '<' !in Open(kind)[1..] && TOKEN_TAG[0] == '<'
  {
  }

  /** The class tells the tags apart by its first letter, or by its second. */
  lemma OpenDiffers(kind: Kind)
    requires kind != Token
    ensures var i := if kind == Table then 14 else 13;
      i < |Open(kind)| && i < |TOKEN_TAG| && Open(kind)[i] != TOKEN_TAG[i]
  {
    var quoted := ClassName(kind) + "\">";
    assert Open(kind) == "<span class=\"" + quoted;
    assert TOKEN_TAG == "<span class=\"" + "tok\">";
    assert Open(kind)[13] == quoted[0] && Open(kind)[14] == quoted[1];
    assert TOKEN_TAG[13] == 't' && TOKEN_TAG[14] == 'o';
  }

  lemma OpenIsToken(kind: Kind, rest: string)
    ensures TOKEN_TAG <= Open(kind) + rest <==> kind == Token
  {
    var s := Open(kind) + rest;
    if kind == Token {
      assert s[..|TOKEN_TAG|] == TOKEN_TAG;
    } else {
      OpenDiffers(kind);
      DifferAt(TOKEN_TAG, s, if kind == Table then 14 else 13);
    }
  }

  lemma DifferAt(w: string, s: string, i: nat)
    requires i < |w| && i < |s| && w[i] != s[i]
    ensures !(w <= s)
  {
  }

  lemma SpanHas(kind: Kind, text: string, rest: string)
    ensures Occurrences(Span(kind, text) + rest, TOKEN_TAG) == (if kind == Token then 1 else 0) + Occurrences(rest, TOKEN_TAG)
  {
    var inner := Escape(text) + (CLOSE + rest);
    ThreeParts(Open(kind), Escape(text), CLOSE, rest);
    OpenTail(kind);
    OpenIsToken(kind, inner);
    TagAtStart(Open(kind), inner, TOKEN_TAG);
    EscapedHasNone(text);
    NoneInside(Escape(text), CLOSE + rest, TOKEN_TAG);
    CloseHasNone(rest);
  }

  lemma ThreeParts(a: string, b: string, c: string, rest: string)
    ensures a + b + c + rest == a + (b + (c + rest))
  {
  }

  lemma CloseHasNone(rest: string)
    ensures Occurrences(CLOSE + rest, TOKEN_TAG) == Occurrences(rest, TOKEN_TAG)
  {
    DifferAt(TOKEN_TAG, CLOSE + rest, 1);
    TagAtStart(CLOSE, rest, TOKEN_TAG);
  }

  /** No scanner paints a piece of its own as a token. */
  predicate Scanned(p: Piece) {
    p.Plain? || p.kind != Token
  }

  lemma RenderHas(p: Piece, mask: string, rest: string)
    requires Scanned(p)
    ensures Occurrences(Render(p, mask) + rest, TOKEN_TAG) == (if p.Secret? then 1 else 0) + Occurrences(rest, TOKEN_TAG)
  {
    match p
    case Plain(text) =>
      EscapedHasNone(text);
      NoneInside(Escape(text), rest, TOKEN_TAG);
    case Painted(kind, text) => SpanHas(kind, text, rest);
    case Secret(kind, _) =>
      var quote, tok := Span(kind, "\""), Span(Token, mask);
      FourParts(quote, tok, rest);
      SpanHas(kind, "\"", tok + (quote + rest));
      SpanHas(Token, mask, quote + rest);
      SpanHas(kind, "\"", rest);
  }

  lemma FourParts(quote: string, tok: string, rest: string)
    ensures quote + tok + quote + rest == quote + (tok + (quote + rest))
  {
  }

  lemma {:induction false} RenderAllHas(ps: seq<Piece>, mask: string, rest: string)
    requires forall p :: p in ps ==> Scanned(p)
    ensures Occurrences(RenderAll(ps, mask) + rest, TOKEN_TAG) == Secrets(ps) + Occurrences(rest, TOKEN_TAG)
  {
    if ps == [] {
      assert RenderAll(ps, mask) + rest == rest;
    } else {
      var front, last := ps[..|ps| - 1], ps[|ps| - 1];
      assert last in ps;
      T.Associate(RenderAll(front, mask), Render(last, mask), rest);
      RenderAllHas(front, mask, Render(last, mask) + rest);
      RenderHas(last, mask, rest);
    }
  }

  /** The HTML has exactly one token span per secret, whatever the text and the mask contain. */
  lemma SpansAreSecrets(ps: seq<Piece>, mask: string)
    requires forall p :: p in ps ==> Scanned(p)
    ensures Occurrences(RenderAll(ps, mask), TOKEN_TAG) == Secrets(ps)
  {
    RenderAllHas(ps, mask, "");
    assert RenderAll(ps, mask) + "" == RenderAll(ps, mask);
  }
}
