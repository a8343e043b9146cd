/** The hand-written JSON and TOML scanners. */
module Highlight {
  import opened Painting
  import opened Spans
  import T = Text

  /** What Go's unicode package says about characters beyond ASCII. */
  datatype Unicode = Unicode(digit: char -> bool, space: char -> bool)

  predicate IsDigit(u: Unicode, c: char) {
    if c < 128 as char then '0' <= c <= '9' else u.digit(c)
  }

  predicate IsSpace(u: Unicode, c: char) {
    if c < 128 as char then c in [' ', '\t', '\n', '\r', 11 as char, 12 as char] else u.space(c)
  }

  // ----- JSON

  /** How far a string reaches after its opening quote: past the first quote that no backslash escapes, or to the end. */
  function StringRest(s: string): (n: nat)
    ensures n <= |s|
  {
    if s == "" then 0
    else if s[0] == '"' then 1
    else if s[0] == '\\' then (if |s| == 1 then 1 else 2 + StringRest(s[2..]))
    else 1 + StringRest(s[1..])
  }

  function StringLength(s: string): (n: nat)
    requires s != ""
    ensures 0 < n <= |s|
  {
    1 + StringRest(s[1..])
  }

  /** Whether the next thing that is not a space is a colon. */
  predicate ColonFollows(u: Unicode, s: string) {
    s != "" && if IsSpace(u, s[0]) then ColonFollows(u, s[1..]) else s[0] == ':'
  }

  /** The first character that is not a space is this one. */
  ghost predicate Leads(u: Unicode, s: string, c: char) {
    exists k :: 0 <= k < |s| && s[k] == c && !IsSpace(u, c) && forall j :: 0 <= j < k ==> IsSpace(u, s[j])
  }

  lemma LeadsBehind(u: Unicode, s: string, c: char)
    requires s != ""
    ensures Leads(u, s, c) <==> if IsSpace(u, s[0]) then Leads(u, s[1..], c) else s[0] == c
  {
    if Leads(u, s, c) && IsSpace(u, s[0]) {
      var k :| 0 <= k < |s| && s[k] == c && !IsSpace(u, c) && forall j :: 0 <= j < k ==> IsSpace(u, s[j]);
      assert s[1..][k - 1] == c;
    }
    if Leads(u, s[1..], c) && IsSpace(u, s[0]) {
      var k :| 0 <= k < |s| - 1 && s[1..][k] == c && !IsSpace(u, c) && forall j :: 0 <= j < k ==> IsSpace(u, s[1..][j]);
      assert s[k + 1] == c;
      assert forall j :: 0 < j < k + 1 ==> s[j] == s[1..][j - 1];
    }
  }

  /** A string is a key exactly when a colon is the first thing after it that is not a space. */
  lemma {:induction false} ColonLeads(u: Unicode, s: string)
    ensures ColonFollows(u, s) <==> Leads(u, s, ':')
  {
    if s != "" {
      LeadsBehind(u, s, ':');
      ColonLeads(u, s[1..]);
    }
  }

  /** A number is the longest run of digits and dots. */
  lemma {:induction false} NumberRun(u: Unicode, s: string)
    ensures var n := NumberRest(u, s);
      && (forall k :: 0 <= k < n ==> IsDigit(u, s[k]) || s[k] == '.')
      && (n < |s| ==> !IsDigit(u, s[n]) && s[n] != '.')
  {
    if s != "" { NumberRun(u, s[1..]); }
  }

  function NumberRest(u: Unicode, s: string): (n: nat)
    ensures n <= |s|
  {
    if s != "" && (IsDigit(u, s[0]) || s[0] == '.') then 1 + NumberRest(u, s[1..]) else 0
  }

  /** A string, a number, or else a single character. */
  function FirstJson(u: Unicode, s: string): (p: Piece)
    requires s != ""
    ensures 0 < |p.text| <= |s| && p.text == s[..|p.text|]
    ensures Discreet(p)
  {
    if s[0] == '"' then
      StringPiece(if ColonFollows(u, s[StringLength(s)..]) then Key else Str, s[..StringLength(s)])
    else if IsDigit(u, s[0]) then Painted(Number, s[..1 + NumberRest(u, s[1..])])
    else Plain(s[..1])
  }

  function JsonPieces(u: Unicode, s: string): seq<Piece> {
    if s == "" then []
    else
      var p := FirstJson(u, s);
      [p] + JsonPieces(u, s[|p.text|..])
  }

  lemma {:induction false} JsonPiecesCover(u: Unicode, s: string)
    ensures TextOf(JsonPieces(u, s)) == s
    ensures WellPainted(JsonPieces(u, s))
  {
    if s != "" {
      var p := FirstJson(u, s);
      var rest := s[|p.text|..];
      JsonPiecesCover(u, rest);
      TextConcat([p], JsonPieces(u, rest));
      OnePiece(p);
      assert s == p.text + rest;
    }
  }

  /** What is shown as a secret holds the sentinel; what is shown as a string value does not. */
  ghost predicate WellPainted(ps: seq<Piece>) {
    forall p :: p in ps ==> Discreet(p)
  }

  predicate Discreet(p: Piece) {
    && (p.Secret? ==> Contains(p.text, SENTINEL)) && (p.Painted? && p.kind == Str ==> !Contains(p.text, SENTINEL))
    && Scanned(p)
  }

  lemma WellPaintedConcat(a: seq<Piece>, b: seq<Piece>)
    requires WellPainted(a) && WellPainted(b)
    ensures WellPainted(a + b)
  {
  }

  lemma OnePiece(p: Piece)
    ensures TextOf([p]) == p.text && Secrets([p]) == if p.Secret? then 1 else 0
    ensures forall mask :: ShownAll([p], mask) == Shown(p, mask)
  {
    assert [p][..0] == [];
  }

  /** The loop from the opening quote to the closing one. */
  method FindClose(src: string, i: nat) returns (j: nat)
    requires i < |src| && src[i] == '"'
    ensures i <= j < |src| && j + 1 == i + StringLength(src[i..])
  {
    j := i + 1;
    while j < |src| && src[j] != '"'
      invariant i < j <= |src| + 1
      invariant j <= |src| ==> i + StringLength(src[i..]) == j + StringRest(src[j..])
      invariant j == |src| + 1 ==> i + StringLength(src[i..]) == |src|
      decreases |src| - j
    {
      assert src[j..][1..] == src[j + 1..];
      if src[j] == '\\' {
        if j + 1 < |src| { assert src[j..][2..] == src[j + 2..]; }
        j := j + 1;
      }
      j := j + 1;
    }
    if j >= |src| {
      j := |src| - 1;
    }
  }

  /** The loop that looks for a colon after a string. */
  method ClassAfter(u: Unicode, src: string, j: nat) returns (kind: Kind)
    requires j < |src|
    ensures kind == if ColonFollows(u, src[j + 1..]) then Key else Str
  {
    kind := Str;
    var k := j + 1;
    while k < |src|
      invariant j < k <= |src| && kind == Str
      invariant ColonFollows(u, src[j + 1..]) == ColonFollows(u, src[k..])
    {
      assert src[k..][1..] == src[k + 1..];
      if IsSpace(u, src[k]) {
        k := k + 1;
        continue;
      }
      if src[k] == ':' {
        kind := Key;
      }
      break;
    }
  }

  method HighlightJson(u: Unicode, src: string, mask: string) returns (html: string)
    ensures html == RenderAll(JsonPieces(u, src), mask)
  {
    var p := new Painter(mask);
    var i := 0;
    while i < |src|
      invariant 0 <= i <= |src| && p.Valid() && fresh(p) && p.mask == mask
      invariant p.pieces + JsonPieces(u, src[i..]) == JsonPieces(u, src)
    {
      ghost var done, first := p.pieces, FirstJson(u, src[i..]);
      i := PaintNext(u, p, src, i);
      i := i + 1;
      Slices(src, i - |first.text|, i);
      NextPiece(done, first, JsonPieces(u, src[i..]));
    }
    EmptyLeft(p.pieces);
    html := p.b;
  }

  /** One round of the loop; the result is the last character it painted. */
  method PaintNext(u: Unicode, p: Painter, src: string, i: nat) returns (last: nat)
    requires i < |src| && p.Valid()
    modifies p
    ensures p.Valid() && p.pieces == old(p.pieces) + [FirstJson(u, src[i..])]
    ensures last + 1 == i + |FirstJson(u, src[i..]).text|
  {
    var c := src[i];
    if c == '"' {
      var j := FindClose(src, i);
      var kind := ClassAfter(u, src, j);
      Slices(src, i, j + 1);
      p.PaintString(kind, src[i..j + 1]);
      return j;
    } else if IsDigit(u, c) {
      var j := FindNumberEnd(u, src, i);
      Slices(src, i, j);
      Slices(src, i, i + 1);
      p.PaintSpan(Number, src[i..j]);
      return j - 1;
    } else {
      Slices(src, i, i + 1);
      p.PaintPlain([c]);
      return i;
    }
  }

  lemma Slices(s: string, i: nat, j: nat)
    requires i <= j <= |s|
    ensures s[i..][..j - i] == s[i..j] && s[i..][j - i..] == s[j..]
    ensures j == i + 1 ==> s[i..j] == [s[i]]
  {
  }

  lemma NextPiece(done: seq<Piece>, piece: Piece, left: seq<Piece>)
    ensures done + ([piece] + left) == done + [piece] + left
  {
  }

  method FindNumberEnd(u: Unicode, src: string, i: nat) returns (j: nat)
    requires i < |src| && IsDigit(u, src[i])
    ensures i < j <= |src| && j == i + 1 + NumberRest(u, src[i + 1..])
  {
    assert src[i..][1..] == src[i + 1..];
    j := i;
    while j < |src| && (IsDigit(u, src[j]) || src[j] == '.')
      invariant i <= j <= |src|
      invariant j + NumberRest(u, src[j..]) == i + NumberRest(u, src[i..])
    {
      assert src[j..][1..] == src[j + 1..];
      j := j + 1;
    }
  }

  // ----- TOML

  /** The first character that is not a space opens a bracket. */
  predicate IsHeader(u: Unicode, line: string) {
    line != "" && if IsSpace(u, line[0]) then IsHeader(u, line[1..]) else line[0] == '['
  }

  lemma {:induction false} HeaderLeads(u: Unicode, line: string)
    ensures IsHeader(u, line) <==> Leads(u, line, '[')
  {
    if line != "" {
      LeadsBehind(u, line, '[');
      HeaderLeads(u, line[1..]);
    }
  }

  /** Where the first quote is, and where the string up to the very next quote ends; both are the length if there is none. */
  function FirstQuoted(value: string): (r: (nat, nat))
    ensures r.0 <= r.1 <= |value| && (r.0 == r.1 ==> r.0 == |value|)
  {
    if '"' !in value then (|value|, |value|)
    else
      var start := T.IndexOf(value, '"');
      if '"' !in value[start + 1..] then (|value|, |value|)
      else (start, T.IndexOf(value[start + 1..], '"') + start + 2)
  }

  /** A quoted part goes from the first quote to the next one; there is none exactly when there are fewer than two quotes. */
  lemma QuotedEnds(value: string)
    ensures var (start, end) := FirstQuoted(value);
      if start < end then
        && start + 1 < end && value[start] == '"' && value[end - 1] == '"'
        && '"' !in value[..start] && '"' !in value[start + 1..end - 1]
      else forall i, j :: 0 <= i < j < |value| ==> value[i] != '"' || value[j] != '"'
  {
    var (start, end) := FirstQuoted(value);
    if start < end {
      var rest := value[start + 1..];
      assert rest[..T.IndexOf(rest, '"')] == value[start + 1..end - 1];
    } else if '"' in value {
      var first := T.IndexOf(value, '"');
      forall i, j | 0 <= i < j < |value|
        ensures value[i] != '"' || value[j] != '"'
      {
        if i < first { assert value[i] == value[..first][i]; } else { assert value[j] == value[first + 1..][j - first - 1]; }
      }
    }
  }

  /** Quoted parts, and the rest. */
  function ValuePieces(value: string): seq<Piece> {
    var (start, end) := FirstQuoted(value);
    if start == end then [Plain(value)]
    else [Plain(value[..start])] + [StringPiece(Str, value[start..end])] + ValuePieces(value[end..])
  }

  function LinePieces(u: Unicode, line: string): seq<Piece> {
    if IsHeader(u, line) then [Painted(Table, line)]
    else if '=' in line then
      var i := T.IndexOf(line, '=');
      [Painted(Key, line[..i])] + [Plain("=")] + ValuePieces(line[i + 1..])
    else [Plain(line)]
  }

  function LinesPieces(u: Unicode, lines: seq<string>): seq<Piece>
    requires lines != []
  {
    var last := LinePieces(u, lines[|lines| - 1]);
    if |lines| == 1 then last else LinesPieces(u, lines[..|lines| - 1]) + [Plain("\n")] + last
  }

  function TomlPieces(u: Unicode, src: string): seq<Piece> {
    LinesPieces(u, T.Split(src, '\n'))
  }

  method NextQuoted(value: string) returns (start: nat, end: nat)
    ensures (start, end) == FirstQuoted(value)
  {
    start, end := |value|, |value|;
    if '"' in value {
      var open := T.IndexOf(value, '"');
      if '"' in value[open + 1..] {
        var close := T.IndexOf(value[open + 1..], '"');
        start, end := open, close + open + 2;
      }
    }
  }

  method PlainOrStrings(p: Painter, value0: string)
    requires p.Valid()
    modifies p
    ensures p.Valid() && p.pieces == old(p.pieces) + ValuePieces(value0)
  {
    var value := value0;
    ghost var all := p.pieces + ValuePieces(value0);
    var start, end := NextQuoted(value);
    while start < end
      invariant p.Valid() && all == p.pieces + ValuePieces(value) && (start, end) == FirstQuoted(value)
      decreases |value|
    {
      PaintQuoted(p, value, start, end);
      value := value[end..];
      start, end := NextQuoted(value);
    }
    p.PaintPlain(value);
  }

  /** One round of the loop. */
  method PaintQuoted(p: Painter, value: string, start: nat, end: nat)
    requires p.Valid() && start < end && FirstQuoted(value) == (start, end)
    modifies p
    ensures p.Valid() && p.pieces + ValuePieces(value[end..]) == old(p.pieces) + ValuePieces(value)
  {
    p.PaintPlain(value[..start]);
    p.PaintString(Str, value[start..end]);
    NextPieces(old(p.pieces), Plain(value[..start]), StringPiece(Str, value[start..end]), ValuePieces(value[end..]));
  }

  lemma NextPieces(done: seq<Piece>, a: Piece, b: Piece, left: seq<Piece>)
    ensures done + ([a] + [b] + left) == done + [a] + [b] + left
  {
  }

  method PaintLine(u: Unicode, p: Painter, line: string)
    requires p.Valid()
    modifies p
    ensures p.Valid() && p.pieces == old(p.pieces) + LinePieces(u, line)
  {
    if IsHeader(u, line) {
      p.PaintSpan(Table, line);
    } else if '=' in line {
      var cut := T.IndexOf(line, '=');
      p.PaintSpan(Key, line[..cut]);
      p.PaintPlain("=");
      PlainOrStrings(p, line[cut + 1..]);
      NextPieces(old(p.pieces), Painted(Key, line[..cut]), Plain("="), ValuePieces(line[cut + 1..]));
    } else {
      p.PaintPlain(line);
    }
  }

  method HighlightToml(u: Unicode, src: string, mask: string) returns (html: string)
    ensures html == RenderAll(TomlPieces(u, src), mask)
  {
    var p := new Painter(mask);
    var lines := T.Split(src, '\n');
    for i := 0 to |lines|
      invariant p.Valid() && fresh(p) && p.mask == mask
      invariant p.pieces == if i == 0 then [] else LinesPieces(u, lines[..i])
    {
      if i > 0 {
        p.PaintPlain("\n");
      }
      PaintLine(u, p, lines[i]);
      NextLine(u, lines, i);
    }
    assert lines[..|lines|] == lines;
    html := p.b;
  }

  lemma NextLine(u: Unicode, lines: seq<string>, i: nat)
    requires i < |lines|
    ensures i == 0 ==> LinesPieces(u, lines[..1]) == [] + LinePieces(u, lines[0])
    ensures i > 0 ==>
      LinesPieces(u, lines[..i + 1]) == LinesPieces(u, lines[..i]) + [Plain("\n")] + LinePieces(u, lines[i])
  {
    FirstLines(lines, i);
    if i == 0 {
      EmptyLeft(LinePieces(u, lines[0]));
    } else {
      LastLine(u, lines[..i], lines[i], lines[..i + 1]);
    }
  }

  lemma LastLine(u: Unicode, front: seq<string>, line: string, lines: seq<string>)
    requires front != [] && |lines| == |front| + 1 && lines[..|front|] == front && lines[|front|] == line
    ensures LinesPieces(u, lines) == LinesPieces(u, front) + [Plain("\n")] + LinePieces(u, line)
  {
  }

  lemma FirstLines(lines: seq<string>, i: nat)
    requires i < |lines|
    ensures lines[..i + 1][..i] == lines[..i] && lines[..i + 1][i] == lines[i]
  {
  }

  lemma EmptyLeft(ps: seq<Piece>)
    ensures [] + ps == ps && ps + [] == ps
  {
  }

  // ----- both keep the text

  lemma TwoPieces(a: Piece, b: Piece, rest: seq<Piece>)
    ensures TextOf([a] + [b] + rest) == a.text + b.text + TextOf(rest)
  {
    OnePiece(a);
    OnePiece(b);
    TextConcat([a], [b]);
    TextConcat([a] + [b], rest);
  }

  lemma {:induction false} ValueCover(value: string)
    ensures TextOf(ValuePieces(value)) == value && WellPainted(ValuePieces(value))
  {
    var (start, end) := FirstQuoted(value);
    if start == end {
      OnePiece(Plain(value));
    } else {
      var a, b := Plain(value[..start]), StringPiece(Str, value[start..end]);
      ValueCover(value[end..]);
      TwoPieces(a, b, ValuePieces(value[end..]));
      WellPaintedConcat([a] + [b], ValuePieces(value[end..]));
      CutTwice(value, start, end);
    }
  }

  lemma CutTwice(s: string, i: nat, j: nat)
    requires i <= j <= |s|
    ensures s == s[..i] + s[i..j] + s[j..]
  {
  }

  lemma LineCover(u: Unicode, line: string)
    ensures TextOf(LinePieces(u, line)) == line && WellPainted(LinePieces(u, line))
  {
    if IsHeader(u, line) {
      OnePiece(Painted(Table, line));
    } else if '=' in line {
      var i := T.IndexOf(line, '=');
      var a, b, rest := Painted(Key, line[..i]), Plain("="), ValuePieces(line[i + 1..]);
      ValueCover(line[i + 1..]);
      TwoPieces(a, b, rest);
      WellPaintedConcat([a] + [b], rest);
      CutAt(line, i);
    } else {
      OnePiece(Plain(line));
    }
  }

  lemma CutAt(s: string, i: nat)
    requires i < |s|
    ensures s == s[..i] + [s[i]] + s[i + 1..]
  {
  }

  function JoinLines(lines: seq<string>): string
    requires lines != []
  {
    if |lines| == 1 then lines[0] else JoinLines(lines[..|lines| - 1]) + "\n" + lines[|lines| - 1]
  }

  lemma {:induction false} LinesCover(u: Unicode, lines: seq<string>)
    requires lines != []
    ensures TextOf(LinesPieces(u, lines)) == JoinLines(lines) && WellPainted(LinesPieces(u, lines))
  {
    var last := lines[|lines| - 1];
    LineCover(u, last);
    if |lines| > 1 {
      var front := lines[..|lines| - 1];
      LinesCover(u, front);
      TextConcat(LinesPieces(u, front), [Plain("\n")]);
      TextConcat(LinesPieces(u, front) + [Plain("\n")], LinePieces(u, last));
      OnePiece(Plain("\n"));
      WellPaintedConcat(LinesPieces(u, front), [Plain("\n")]);
      WellPaintedConcat(LinesPieces(u, front) + [Plain("\n")], LinePieces(u, last));
    }
  }

  lemma {:induction false} JoinCons(line: string, lines: seq<string>)
    requires lines != []
    ensures JoinLines([line] + lines) == line + "\n" + JoinLines(lines)
  {
    var all := [line] + lines;
    if |lines| == 1 {
      assert all[..1] == [line];
    } else {
      JoinCons(line, lines[..|lines| - 1]);
      assert all[..|all| - 1] == [line] + lines[..|lines| - 1];
    }
  }

  lemma {:induction false} JoinSplit(src: string)
    ensures JoinLines(T.Split(src, '\n')) == src
    decreases |src|
  {
    if '\n' in src {
      var i := T.IndexOf(src, '\n');
      JoinSplit(src[i + 1..]);
      JoinCons(src[..i], T.Split(src[i + 1..], '\n'));
      CutAt(src, i);
    }
  }

  lemma TomlPiecesCover(u: Unicode, src: string)
    ensures TextOf(TomlPieces(u, src)) == src && WellPainted(TomlPieces(u, src))
  {
    LinesCover(u, T.Split(src, '\n'));
    JoinSplit(src);
  }

  /** The source in pieces, of which only those that hold the sentinel are shown otherwise: as the quoted mask. */
  ghost predicate ShowsMasked(src: string, shown: string, mask: string, ps: seq<Piece>) {
    && TextOf(ps) == src
    && shown == ShownAll(ps, mask)
    && WellPainted(ps)
  }

  lemma {:induction false} NulFree(ps: seq<Piece>, mask: string)
    requires '\0' !in TextOf(ps) && '\0' !in mask
    ensures '\0' !in ShownAll(ps, mask)
  {
    if ps != [] {
      var front := ps[..|ps| - 1];
      assert forall c :: c in TextOf(front) ==> c in TextOf(ps);
      NulFree(front, mask);
    }
  }

  /** Painting JSON preserves the text: visibly the source, with each quoted secret replaced by the quoted mask. */
  lemma JsonPreservesText(u: Unicode, src: string, mask: string)
    requires '\0' !in src && '\0' !in mask
    ensures ShowsMasked(src, Visible(RenderAll(JsonPieces(u, src), mask)), mask, JsonPieces(u, src))
  {
    JsonPiecesCover(u, src);
    NulFree(JsonPieces(u, src), mask);
    PaintedVisible(JsonPieces(u, src), mask);
  }

  /** The same for TOML. */
  lemma TomlPreservesText(u: Unicode, src: string, mask: string)
    requires '\0' !in src && '\0' !in mask
    ensures ShowsMasked(src, Visible(RenderAll(TomlPieces(u, src), mask)), mask, TomlPieces(u, src))
  {
    TomlPiecesCover(u, src);
    NulFree(TomlPieces(u, src), mask);
    PaintedVisible(TomlPieces(u, src), mask);
  }
}
