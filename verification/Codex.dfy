/** The TOML configuration, and what a reader sees of it once it is painted. */
module Codex {
  import opened Painting
  import opened Masking
  import opened JsonText
  import opened Highlight
  import opened Spans
  import opened Formats
  import T = Text

  // ----- what is generated

  function Encoded(values: seq<string>): seq<string> {
    if values == [] then [] else Encoded(values[..|values| - 1]) + [JsonString(values[|values| - 1])]
  }

  /** `strings.Join`. */
  function JoinStrings(parts: seq<string>, sep: string): string {
    if parts == [] then ""
    else if |parts| == 1 then parts[0]
    else JoinStrings(parts[..|parts| - 1], sep) + sep + parts[|parts| - 1]
  }

  function TomlArray(values: seq<string>): string {
    "[" + JoinStrings(Encoded(values), ", ") + "]"
  }

  method TomlStringArray(values: seq<string>) returns (text: string)
    ensures text == TomlArray(values)
  {
    var quoted := new string[|values|];
    for i := 0 to |values|
      invariant quoted[..i] == Encoded(values[..i])
    {
      quoted[i] := JsonString(values[i]);
      assert values[..i + 1][..i] == values[..i];
      assert quoted[..i + 1] == quoted[..i] + [quoted[i]];
    }
    assert values[..|values|] == values && quoted[..|values|] == quoted[..];
    text := "[" + JoinStrings(quoted[..], ", ") + "]";
  }

  const TOKEN_KEY: string := "GRAFANA_SERVICE_ACCOUNT_TOKEN "

  function SettingLines(url: string, modes: seq<string>): seq<string> {
    var (command, args) := Launch(modes);
    [ "[mcp_servers.grafana]",
      "command = " + JsonString(command),
      "args = " + TomlArray(args),
      "",
      "[mcp_servers.grafana.env]",
      "GRAFANA_URL = " + JsonString(url)]
  }

  function TokenLines(token: string): seq<string> {
    if token == "" then [] else [TOKEN_KEY + "= " + JsonString(token)]
  }

  function CodexToml(url: string, modes: seq<string>): string {
    JoinLines(SettingLines(url, modes) + TokenLines(ConfigToken(modes)))
  }

  // ----- lines

  /** A line of printable text. */
  predicate OneLine(s: string) {
    '\n' !in s && '\0' !in s
  }

  lemma {:induction false} SplitJoin(lines: seq<string>)
    requires lines != [] && AllOneLine(lines)
    ensures T.Split(JoinLines(lines), '\n') == lines && '\0' !in JoinLines(lines)
  {
    assert lines[0] in lines;
    if |lines| > 1 {
      SplitJoin(lines[1..]);
      assert [lines[0]] + lines[1..] == lines;
      JoinCons(lines[0], lines[1..]);
      T.SplitFirst(lines[0], JoinLines(lines[1..]), '\n');
    }
  }

  ghost predicate LineSeen(u: Unicode, line: string, mask: string, holes: nat) {
    && ShownAll(LinePieces(u, line), mask) == ReplaceAll(line, SENTINEL, mask)
    && Secrets(LinePieces(u, line)) == holes
  }

  ghost predicate LinesSeen(u: Unicode, lines: seq<string>, mask: string, holes: nat)
    requires lines != []
  {
    && ShownAll(LinesPieces(u, lines), mask) == ReplaceAll(JoinLines(lines), SENTINEL, mask)
    && Secrets(LinesPieces(u, lines)) == holes
  }

  lemma AddLine(u: Unicode, lines: seq<string>, mask: string, m: nat, n: nat)
    requires |lines| > 1 && LinesSeen(u, lines[..|lines| - 1], mask, m) && LineSeen(u, lines[|lines| - 1], mask, n)
    ensures LinesSeen(u, lines, mask, m + n)
  {
    var front, last := lines[..|lines| - 1], lines[|lines| - 1];
    AddBreak(LinesPieces(u, front), LinePieces(u, last), mask);
    SentinelIsLoud();
    ReplaceSplit(JoinLines(front), '\n', last, SENTINEL, mask);
  }

  lemma AddBreak(a: seq<Piece>, b: seq<Piece>, mask: string)
    ensures ShownAll(a + [Plain("\n")] + b, mask) == ShownAll(a, mask) + "\n" + ShownAll(b, mask)
    ensures Secrets(a + [Plain("\n")] + b) == Secrets(a) + Secrets(b)
  {
    OnePiece(Plain("\n"));
    ShownConcat(a, [Plain("\n")], mask);
    ShownConcat(a + [Plain("\n")], b, mask);
    SecretsConcat(a, [Plain("\n")]);
    SecretsConcat(a + [Plain("\n")], b);
  }

  /** Without the placeholder nothing is hidden. */
  lemma {:induction false} Unmarked(ps: seq<Piece>, mask: string)
    requires WellPainted(ps) && !Contains(TextOf(ps), SENTINEL)
    ensures ShownAll(ps, mask) == TextOf(ps) && Secrets(ps) == 0
  {
    if ps != [] {
      var front, last := ps[..|ps| - 1], ps[|ps| - 1];
      if Contains(TextOf(front), SENTINEL) { ContainsLeft(TextOf(front), last.text, SENTINEL); }
      if Contains(last.text, SENTINEL) { ContainsRight(TextOf(front), last.text, SENTINEL); }
      Unmarked(front, mask);
      assert Discreet(last);
    }
  }

  lemma PlainLine(u: Unicode, line: string, mask: string)
    requires !Contains(line, SENTINEL)
    ensures LineSeen(u, line, mask, 0)
  {
    LineCover(u, line);
    Unmarked(LinePieces(u, line), mask);
    ReplaceNone(line, SENTINEL, mask);
  }

  lemma {:induction false} PlainLines(u: Unicode, lines: seq<string>, mask: string)
    requires lines != [] && forall l :: l in lines ==> !Contains(l, SENTINEL)
    ensures LinesSeen(u, lines, mask, 0)
  {
    var front, last := lines[..|lines| - 1], lines[|lines| - 1];
    PlainLine(u, last, mask);
    if |lines| > 1 {
      PlainLines(u, front, mask);
      AddLine(u, lines, mask, 0, 0);
    }
  }

  // ----- the line with the token

  lemma IndexAt(a: string, c: char, b: string)
    requires c !in a
    ensures c in a + [c] + b && T.IndexOf(a + [c] + b, c) == |a|
  {
    var s := a + [c] + b;
    assert s[|a|] == c;
    var i := T.IndexOf(s, c);
    assert s == s[..i] + [c] + s[i + 1..];
    T.FirstSplit(s[..i], s[i + 1..], a, b, c);
  }

  lemma QuotedSlices(body: string)
    ensures var v := " \"" + body + "\"";
      && v == " " + ['"'] + (body + "\"") && v[2..] == body + ['"'] + ""
      && v[..1] == " " && v[1..|v|] == "\"" + body + "\"" && v[|v|..] == ""
  {
  }

  lemma QuotedFirst(body: string)
    requires '"' !in body
    ensures FirstQuoted(" \"" + body + "\"") == (1, |body| + 3)
  {
    QuotedSlices(body);
    IndexAt(" ", '"', body + "\"");
    IndexAt(body, '"', "");
  }

  /** The value of a line: a space and one string. */
  lemma QuotedValue(body: string)
    requires '"' !in body
    ensures ValuePieces(" \"" + body + "\"") == [Plain(" ")] + [StringPiece(Str, "\"" + body + "\"")] + [Plain("")]
  {
    QuotedSlices(body);
    QuotedFirst(body);
  }

  lemma KeyLine(u: Unicode, key: string, value: string)
    requires '=' !in key && key != "" && !IsSpace(u, key[0]) && key[0] != '['
    ensures LinePieces(u, key + "=" + value) == [Painted(Key, key)] + [Plain("=")] + ValuePieces(value)
  {
    var line := key + "=" + value;
    assert line[0] == key[0];
    IndexAt(key, '=', value);
    assert line[..|key|] == key && line[|key| + 1..] == value;
  }

  /** What such a line shows, when its string is the placeholder. */
  lemma SecretShown(key: string, w: string, mask: string)
    ensures var ps := [Painted(Key, key)] + [Plain("=")] + ([Plain(" ")] + [Secret(Str, "\"" + w + "\"")] + [Plain("")]);
      ShownAll(ps, mask) == key + "= " + "\"" + mask + "\"" && Secrets(ps) == 1
  {
    var c, d, e := Plain(" "), Secret(Str, "\"" + w + "\""), Plain("");
    TwoShown(c, d, [e], mask);
    OnePiece(e);
    TwoShown(Painted(Key, key), Plain("="), [c] + [d] + [e], mask);
    FlatLine(key, mask);
  }

  lemma FlatLine(key: string, mask: string)
    ensures key + "=" + (" " + ("\"" + mask + "\"") + "") == key + "= " + "\"" + mask + "\""
  {
  }

  lemma TwoShown(a: Piece, b: Piece, rest: seq<Piece>, mask: string)
    ensures ShownAll([a] + [b] + rest, mask) == Shown(a, mask) + Shown(b, mask) + ShownAll(rest, mask)
    ensures Secrets([a] + [b] + rest) == (if a.Secret? then 1 else 0) + (if b.Secret? then 1 else 0) + Secrets(rest)
  {
    OneMore(b, rest, mask);
    OneMore(a, [b] + rest, mask);
    assert [a] + [b] + rest == [a] + ([b] + rest);
  }

  lemma ReplacedLine(start: string, w: string, mask: string)
    requires w != "" && '"' !in w && !Contains(start, w)
    ensures ReplaceAll(start + "\"" + w + "\"", w, mask) == start + "\"" + mask + "\""
  {
    ReplaceNone(start, w, mask);
    ReplaceWord(w, mask);
    ReplaceSplit(start, '"', w + ['"'] + "", w, mask);
    ReplaceSplit(w, '"', "", w, mask);
    assert start + "\"" + w + "\"" == start + ['"'] + (w + ['"'] + "");
  }

  /** Starts a line that sets a key. */
  predicate IsKey(u: Unicode, key: string) {
    '=' !in key && key != "" && !IsSpace(u, key[0]) && key[0] != '[' && 'M' !in key && OneLine(key)
  }

  lemma SecretLine(u: Unicode, key: string, w: string, mask: string)
    requires IsKey(u, key) && w == SENTINEL
    ensures LineSeen(u, key + "= " + JsonString(w), mask, 1)
  {
    SentinelIsLoud();
    LoudBody(w);
    EncodedContains(w);
    LacksWord(key + "= ", 'M', w);
    SecretLineOf(u, key, w, mask);
  }

  lemma SecretLineOf(u: Unicode, key: string, w: string, mask: string)
    requires IsKey(u, key) && w == SENTINEL && '"' !in w && Contains("\"" + w + "\"", w) && !Contains(key + "= ", w)
    ensures LineSeen(u, key + "= " + ("\"" + w + "\""), mask, 1)
  {
    QuotedValue(w);
    SameLine(key, w);
    KeyLine(u, key, " \"" + w + "\"");
    SecretShown(key, w, mask);
    ReplacedLine(key + "= ", w, mask);
  }

  lemma SameLine(key: string, body: string)
    ensures key + "= " + ("\"" + body + "\"") == key + "=" + (" \"" + body + "\"")
    ensures key + "= " + ("\"" + body + "\"") == key + "= " + "\"" + body + "\""
  {
  }

  // ----- the other lines

  lemma JsonStringLine(s: string)
    ensures OneLine(JsonString(s)) && ('M' !in s ==> 'M' !in JsonString(s))
  {
    forall c | c in EncodeBody(s) ensures c >= ' ' && (IsLoud(c) ==> c in s) {
      BodyIsText(s, c);
    }
  }

  predicate Mild(s: string) {
    OneLine(s) && 'M' !in s
  }

  ghost predicate AllMild(parts: seq<string>) {
    forall e :: e in parts ==> Mild(e)
  }

  lemma {:induction false} EncodedMild(values: seq<string>)
    requires AllPlainly(values)
    ensures AllMild(Encoded(values))
  {
    if values != [] {
      var last := values[|values| - 1];
      EncodedMild(values[..|values| - 1]);
      assert last in values;
      JsonStringLine(last);
    }
  }

  lemma {:induction false} JoinedMild(parts: seq<string>)
    requires AllMild(parts)
    ensures Mild(JoinStrings(parts, ", "))
  {
    if parts != [] {
      assert parts[|parts| - 1] in parts;
    }
    if |parts| > 1 {
      JoinedMild(parts[..|parts| - 1]);
    }
  }

  ghost predicate Tame(line: string) {
    OneLine(line) && !Contains(line, SENTINEL)
  }

  lemma PlainlyTame(line: string)
    requires OneLine(line) && 'M' !in line
    ensures Tame(line)
  {
    SentinelIsLoud();
    LacksWord(line, 'M', SENTINEL);
  }

  lemma UrlTame(key: string, url: string)
    requires Tame(key) && !Contains(url, SENTINEL)
    ensures Tame(key + JsonString(url))
  {
    JsonStringLine(url);
    EncodedContains(url);
    SentinelIsLoud();
    StartOfString(key, EncodeBody(url), SENTINEL);
  }

  lemma StartOfString(key: string, body: string, w: string)
    requires w != "" && '"' !in w && !Contains(key, w) && !Contains("\"" + body + "\"", w)
    ensures !Contains(key + ("\"" + body + "\""), w)
  {
    QuotedContains(body, w);
    ContainsSplit(key, '"', body + ['"'] + "", w);
    ContainsSplit(body, '"', "", w);
    assert key + ("\"" + body + "\"") == key + ['"'] + (body + ['"'] + "");
  }

  lemma CommandTame(command: string)
    requires Plainly(command)
    ensures Tame("command = " + JsonString(command))
  {
    JsonStringLine(command);
    PlainlyTame("command = " + JsonString(command));
  }

  lemma ArgsTame(args: seq<string>)
    requires AllPlainly(args)
    ensures Tame("args = " + TomlArray(args))
  {
    EncodedMild(args);
    JoinedMild(Encoded(args));
    PlainlyTame("args = " + TomlArray(args));
  }

  lemma HeadersTame()
    ensures Tame("[mcp_servers.grafana]") && Tame("[mcp_servers.grafana.env]")
  {
    PlainlyTame("[mcp_servers.grafana]");
    PlainlyTame("[mcp_servers.grafana.env]");
  }

  lemma OthersTame()
    ensures Tame("") && Tame("GRAFANA_URL = ")
  {
    PlainlyTame("");
    PlainlyTame("GRAFANA_URL = ");
  }

  lemma AllTame(a: string, b: string, c: string, d: string, e: string, f: string)
    requires Tame(a) && Tame(b) && Tame(c) && Tame(d) && Tame(e) && Tame(f)
    ensures forall l :: l in [a, b, c, d, e, f] ==> Tame(l)
  {
  }

  lemma SettingsTame(url: string, modes: seq<string>)
    requires !Contains(url, SENTINEL)
    ensures forall l :: l in SettingLines(url, modes) ==> Tame(l)
  {
    var (command, args) := Launch(modes);
    LaunchPlain(modes);
    HeadersTame();
    OthersTame();
    CommandTame(command);
    ArgsTame(args);
    UrlTame("GRAFANA_URL = ", url);
    AllTame("[mcp_servers.grafana]", "command = " + JsonString(command), "args = " + TomlArray(args), "",
      "[mcp_servers.grafana.env]", "GRAFANA_URL = " + JsonString(url));
  }

  ghost predicate AllOneLine(lines: seq<string>) {
    forall l :: l in lines ==> OneLine(l)
  }

  lemma AddTokenLine(u: Unicode, settings: seq<string>, line: string, mask: string)
    requires settings != [] && LinesSeen(u, settings, mask, 0) && AllOneLine(settings)
    requires OneLine(line) && LineSeen(u, line, mask, 1)
    ensures LinesSeen(u, settings + [line], mask, 1) && AllOneLine(settings + [line])
  {
    var lines := settings + [line];
    assert lines[..|lines| - 1] == settings;
    AddLine(u, lines, mask, 0, 1);
  }

  lemma TokenLineSeen(u: Unicode, token: string, mask: string)
    requires token == SENTINEL
    ensures OneLine(TOKEN_KEY + "= " + JsonString(token)) && LineSeen(u, TOKEN_KEY + "= " + JsonString(token), mask, 1)
  {
    TokenKeyIsKey(u);
    JsonStringLine(token);
    KeepsOneLine(TOKEN_KEY, JsonString(token));
    SecretLine(u, TOKEN_KEY, token, mask);
  }

  lemma KeepsOneLine(key: string, text: string)
    requires OneLine(key) && OneLine(text)
    ensures OneLine(key + "= " + text)
  {
  }

  lemma SettingsSeen(u: Unicode, url: string, modes: seq<string>, mask: string)
    requires !Contains(url, SENTINEL)
    ensures LinesSeen(u, SettingLines(url, modes), mask, 0) && AllOneLine(SettingLines(url, modes))
  {
    SettingsTame(url, modes);
    PlainLines(u, SettingLines(url, modes), mask);
  }

  lemma CodexLinesSeen(u: Unicode, settings: seq<string>, token: string, mask: string)
    requires settings != [] && LinesSeen(u, settings, mask, 0) && AllOneLine(settings) && token in ["", SENTINEL]
    ensures var lines := settings + TokenLines(token);
      LinesSeen(u, lines, mask, if token == "" then 0 else 1) && AllOneLine(lines)
  {
    if token == "" {
      assert settings + [] == settings;
    } else {
      TokenLineSeen(u, token, mask);
      AddTokenLine(u, settings, TOKEN_KEY + "= " + JsonString(token), mask);
    }
  }

  lemma TokenKeyIsKey(u: Unicode)
    ensures IsKey(u, TOKEN_KEY) && SENTINEL != ""
  {
    assert TOKEN_KEY[0] == 'G';
  }

  /** Generator and highlighter agree on the TOML client too. */
  lemma CodexPainted(u: Unicode, url: string, modes: seq<string>, mask: string)
    requires !Contains(url, SENTINEL) && '\0' !in mask
    ensures var src := CodexToml(url, modes);
      SeenMasked(src, TomlPieces(u, src), mask, TokenCount(modes))
  {
    var settings, token := SettingLines(url, modes), ConfigToken(modes);
    SentinelIsLoud();
    SettingsSeen(u, url, modes, mask);
    CodexLinesSeen(u, settings, token, mask);
    LinesPainted(u, settings + TokenLines(token), mask, TokenCount(modes));
  }

  lemma LinesPainted(u: Unicode, lines: seq<string>, mask: string, holes: nat)
    requires lines != [] && LinesSeen(u, lines, mask, holes) && AllOneLine(lines) && '\0' !in mask
    ensures SeenMasked(JoinLines(lines), TomlPieces(u, JoinLines(lines)), mask, holes)
  {
    SplitJoin(lines);
    TomlPiecesCover(u, JoinLines(lines));
    NulFree(LinesPieces(u, lines), mask);
    PaintedVisible(LinesPieces(u, lines), mask);
    SpansAreSecrets(LinesPieces(u, lines), mask);
  }
}
