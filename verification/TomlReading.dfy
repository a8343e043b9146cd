/**
 A reader for TOML of tables and of keys set to basic strings or arrays of them, and what it makes of the generated
 configuration. TOML reads the strings that Go's encoding/json writes as JSON does.
 */
module TomlReading {
  import opened Painting
  import opened Highlight
  import opened JsonText
  import opened JsonReading
  import opened Formats
  import opened Codex
  import T = Text

  /** A key of a table and its value. */
  datatype Setting = Setting(table: string, key: string, value: Json)

  function TrimRight(s: string): string {
    if s != "" && s[|s| - 1] == ' ' then TrimRight(s[..|s| - 1]) else s
  }

  /** What a line sets, in which table; a header starts another table. */
  function ReadLine(table: string, line: string): T.Option<(string, seq<Setting>)> {
    if line == "" then T.Some((table, []))
    else if line[0] == '[' then
      if |line| > 2 && line[|line| - 1] == ']' then T.Some((line[1..|line| - 1], [])) else T.None
    else if '=' in line then
      var i := T.IndexOf(line, '=');
      var value := ReadDocument(line[i + 1..]);
      if value.Document? then T.Some((table, [Setting(table, TrimRight(line[..i]), value.value)])) else T.None
    else T.None
  }

  function ReadLines(table: string, lines: seq<string>): T.Option<seq<Setting>>
    decreases |lines|
  {
    if lines == [] then T.Some([])
    else
      var line := ReadLine(table, lines[0]);
      if line.None? then T.None
      else
        var rest := ReadLines(line.value.0, lines[1..]);
        if rest.None? then T.None else T.Some(line.value.1 + rest.value)
  }

  function ReadToml(text: string): T.Option<seq<Setting>> {
    ReadLines("", T.Split(text, '\n'))
  }

  // ----- arrays

  lemma {:induction false} EncodedCons(a: string, values: seq<string>)
    ensures Encoded([a] + values) == [JsonString(a)] + Encoded(values)
  {
    if values == [] {
      assert [a] + values == [a] && [a][..0] == [];
    } else {
      EncodedCons(a, values[..|values| - 1]);
      assert ([a] + values)[..|values|] == [a] + values[..|values| - 1];
    }
  }

  lemma {:induction false} JoinStringsCons(a: string, parts: seq<string>, sep: string)
    ensures JoinStrings([a] + parts, sep) == a + if parts == [] then "" else sep + JoinStrings(parts, sep)
  {
    if |parts| > 0 {
      var front, last := parts[..|parts| - 1], parts[|parts| - 1];
      assert ([a] + parts)[..|parts|] == [a] + front;
      JoinStringsCons(a, front, sep);
      if front == [] {
        assert a + "" + sep + last == a + (sep + last);
      } else {
        JoinParts(a, sep, JoinStrings(front, sep), last);
      }
    }
  }

  lemma JoinParts(a: string, sep: string, joined: string, last: string)
    ensures a + (sep + joined) + sep + last == a + (sep + (joined + sep + last))
  {
  }

  /** What follows the first string of an array. */
  function AfterFirst(rest: seq<string>): string {
    if rest == [] then "]" else ", " + (JoinStrings(Encoded(rest), ", ") + "]")
  }

  lemma JoinedText(values: seq<string>)
    requires values != []
    ensures JoinStrings(Encoded(values), ", ") + "]" == JsonString(values[0]) + AfterFirst(values[1..])
  {
    var first, rest := values[0], values[1..];
    assert values == [first] + rest;
    EncodedCons(first, rest);
    EncodedSize(rest);
    JoinStringsCons(JsonString(first), Encoded(rest), ", ");
    JoinedParts(JsonString(first), JoinStrings(Encoded(rest), ", "));
  }

  lemma {:induction false} EncodedSize(values: seq<string>)
    ensures |Encoded(values)| == |values|
  {
    if values != [] { EncodedSize(values[..|values| - 1]); }
  }

  lemma JoinedParts(first: string, joined: string)
    ensures first + (", " + joined) + "]" == first + (", " + (joined + "]")) && first + "" + "]" == first + "]"
  {
  }

  lemma {:induction false} ReadsJoined(values: seq<string>)
    requires values != []
    ensures ReadEntry(JoinStrings(Encoded(values), ", ") + "]", false) == ParsedEntries(Strings(values), "")
  {
    var first, rest := values[0], values[1..];
    if rest != [] { ReadsJoined(rest); }
    JoinedText(values);
    ContinuesList(rest);
    ReadsText(first, AfterFirst(rest));
    ReadsOne("", Text(first), false, JsonString(first), AfterFirst(rest), Strings(rest), "");
    assert Label("", false) + (JsonString(first) + AfterFirst(rest)) == JsonString(first) + AfterFirst(rest);
  }

  lemma ContinuesList(rest: seq<string>)
    requires rest != [] ==>
      ReadEntry(JoinStrings(Encoded(rest), ", ") + "]", false) == ParsedEntries(Strings(rest), "")
    ensures Continues(AfterFirst(rest), Strings(rest), false, "")
  {
    if rest == [] {
      assert AfterFirst(rest) == [Closing(false)] + "";
    } else {
      CommaSpace(JoinStrings(Encoded(rest), ", ") + "]");
    }
  }

  lemma CommaSpace(joined: string)
    ensures var t := ", " + joined;
      SkipBlanks(t) == t && t[0] == ',' && ReadEntry(t[1..], false) == ReadEntry(joined, false)
  {
    BlankBefore(" ", joined, false);
    assert (", " + joined)[1..] == " " + joined;
  }

  lemma ReadsArray(values: seq<string>)
    ensures ReadDocument(" " + TomlArray(values)) == Document(List(Strings(values)))
  {
    var inner := JoinStrings(Encoded(values), ", ") + "]";
    if values == [] {
      ReadsEmpty(false, "");
      assert inner == [Closing(false)] + "";
    } else {
      ReadsJoined(values);
      StartsString(values);
    }
    ReadsInner(inner, Strings(values), false, "");
    assert TomlArray(values) == [Opening(false)] + inner;
    BlankBefore(" ", TomlArray(values), false);
  }

  lemma StartsString(values: seq<string>)
    requires values != []
    ensures var t := JoinStrings(Encoded(values), ", ") + "]"; ReadEntries(t, false) == ReadEntry(t, false)
  {
    JoinedText(values);
    assert (JsonString(values[0]) + AfterFirst(values[1..]))[0] == '"';
  }

  lemma ReadsOneString(s: string)
    ensures ReadDocument(" " + JsonString(s)) == Document(Text(s))
  {
    ReadsText(s, "");
    assert JsonString(s) + "" == JsonString(s);
    BlankBefore(" ", JsonString(s), false);
  }

  // ----- lines

  lemma KeyParts(key: string, text: string)
    requires key != ""
    ensures var line := key + " = " + text;
      && line == (key + " ") + ['='] + (" " + text) && line[0] == key[0]
      && line[..|key| + 1] == key + " " && line[|key| + 2..] == " " + text
  {
  }

  lemma TrimKey(key: string)
    requires key != "" && key[|key| - 1] != ' '
    ensures TrimRight(key + " ") == key
  {
    assert (key + " ")[..|key|] == key;
  }

  /** A line that sets a key. */
  lemma SettingLine(table: string, line: string, key: string, text: string, value: Json)
    requires line == key + " = " + text && ReadDocument(" " + text) == Document(value)
    requires key != "" && '=' !in key && key[0] != '[' && key[|key| - 1] != ' '
    ensures ReadLine(table, line) == T.Some((table, [Setting(table, key, value)]))
  {
    KeyParts(key, text);
    TrimKey(key);
    IndexAt(key + " ", '=', " " + text);
  }

  /** A line that sets nothing. */
  lemma HeaderLine(table: string, line: string, lines: seq<string>, next: string, rest: seq<Setting>)
    requires ReadLine(table, line) == T.Some((next, [])) && ReadLines(next, lines) == T.Some(rest)
    ensures ReadLines(table, [line] + lines) == T.Some(rest)
  {
    assert ([line] + lines)[1..] == lines;
    assert [] + rest == rest;
  }

  lemma OneMoreSetting(table: string, line: string, lines: seq<string>, x: Setting, rest: seq<Setting>)
    requires ReadLine(table, line) == T.Some((table, [x])) && ReadLines(table, lines) == T.Some(rest)
    ensures ReadLines(table, [line] + lines) == T.Some([x] + rest)
  {
    assert ([line] + lines)[1..] == lines;
  }

  const SERVER: string := "mcp_servers.grafana"

  const SERVER_ENV: string := "mcp_servers.grafana.env"

  /** What the configuration sets: how to start the server, and with which environment. */
  function CodexSettings(command: string, args: seq<string>, url: string, token: string): seq<Setting> {
    [Setting(SERVER, "command", Text(command)), Setting(SERVER, "args", List(Strings(args))),
     Setting(SERVER_ENV, "GRAFANA_URL", Text(url))]
    + if token == "" then [] else [Setting(SERVER_ENV, "GRAFANA_SERVICE_ACCOUNT_TOKEN", Text(token))]
  }

  lemma TokenRead(token: string)
    ensures ReadLines(SERVER_ENV, TokenLines(token)) ==
      T.Some(if token == "" then [] else [Setting(SERVER_ENV, "GRAFANA_SERVICE_ACCOUNT_TOKEN", Text(token))])
  {
    if token != "" {
      assert "GRAFANA_SERVICE_ACCOUNT_TOKEN" + " " == TOKEN_KEY;
      SpacedKeyRead(SERVER_ENV, "GRAFANA_SERVICE_ACCOUNT_TOKEN", token);
    }
  }

  lemma SpacedKeyRead(table: string, key: string, token: string)
    requires key != "" && '=' !in key && key[0] != '[' && key[|key| - 1] != ' '
    ensures ReadLines(table, [(key + " ") + "= " + JsonString(token)]) == T.Some([Setting(table, key, Text(token))])
  {
    ReadsOneString(token);
    SpacedKey(key, JsonString(token));
    SettingLine(table, (key + " ") + "= " + JsonString(token), key, JsonString(token), Text(token));
    OneLineRead(table, (key + " ") + "= " + JsonString(token), Setting(table, key, Text(token)));
  }

  lemma SpacedKey(key: string, text: string)
    ensures (key + " ") + "= " + text == key + " = " + text
  {
  }

  lemma OneLineRead(table: string, line: string, x: Setting)
    requires ReadLine(table, line) == T.Some((table, [x]))
    ensures ReadLines(table, [line]) == T.Some([x])
  {
    OneMoreSetting(table, line, [], x, []);
    assert [line] + [] == [line] && [x] + [] == [x];
  }

  lemma HeadersRead(table: string)
    ensures ReadLine(table, "[mcp_servers.grafana]") == T.Some((SERVER, []))
    ensures ReadLine(table, "[mcp_servers.grafana.env]") == T.Some((SERVER_ENV, []))
  {
    assert "[mcp_servers.grafana]"[1..20] == SERVER;
    assert "[mcp_servers.grafana.env]"[1..24] == SERVER_ENV;
  }

  lemma CommandRead(command: string)
    ensures ReadLine(SERVER, "command = " + JsonString(command)) == T.Some((SERVER, [Setting(SERVER, "command", Text(command))]))
  {
    ReadsOneString(command);
    assert "command" + " = " == "command = ";
    SettingLine(SERVER, "command = " + JsonString(command), "command", JsonString(command), Text(command));
  }

  lemma ArgsRead(args: seq<string>)
    ensures ReadLine(SERVER, "args = " + TomlArray(args)) == T.Some((SERVER, [Setting(SERVER, "args", List(Strings(args)))]))
  {
    ReadsArray(args);
    assert "args" + " = " == "args = ";
    SettingLine(SERVER, "args = " + TomlArray(args), "args", TomlArray(args), List(Strings(args)));
  }

  lemma UrlRead(url: string)
    ensures ReadLine(SERVER_ENV, "GRAFANA_URL = " + JsonString(url)) ==
      T.Some((SERVER_ENV, [Setting(SERVER_ENV, "GRAFANA_URL", Text(url))]))
  {
    ReadsOneString(url);
    assert "GRAFANA_URL" + " = " == "GRAFANA_URL = ";
    SettingLine(SERVER_ENV, "GRAFANA_URL = " + JsonString(url), "GRAFANA_URL", JsonString(url), Text(url));
  }

  /** A TOML reader of the generated configuration finds exactly this. */
  lemma CodexFound(url: string, modes: seq<string>)
    ensures ReadToml(CodexToml(url, modes)) ==
      T.Some(CodexSettings(Launch(modes).0, Launch(modes).1, url, if |modes| > 1 && modes[1] == "env" then "" else SENTINEL))
  {
    SettingsOneLine(url, modes);
    TokenOneLine(ConfigToken(modes));
    SplitJoin(SettingLines(url, modes) + TokenLines(ConfigToken(modes)));
    SettingsRead(url, modes, ConfigToken(modes));
  }

  lemma SettingsOneLine(url: string, modes: seq<string>)
    ensures AllOneLine(SettingLines(url, modes))
  {
    LaunchPlain(modes);
    HeadersTame();
    OthersTame();
    CommandTame(Launch(modes).0);
    ArgsTame(Launch(modes).1);
    JsonStringLine(url);
    OneLineConcat("GRAFANA_URL = ", JsonString(url));
    SixOneLine("[mcp_servers.grafana]", "command = " + JsonString(Launch(modes).0), "args = " + TomlArray(Launch(modes).1), "",
      "[mcp_servers.grafana.env]", "GRAFANA_URL = " + JsonString(url));
  }

  lemma OneLineConcat(a: string, b: string)
    requires OneLine(a) && OneLine(b)
    ensures OneLine(a + b)
  {
  }

  lemma SixOneLine(a: string, b: string, c: string, d: string, e: string, f: string)
    requires OneLine(a) && OneLine(b) && OneLine(c) && OneLine(d) && OneLine(e) && OneLine(f)
    ensures AllOneLine([a, b, c, d, e, f])
  {
  }

  lemma TokenOneLine(token: string)
    ensures AllOneLine(TokenLines(token))
  {
    JsonStringLine(token);
    OneLineConcat(TOKEN_KEY + "= ", JsonString(token));
    assert AllOneLine([TOKEN_KEY + "= " + JsonString(token)]);
  }

  lemma SettingsRead(url: string, modes: seq<string>, token: string)
    ensures ReadLines("", SettingLines(url, modes) + TokenLines(token)) ==
      T.Some(CodexSettings(Launch(modes).0, Launch(modes).1, url, token))
  {
    var (command, args) := Launch(modes);
    HeadersRead("");
    HeadersRead(SERVER);
    CommandRead(command);
    ArgsRead(args);
    UrlRead(url);
    TokenRead(token);
    LinesRead(SERVER, SERVER_ENV, "[mcp_servers.grafana]", "command = " + JsonString(command), "args = " + TomlArray(args),
      "[mcp_servers.grafana.env]", "GRAFANA_URL = " + JsonString(url), TokenLines(token),
      Setting(SERVER, "command", Text(command)), Setting(SERVER, "args", List(Strings(args))),
      Setting(SERVER_ENV, "GRAFANA_URL", Text(url)),
      if token == "" then [] else [Setting(SERVER_ENV, "GRAFANA_SERVICE_ACCOUNT_TOKEN", Text(token))]);
  }

  /** The shape of the file: a header with two keys, an empty line, a header with the last keys. */
  lemma LinesRead(server: string, env: string, l0: string, l1: string, l2: string, l4: string, l5: string, more: seq<string>,
                  a: Setting, b: Setting, c: Setting, rest: seq<Setting>)
    requires ReadLine("", l0) == T.Some((server, [])) && ReadLine(server, l1) == T.Some((server, [a]))
    requires ReadLine(server, l2) == T.Some((server, [b])) && ReadLine(server, l4) == T.Some((env, []))
    requires ReadLine(env, l5) == T.Some((env, [c])) && ReadLines(env, more) == T.Some(rest)
    ensures ReadLines("", [l0, l1, l2, "", l4, l5] + more) == T.Some([a, b, c] + rest)
  {
    OneMoreSetting(env, l5, more, c, rest);
    HeaderLine(server, l4, [l5] + more, env, [c] + rest);
    HeaderLine(server, "", [l4] + ([l5] + more), server, [c] + rest);
    OneMoreSetting(server, l2, [""] + ([l4] + ([l5] + more)), b, [c] + rest);
    OneMoreSetting(server, l1, [l2] + ([""] + ([l4] + ([l5] + more))), a, [b] + ([c] + rest));
    HeaderLine("", l0, [l1] + ([l2] + ([""] + ([l4] + ([l5] + more)))), server, [a] + ([b] + ([c] + rest)));
    SixLines(l0, l1, l2, "", l4, l5, more);
    assert [a] + ([b] + ([c] + rest)) == [a, b, c] + rest;
  }

  lemma SixLines(l0: string, l1: string, l2: string, l3: string, l4: string, l5: string, more: seq<string>)
    ensures [l0] + ([l1] + ([l2] + ([l3] + ([l4] + ([l5] + more))))) == [l0, l1, l2, l3, l4, l5] + more
  {
  }
}
