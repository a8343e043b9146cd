/** The client configurations, and what a reader sees of them once they are painted. */
module Formats {
  import opened Painting
  import opened Masking
  import opened JsonText
  import opened Highlight
  import opened Spans

  // ----- any JSON document

  /** A string that is the placeholder or does not contain it. */
  predicate Clean(s: string) {
    s == SENTINEL || !Contains(s, SENTINEL)
  }

  predicate IsLayout(c: char) {
    c in ['{', '}', '[', ']', ':', ',', ' ', '\n']
  }

  ghost predicate CleanTokens(toks: seq<Token>) {
    forall t :: t in toks ==> if t.Mark? then IsLayout(t.c) else Clean(t.text)
  }

  function Holes(t: Token): nat {
    if t == Quoted(SENTINEL) then 1 else 0
  }

  function TokenHoles(toks: seq<Token>): nat {
    if toks == [] then 0 else Holes(toks[0]) + TokenHoles(toks[1..])
  }

  lemma SentinelIsLoud()
    ensures Loud(SENTINEL) && SENTINEL != "" && 'M' in SENTINEL && '"' !in SENTINEL && '\n' !in SENTINEL
    ensures forall c :: IsLayout(c) ==> c !in SENTINEL
  {
    assert SENTINEL[10] == 'M';
  }

  lemma QuotedParts(body: string, rest: string)
    ensures "\"" + body + "\"" + rest == "" + ['"'] + (body + ['"'] + rest)
    ensures "\"" + body + "\"" == "" + ['"'] + (body + ['"'] + "")
  {
  }

  lemma QuotedContains(body: string, w: string)
    requires w != "" && '"' !in w
    ensures Contains("\"" + body + "\"", w) <==> Contains(body, w)
  {
    QuotedParts(body, "");
    ContainsSplit("", '"', body + ['"'] + "", w);
    ContainsSplit(body, '"', "", w);
  }

  lemma QuotedReplace(body: string, rest: string, w: string, r: string)
    requires w != "" && '"' !in w
    ensures ReplaceAll("\"" + body + "\"" + rest, w, r) == "\"" + ReplaceAll(body, w, r) + "\"" + ReplaceAll(rest, w, r)
  {
    QuotedParts(body, rest);
    ReplaceSplit("", '"', body + ['"'] + rest, w, r);
    ReplaceSplit(body, '"', rest, w, r);
    QuotedParts(ReplaceAll(body, w, r), ReplaceAll(rest, w, r));
  }

  /** The encoded string holds the placeholder exactly when the string does. */
  lemma EncodedContains(s: string)
    requires Clean(s)
    ensures Contains(JsonString(s), SENTINEL) <==> s == SENTINEL
  {
    SentinelIsLoud();
    QuotedContains(EncodeBody(s), SENTINEL);
    if s == SENTINEL {
      LoudBody(s);
    } else if Contains(EncodeBody(s), SENTINEL) {
      ContainsBody(s, SENTINEL);
    }
  }

  function Masked(t: Token, mask: string): string {
    if t == Quoted(SENTINEL) then "\"" + mask + "\"" else Raw(t)
  }

  lemma ReplaceToken(t: Token, rest: string, mask: string)
    requires if t.Mark? then IsLayout(t.c) else Clean(t.text)
    ensures ReplaceAll(Raw(t) + rest, SENTINEL, mask) == Masked(t, mask) + ReplaceAll(rest, SENTINEL, mask)
  {
    SentinelIsLoud();
    match t
    case Mark(c) =>
      ReplaceSplit("", c, rest, SENTINEL, mask);
      assert Raw(t) + rest == "" + [c] + rest;
    case Quoted(s) =>
      var body := EncodeBody(s);
      QuotedReplace(body, rest, SENTINEL, mask);
      if s == SENTINEL {
        LoudBody(s);
        ReplaceWord(s, mask);
      } else {
        if Contains(body, SENTINEL) { ContainsBody(s, SENTINEL); }
        ReplaceNone(body, SENTINEL, mask);
      }
  }

  lemma FirstToken(u: Unicode, t: Token, rest: string)
    requires if t.Mark? then IsLayout(t.c) else Clean(t.text)
    ensures Raw(t) + rest != ""
    ensures FirstJson(u, Raw(t) + rest).text == Raw(t)
    ensures FirstJson(u, Raw(t) + rest).Secret? <==> t == Quoted(SENTINEL)
  {
    match t
    case Mark(c) =>
      assert (Raw(t) + rest)[0] == c;
    case Quoted(s) =>
      StopsAtQuote(s, rest);
      EncodedContains(s);
  }

  lemma OneMore(p: Piece, ps: seq<Piece>, mask: string)
    ensures ShownAll([p] + ps, mask) == Shown(p, mask) + ShownAll(ps, mask)
    ensures Secrets([p] + ps) == (if p.Secret? then 1 else 0) + Secrets(ps)
  {
    OnePiece(p);
    ShownConcat([p], ps, mask);
    SecretsConcat([p], ps);
  }

  lemma {:induction false} TokensShown(u: Unicode, toks: seq<Token>, mask: string)
    requires CleanTokens(toks)
    ensures ShownAll(JsonPieces(u, Join(toks)), mask) == ReplaceAll(Join(toks), SENTINEL, mask)
    ensures Secrets(JsonPieces(u, Join(toks))) == TokenHoles(toks)
  {
    if toks != [] {
      var t, rest := toks[0], Join(toks[1..]);
      TokensShown(u, toks[1..], mask);
      FirstToken(u, t, rest);
      ReplaceToken(t, rest, mask);
      assert (Raw(t) + rest)[|Raw(t)|..] == rest;
      OneMore(FirstJson(u, Raw(t) + rest), JsonPieces(u, rest), mask);
    }
  }

  lemma {:induction false} TokensNulFree(toks: seq<Token>)
    requires CleanTokens(toks)
    ensures '\0' !in Join(toks)
  {
    if toks != [] {
      TokensNulFree(toks[1..]);
      if toks[0].Quoted? && '\0' in EncodeBody(toks[0].text) { BodyIsText(toks[0].text, '\0'); }
    }
  }

  ghost predicate CleanJson(v: Json) {
    match v
    case Text(s) => Clean(s)
    case List(entries) => CleanEntries(entries)
    case Object(entries) => CleanEntries(entries)
  }

  ghost predicate CleanEntries(entries: Entries) {
    entries.Entry? ==> Clean(entries.name) && CleanJson(entries.value) && CleanEntries(entries.tail)
  }

  /** How often the placeholder stands in a document as a string. */
  function Placeholders(v: Json): nat {
    match v
    case Text(s) => if s == SENTINEL then 1 else 0
    case List(entries) => PlaceholdersIn(entries, false)
    case Object(entries) => PlaceholdersIn(entries, true)
  }

  function PlaceholdersIn(entries: Entries, named: bool): nat {
    if entries.End? then 0
    else
      (if named && entries.name == SENTINEL then 1 else 0)
      + Placeholders(entries.value) + PlaceholdersIn(entries.tail, named)
  }

  ghost predicate Prints(toks: seq<Token>, holes: nat) {
    CleanTokens(toks) && TokenHoles(toks) == holes
  }

  lemma {:induction false} PrintsConcat(a: seq<Token>, b: seq<Token>, m: nat, n: nat)
    requires Prints(a, m) && Prints(b, n)
    ensures Prints(a + b, m + n)
  {
    if a == [] {
      assert a + b == b;
    } else {
      assert (a + b)[1..] == a[1..] + b;
      PrintsConcat(a[1..], b, m - Holes(a[0]), n);
    }
  }

  lemma {:induction false} PrintsMarks(s: string)
    requires forall c :: c in s ==> IsLayout(c)
    ensures Prints(Marks(s), 0)
  {
    if s != "" {
      PrintsMarks(s[1..]);
    }
  }

  lemma {:induction false} SpacesOnly(n: nat)
    ensures forall c :: c in Spaces(n) ==> c == ' '
  {
    if n > 0 { SpacesOnly(n - 1); }
  }

  lemma PrintsNewLine(depth: nat)
    ensures Prints(Marks(NewLine(depth)), 0)
  {
    SpacesOnly(2 * depth);
    PrintsMarks(NewLine(depth));
  }

  lemma PrintsOne(t: Token)
    requires if t.Mark? then IsLayout(t.c) else Clean(t.text)
    ensures Prints([t], Holes(t))
  {
    assert [t][1..] == [];
  }

  lemma {:induction false} PrintsJson(v: Json, depth: nat)
    requires CleanJson(v)
    ensures Prints(Tokens(v, depth), Placeholders(v))
    decreases v
  {
    match v
    case Text(s) => PrintsOne(Quoted(s));
    case List(entries) =>
      PrintsWithin(entries, false, depth);
      PrintsFramed('[', Within(entries, false, depth), ']', Placeholders(v));
    case Object(entries) =>
      PrintsWithin(entries, true, depth);
      PrintsFramed('{', Within(entries, true, depth), '}', Placeholders(v));
  }

  lemma PrintsFramed(a: char, toks: seq<Token>, z: char, n: nat)
    requires IsLayout(a) && IsLayout(z) && Prints(toks, n)
    ensures Prints([Mark(a)] + toks + [Mark(z)], n)
  {
    PrintsOne(Mark(a));
    PrintsOne(Mark(z));
    PrintsConcat([Mark(a)], toks, 0, n);
    PrintsConcat([Mark(a)] + toks, [Mark(z)], n, 0);
  }

  lemma {:induction false} PrintsWithin(entries: Entries, named: bool, depth: nat)
    requires CleanEntries(entries)
    ensures Prints(Within(entries, named, depth), PlaceholdersIn(entries, named))
    decreases entries, 1
  {
    if !entries.End? {
      PrintsEntries(entries, named, depth + 1);
      PrintsNewLine(depth);
      PrintsConcat(EntryTokens(entries, named, depth + 1), Marks(NewLine(depth)), PlaceholdersIn(entries, named), 0);
    }
  }

  lemma {:induction false} PrintsEntries(entries: Entries, named: bool, depth: nat)
    requires CleanEntries(entries)
    ensures Prints(EntryTokens(entries, named, depth), PlaceholdersIn(entries, named))
    decreases entries, 0
  {
    match entries
    case End =>
    case Entry(name, value, tail) =>
      var lead := if named then [Quoted(name)] + Marks(": ") else [];
      var nameHoles := if named && name == SENTINEL then 1 else 0;
      var more := if tail.End? then [] else [Mark(',')] + EntryTokens(tail, named, depth);
      PrintsNewLine(depth);
      PrintsLabel(name, named);
      PrintsJson(value, depth);
      PrintsConcat(Marks(NewLine(depth)), lead, 0, nameHoles);
      PrintsConcat(Marks(NewLine(depth)) + lead, Tokens(value, depth), nameHoles, Placeholders(value));
      if !tail.End? {
        PrintsEntries(tail, named, depth);
        PrintsOne(Mark(','));
        PrintsConcat([Mark(',')], EntryTokens(tail, named, depth), 0, PlaceholdersIn(tail, named));
      }
      PrintsConcat(Marks(NewLine(depth)) + lead + Tokens(value, depth), more,
        nameHoles + Placeholders(value), PlaceholdersIn(tail, named));
  }

  lemma PrintsLabel(name: string, named: bool)
    requires Clean(name)
    ensures Prints(if named then [Quoted(name)] + Marks(": ") else [], if named && name == SENTINEL then 1 else 0)
  {
    PrintsOne(Quoted(name));
    PrintsMarks(": ");
    PrintsConcat([Quoted(name)], Marks(": "), Holes(Quoted(name)), 0);
  }

  /** A reader of the painted document sees what was printed with the placeholder masked,
    * and the HTML has one token span per placeholder. */
  ghost predicate SeenMasked(src: string, ps: seq<Piece>, mask: string, holes: nat) {
    && Visible(RenderAll(ps, mask)) == ReplaceAll(src, SENTINEL, mask)
    && Occurrences(RenderAll(ps, mask), TOKEN_TAG) == holes
  }

  lemma PaintedDocument(u: Unicode, v: Json, mask: string)
    requires CleanJson(v) && '\0' !in mask
    ensures SeenMasked(Print(v), JsonPieces(u, Print(v)), mask, Placeholders(v))
  {
    PrintsJson(v, 0);
    TokensShown(u, Tokens(v, 0), mask);
    TokensNulFree(Tokens(v, 0));
    JsonPiecesCover(u, Print(v));
    NulFree(JsonPieces(u, Print(v)), mask);
    PaintedVisible(JsonPieces(u, Print(v)), mask);
    SpansAreSecrets(JsonPieces(u, Print(v)), mask);
  }

  // ----- the configurations

  const MCP_VERSION: string := "1.4.1"

  predicate IsEnv(modes: seq<string>) {
    |modes| > 1 && modes[1] == "env"
  }

  function Mode(modes: seq<string>): string {
    if modes == [] then "binary" else modes[0]
  }

  const STDIO: seq<string> := ["-t", "stdio", "--disable-write"]

  const UVX: seq<string> := ["mcp-grafana==" + MCP_VERSION]

  const DOCKER: seq<string> := [
    "run", "--rm", "-i", "-e", "GRAFANA_URL", "-e", "GRAFANA_SERVICE_ACCOUNT_TOKEN",
    "grafana/mcp-grafana:" + MCP_VERSION]

  const DIRENV: seq<string> := ["exec", "/Users/example/work/project"]

  function Command(mode: string): string {
    if mode == "uvx" then "uvx" else if mode == "docker" then "docker" else "mcp-grafana"
  }

  function Arguments(mode: string): seq<string> {
    if mode == "uvx" then UVX + STDIO else if mode == "docker" then DOCKER + STDIO else STDIO
  }

  function Launch(modes: seq<string>): (string, seq<string>) {
    var (command, args) := (Command(Mode(modes)), Arguments(Mode(modes)));
    if IsEnv(modes) then ("direnv", DIRENV + [command] + args) else (command, args)
  }

  method LaunchCommand(modes: seq<string>) returns (command: string, args: seq<string>)
    ensures (command, args) == Launch(modes)
  {
    var mode := "binary";
    if |modes| > 0 {
      mode := modes[0];
    }
    command, args := "mcp-grafana", STDIO;
    if mode == "uvx" {
      command := "uvx";
      args := UVX + args;
    } else if mode == "docker" {
      command := "docker";
      args := DOCKER + args;
    }
    if |modes| > 1 && modes[1] == "env" {
      args := DIRENV + [command] + args;
      command := "direnv";
    }
  }

  /**
   Every mode runs the same pinned server without write access: as an installed program, by uvx, or in a container
   that is given both variables of the environment. With direnv, that very command line is run in the project.
   */
  lemma LaunchRuns(mode: string, more: seq<string>)
    ensures Launch([]) == Launch(["binary"])
    ensures var (command, args) := Launch([mode]);
      && |args| >= 3 && args[|args| - 3..] == ["-t", "stdio", "--disable-write"]
      && (command, args[..|args| - 3]) ==
         match mode
         case "uvx" => ("uvx", ["mcp-grafana==1.4.1"])
         case "docker" =>
           ("docker", ["run", "--rm", "-i", "-e", "GRAFANA_URL", "-e", "GRAFANA_SERVICE_ACCOUNT_TOKEN",
                       "grafana/mcp-grafana:1.4.1"])
         case _ => ("mcp-grafana", [])
    ensures var plain := Launch([mode]);
      Launch([mode] + more) ==
        if more != [] && more[0] == "env" then ("direnv", ["exec", "/Users/example/work/project", plain.0] + plain.1) else plain
  {
    var (command, args) := Launch([mode]);
    var before := if mode == "uvx" then UVX else if mode == "docker" then DOCKER else [];
    EndsWith(before, STDIO);
    assert args == before + STDIO;
    assert "mcp-grafana==" + "1.4.1" == "mcp-grafana==1.4.1" && "grafana/mcp-grafana:" + "1.4.1" == "grafana/mcp-grafana:1.4.1";
    assert ([mode] + more)[0] == mode;
    if more != [] { assert ([mode] + more)[1] == more[0]; }
    assert DIRENV + [command] == ["exec", "/Users/example/work/project", command];
  }

  lemma EndsWith(a: seq<string>, b: seq<string>)
    ensures (a + b)[|a + b| - |b|..] == b && (a + b)[..|a + b| - |b|] == a
  {
  }

  function ConfigToken(modes: seq<string>): string {
    if IsEnv(modes) then "" else SENTINEL
  }

  function Strings(values: seq<string>): Entries {
    if values == [] then End else Entry("", Text(values[0]), Strings(values[1..]))
  }

  /** A field that is left out when its text is empty. */
  function Optional(name: string, text: string, tail: Entries): Entries {
    if text == "" then tail else Entry(name, Text(text), tail)
  }

  function Environment(url: string, token: string): Json {
    Object(Entry("GRAFANA_URL", Text(url), Optional("GRAFANA_SERVICE_ACCOUNT_TOKEN", token, End)))
  }

  /** How to start the server, and with which environment. */
  function Launcher(name: string, launch: (string, seq<string>), environment: Json): Entries {
    Entry(name, Text(launch.0), Entry("args", List(Strings(launch.1)), Entry("env", environment, End)))
  }

  function ServersDocument(key: string, withType: bool, launcher: Entries): Json {
    Object(Entry(if key == "servers" then "servers" else "mcpServers",
      Object(Entry("grafana",
        Object(Optional("type", if withType then "stdio" else "", launcher)), End)), End))
  }

  function McpServers(key: string, url: string, withType: bool, modes: seq<string>): Json {
    ServersDocument(key, withType, Launcher("command", Launch(modes), Environment(url, ConfigToken(modes))))
  }

  function ZedDocument(launcher: Entries): Json {
    Object(Entry("context_servers",
      Object(Entry("grafana",
        Object(Entry("source", Text("custom"), Entry("command", Object(launcher), End))), End)), End))
  }

  function Zed(url: string, modes: seq<string>): Json {
    ZedDocument(Launcher("path", Launch(modes), Environment(url, ConfigToken(modes))))
  }

  predicate Plainly(s: string) {
    'M' !in s
  }

  lemma PlainlyClean(s: string)
    requires Plainly(s)
    ensures Clean(s) && s != SENTINEL && !Contains(s, SENTINEL)
  {
    SentinelIsLoud();
    LacksWord(s, 'M', SENTINEL);
  }

  predicate AllPlainly(values: seq<string>) {
    forall a :: a in values ==> Plainly(a)
  }

  lemma ConstantsPlain()
    ensures AllPlainly(STDIO) && AllPlainly(UVX) && AllPlainly(DIRENV)
  {
    assert Plainly("mcp-grafana==" + MCP_VERSION);
    assert Plainly("/Users/example/work/project");
  }

  lemma DockerPlain()
    ensures AllPlainly(DOCKER)
  {
    assert Plainly("grafana/mcp-grafana:" + MCP_VERSION);
    assert Plainly("GRAFANA_SERVICE_ACCOUNT_TOKEN");
  }

  lemma PlainlyConcat(a: seq<string>, b: seq<string>)
    requires AllPlainly(a) && AllPlainly(b)
    ensures AllPlainly(a + b)
  {
  }

  /** Nothing on the command line looks like the placeholder. */
  lemma LaunchPlain(modes: seq<string>)
    ensures Plainly(Launch(modes).0) && AllPlainly(Launch(modes).1)
  {
    ConstantsPlain();
    DockerPlain();
    var command, args := Command(Mode(modes)), Arguments(Mode(modes));
    PlainlyConcat(UVX, STDIO);
    PlainlyConcat(DOCKER, STDIO);
    PlainlyConcat(DIRENV, [command]);
    PlainlyConcat(DIRENV + [command], args);
  }

  lemma {:induction false} StringsPlain(values: seq<string>)
    requires AllPlainly(values)
    ensures CleanEntries(Strings(values)) && PlaceholdersIn(Strings(values), false) == 0
  {
    if values != [] {
      PlainlyClean(values[0]);
      PlainlyClean("");
      StringsPlain(values[1..]);
    }
  }

  lemma EntryClean(name: string, value: Json, tail: Entries)
    requires Plainly(name) && CleanJson(value) && CleanEntries(tail)
    ensures CleanEntries(Entry(name, value, tail))
    ensures PlaceholdersIn(Entry(name, value, tail), true) == Placeholders(value) + PlaceholdersIn(tail, true)
  {
    PlainlyClean(name);
  }

  lemma OptionalClean(name: string, text: string, tail: Entries)
    requires Plainly(name) && Clean(text) && CleanEntries(tail)
    ensures CleanEntries(Optional(name, text, tail))
    ensures PlaceholdersIn(Optional(name, text, tail), true) == (if text == SENTINEL then 1 else 0) + PlaceholdersIn(tail, true)
  {
    PlainlyClean(name);
    SentinelIsLoud();
  }

  /** One placeholder where the token goes, none when it comes from the environment. */
  function TokenCount(modes: seq<string>): nat {
    if IsEnv(modes) then 0 else 1
  }

  lemma ConfigTokenClean(modes: seq<string>)
    ensures Clean(ConfigToken(modes)) && (ConfigToken(modes) == SENTINEL <==> !IsEnv(modes))
  {
    PlainlyClean("");
    SentinelIsLoud();
  }

  lemma UrlAndToken(urlName: string, url: string, tokenName: string, token: string)
    requires Plainly(urlName) && Plainly(tokenName) && !Contains(url, SENTINEL) && Clean(token)
    ensures CleanFields(Entry(urlName, Text(url), Optional(tokenName, token, End)), if token == SENTINEL then 1 else 0)
  {
    HoldsItself();
    OptionalClean(tokenName, token, End);
    EntryClean(urlName, Text(url), Optional(tokenName, token, End));
  }

  lemma HoldsItself()
    ensures Contains(SENTINEL, SENTINEL)
  {
  }

  lemma KeysPlain()
    ensures Plainly("GRAFANA_URL") && Plainly("GRAFANA_SERVICE_ACCOUNT_TOKEN")
  {
  }

  lemma EnvironmentClean(url: string, modes: seq<string>)
    requires !Contains(url, SENTINEL)
    ensures CleanJson(Environment(url, ConfigToken(modes)))
    ensures Placeholders(Environment(url, ConfigToken(modes))) == TokenCount(modes)
  {
    ConfigTokenClean(modes);
    KeysPlain();
    UrlAndToken("GRAFANA_URL", url, "GRAFANA_SERVICE_ACCOUNT_TOKEN", ConfigToken(modes));
  }

  ghost predicate CleanFields(entries: Entries, holes: nat) {
    CleanEntries(entries) && PlaceholdersIn(entries, true) == holes
  }

  lemma LauncherClean(name: string, url: string, modes: seq<string>)
    requires Plainly(name) && !Contains(url, SENTINEL)
    ensures CleanFields(Launcher(name, Launch(modes), Environment(url, ConfigToken(modes))), TokenCount(modes))
  {
    LaunchPlain(modes);
    EnvironmentClean(url, modes);
    LauncherFields(name, Launch(modes), Environment(url, ConfigToken(modes)));
  }

  lemma LauncherFields(name: string, launch: (string, seq<string>), environment: Json)
    requires Plainly(name) && Plainly(launch.0) && AllPlainly(launch.1) && CleanJson(environment)
    ensures CleanFields(Launcher(name, launch, environment), Placeholders(environment))
  {
    PlainlyClean(launch.0);
    StringsPlain(launch.1);
    var env := Entry("env", environment, End);
    EntryClean("env", environment, End);
    EntryClean("args", List(Strings(launch.1)), env);
    EntryClean(name, Text(launch.0), Entry("args", List(Strings(launch.1)), env));
  }

  lemma Nested(name: string, entries: Entries, holes: nat)
    requires Plainly(name) && CleanFields(entries, holes)
    ensures CleanFields(Entry(name, Object(entries), End), holes)
  {
    EntryClean(name, Object(entries), End);
  }

  lemma ServersClean(key: string, withType: bool, launcher: Entries, holes: nat)
    requires CleanFields(launcher, holes)
    ensures CleanJson(ServersDocument(key, withType, launcher))
    ensures Placeholders(ServersDocument(key, withType, launcher)) == holes
  {
    var kind := if withType then "stdio" else "";
    PlainlyClean(kind);
    OptionalClean("type", kind, launcher);
    var entries := Optional("type", kind, launcher);
    NestedTwice(if key == "servers" then "servers" else "mcpServers", "grafana", entries, holes);
  }

  lemma ZedFields(launcher: Entries, holes: nat)
    requires CleanFields(launcher, holes)
    ensures CleanFields(Entry("source", Text("custom"), Entry("command", Object(launcher), End)), holes)
  {
    PlainlyClean("custom");
    Nested("command", launcher, holes);
    EntryClean("source", Text("custom"), Entry("command", Object(launcher), End));
  }

  lemma NestedTwice(outer: string, inner: string, entries: Entries, holes: nat)
    requires Plainly(outer) && Plainly(inner) && CleanFields(entries, holes)
    ensures CleanFields(Entry(outer, Object(Entry(inner, Object(entries), End)), End), holes)
  {
    Nested(inner, entries, holes);
    Nested(outer, Entry(inner, Object(entries), End), holes);
  }

  lemma ZedClean(launcher: Entries, holes: nat)
    requires CleanFields(launcher, holes)
    ensures CleanJson(ZedDocument(launcher)) && Placeholders(ZedDocument(launcher)) == holes
  {
    ZedFields(launcher, holes);
    NestedTwice("context_servers", "grafana", Entry("source", Text("custom"), Entry("command", Object(launcher), End)), holes);
  }

  /** Generator and highlighter agree on every JSON client. */
  lemma McpServersPainted(u: Unicode, key: string, url: string, withType: bool, modes: seq<string>, mask: string)
    requires !Contains(url, SENTINEL) && '\0' !in mask
    ensures var src := Print(McpServers(key, url, withType, modes));
      SeenMasked(src, JsonPieces(u, src), mask, TokenCount(modes))
  {
    LauncherClean("command", url, modes);
    ServersClean(key, withType, Launcher("command", Launch(modes), Environment(url, ConfigToken(modes))), TokenCount(modes));
    PaintedDocument(u, McpServers(key, url, withType, modes), mask);
  }

  lemma ZedPainted(u: Unicode, url: string, modes: seq<string>, mask: string)
    requires !Contains(url, SENTINEL) && '\0' !in mask
    ensures var src := Print(Zed(url, modes));
      SeenMasked(src, JsonPieces(u, src), mask, TokenCount(modes))
  {
    LauncherClean("path", url, modes);
    ZedClean(Launcher("path", Launch(modes), Environment(url, ConfigToken(modes))), TokenCount(modes));
    PaintedDocument(u, Zed(url, modes), mask);
  }
}
