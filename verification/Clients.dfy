/** What the clients find in the configurations: the command line, the URL and the place of the token. */
module Clients {
  import opened Painting
  import opened JsonText
  import opened JsonReading
  import opened Formats
  import T = Text

  // ----- looking into a document

  function EntryOf(entries: Entries, name: string): T.Option<Json> {
    if entries.End? then T.None
    else if entries.name == name then T.Some(entries.value)
    else EntryOf(entries.tail, name)
  }

  function Field(v: T.Option<Json>, name: string): T.Option<Json> {
    if v.Some? && v.value.Object? then EntryOf(v.value.entries, name) else T.None
  }

  function TextsIn(entries: Entries): seq<string> {
    if entries.End? then []
    else (if entries.value.Text? then [entries.value.text] else []) + TextsIn(entries.tail)
  }

  /** A list of nothing but these strings. */
  ghost predicate IsList(v: T.Option<Json>, values: seq<string>) {
    v.Some? && v.value.List? && OnlyTexts(v.value.entries) && TextsIn(v.value.entries) == values
  }

  ghost predicate OnlyTexts(entries: Entries) {
    entries.Entry? ==> entries.value.Text? && OnlyTexts(entries.tail)
  }

  lemma {:induction false} StringsListed(values: seq<string>)
    ensures OnlyTexts(Strings(values)) && TextsIn(Strings(values)) == values && WellNamedAll(Strings(values), false)
  {
    if values != [] {
      StringsListed(values[1..]);
      assert values == [values[0]] + values[1..];
    }
  }

  /** How a client starts the server, with which environment; the second mode asks to leave the token to direnv. */
  ghost predicate Starts(server: T.Option<Json>, command: string, url: string, modes: seq<string>) {
    && Field(server, command) == T.Some(Text(Launch(modes).0)) && IsList(Field(server, "args"), Launch(modes).1)
    && Field(Field(server, "env"), "GRAFANA_URL") == T.Some(Text(url))
    && Field(Field(server, "env"), "GRAFANA_SERVICE_ACCOUNT_TOKEN") ==
       if |modes| > 1 && modes[1] == "env" then T.None else T.Some(Text(SENTINEL))
  }

  lemma EnvironmentFound(url: string, modes: seq<string>)
    ensures var env := Environment(url, ConfigToken(modes));
      && WellNamed(env) && EntryOf(env.entries, "GRAFANA_URL") == T.Some(Text(url))
      && EntryOf(env.entries, "GRAFANA_SERVICE_ACCOUNT_TOKEN") ==
         if |modes| > 1 && modes[1] == "env" then T.None else T.Some(Text(SENTINEL))
  {
    SentinelIsLoud();
    var rest := Optional("GRAFANA_SERVICE_ACCOUNT_TOKEN", ConfigToken(modes), End);
    assert WellNamedAll(rest, true) && EntryOf(rest, "GRAFANA_SERVICE_ACCOUNT_TOKEN") ==
      if |modes| > 1 && modes[1] == "env" then T.None else T.Some(Text(SENTINEL));
  }

  /** What follows the first entry is found behind it. */
  lemma Behind(name: string, value: Json, tail: Entries, other: string)
    ensures EntryOf(Entry(name, value, tail), other) == if name == other then T.Some(value) else EntryOf(tail, other)
    ensures WellNamedAll(Entry(name, value, tail), true) <==> WellNamed(value) && WellNamedAll(tail, true)
  {
  }

  lemma LauncherFound(command: string, launch: (string, seq<string>), env: Json)
    requires command in ["command", "path"] && WellNamed(env)
    ensures var all := Launcher(command, launch, env);
      && WellNamedAll(all, true) && EntryOf(all, command) == T.Some(Text(launch.0))
      && EntryOf(all, "args") == T.Some(List(Strings(launch.1))) && EntryOf(all, "env") == T.Some(env)
      && EntryOf(all, "type") == T.None
  {
    StringsListed(launch.1);
    var last := Entry("env", env, End);
    var args := Entry("args", List(Strings(launch.1)), last);
    Behind("env", env, End, "type");
    Behind("env", env, End, "env");
    assert WellNamed(List(Strings(launch.1)));
    Behind("args", List(Strings(launch.1)), last, "type");
    Behind("args", List(Strings(launch.1)), last, "env");
    Behind("args", List(Strings(launch.1)), last, "args");
    Behind(command, Text(launch.0), args, "type");
    Behind(command, Text(launch.0), args, "env");
    Behind(command, Text(launch.0), args, "args");
    Behind(command, Text(launch.0), args, command);
  }

  lemma LauncherStarts(command: string, url: string, modes: seq<string>, withType: bool)
    requires command in ["command", "path"]
    ensures var launcher := Launcher(command, Launch(modes), Environment(url, ConfigToken(modes)));
      var all := Optional("type", if withType then "stdio" else "", launcher);
      && Starts(T.Some(Object(all)), command, url, modes) && WellNamedAll(all, true)
      && EntryOf(all, "type") == if withType then T.Some(Text("stdio")) else T.None
  {
    var env := Environment(url, ConfigToken(modes));
    var launcher := Launcher(command, Launch(modes), env);
    EnvironmentFound(url, modes);
    LauncherFound(command, Launch(modes), env);
    StringsListed(Launch(modes).1);
    if withType {
      Behind("type", Text("stdio"), launcher, "type");
      Behind("type", Text("stdio"), launcher, "env");
      Behind("type", Text("stdio"), launcher, "args");
      Behind("type", Text("stdio"), launcher, command);
    }
  }

  lemma NestedFound(outer: string, inner: string, entries: Entries)
    requires WellNamedAll(entries, true)
    ensures var doc := Object(Entry(outer, Object(Entry(inner, Object(entries), End)), End));
      && WellNamed(doc) && Field(Field(T.Some(doc), outer), inner) == T.Some(Object(entries))
      && forall other :: other != outer ==> Field(T.Some(doc), other) == T.None
  {
    var middle := Entry(inner, Object(entries), End);
    assert WellNamed(Object(entries)) && WellNamedAll(End, true);
    Behind(inner, Object(entries), End, inner);
    assert WellNamed(Object(middle));
    Behind(outer, Object(middle), End, outer);
    forall other | other != outer
      ensures EntryOf(Entry(outer, Object(middle), End), other) == T.None
    {
      Behind(outer, Object(middle), End, other);
    }
  }

  /** A reader of the printed mcpServers or servers document finds the server under its key, and the type if asked for. */
  lemma McpServersFound(key: string, url: string, withType: bool, modes: seq<string>)
    ensures ReadDocument(Print(McpServers(key, url, withType, modes))).Document?
    ensures var doc := T.Some(ReadDocument(Print(McpServers(key, url, withType, modes))).value);
      var (root, other) := if key == "servers" then ("servers", "mcpServers") else ("mcpServers", "servers");
      && Starts(Field(Field(doc, root), "grafana"), "command", url, modes) && Field(doc, other) == T.None
      && Field(Field(Field(doc, root), "grafana"), "type") == if withType then T.Some(Text("stdio")) else T.None
  {
    LauncherStarts("command", url, modes, withType);
    NestedFound(if key == "servers" then "servers" else "mcpServers", "grafana",
      Optional("type", if withType then "stdio" else "", Launcher("command", Launch(modes), Environment(url, ConfigToken(modes)))));
    PrintReadsBack(McpServers(key, url, withType, modes));
  }

  /** Zed nests the same under a custom source. */
  lemma ZedFound(url: string, modes: seq<string>)
    ensures ReadDocument(Print(Zed(url, modes))).Document?
    ensures var grafana := Field(Field(T.Some(ReadDocument(Print(Zed(url, modes))).value), "context_servers"), "grafana");
      Field(grafana, "source") == T.Some(Text("custom")) && Starts(Field(grafana, "command"), "path", url, modes)
  {
    var launcher := Launcher("path", Launch(modes), Environment(url, ConfigToken(modes)));
    LauncherStarts("path", url, modes, false);
    var command := Entry("command", Object(launcher), End);
    Behind("command", Object(launcher), End, "command");
    Behind("source", Text("custom"), command, "command");
    Behind("source", Text("custom"), command, "source");
    NestedFound("context_servers", "grafana", Entry("source", Text("custom"), command));
    PrintReadsBack(Zed(url, modes));
  }
}
