/** JSON as Go's encoding/json writes it: strings, and documents of strings, lists and objects. */
module JsonText {
  import opened Painting
  import T = Text
  import opened Highlight

  // ----- strings

  function Hex4(n: int): string
    requires 0 <= n < 0x10000
  {
    [T.Digit(n / 4096), T.Digit(n / 256 % 16), T.Digit(n / 16 % 16), T.Digit(n % 16)]
  }

  predicate Escaped(c: char) {
    c < ' ' || c == '<' || c == '>' || c == '&' || c == '\U{2028}' || c == '\U{2029}'
  }

  function EncodeChar(c: char): string {
    if c == '"' then "\\\""
    else if c == '\\' then "\\\\"
    else if c == 8 as char then "\\b"
    else if c == 12 as char then "\\f"
    else if c == '\n' then "\\n"
    else if c == '\r' then "\\r"
    else if c == '\t' then "\\t"
    else if Escaped(c) then "\\u" + Hex4(c as int)
    else [c]
  }

  function EncodeBody(s: string): string {
    if s == "" then "" else EncodeChar(s[0]) + EncodeBody(s[1..])
  }

  /** What `json.Marshal` writes for a string. */
  function JsonString(s: string): string {
    "\"" + EncodeBody(s) + "\""
  }

  // ----- a reader for strings, RFC 8259 section 7

  function ReadHex(c: char): T.Option<int> {
    if '0' <= c <= '9' then T.Some(c as int - '0' as int)
    else if 'a' <= c <= 'f' then T.Some(c as int - 'a' as int + 10)
    else if 'A' <= c <= 'F' then T.Some(c as int - 'A' as int + 10)
    else T.None
  }

  /** Four hex digits that name a character; halves of surrogate pairs do not. */
  function ReadHex4(t: string): (r: T.Option<char>)
    requires |t| >= 4
    ensures r.Some? ==> forall i :: 0 <= i < 4 ==> t[i] != '"' && t[i] != '\\'
  {
    var (a, b, c, d) := (ReadHex(t[0]), ReadHex(t[1]), ReadHex(t[2]), ReadHex(t[3]));
    if a.Some? && b.Some? && c.Some? && d.Some? then
      var n := ((a.value * 16 + b.value) * 16 + c.value) * 16 + d.value;
      if 0 <= n < 0xD800 || 0xE000 <= n < 0x10000 then T.Some(n as char) else T.None
    else T.None
  }

  function ReadEscape(c: char): T.Option<char> {
    match c
    case '"' => T.Some('"')
    case '\\' => T.Some('\\')
    case '/' => T.Some('/')
    case 'b' => T.Some(8 as char)
    case 'f' => T.Some(12 as char)
    case 'n' => T.Some('\n')
    case 'r' => T.Some('\r')
    case 't' => T.Some('\t')
    case _ => T.None
  }

  datatype Reading = Bad | Read(text: string, rest: string)

  function Prepend(c: char, r: Reading): Reading {
    if r.Bad? then Bad else Read([c] + r.text, r.rest)
  }

  /** The string after its opening quote, and what follows its closing one. */
  function ReadString(t: string): (r: Reading)
    ensures r.Read? ==> |r.rest| < |t|
  {
    if t == "" || t[0] < ' ' then Bad
    else if t[0] == '"' then Read("", t[1..])
    else if t[0] != '\\' then Prepend(t[0], ReadString(t[1..]))
    else if |t| < 2 then Bad
    else if t[1] == 'u' then
      if |t| < 6 || ReadHex4(t[2..]).None? then Bad
      else Prepend(ReadHex4(t[2..]).value, ReadString(t[6..]))
    else if ReadEscape(t[1]).None? then Bad
    else Prepend(ReadEscape(t[1]).value, ReadString(t[2..]))
  }

  /** Wherever a JSON string ends, the highlighter's scanner stops. */
  lemma {:induction false} ScannerAgrees(t: string)
    requires ReadString(t).Read?
    ensures StringRest(t) <= |t| && t[StringRest(t)..] == ReadString(t).rest
  {
    if t[0] == '"' {
    } else if t[0] != '\\' {
      ScannerAgrees(t[1..]);
    } else if t[1] == 'u' {
      FourPlain(t[2..]);
      assert t[2..][4..] == t[6..];
      ScannerAgrees(t[6..]);
    } else {
      ScannerAgrees(t[2..]);
    }
  }

  lemma FourPlain(t: string)
    requires |t| >= 4 && forall i :: 0 <= i < 4 ==> t[i] != '"' && t[i] != '\\'
    ensures StringRest(t) == 4 + StringRest(t[4..])
  {
    assert t[1..][1..] == t[2..];
    assert t[2..][1..] == t[3..];
    assert t[3..][1..] == t[4..];
    assert StringRest(t) == 1 + StringRest(t[1..]);
    assert StringRest(t[1..]) == 1 + StringRest(t[2..]);
    assert StringRest(t[2..]) == 1 + StringRest(t[3..]);
    assert StringRest(t[3..]) == 1 + StringRest(t[4..]);
  }

  lemma ReadHexDigit(d: int)
    requires 0 <= d < 16
    ensures ReadHex(T.Digit(d)) == T.Some(d)
  {
  }

  lemma Nibbles(n: int)
    requires 0 <= n < 0x10000
    ensures n / 4096 < 16
    ensures ((n / 4096 * 16 + n / 256 % 16) * 16 + n / 16 % 16) * 16 + n % 16 == n
  {
    assert n / 256 == n / 4096 * 16 + n / 256 % 16;
    assert n / 16 == n / 256 * 16 + n / 16 % 16;
  }

  lemma ReadHex4Hex4(c: char)
    requires c as int < 0xD800
    ensures ReadHex4(Hex4(c as int)) == T.Some(c)
  {
    var n := c as int;
    ReadHexDigit(n / 4096);
    ReadHexDigit(n / 256 % 16);
    ReadHexDigit(n / 16 % 16);
    ReadHexDigit(n % 16);
    Nibbles(n);
  }

  lemma ReadShort(x: string, tail: string)
    requires |x| == 2 && x[0] == '\\' && x[1] != 'u' && ReadEscape(x[1]).Some?
    ensures ReadString(x + tail) == Prepend(ReadEscape(x[1]).value, ReadString(tail))
  {
    assert (x + tail)[2..] == tail;
  }

  lemma ReadLong(c: char, tail: string)
    requires c as int < 0xD800
    ensures ReadString("\\u" + Hex4(c as int) + tail) == Prepend(c, ReadString(tail))
  {
    ReadHex4Hex4(c);
    LongParts(Hex4(c as int), tail);
  }

  lemma LongParts(h: string, tail: string)
    requires |h| == 4
    ensures var t := "\\u" + h + tail;
      t[0] == '\\' && t[1] == 'u' && t[6..] == tail && ReadHex4(t[2..]) == ReadHex4(h)
  {
    var t := "\\u" + h + tail;
    assert t[2] == h[0] && t[3] == h[1] && t[4] == h[2] && t[5] == h[3];
  }

  lemma ReadChar(c: char, tail: string)
    ensures ReadString(EncodeChar(c) + tail) == Prepend(c, ReadString(tail))
  {
    var x := EncodeChar(c);
    if |x| == 6 {
      ReadLong(c, tail);
    } else if |x| == 2 {
      ReadShort(x, tail);
    } else {
      assert ([c] + tail)[1..] == tail;
    }
  }

  /** A JSON reader gets the text back from what is written, and stops right after it. */
  lemma {:induction false} ReadsBack(s: string, rest: string)
    ensures ReadString(EncodeBody(s) + "\"" + rest) == Read(s, rest)
  {
    if s == "" {
      var t := EncodeBody(s) + "\"" + rest;
      assert t[0] == '"' && t[1..] == rest;
    } else {
      ReadsBack(s[1..], rest);
      ReadChar(s[0], EncodeBody(s[1..]) + "\"" + rest);
      assert EncodeBody(s) + "\"" + rest == EncodeChar(s[0]) + (EncodeBody(s[1..]) + "\"" + rest);
      assert s == [s[0]] + s[1..];
    }
  }

  /** So the scanner stops exactly at the closing quote of every encoded string. */
  lemma StopsAtQuote(s: string, rest: string)
    ensures JsonString(s) + rest != "" && StringLength(JsonString(s) + rest) == |JsonString(s)|
    ensures (JsonString(s) + rest)[..|JsonString(s)|] == JsonString(s)
    ensures (JsonString(s) + rest)[|JsonString(s)|..] == rest
  {
    var t := EncodeBody(s) + "\"" + rest;
    ReadsBack(s, rest);
    ScannerAgrees(t);
    assert (JsonString(s) + rest)[1..] == t;
  }

  // ----- what encoding does to words in capitals

  predicate IsLoud(c: char) {
    'A' <= c <= 'Z' || c == '_'
  }

  predicate Loud(w: string) {
    forall c :: c in w ==> IsLoud(c)
  }

  lemma QuietEscape(c: char)
    ensures EncodeChar(c) == [c] || (EncodeChar(c) != "" && forall x :: x in EncodeChar(c) ==> !IsLoud(x) && x >= ' ')
    ensures EncodeChar(c) == [c] ==> c >= ' ' && c != '"'
    ensures IsLoud(c) ==> EncodeChar(c) == [c]
  {
    if Escaped(c) {
      var n := c as int;
      QuietDigit(n / 4096);
      QuietDigit(n / 256 % 16);
      QuietDigit(n / 16 % 16);
      QuietDigit(n % 16);
    }
  }

  lemma QuietDigit(d: int)
    requires 0 <= d < 16
    ensures !IsLoud(T.Digit(d)) && T.Digit(d) >= ' '
  {
  }

  lemma {:induction false} PrefixOfBody(s: string, w: string)
    requires Loud(w) && w <= EncodeBody(s)
    ensures w <= s
  {
    if w != "" {
      var body := EncodeBody(s);
      assert w[0] in w && w[0] == body[0];
      QuietEscape(s[0]);
      assert body[0] == EncodeChar(s[0])[0];
      assert body[1..] == EncodeBody(s[1..]);
      assert w[1..] == body[1..][..|w| - 1];
      assert forall c :: c in w[1..] ==> c in w;
      PrefixOfBody(s[1..], w[1..]);
    }
  }

  lemma {:induction false} SkipQuiet(x: string, rest: string, w: string)
    requires w != "" && Loud(w) && forall c :: c in x ==> !IsLoud(c)
    ensures Contains(x + rest, w) <==> Contains(rest, w)
  {
    if x == "" {
      assert x + rest == rest;
    } else {
      assert w[0] in w && x[0] in x && (x + rest)[0] == x[0];
      assert (x + rest)[1..] == x[1..] + rest;
      SkipQuiet(x[1..], rest, w);
    }
  }

  /** Encoding does not make such a word appear. */
  lemma {:induction false} ContainsBody(s: string, w: string)
    requires w != "" && Loud(w) && Contains(EncodeBody(s), w)
    ensures Contains(s, w)
  {
    if s != "" {
      var body := EncodeBody(s);
      QuietEscape(s[0]);
      if EncodeChar(s[0]) == [s[0]] {
        assert body[1..] == EncodeBody(s[1..]);
        if w <= body {
          PrefixOfBody(s, w);
        } else {
          ContainsBody(s[1..], w);
        }
      } else {
        SkipQuiet(EncodeChar(s[0]), EncodeBody(s[1..]), w);
        ContainsBody(s[1..], w);
      }
    }
  }

  /** Nor does it change such a word. */
  lemma {:induction false} LoudBody(w: string)
    requires Loud(w)
    ensures EncodeBody(w) == w
  {
    if w != "" {
      assert w[0] in w;
      QuietEscape(w[0]);
      assert forall c :: c in w[1..] ==> c in w;
      LoudBody(w[1..]);
    }
  }

  lemma {:induction false} BodyIsText(s: string, c: char)
    requires c in EncodeBody(s)
    ensures c >= ' ' && (IsLoud(c) ==> c in s)
  {
    if s != "" {
      QuietEscape(s[0]);
      if c !in EncodeChar(s[0]) {
        BodyIsText(s[1..], c);
      }
    }
  }

  /** A character is written as it is exactly if JSON, HTML and scripts all leave it alone. */
  lemma WrittenAsIs(c: char)
    ensures EncodeChar(c) == [c] <==>
      c >= ' ' && c !in ['"', '\\', '<', '>', '&', '\U{2028}', '\U{2029}']
  {
  }

  /** What is written is safe inside HTML and scripts. */
  lemma {:induction false} EncodedSafe(s: string)
    ensures forall c :: c in EncodeBody(s) ==> c != '<' && c != '>' && c != '&' && c != '\U{2028}' && c != '\U{2029}'
  {
    if s != "" {
      EncodedSafe(s[1..]);
      SafeChar(s[0]);
    }
  }

  lemma SafeChar(c: char)
    ensures forall x :: x in EncodeChar(c) ==> x != '<' && x != '>' && x != '&' && x != '\U{2028}' && x != '\U{2029}'
  {
    if Escaped(c) {
      var n := c as int;
      SafeDigit(n / 4096);
      SafeDigit(n / 256 % 16);
      SafeDigit(n / 16 % 16);
      SafeDigit(n % 16);
    }
  }

  lemma SafeDigit(d: int)
    requires 0 <= d < 16
    ensures '0' <= T.Digit(d) <= 'f' && T.Digit(d) != '<' && T.Digit(d) != '>'
  {
  }

  // ----- documents

  datatype Json = Text(text: string) | List(entries: Entries) | Object(entries: Entries)
  datatype Entries = End | Entry(name: string, value: Json, tail: Entries)

  /** What is printed: a character of the layout, or a string. */
  datatype Token = Mark(c: char) | Quoted(text: string)

  function Marks(s: string): seq<Token> {
    if s == "" then [] else [Mark(s[0])] + Marks(s[1..])
  }

  function Spaces(n: nat): string {
    if n == 0 then "" else " " + Spaces(n - 1)
  }

  function NewLine(depth: nat): string {
    "\n" + Spaces(2 * depth)
  }

  /** `json.MarshalIndent` with two spaces. */
  function Tokens(v: Json, depth: nat): seq<Token>
    decreases v
  {
    match v
    case Text(s) => [Quoted(s)]
    case List(entries) => [Mark('[')] + Within(entries, false, depth) + [Mark(']')]
    case Object(entries) => [Mark('{')] + Within(entries, true, depth) + [Mark('}')]
  }

  function Within(entries: Entries, named: bool, depth: nat): seq<Token>
    decreases entries, 1
  {
    if entries.End? then [] else EntryTokens(entries, named, depth + 1) + Marks(NewLine(depth))
  }

  function EntryTokens(entries: Entries, named: bool, depth: nat): seq<Token>
    decreases entries, 0
  {
    match entries
    case End => []
    case Entry(name, value, tail) =>
      Marks(NewLine(depth))
      + (if named then [Quoted(name)] + Marks(": ") else [])
      + Tokens(value, depth)
      + (if tail.End? then [] else [Mark(',')] + EntryTokens(tail, named, depth))
  }

  function Raw(t: Token): string {
    match t
    case Mark(c) => [c]
    case Quoted(s) => JsonString(s)
  }

  function Join(toks: seq<Token>): string {
    if toks == [] then "" else Raw(toks[0]) + Join(toks[1..])
  }

  function Print(v: Json): string {
    Join(Tokens(v, 0))
  }
}
