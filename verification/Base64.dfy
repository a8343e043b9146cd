/** Unpadded base64url (RFC 4648 section 5) as Go writes it and reads it back. */
module Base64 {
  import opened Text

  function Symbol(v: int): (c: char)
    requires 0 <= v < 64
    ensures SymbolValue(c) == Some(v)
  {
    if v < 26 then 'A' + v as char
    else if v < 52 then 'a' + (v - 26) as char
    else if v < 62 then '0' + (v - 52) as char
    else if v == 62 then '-' else '_'
  }

  function SymbolValue(c: char): (v: Option<int>)
    ensures v.Some? ==> 0 <= v.value < 64
  {
    if 'A' <= c <= 'Z' then Some(c as int - 'A' as int)
    else if 'a' <= c <= 'z' then Some(c as int - 'a' as int + 26)
    else if '0' <= c <= '9' then Some(c as int - '0' as int + 52)
    else if c == '-' then Some(62)
    else if c == '_' then Some(63)
    else None
  }

  function EncodedLength(n: nat): nat {
    n / 3 * 4 + (n % 3 * 8 + 5) / 6
  }

  /** Three bytes in four symbols. */
  function Group(b: Byte, c: Byte, d: Byte): (s: string)
    ensures |s| == 4 && forall x :: x in s ==> SymbolValue(x).Some?
  {
    [Symbol(b / 4), Symbol(b % 4 * 16 + c / 16), Symbol(c % 16 * 4 + d / 64), Symbol(d % 64)]
  }

  /** A last group of one or two bytes is as if zeros followed, without the symbols that only carry those. */
  function Encode(b: seq<Byte>): (s: string)
    ensures |s| == EncodedLength(|b|)
    ensures forall c :: c in s ==> SymbolValue(c).Some?
  {
    if |b| == 0 then ""
    else if |b| == 1 then Group(b[0], 0, 0)[..2]
    else if |b| == 2 then Group(b[0], b[1], 0)[..3]
    else Group(b[0], b[1], b[2]) + Encode(b[3..])
  }

  /** The decoder passes over line breaks wherever they stand. */
  function DropBreaks(s: string): string {
    if s == [] then []
    else if s[0] == '\r' || s[0] == '\n' then DropBreaks(s[1..])
    else [s[0]] + DropBreaks(s[1..])
  }

  function Decode(s: string): Option<seq<Byte>> {
    DecodeGroups(DropBreaks(s))
  }

  function ReadGroup(w: char, x: char, y: char, z: char): Option<(Byte, Byte, Byte)> {
    var (v0, v1, v2, v3) := (SymbolValue(w), SymbolValue(x), SymbolValue(y), SymbolValue(z));
    if v0.Some? && v1.Some? && v2.Some? && v3.Some? then
      Some((v0.value * 4 + v1.value / 16, v1.value % 16 * 16 + v2.value / 4, v2.value % 4 * 64 + v3.value))
    else None
  }

  /** A last group of two or three symbols carries one or two bytes, whatever its spare bits. */
  function DecodeGroups(s: string): Option<seq<Byte>> {
    if |s| == 0 then Some([])
    else if |s| == 1 then None
    else if |s| == 2 then
      var g := ReadGroup(s[0], s[1], 'A', 'A');
      if g.None? then None else Some([g.value.0])
    else if |s| == 3 then
      var g := ReadGroup(s[0], s[1], s[2], 'A');
      if g.None? then None else Some([g.value.0, g.value.1])
    else
      var g, rest := ReadGroup(s[0], s[1], s[2], s[3]), DecodeGroups(s[4..]);
      if g.None? || rest.None? then None else Some([g.value.0, g.value.1, g.value.2] + rest.value)
  }

  lemma {:induction false} BreaksShorten(s: string)
    ensures |DropBreaks(s)| <= |s|
  {
    if s != [] { BreaksShorten(s[1..]); }
  }

  lemma {:induction false} GroupsLength(s: string)
    requires DecodeGroups(s).Some?
    ensures |DecodeGroups(s).value| * 4 <= |s| * 3
  {
    if |s| > 3 { GroupsLength(s[4..]); }
  }

  /** Four characters carry at most three bytes. */
  lemma DecodedLength(s: string)
    requires Decode(s).Some?
    ensures |Decode(s).value| * 4 <= |s| * 3
  {
    BreaksShorten(s);
    GroupsLength(DropBreaks(s));
  }

  lemma {:induction false} NoBreaks(s: string)
    requires forall c :: c in s ==> SymbolValue(c).Some?
    ensures DropBreaks(s) == s
  {
    if s != [] {
      assert SymbolValue(s[0]).Some?;
      NoBreaks(s[1..]);
      assert s == [s[0]] + s[1..];
    }
  }

  lemma ReadSymbols(v0: int, v1: int, v2: int, v3: int)
    requires 0 <= v0 < 64 && 0 <= v1 < 64 && 0 <= v2 < 64 && 0 <= v3 < 64
    ensures ReadGroup(Symbol(v0), Symbol(v1), Symbol(v2), Symbol(v3)) ==
      Some((v0 * 4 + v1 / 16, v1 % 16 * 16 + v2 / 4, v2 % 4 * 64 + v3))
  {
  }

  /** Cutting three bytes into four symbols loses nothing. */
  lemma Regrouped(b: Byte, c: Byte, d: Byte)
    ensures b / 4 * 4 + (b % 4 * 16 + c / 16) / 16 == b
    ensures (b % 4 * 16 + c / 16) % 16 * 16 + (c % 16 * 4 + d / 64) / 4 == c
    ensures (c % 16 * 4 + d / 64) % 4 * 64 + d % 64 == d
  {
  }

  lemma GroupRead(b: Byte, c: Byte, d: Byte)
    ensures var s := Group(b, c, d); ReadGroup(s[0], s[1], s[2], s[3]) == Some((b, c, d))
  {
    ReadSymbols(b / 4, b % 4 * 16 + c / 16, c % 16 * 4 + d / 64, d % 64);
    Regrouped(b, c, d);
  }

  lemma ZerosPad(b: Byte, c: Byte)
    ensures Group(b, c, 0)[3] == 'A' && Group(b, 0, 0)[2] == 'A'
  {
  }

  lemma GroupLast(g: string, b: Byte, c: Byte)
    requires |g| == 4 && g[3] == 'A' && ReadGroup(g[0], g[1], g[2], g[3]) == Some((b, c, 0))
    ensures DecodeGroups(g[..3]) == Some([b, c])
    ensures g[2] == 'A' ==> DecodeGroups(g[..2]) == Some([b])
  {
  }

  lemma OneByte(b: Byte)
    ensures DecodeGroups(Group(b, 0, 0)[..2]) == Some([b])
  {
    GroupRead(b, 0, 0);
    ZerosPad(b, 0);
    GroupLast(Group(b, 0, 0), b, 0);
  }

  lemma TwoBytes(b: Byte, c: Byte)
    ensures DecodeGroups(Group(b, c, 0)[..3]) == Some([b, c])
  {
    GroupRead(b, c, 0);
    ZerosPad(b, c);
    GroupLast(Group(b, c, 0), b, c);
  }

  lemma GroupFirst(g: string, tail: string, b: Byte, c: Byte, d: Byte, rest: seq<Byte>)
    requires |g| == 4 && ReadGroup(g[0], g[1], g[2], g[3]) == Some((b, c, d)) && DecodeGroups(tail) == Some(rest)
    ensures DecodeGroups(g + tail) == Some([b, c, d] + rest)
  {
    assert (g + tail)[4..] == tail;
  }

  lemma FirstBytes(b: seq<Byte>)
    ensures |b| == 1 ==> b == [b[0]]
    ensures |b| == 2 ==> b == [b[0], b[1]]
    ensures |b| > 2 ==> b == [b[0], b[1], b[2]] + b[3..]
  {
  }

  lemma ShortDecodes(b: seq<Byte>)
    requires 0 < |b| < 3
    ensures DecodeGroups(Encode(b)) == Some(b)
  {
    FirstBytes(b);
    if |b| == 1 { OneByte(b[0]); } else { TwoBytes(b[0], b[1]); }
  }

  lemma {:induction false} GroupsDecode(b: seq<Byte>)
    ensures DecodeGroups(Encode(b)) == Some(b)
  {
    if 0 < |b| < 3 {
      ShortDecodes(b);
    } else if |b| > 2 {
      GroupsDecode(b[3..]);
      GroupRead(b[0], b[1], b[2]);
      GroupFirst(Group(b[0], b[1], b[2]), Encode(b[3..]), b[0], b[1], b[2], b[3..]);
      FirstBytes(b);
    }
  }

  /** Decoding undoes encoding. */
  lemma DecodeEncode(b: seq<Byte>)
    ensures Decode(Encode(b)) == Some(b)
  {
    NoBreaks(Encode(b));
    GroupsDecode(b);
  }
}
