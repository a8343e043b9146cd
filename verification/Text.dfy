/** Numbers, bytes and separators in text, as Go's strconv, encoding/hex, encoding/base64 and strings write and read them. */
module Text {

  type Byte = b: int | 0 <= b < 256

  datatype Option<+T> = None | Some(value: T)

  lemma Associate<X>(a: seq<X>, b: seq<X>, c: seq<X>)
    ensures a + b + c == a + (b + c)
    ensures a + [] == a && [] + c == c
  {
  }

  // ----- separators

  /** `strings.Split` on one separator character. */
  function Split(s: string, sep: char): (parts: seq<string>)
    ensures |parts| > 0
    decreases |s|
  {
    if sep !in s then [s]
    else
      var i := IndexOf(s, sep);
      [s[..i]] + Split(s[i + 1..], sep)
  }

  /** The first position of a character that occurs. */
  function IndexOf(s: string, c: char): (i: nat)
    requires c in s
    ensures i < |s| && s[i] == c && c !in s[..i]
  {
    if s[0] == c then 0 else
      assert s == [s[0]] + s[1..];
      var i := 1 + IndexOf(s[1..], c);
      assert s[..i] == [s[0]] + s[1..][..i - 1];
      i
  }

  /** What stands before the first separator, and after it, is determined by the whole. */
  lemma FirstSplit(a: string, x: string, b: string, y: string, sep: char)
    requires sep !in a && sep !in b && a + [sep] + x == b + [sep] + y
    ensures a == b && x == y
  {
    var whole := a + [sep] + x;
    assert forall i :: 0 <= i < |a| ==> whole[i] == a[i];
    assert forall i :: 0 <= i < |b| ==> whole[i] == b[i];
    assert whole[|a|] == sep && whole[|b|] == sep;
    assert |a| == |b|;
    assert a == whole[..|a|] && b == whole[..|b|];
    assert x == whole[|a| + 1..] && y == whole[|b| + 1..];
  }

  /** The same for the last separator. */
  lemma LastSplit(a: string, x: string, b: string, y: string, sep: char)
    requires sep !in x && sep !in y && a + [sep] + x == b + [sep] + y
    ensures a == b && x == y
  {
    var whole := a + [sep] + x;
    assert forall i :: |a| < i < |whole| ==> whole[i] == x[i - |a| - 1];
    assert forall i :: |b| < i < |whole| ==> whole[i] == y[i - |b| - 1];
    assert whole[|a|] == sep && whole[|b|] == sep;
    assert |a| == |b|;
    assert a == whole[..|a|] && b == whole[..|b|];
    assert x == whole[|a| + 1..] && y == whole[|b| + 1..];
  }

  lemma SplitFirst(a: string, rest: string, sep: char)
    requires sep !in a
    ensures Split(a + [sep] + rest, sep) == [a] + Split(rest, sep)
  {
    var s := a + [sep] + rest;
    assert s[|a|] == sep;
    var i := IndexOf(s, sep);
    FirstSplit(s[..i], s[i + 1..], a, rest, sep) by {
      assert s == s[..i] + [sep] + s[i + 1..];
    }
  }

  // ----- numbers

  /** The bases in use: decimal, and 36 for the seconds in a token name. */
  predicate IsBase(base: int) {
    base == 10 || base == 36
  }

  function Digit(d: int): char
    requires 0 <= d < 36
  {
    if d < 10 then '0' + d as char else 'a' + (d - 10) as char
  }

  function DigitValue(c: char): Option<int> {
    if '0' <= c <= '9' then Some(c as int - '0' as int)
    else if 'a' <= c <= 'z' then Some(c as int - 'a' as int + 10)
    else None
  }

  function Digits(n: nat, base: int): (s: string)
    requires IsBase(base)
    ensures s != []
    decreases n
  {
    if n < base then [Digit(n)] else Digits(n / base, base) + [Digit(n % base)]
  }

  /** `strconv.FormatInt`. */
  function FormatInt(n: int, base: int): string
    requires IsBase(base)
  {
    if n < 0 then "-" + Digits(-n, base) else Digits(n, base)
  }

  /** The value of a numeral, most significant digit first. */
  function NumeralValue(s: string, base: int): Option<nat>
    requires IsBase(base)
  {
    if s == [] then Some(0)
    else
      var front := NumeralValue(s[..|s| - 1], base);
      var d := DigitValue(s[|s| - 1]);
      if front.Some? && d.Some? && d.value < base then Some(front.value * base + d.value) else None
  }

  const MIN_INT64: int := -0x8000_0000_0000_0000
  const MAX_INT64: int := 0x7fff_ffff_ffff_ffff

  /** `strconv.ParseInt(s, 10, 64)`: an optional sign, at least one digit, and a value in range. */
  function ParseInt(s: string): Option<int> {
    if s == [] then None
    else
      var signed := s[0] == '-' || s[0] == '+';
      var body := if signed then s[1..] else s;
      if body == [] then None
      else
        var v := NumeralValue(body, 10);
        if v.None? then None
        else
          var n: int := if s[0] == '-' then 0 - v.value else v.value;
          if MIN_INT64 <= n <= MAX_INT64 then Some(n) else None
  }

  lemma {:induction false} DigitsRead(n: nat, base: int)
    requires IsBase(base)
    ensures NumeralValue(Digits(n, base), base) == Some(n)
    decreases n
  {
    var s := Digits(n, base);
    if n < base {
      assert s[..|s| - 1] == [];
    } else {
      var q, d := if base == 10 then n / 10 else n / 36, if base == 10 then n % 10 else n % 36;
      DigitsRead(q, base);
      assert s == Digits(q, base) + [Digit(d)];
      assert s[..|s| - 1] == Digits(q, base);
      assert NumeralValue(s, base) == Some(if base == 10 then q * 10 + d else q * 36 + d);
    }
  }

  lemma {:induction false} DigitsPlain(n: nat, base: int)
    requires IsBase(base)
    ensures forall c :: c in Digits(n, base) ==> DigitValue(c).Some?
    decreases n
  {
    if n >= base {
      var q, d := if base == 10 then n / 10 else n / 36, if base == 10 then n % 10 else n % 36;
      DigitsPlain(q, base);
      assert Digits(n, base) == Digits(q, base) + [Digit(d)];
    }
  }

  /** Parsing undoes printing on the whole int64 range. */
  lemma ParseFormat(n: int)
    requires MIN_INT64 <= n <= MAX_INT64
    ensures ParseInt(FormatInt(n, 10)) == Some(n)
  {
    var m := if n < 0 then -n else n;
    DigitsRead(m, 10);
    DigitsPlain(m, 10);
    var s := Digits(m, 10);
    assert DigitValue(s[0]).Some?;
    if n < 0 {
      assert ("-" + s)[1..] == s;
    }
  }

  lemma FormatPlain(n: int, base: int)
    requires IsBase(base)
    ensures forall c :: c in FormatInt(n, base) ==> c == '-' || DigitValue(c).Some?
  {
    DigitsPlain(if n < 0 then -n else n, base);
  }

  lemma FormatInjective(m: int, n: int, base: int)
    requires IsBase(base) && FormatInt(m, base) == FormatInt(n, base)
    ensures m == n
  {
    DigitsRead(if m < 0 then -m else m, base);
    DigitsPlain(if m < 0 then -m else m, base);
    DigitsRead(if n < 0 then -n else n, base);
    DigitsPlain(if n < 0 then -n else n, base);
    var s := FormatInt(m, base);
    assert (m < 0) == (s[0] == '-') by {
      if m >= 0 { assert DigitValue(s[0]).Some?; }
    }
    assert (n < 0) == (s[0] == '-') by {
      if n >= 0 { assert DigitValue(s[0]).Some?; }
    }
    if m < 0 {
      assert Digits(-m, base) == s[1..] == Digits(-n, base);
    }
  }

  // ----- hexadecimal

  function Hex(bytes: seq<Byte>): (s: string)
    ensures |s| == 2 * |bytes|
  {
    if bytes == [] then [] else [Digit(bytes[0] / 16), Digit(bytes[0] % 16)] + Hex(bytes[1..])
  }

  lemma {:induction false} HexPlain(bytes: seq<Byte>)
    ensures forall c :: c in Hex(bytes) ==> DigitValue(c).Some?
  {
    if bytes != [] { HexPlain(bytes[1..]); }
  }

  /** Two hexadecimal digits stand for every byte. */
  lemma {:induction false} HexReads(bytes: seq<Byte>, i: nat)
    requires i < |bytes|
    ensures NumeralValueOf(Hex(bytes)[2 * i], Hex(bytes)[2 * i + 1]) == Some(bytes[i])
  {
    if i > 0 {
      HexReads(bytes[1..], i - 1);
    }
  }

  function NumeralValueOf(high: char, low: char): Option<int> {
    if DigitValue(high).Some? && DigitValue(low).Some? then Some(DigitValue(high).value * 16 + DigitValue(low).value) else None
  }

  lemma {:induction false} HexInjective(a: seq<Byte>, b: seq<Byte>)
    requires Hex(a) == Hex(b)
    ensures a == b
  {
    if a != [] {
      var s := Hex(a);
      assert |a| == |b|;
      assert DigitValue(s[0]) == Some(a[0] / 16) == Some(b[0] / 16);
      assert DigitValue(s[1]) == Some(a[0] % 16) == Some(b[0] % 16);
      assert Hex(a[1..]) == s[2..] == Hex(b[1..]);
      HexInjective(a[1..], b[1..]);
    }
  }

  // ----- UTF-8 (RFC 3629)

  function Utf8Char(c: char): (b: seq<Byte>)
    ensures 1 <= |b| <= 4
  {
    var n := c as int;
    if n < 0x80 then [n]
    else if n < 0x800 then [0xC0 + n / 64, 0x80 + n % 64]
    else if n < 0x10000 then [0xE0 + n / 4096, 0x80 + n / 64 % 64, 0x80 + n % 64]
    else [0xF0 + n / 262144, 0x80 + n / 4096 % 64, 0x80 + n / 64 % 64, 0x80 + n % 64]
  }

  function Utf8(s: string): seq<Byte> {
    if s == "" then [] else Utf8Char(s[0]) + Utf8(s[1..])
  }

  /** The six bits of a continuation byte. */
  function Continuation(b: Byte): Option<int> {
    if 0x80 <= b < 0xC0 then Some(b as int - 0x80) else None
  }

  /** A first byte with the bits of `n` continuation bytes, or nothing if one of them is none. */
  function Continued(first: int, b: seq<Byte>, n: nat): Option<int>
    requires n < |b|
  {
    if n == 0 then Some(first)
    else
      var (front, last) := (Continued(first, b, n - 1), Continuation(b[n]));
      if front.Some? && last.Some? then Some(front.value * 64 + last.value) else None
  }

  /** The first character and its length; a longer form than needed is no character. */
  function ReadUtf8(b: seq<Byte>): Option<(int, nat)> {
    if b == [] then None
    else
      var lead: int := b[0];
      var (bits, size, least) :=
        if lead < 0x80 then (lead, 1, 0)
        else if 0xC0 <= lead < 0xE0 then (lead - 0xC0, 2, 0x80)
        else if 0xE0 <= lead < 0xF0 then (lead - 0xE0, 3, 0x800)
        else if 0xF0 <= lead < 0xF8 then (lead - 0xF0, 4, 0x10000)
        else (0, 0, 0);
      if size == 0 || |b| < size then None
      else
        var n := Continued(bits, b, size - 1);
        if n.Some? && n.value >= least then Some((n.value, size)) else None
  }

  lemma OneContinued(first: int, b: seq<Byte>, n: nat, front: int, low: int)
    requires 0 < n < |b| && Continued(first, b, n - 1) == Some(front) && 0 <= low < 64 && b[n] == 0x80 + low
    ensures Continued(first, b, n) == Some(front * 64 + low)
  {
  }

  lemma TwoRead(h: int, k: int, rest: seq<Byte>)
    requires 0 <= h < 32 && 0 <= k < 64 && h * 64 + k >= 0x80
    ensures ReadUtf8([0xC0 + h, 0x80 + k] + rest) == Some((h * 64 + k, 2))
  {
    OneContinued(h, [0xC0 + h, 0x80 + k] + rest, 1, h, k);
  }

  lemma ThreeRead(h: int, l: int, k: int, rest: seq<Byte>)
    requires 0 <= h < 16 && 0 <= l < 64 && 0 <= k < 64 && (h * 64 + l) * 64 + k >= 0x800
    ensures ReadUtf8([0xE0 + h, 0x80 + l, 0x80 + k] + rest) == Some(((h * 64 + l) * 64 + k, 3))
  {
    var b: seq<Byte> := [0xE0 + h, 0x80 + l, 0x80 + k] + rest;
    OneContinued(h, b, 1, h, l);
    OneContinued(h, b, 2, h * 64 + l, k);
  }

  lemma FourRead(h: int, m: int, l: int, k: int, rest: seq<Byte>)
    requires 0 <= h < 8 && 0 <= m < 64 && 0 <= l < 64 && 0 <= k < 64 && ((h * 64 + m) * 64 + l) * 64 + k >= 0x10000
    ensures ReadUtf8([0xF0 + h, 0x80 + m, 0x80 + l, 0x80 + k] + rest) == Some((((h * 64 + m) * 64 + l) * 64 + k, 4))
  {
    var b: seq<Byte> := [0xF0 + h, 0x80 + m, 0x80 + l, 0x80 + k] + rest;
    OneContinued(h, b, 1, h, m);
    OneContinued(h, b, 2, h * 64 + m, l);
    OneContinued(h, b, 3, (h * 64 + m) * 64 + l, k);
  }

  lemma Sixes(n: int)
    requires 0 <= n
    ensures n == n / 64 * 64 + n % 64 && n / 64 == n / 4096 * 64 + n / 64 % 64 && n / 4096 == n / 262144 * 64 + n / 4096 % 64
  {
  }

  /** A reader gets every character back, in the one length that it has. */
  lemma Utf8Reads(c: char, rest: seq<Byte>)
    ensures ReadUtf8(Utf8Char(c) + rest) == Some((c as int, |Utf8Char(c)|))
  {
    var n := c as int;
    Sixes(n);
    if n >= 0x10000 {
      FourRead(n / 262144, n / 4096 % 64, n / 64 % 64, n % 64, rest);
    } else if n >= 0x800 {
      ThreeRead(n / 4096, n / 64 % 64, n % 64, rest);
    } else if n >= 0x80 {
      TwoRead(n / 64, n % 64, rest);
    }
  }
}
