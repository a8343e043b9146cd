/** Names drawn at random: Lease holders and service account tokens. */
module Names {
  import opened Text

  /** `randomHolder` on its 12 random bytes. */
  function Holder(pod: string, entropy: seq<Byte>): string {
    pod + "-" + Hex(entropy)
  }

  /** `tokenName` on the Unix second and its 6 random bytes. */
  function TokenName(second: int, entropy: seq<Byte>): string {
    "mcp-" + FormatInt(second, 36) + "-" + Hex(entropy)
  }

  /** A holder is the pod's name, a dash and 24 hexadecimal digits. */
  lemma HolderParts(pod: string, entropy: seq<Byte>)
    requires |entropy| == 12
    ensures var h := Holder(pod, entropy);
      |h| == |pod| + 25 && h[..|pod|] == pod && h[|pod|] == '-' && h[|pod| + 1..] == Hex(entropy)
  {
  }

  /** A text of three parts joined by dashes splits into them. */
  lemma ThreeParts(word: string, a: string, b: string)
    requires '-' !in word && '-' !in a && '-' !in b
    ensures Split(word + "-" + a + "-" + b, '-') == [word, a, b]
  {
    SplitFirst(word, a + "-" + b, '-');
    SplitFirst(a, b, '-');
    Associate(word + "-", a, "-");
    Associate(word + "-", a + "-", b);
    Associate([word], [a], [b]);
  }

  /** A token name has three parts: a word, the second in base 36, and the bytes in hexadecimal. */
  lemma TokenNameParts(second: nat, entropy: seq<Byte>)
    ensures Split(TokenName(second, entropy), '-') == ["mcp", FormatInt(second, 36), Hex(entropy)]
    ensures NumeralValue(FormatInt(second, 36), 36) == Some(second)
  {
    DigitsPlain(second, 36);
    DigitsRead(second, 36);
    HexPlain(entropy);
    ThreeParts("mcp", FormatInt(second, 36), Hex(entropy));
    assert "mcp" + "-" == "mcp-";
  }

  /** Different bytes give different holders, on one pod and on different ones; no holder is empty. */
  lemma HoldersDistinct(p: string, a: seq<Byte>, q: string, b: seq<Byte>)
    requires Holder(p, a) == Holder(q, b)
    ensures p == q && a == b && Holder(p, a) != ""
  {
    HexPlain(a);
    HexPlain(b);
    LastSplit(p, Hex(a), q, Hex(b), '-');
    HexInjective(a, b);
  }

  /** A token name determines the second and the entropy it was made of. */
  lemma TokenNamesDistinct(s: int, a: seq<Byte>, t: int, b: seq<Byte>)
    requires TokenName(s, a) == TokenName(t, b)
    ensures s == t && a == b
  {
    HexPlain(a);
    HexPlain(b);
    LastSplit("mcp-" + FormatInt(s, 36), Hex(a), "mcp-" + FormatInt(t, 36), Hex(b), '-');
    HexInjective(a, b);
    assert FormatInt(s, 36) == ("mcp-" + FormatInt(s, 36))[4..];
    assert FormatInt(t, 36) == ("mcp-" + FormatInt(t, 36))[4..];
    FormatInjective(s, t, 36);
  }
}
