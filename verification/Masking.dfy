/** Searching for a word in text and replacing it. */
module Masking {
  import opened Painting

  /** `strings.ReplaceAll` for a word that is not empty. */
  function ReplaceAll(s: string, w: string, r: string): string
    requires w != ""
    decreases |s|
  {
    if s == "" then ""
    else if w <= s then r + ReplaceAll(s[|w|..], w, r)
    else [s[0]] + ReplaceAll(s[1..], w, r)
  }

  lemma PrefixAgrees(w: string, s: string)
    ensures w <= s ==> forall i :: 0 <= i < |w| ==> w[i] == s[i]
    ensures w <= s ==> forall c :: c in w ==> c in s
  {
    if w <= s {
      assert w == s[..|w|];
    }
  }

  lemma PrefixSplit(a: string, q: char, b: string, w: string)
    requires q !in w
    ensures w <= a + [q] + b <==> w <= a
  {
    var s := a + [q] + b;
    assert s[|a|] == q;
    PrefixAgrees(w, s);
    PrefixAgrees(w, a);
  }

  lemma TailSplit(a: string, q: char, b: string, n: nat)
    requires n <= |a|
    ensures (a + [q] + b)[n..] == a[n..] + [q] + b
  {
  }

  /** A word that does not contain `q` occurs on one side of it. */
  lemma {:induction false} ContainsSplit(a: string, q: char, b: string, w: string)
    requires w != "" && q !in w
    ensures Contains(a + [q] + b, w) <==> Contains(a, w) || Contains(b, w)
  {
    var s := a + [q] + b;
    PrefixSplit(a, q, b, w);
    if a == "" {
      assert s[1..] == b;
    } else {
      TailSplit(a, q, b, 1);
      ContainsSplit(a[1..], q, b, w);
    }
  }

  /** Replacing works on each side of such a `q`. */
  lemma {:induction false} ReplaceSplit(a: string, q: char, b: string, w: string, r: string)
    requires w != "" && q !in w
    ensures ReplaceAll(a + [q] + b, w, r) == ReplaceAll(a, w, r) + [q] + ReplaceAll(b, w, r)
    decreases |a|
  {
    var s := a + [q] + b;
    PrefixSplit(a, q, b, w);
    if a == "" {
      assert s[1..] == b;
    } else if w <= a {
      TailSplit(a, q, b, |w|);
      ReplaceSplit(a[|w|..], q, b, w, r);
    } else {
      TailSplit(a, q, b, 1);
      ReplaceSplit(a[1..], q, b, w, r);
    }
  }

  lemma {:induction false} ReplaceNone(s: string, w: string, r: string)
    requires w != "" && !Contains(s, w)
    ensures ReplaceAll(s, w, r) == s
  {
    if s != "" {
      ReplaceNone(s[1..], w, r);
    }
  }

  lemma ReplaceWord(w: string, r: string)
    requires w != ""
    ensures ReplaceAll(w, w, r) == r
  {
    assert w[|w|..] == "";
  }

  /** Text that lacks a character of the word lacks the word. */
  lemma {:induction false} LacksWord(s: string, c: char, w: string)
    requires c in w && c !in s
    ensures !Contains(s, w)
  {
    PrefixAgrees(w, s);
    if s != "" {
      LacksWord(s[1..], c, w);
    }
  }

  lemma {:induction false} ContainsLeft(a: string, b: string, w: string)
    requires Contains(a, w)
    ensures Contains(a + b, w)
  {
    if w <= a {
      assert w == (a + b)[..|w|];
    } else {
      assert (a + b)[1..] == a[1..] + b;
      ContainsLeft(a[1..], b, w);
    }
  }

  lemma {:induction false} ContainsRight(a: string, b: string, w: string)
    requires Contains(b, w)
    ensures Contains(a + b, w)
  {
    if a == "" {
      assert a + b == b;
    } else {
      assert (a + b)[1..] == a[1..] + b;
      ContainsRight(a[1..], b, w);
    }
  }
}
