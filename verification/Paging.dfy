/** Pages chained by continuation tokens, as the IAM API returns lists. */
module Paging {
  import opened Text

  datatype Page<T> = Page(items: seq<T>, next: string)

  /** What the server answers for a continuation token; the empty token asks for the first page. */
  type Server<!T> = string -> Option<Page<T>>

  /** The token with which page `k` is asked for. */
  function TokenFor<T>(pages: seq<Page<T>>, k: nat): string
    requires k <= |pages|
  {
    if k == 0 then "" else pages[k - 1].next
  }

  /** Pages that the server chained one after another, with more to come after each. */
  ghost predicate Read<T>(fetch: Server<T>, pages: seq<Page<T>>) {
    && (forall i {:trigger TokenFor(pages, i)} :: 0 <= i < |pages| ==> fetch(TokenFor(pages, i)) == Some(pages[i]))
    && (forall i :: 0 <= i < |pages| ==> pages[i].next != "")
  }

  /** A whole list split into pages: only the last one names no continuation. */
  ghost predicate Chain<T>(fetch: Server<T>, pages: seq<Page<T>>) {
    && pages != []
    && Read(fetch, pages[..|pages| - 1])
    && fetch(TokenFor(pages, |pages| - 1)) == Some(pages[|pages| - 1])
    && pages[|pages| - 1].next == ""
  }

  function Items<T>(pages: seq<Page<T>>): seq<T> {
    if pages == [] then [] else Items(pages[..|pages| - 1]) + pages[|pages| - 1].items
  }

  lemma ItemsAppend<T>(pages: seq<Page<T>>, p: Page<T>)
    ensures Items(pages + [p]) == Items(pages) + p.items
  {
    assert (pages + [p])[..|pages|] == pages;
  }

  lemma TokenOfPrefix<T>(pages: seq<Page<T>>, n: nat, k: nat)
    requires k <= n <= |pages|
    ensures TokenFor(pages[..n], k) == TokenFor(pages, k)
  {
  }

  lemma ReadOn<T>(fetch: Server<T>, pages: seq<Page<T>>, page: Page<T>)
    requires Read(fetch, pages) && fetch(TokenFor(pages, |pages|)) == Some(page) && page.next != ""
    ensures Read(fetch, pages + [page])
  {
    var longer := pages + [page];
    assert longer[..|pages|] == pages;
    forall i {:trigger TokenFor(longer, i)} | 0 <= i < |longer|
      ensures fetch(TokenFor(longer, i)) == Some(longer[i])
    {
      TokenOfPrefix(longer, |pages|, i);
    }
  }

  /** Every page of a chain is what the server answers for the token of the page before. */
  lemma ChainAt<T>(fetch: Server<T>, all: seq<Page<T>>, i: nat)
    requires Chain(fetch, all) && i < |all|
    ensures fetch(TokenFor(all, i)) == Some(all[i]) && (all[i].next == "" <==> i == |all| - 1)
  {
    var front := all[..|all| - 1];
    TokenOfPrefix(all, |all| - 1, i);
    if i < |all| - 1 {
      assert fetch(TokenFor(front, i)) == Some(front[i]);
    }
  }

  /** Any chain begins with the pages that were read, and goes on. */
  lemma {:induction false} ChainThrough<T>(fetch: Server<T>, pages: seq<Page<T>>, all: seq<Page<T>>, k: nat)
    requires Read(fetch, pages) && Chain(fetch, all) && k <= |pages|
    ensures k < |all| && all[..k] == pages[..k]
  {
    if k > 0 {
      ChainThrough(fetch, pages, all, k - 1);
      ChainAt(fetch, all, k - 1);
      TokenOfPrefix(all, k - 1, k - 1);
      TokenOfPrefix(pages, k - 1, k - 1);
      assert fetch(TokenFor(pages, k - 1)) == Some(pages[k - 1]);
      assert all[k - 1] == pages[k - 1];
      assert all[..k] == all[..k - 1] + [all[k - 1]] && pages[..k] == pages[..k - 1] + [pages[k - 1]];
    }
  }

  lemma ChainNext<T>(fetch: Server<T>, pages: seq<Page<T>>, all: seq<Page<T>>)
    requires Read(fetch, pages) && Chain(fetch, all)
    ensures |pages| < |all| && all[..|pages|] == pages && fetch(TokenFor(pages, |pages|)) == Some(all[|pages|])
  {
    ChainThrough(fetch, pages, all, |pages|);
    assert pages[..|pages|] == pages;
    ChainAt(fetch, all, |pages|);
    TokenOfPrefix(all, |pages|, |pages|);
  }

  /** After the same token a chain goes on the same way and ends at the same distance: no token comes twice. */
  lemma {:induction false} ChainDistinct<T>(fetch: Server<T>, all: seq<Page<T>>, i: nat, j: nat)
    requires Chain(fetch, all) && i < j < |all|
    ensures all[i].next != all[j].next
    decreases |all| - j
  {
    ChainAt(fetch, all, i);
    ChainAt(fetch, all, j);
    if j < |all| - 1 {
      ChainAt(fetch, all, i + 1);
      ChainAt(fetch, all, j + 1);
      ChainDistinct(fetch, all, i + 1, j + 1);
      assert TokenFor(all, i + 1) == all[i].next && TokenFor(all, j + 1) == all[j].next;
    }
  }

  /** No chain of pages starts from the first one. */
  ghost predicate Unchained<T(!new)>(fetch: Server<T>) {
    forall all :: !Chain(fetch, all)
  }

  lemma DeadEnd<T(!new)>(fetch: Server<T>, pages: seq<Page<T>>)
    requires Read(fetch, pages) && fetch(TokenFor(pages, |pages|)).None?
    ensures Unchained(fetch)
  {
    forall all
      ensures !Chain(fetch, all)
    {
      if Chain(fetch, all) { ChainNext(fetch, pages, all); }
    }
  }

  function Nexts<T>(pages: seq<Page<T>>): set<string> {
    set i | 0 <= i < |pages| :: pages[i].next
  }

  lemma NextsAppend<T>(pages: seq<Page<T>>, page: Page<T>)
    ensures Nexts(pages + [page]) == Nexts(pages) + {page.next}
  {
    assert forall i :: 0 <= i < |pages| ==> (pages + [page])[i] == pages[i];
    assert (pages + [page])[|pages|] == page;
  }

  /** A token seen before leads round in a circle, and no chain does. */
  lemma Circle<T(!new)>(fetch: Server<T>, pages: seq<Page<T>>, page: Page<T>)
    requires Read(fetch, pages + [page]) && page.next in Nexts(pages)
    ensures Unchained(fetch)
  {
    var i :| 0 <= i < |pages| && pages[i].next == page.next;
    forall all
      ensures !Chain(fetch, all)
    {
      if Chain(fetch, all) {
        ChainNext(fetch, pages + [page], all);
        assert all[i] == (pages + [page])[i] && all[|pages|] == (pages + [page])[|pages|];
        ChainDistinct(fetch, all, i, |pages|);
      }
    }
  }

  /** The last page completes the one chain there is. */
  lemma LastPage<T(!new)>(fetch: Server<T>, pages: seq<Page<T>>, page: Page<T>)
    requires Read(fetch, pages) && fetch(TokenFor(pages, |pages|)) == Some(page) && page.next == ""
    ensures Chain(fetch, pages + [page])
    ensures forall all :: Chain(fetch, all) ==> all == pages + [page]
  {
    var longer := pages + [page];
    assert longer[..|pages|] == pages;
    TokenOfPrefix(longer, |pages|, |pages|);
    forall all | Chain(fetch, all)
      ensures all == longer
    {
      ChainNext(fetch, pages, all);
      ChainAt(fetch, all, |pages|);
    }
  }

  // ----- reading a whole list

  /** Either every item of the one chain of pages, in order, or an error because there is no chain. */
  ghost predicate ReadsAll<T(!new)>(fetch: Server<T>, r: Option<seq<T>>) {
    match r
    case Some(items) =>
      && (exists pages :: Chain(fetch, pages))
      && (forall pages :: Chain(fetch, pages) ==> items == Items(pages))
    case None => Unchained(fetch)
  }

  /** The loop of `tokens` with the IAM API. `tokens` bounds the continuation tokens the server can name. */
  method ReadAll<T(!new)>(fetch: Server<T>, ghost tokens: set<string>) returns (r: Option<seq<T>>)
    requires forall c :: fetch(c).Some? && fetch(c).value.next != "" ==> fetch(c).value.next in tokens
    ensures ReadsAll(fetch, r)
  {
    var continuation := "";
    var seen: set<string> := {};
    var all: seq<T> := [];
    ghost var pages: seq<Page<T>> := [];
    while true
      invariant Read(fetch, pages) && continuation == TokenFor(pages, |pages|)
      invariant seen <= tokens && seen == Nexts(pages) && all == Items(pages)
      decreases |tokens - seen|
    {
      var page := fetch(continuation);
      if page.None? {
        DeadEnd(fetch, pages);
        return None;
      }
      all := all + page.value.items;
      ItemsAppend(pages, page.value);
      if page.value.next == "" {
        LastPage(fetch, pages, page.value);
        return Some(all);
      }
      ReadOn(fetch, pages, page.value);
      NextsAppend(pages, page.value);
      if page.value.next in seen {
        Circle(fetch, pages, page.value);
        return None;
      }
      assert page.value.next in tokens - seen;
      seen := seen + {page.value.next};
      pages := pages + [page.value];
      continuation := page.value.next;
    }
  }
}
