/** Finding the one account with an exact title through paged APIs. */
module PagedLookup {
  import opened Text
  import opened Paging

  datatype Account = Account(name: string, title: string, role: string, disabled: bool)

  datatype Error = CallFailed | Ambiguous | Repeated | InvalidId | InvalidCount | TooMany

  datatype Answer = Answer(account: Option<Account>) | Error(error: Error)

  // ----- the specification: one list, searched for exact matches

  function Matches(all: seq<Account>, title: string): seq<Account> {
    if all == [] then []
    else (if all[0].title == title then [all[0]] else []) + Matches(all[1..], title)
  }

  /** Zero, one or several matches. */
  function Search(all: seq<Account>, title: string): Answer {
    var m := Matches(all, title);
    if |m| == 0 then Answer(None) else if |m| == 1 then Answer(Some(m[0])) else Error(Ambiguous)
  }

  lemma DropFirst<X>(a: seq<X>, b: seq<X>)
    ensures a == [] ==> a + b == b
    ensures a != [] ==> (a + b)[0] == a[0] && (a + b)[1..] == a[1..] + b
  {
  }

  lemma {:induction false} MatchesConcat(a: seq<Account>, b: seq<Account>, title: string)
    ensures Matches(a + b, title) == Matches(a, title) + Matches(b, title)
  {
    DropFirst(a, b);
    if a == [] {
      Associate([], [], Matches(b, title));
    } else {
      MatchesConcat(a[1..], b, title);
      Associate(if a[0].title == title then [a[0]] else [], Matches(a[1..], title), Matches(b, title));
    }
  }

  /** The search looks at titles only: it finds an account exactly when that account alone has the title. */
  lemma {:induction false} SearchFinds(all: seq<Account>, title: string, account: Account)
    ensures Search(all, title) == Answer(Some(account)) <==>
      exists i :: 0 <= i < |all| && all[i] == account && account.title == title
                  && forall j :: 0 <= j < |all| && j != i ==> all[j].title != title
    ensures Search(all, title) == Answer(None) <==> forall j :: 0 <= j < |all| ==> all[j].title != title
  {
    MatchCount(all, title);
    if exists i :: IsOnly(all, title, i) {
      var i :| IsOnly(all, title, i);
      assert Search(all, title) == Answer(Some(all[i]));
    }
    if Search(all, title) == Answer(Some(account)) {
      var i :| IsOnly(all, title, i);
      assert all[i] == account;
    }
    forall i | 0 <= i < |all| && all[i].title == title && forall j :: 0 <= j < |all| && j != i ==> all[j].title != title
      ensures IsOnly(all, title, i)
    {
    }
  }

  ghost predicate IsOnly(all: seq<Account>, title: string, i: int) {
    0 <= i < |all| && all[i].title == title && forall j :: 0 <= j < |all| && j != i ==> all[j].title != title
  }

  lemma {:induction false} MatchCount(all: seq<Account>, title: string)
    ensures |Matches(all, title)| == 0 <==> forall j :: 0 <= j < |all| ==> all[j].title != title
    ensures |Matches(all, title)| == 1 <==> exists i :: IsOnly(all, title, i)
    ensures forall i :: IsOnly(all, title, i) ==> Matches(all, title) == [all[i]]
  {
    if all != [] {
      var rest := all[1..];
      MatchCount(rest, title);
      assert forall j :: 0 <= j < |rest| ==> rest[j] == all[j + 1];
      assert forall j :: 0 < j < |all| ==> all[j] == rest[j - 1];
      if all[0].title == title {
        if |Matches(rest, title)| == 0 { assert IsOnly(all, title, 0); }
      } else {
        if |Matches(rest, title)| == 1 {
          var i :| IsOnly(rest, title, i);
          assert IsOnly(all, title, i + 1);
        }
        forall i | IsOnly(all, title, i)
          ensures IsOnly(rest, title, i - 1)
        {
        }
      }
    }
  }

  // ----- the IAM API: chained pages

  /** An answer is the search of the chained items, and comes only from a chain; every chain gets that answer. */
  ghost predicate Right(fetch: Server<Account>, title: string, r: Answer) {
    && (forall pages :: Chain(fetch, pages) ==> r == Search(Items(pages), title))
    && (r.Answer? ==> exists pages :: Chain(fetch, pages))
  }

  lemma {:induction false} ItemsPrefix(all: seq<Page<Account>>, k: nat)
    requires k <= |all|
    ensures Items(all[..k]) <= Items(all)
    decreases |all| - k
  {
    if k < |all| {
      ItemsPrefix(all, k + 1);
      assert all[..k + 1][..k] == all[..k];
    } else {
      assert all[..k] == all;
    }
  }

  /** A second match settles the answer for every way the list can go on. */
  lemma SecondMatchIn(fetch: Server<Account>, longer: seq<Page<Account>>, all: seq<Page<Account>>, title: string)
    requires longer <= all && |Matches(Items(longer), title)| > 1
    ensures Search(Items(all), title) == Error(Ambiguous)
  {
    assert all[..|longer|] == longer;
    ItemsPrefix(all, |longer|);
    var rest := Items(all)[|Items(longer)|..];
    assert Items(all) == Items(longer) + rest;
    MatchesConcat(Items(longer), rest, title);
  }

  lemma SecondMatch(fetch: Server<Account>, pages: seq<Page<Account>>, page: Page<Account>, title: string)
    requires Read(fetch, pages) && fetch(TokenFor(pages, |pages|)) == Some(page)
    requires |Matches(Items(pages) + page.items, title)| > 1
    ensures Right(fetch, title, Error(Ambiguous))
  {
    ItemsAppend(pages, page);
    forall all | Chain(fetch, all)
      ensures Search(Items(all), title) == Error(Ambiguous)
    {
      ChainNext(fetch, pages, all);
      SecondMatchIn(fetch, pages + [page], all, title);
    }
  }

  lemma UnchainedRight(fetch: Server<Account>, title: string, error: Error)
    requires Unchained(fetch)
    ensures Right(fetch, title, Error(error))
  {
  }

  lemma LastPageRight(fetch: Server<Account>, pages: seq<Page<Account>>, page: Page<Account>, title: string, found: Option<Account>)
    requires Read(fetch, pages) && fetch(TokenFor(pages, |pages|)) == Some(page) && page.next == ""
    requires Matches(Items(pages) + page.items, title) == Listed(found)
    ensures Right(fetch, title, Answer(found))
  {
    LastPage(fetch, pages, page);
    ItemsAppend(pages, page);
  }

  /**
   `findServiceAccount` with the IAM API. Whatever the server does, an answer is the search of the pages it
   chained; and it answers every chain with the search of its items. `tokens` bounds the tokens it can name.
   */
  method FindIam(fetch: Server<Account>, title: string, ghost tokens: set<string>) returns (r: Answer)
    requires forall c :: fetch(c).Some? && fetch(c).value.next != "" ==> fetch(c).value.next in tokens
    ensures Right(fetch, title, r)
  {
    var continuation := "";
    var seen: set<string> := {};
    var found: Option<Account> := None;
    ghost var pages: seq<Page<Account>> := [];
    while true
      invariant Read(fetch, pages) && continuation == TokenFor(pages, |pages|)
      invariant seen <= tokens && seen == Nexts(pages)
      invariant Matches(Items(pages), title) == Listed(found)
      decreases |tokens - seen|
    {
      var page := fetch(continuation);
      if page.None? {
        DeadEnd(fetch, pages);
        UnchainedRight(fetch, title, CallFailed);
        return Error(CallFailed);
      }
      var several;
      several, found := SearchPage(page.value.items, title, found, Items(pages));
      if several {
        SecondMatch(fetch, pages, page.value, title);
        return Error(Ambiguous);
      }
      if page.value.next == "" {
        LastPageRight(fetch, pages, page.value, title, found);
        return Answer(found);
      }
      ReadOn(fetch, pages, page.value);
      NextsAppend(pages, page.value);
      if page.value.next in seen {
        Circle(fetch, pages, page.value);
        UnchainedRight(fetch, title, Repeated);
        return Error(Repeated);
      }
      assert page.value.next in tokens - seen;
      ItemsAppend(pages, page.value);
      seen := seen + {page.value.next};
      pages := pages + [page.value];
      continuation := page.value.next;
    }
  }

  function Listed(found: Option<Account>): seq<Account> {
    if found.None? then [] else [found.value]
  }

  /** The inner loop over one page: stops at a second match. */
  method SearchPage(items: seq<Account>, title: string, before: Option<Account>, ghost read: seq<Account>)
    returns (several: bool, found: Option<Account>)
    requires Matches(read, title) == Listed(before)
    ensures several <==> |Matches(read + items, title)| > 1
    ensures !several ==> Matches(read + items, title) == Listed(found)
  {
    found := before;
    assert read + items[..0] == read;
    for i := 0 to |items|
      invariant Matches(read + items[..i], title) == Listed(found)
    {
      NextItem(read, items, i, title);
      if items[i].title == title {
        if found.Some? {
          return true, found;
        }
        found := Some(items[i]);
      }
    }
    assert items[..|items|] == items;
    return false, found;
  }

  lemma NextItem(read: seq<Account>, items: seq<Account>, i: nat, title: string)
    requires i < |items|
    ensures Matches(read + items[..i + 1], title) ==
      Matches(read + items[..i], title) + if items[i].title == title then [items[i]] else []
    ensures |Matches(read + items, title)| >= |Matches(read + items[..i + 1], title)|
  {
    MatchesConcat(read + items[..i], [items[i]], title);
    MatchesConcat(read + items[..i + 1], items[i + 1..], title);
    assert Matches([items[i]], title) == if items[i].title == title then [items[i]] else [];
    ItemSlices(read, items, i);
  }

  lemma ItemSlices(read: seq<Account>, items: seq<Account>, i: nat)
    requires i < |items|
    ensures read + items[..i] + [items[i]] == read + items[..i + 1]
    ensures read + items[..i + 1] + items[i + 1..] == read + items
  {
  }

  // ----- the legacy API: numbered pages of 100

  const PER_PAGE := 100
  const MAX_PAGES := 10_000

  datatype LegacyAccount = LegacyAccount(id: int, name: string, role: string, disabled: bool)

  datatype LegacyPage = LegacyPage(total: int, accounts: seq<LegacyAccount>)

  /** What the server answers for a page number. */
  type LegacyServer = nat -> Option<LegacyPage>

  /** `legacyNumericID`: the plain decimal form of a positive ID. */
  function NumericId(raw: string): Option<string> {
    var id := ParseInt(raw);
    if id.None? || id.value <= 0 then None else Some(FormatInt(id.value, 10))
  }

  /** It accepts the names that a lookup produces as they are, and its result names the same number again. */
  lemma NumericIdCanonical(id: int, raw: string)
    requires 0 < id <= MAX_INT64
    ensures NumericId(FormatInt(id, 10)) == Some(FormatInt(id, 10))
    ensures NumericId(raw).Some? <==> ParseInt(raw).Some? && ParseInt(raw).value > 0
    ensures NumericId(raw).Some? ==>
      ParseInt(NumericId(raw).value) == ParseInt(raw) && NumericId(NumericId(raw).value) == NumericId(raw)
  {
    ParseFormat(id);
    if NumericId(raw).Some? {
      ParseFormat(ParseInt(raw).value);
    }
  }

  /** `normalizeLegacyServiceAccount` on a positive ID. */
  function Normalized(a: LegacyAccount): Account {
    Account(FormatInt(a.id, 10), a.name, a.role, a.disabled)
  }

  function AllNormalized(all: seq<LegacyAccount>): (n: seq<Account>)
    ensures |n| == |all|
    ensures forall i :: 0 <= i < |all| ==> n[i] == Normalized(all[i])
  {
    if all == [] then [] else AllNormalized(all[..|all| - 1]) + [Normalized(all[|all| - 1])]
  }

  lemma NormalizedNext(all: seq<LegacyAccount>, k: nat, title: string)
    requires k < |all|
    ensures Matches(AllNormalized(all[..k + 1]), title) ==
      Matches(AllNormalized(all[..k]), title) + if all[k].name == title then [Normalized(all[k])] else []
  {
    assert all[..k + 1][..k] == all[..k];
    var next := [Normalized(all[k])];
    MatchesConcat(AllNormalized(all[..k]), next, title);
    assert Matches(next, title) == if all[k].name == title then next else [];
  }

  /** This is the one account of that name. */
  ghost predicate IsSole(all: seq<LegacyAccount>, title: string, i: nat) {
    && i < |all| && all[i].name == title
    && forall j :: 0 <= j < |all| && j != i ==> all[j].name != title
  }

  /** The account as the rest of the server sees it: its number, name, role and state. */
  predicate Describes(account: Account, a: LegacyAccount) {
    && account.name == FormatInt(a.id, 10) && account.title == a.name
    && account.role == a.role && account.disabled == a.disabled
  }

  /** What a search of the whole list answers: nothing, the one account with the name as it is, or an error. */
  ghost predicate Finds(r: Answer, all: seq<LegacyAccount>, title: string) {
    && (r == Answer(None) <==> forall i :: 0 <= i < |all| ==> all[i].name != title)
    && (r.Answer? && r.account.Some? ==> exists i: nat :: IsSole(all, title, i) && Describes(r.account.value, all[i]))
    && (r.Error? <==> exists i, j :: 0 <= i < j < |all| && all[i].name == all[j].name == title)
  }

  lemma SearchDescribes(all: seq<LegacyAccount>, title: string)
    ensures Finds(Search(AllNormalized(all), title), all, title)
  {
    var n := AllNormalized(all);
    var r := Search(n, title);
    MatchCount(n, title);
    assert forall i :: 0 <= i < |all| ==> n[i].title == all[i].name;
    SearchFinds(n, title, if r.Answer? && r.account.Some? then r.account.value else Account("", "", "", false));
    if r.Answer? && r.account.Some? {
      var i :| 0 <= i < |n| && n[i] == r.account.value && n[i].title == title
               && forall j :: 0 <= j < |n| && j != i ==> n[j].title != title;
      assert IsSole(all, title, i) && Describes(r.account.value, all[i]);
    }
  }

  function EndOfPage(n: nat, total: nat): nat {
    if n * PER_PAGE <= total then n * PER_PAGE else total
  }

  /** Pages of 100 cut from one list, each with its whole length. */
  ghost predicate Faithful(fetch: LegacyServer, all: seq<LegacyAccount>) {
    forall n: nat :: n > 0 ==>
      fetch(n) == Some(LegacyPage(|all|, all[EndOfPage(n - 1, |all|)..EndOfPage(n, |all|)]))
  }

  ghost predicate PageOf(accounts: seq<LegacyAccount>, all: seq<LegacyAccount>, from: nat) {
    from + |accounts| <= |all| && accounts == all[from..from + |accounts|]
  }

  lemma FaithfulPage(fetch: LegacyServer, all: seq<LegacyAccount>, n: nat, from: nat)
    requires Faithful(fetch, all) && n > 0 && from == (n - 1) * PER_PAGE <= |all|
    ensures fetch(n).Some? && fetch(n).value.total == |all|
    ensures var a := fetch(n).value.accounts;
      |a| <= PER_PAGE && PageOf(a, all, from) && (|a| < PER_PAGE ==> from + |a| == |all|)
  {
    assert fetch(n) == Some(LegacyPage(|all|, all[EndOfPage(n - 1, |all|)..EndOfPage(n, |all|)]));
    assert EndOfPage(n - 1, |all|) == from;
  }

  /** Accounts with the title carry an ID as Grafana gives them. */
  ghost predicate PositiveIds(all: seq<LegacyAccount>, title: string) {
    forall i :: 0 <= i < |all| && all[i].name == title ==> all[i].id > 0
  }

  /** A second match in a prefix settles the search of the whole list. */
  lemma PrefixDecides(all: seq<LegacyAccount>, k: nat, title: string)
    requires k <= |all|
    ensures |Matches(AllNormalized(all), title)| >= |Matches(AllNormalized(all[..k]), title)|
  {
    var whole, front := AllNormalized(all), AllNormalized(all[..k]);
    assert whole == front + whole[k..];
    MatchesConcat(front, whole[k..], title);
  }

  /** Where the loop stands after reading `seen` accounts. */
  ghost predicate ReadSoFar(all: seq<LegacyAccount>, title: string, seen: nat, found: Option<Account>) {
    seen <= |all| && Matches(AllNormalized(all[..seen]), title) == Listed(found)
  }

  lemma AllRead(all: seq<LegacyAccount>, title: string, found: Option<Account>)
    requires ReadSoFar(all, title, |all|, found)
    ensures Search(AllNormalized(all), title) == Answer(found)
  {
    assert all[..|all|] == all;
  }

  /** What one more account of a page does to the search. */
  lemma ReadNext(accounts: seq<LegacyAccount>, all: seq<LegacyAccount>, from: nat, i: nat, title: string, found: Option<Account>)
    requires PageOf(accounts, all, from) && i < |accounts| && PositiveIds(all, title)
    requires ReadSoFar(all, title, from + i, found)
    ensures accounts[i].name != title ==> ReadSoFar(all, title, from + (i + 1), found)
    ensures accounts[i].name == title && found.None? ==>
      accounts[i].id > 0 && ReadSoFar(all, title, from + (i + 1), Some(Normalized(accounts[i])))
    ensures accounts[i].name == title && found.Some? ==> Search(AllNormalized(all), title) == Error(Ambiguous)
  {
    assert accounts[i] == all[from + i];
    NormalizedNext(all, from + i, title);
    PrefixDecides(all, from + i + 1, title);
  }

  /** A page without failure: every account of that name has a positive ID. */
  ghost predicate PageOk(page: Option<LegacyPage>, title: string) {
    page.Some? && page.value.total >= 0 && IdsOk(page.value.accounts, title)
  }

  /** None of the first requests is a failure. */
  ghost predicate PagesOk(fetch: LegacyServer, n: nat, title: string) {
    forall k :: 0 < k <= n ==> PageOk(fetch(k), title)
  }

  ghost predicate IdsOk(accounts: seq<LegacyAccount>, title: string) {
    forall i :: 0 <= i < |accounts| && accounts[i].name == title ==> accounts[i].id > 0
  }

  /** One account of a page: skip it, take it, or stop. */
  method Consider(accounts: seq<LegacyAccount>, i: nat, title: string, before: Option<Account>,
                  ghost all: seq<LegacyAccount>, ghost from: nat, ghost faithful: bool)
    returns (error: Option<Error>, found: Option<Account>)
    requires i < |accounts|
    requires faithful ==> PageOf(accounts, all, from) && PositiveIds(all, title) && ReadSoFar(all, title, from + i, before)
    ensures faithful && error.None? ==> ReadSoFar(all, title, from + (i + 1), found)
    ensures faithful && error.Some? ==> error == Some(Ambiguous) && Search(AllNormalized(all), title) == Error(Ambiguous)
    ensures error == Some(InvalidId) <==> accounts[i].name == title && before.None? && accounts[i].id <= 0
    ensures error == Some(Ambiguous) <==> accounts[i].name == title && before.Some?
    ensures error.None? && accounts[i].name == title ==> found.Some? && Describes(found.value, accounts[i])
    ensures error in [None, Some(InvalidId), Some(Ambiguous)] && (accounts[i].name != title ==> found == before)
  {
    var wire := accounts[i];
    if faithful { ReadNext(accounts, all, from, i, title, before); }
    if wire.name != title {
      return None, before;
    }
    if before.Some? {
      return Some(Ambiguous), before;
    }
    if wire.id <= 0 {
      return Some(InvalidId), before;
    }
    return None, Some(Normalized(wire));
  }

  /** The inner loop over one page, which is `all[from..]` up to its length when the server is faithful. */
  method SearchLegacyPage(accounts: seq<LegacyAccount>, title: string, before: Option<Account>,
                          ghost all: seq<LegacyAccount>, ghost from: nat, ghost faithful: bool)
    returns (error: Option<Error>, found: Option<Account>)
    requires faithful ==> PageOf(accounts, all, from) && PositiveIds(all, title) && ReadSoFar(all, title, from, before)
    ensures faithful && error.None? ==> ReadSoFar(all, title, from + |accounts|, found)
    ensures faithful && error.Some? ==> error == Some(Ambiguous) && Search(AllNormalized(all), title) == Error(Ambiguous)
    ensures error.None? ==> IdsOk(accounts, title)
  {
    error, found := None, before;
    for i := 0 to |accounts|
      invariant error.None? && IdsOk(accounts[..i], title)
      invariant faithful ==> ReadSoFar(all, title, from + i, found)
    {
      error, found := Consider(accounts, i, title, found, all, from, faithful);
      if error.Some? {
        return;
      }
    }
    assert accounts[..|accounts|] == accounts;
  }

  /** One request and the search of its page; `done` when it was the last one. */
  method ReadLegacyPage(fetch: LegacyServer, title: string, number: nat, seen: nat, before: Option<Account>,
                        ghost all: seq<LegacyAccount>, ghost faithful: bool)
    returns (error: Option<Error>, found: Option<Account>, count: nat, done: bool)
    requires number > 0
    requires faithful ==> Faithful(fetch, all) && PositiveIds(all, title)
    requires faithful ==> seen == (number - 1) * PER_PAGE && ReadSoFar(all, title, seen, before)
    ensures faithful && error.Some? ==> Search(AllNormalized(all), title) == Error(error.value)
    ensures faithful && error.None? ==> ReadSoFar(all, title, count, found)
    ensures faithful && error.None? && done ==> count == |all| <= number * PER_PAGE
    ensures faithful && error.None? && !done ==> count == number * PER_PAGE < |all|
    ensures error.None? ==> PageOk(fetch(number), title)
  {
    found, count, done := before, seen, false;
    var page := fetch(number);
    if faithful { FaithfulPage(fetch, all, number, seen); }
    if page.None? {
      return Some(CallFailed), found, count, done;
    }
    if page.value.total < 0 {
      return Some(InvalidCount), found, count, done;
    }
    error, found := SearchLegacyPage(page.value.accounts, title, found, all, seen, faithful);
    count := seen + |page.value.accounts|;
    done := |page.value.accounts| < PER_PAGE || count >= page.value.total;
  }

  /** The requests of the lookup, page by page. */
  method ReadLegacy(fetch: LegacyServer, title: string, ghost all: seq<LegacyAccount>) returns (r: Answer)
    ensures Faithful(fetch, all) && PositiveIds(all, title) ==>
      if |all| <= 1_000_000 then r == Search(AllNormalized(all), title) else r.Error?
    ensures r.Answer? ==> exists n :: 0 < n <= 10_000 && PagesOk(fetch, n, title)
  {
    ghost var faithful := Faithful(fetch, all) && PositiveIds(all, title);
    var seen: nat := 0;
    var found: Option<Account> := None;
    for pageNumber := 1 to MAX_PAGES + 1
      invariant faithful ==> seen == (pageNumber - 1) * PER_PAGE && ReadSoFar(all, title, seen, found)
      invariant faithful && pageNumber > 1 ==> seen < |all|
      invariant PagesOk(fetch, pageNumber - 1, title)
    {
      var error, done;
      error, found, seen, done := ReadLegacyPage(fetch, title, pageNumber, seen, found, all, faithful);
      if error.Some? {
        return Error(error.value);
      }
      if done {
        if faithful { AllRead(all, title, found); }
        assert PagesOk(fetch, pageNumber, title);
        return Answer(found);
      }
    }
    return Error(TooMany);
  }

  /**
   `legacyFindServiceAccount`. On faithful pages it answers with the search of the whole list, as long as the list
   has at most 1,000,000 entries: the one account of that name with its number, role and state, nothing exactly when
   there is none, or an error when there are several. A longer list is an error. Whatever the server does, an answer
   comes only after pages without failure.
   */
  method FindLegacy(fetch: LegacyServer, title: string, ghost all: seq<LegacyAccount>) returns (r: Answer)
    ensures Faithful(fetch, all) && PositiveIds(all, title) ==>
      if |all| <= 1_000_000 then r == Search(AllNormalized(all), title) && Finds(r, all, title) else r.Error?
    ensures r.Answer? ==> exists n :: 0 < n <= 10_000 && PagesOk(fetch, n, title)
  {
    r := ReadLegacy(fetch, title, all);
    SearchDescribes(all, title);
  }
}
