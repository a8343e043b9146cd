/** What the two APIs answer for the tokens of an account, as the listing that the operations work on. */
module TokenListing {
  import opened Clock
  import opened Text
  import opened Paging
  import opened Remotes
  import S = SessionCodecs
  import L = PagedLookup
  import C = Cleanups

  datatype Wire = Wire(title: string, revoked: bool, expires: int, created: int)

  /** With the IAM API the title is the ID, and whether the token has expired is judged at `now`. */
  function FromWire(w: Wire, now: int): Listed {
    var expiration := UnixTime(w.expires);
    var created := UnixTime(w.created);
    Listed(w.title, Token(w.title, w.revoked, expiration.Some? && now > expiration.value, expiration,
                          if created.Some? then created.value else S.ZERO_TIME))
  }

  /** The clock is read anew for every item. */
  function AllFromWire(items: seq<Wire>, clock: nat -> int): (listing: seq<Listed>)
    ensures |listing| == |items|
    ensures forall i :: 0 <= i < |items| ==> listing[i] == FromWire(items[i], clock(i))
  {
    if items == [] then []
    else AllFromWire(items[..|items| - 1], clock) + [FromWire(items[|items| - 1], clock(|items| - 1))]
  }

  /** `tokens` with the IAM API: every item of the one chain of pages, or an error when there is none. */
  method ListIam(fetch: Server<Wire>, clock: nat -> int, ghost tokens: set<string>) returns (r: Option<seq<Listed>>)
    requires forall c :: fetch(c).Some? && fetch(c).value.next != "" ==> fetch(c).value.next in tokens
    ensures r.None? <==> Unchained(fetch)
    ensures r.Some? ==> forall pages :: Chain(fetch, pages) ==> r.value == AllFromWire(Items(pages), clock)
  {
    var items := ReadAll(fetch, tokens);
    if items.None? {
      return None;
    }
    var all: seq<Listed> := [];
    for i := 0 to |items.value|
      invariant all == AllFromWire(items.value[..i], clock)
    {
      all := all + [FromWire(items.value[i], clock(i))];
      assert items.value[..i + 1][..i] == items.value[..i];
    }
    assert items.value[..|items.value|] == items.value;
    return Some(all);
  }

  /**
   What the answer means later on, at `now`: with the IAM API a token is live until its expiry if it has one, unless it
   was revoked, and it is named by its title.
   */
  lemma IamMeaning(w: Wire, read: int, now: int)
    requires read <= now
    ensures var x := FromWire(w, read);
      && x.id == x.token.title == w.title && x.token.created == (if w.created > 0 then w.created * SECOND else S.ZERO_TIME)
      && (C.Live(x.token, now) <==> !w.revoked && (w.expires > 0 ==> now <= w.expires * SECOND))
      && (C.Expired(x.token, now) <==> w.revoked || (w.expires > 0 && w.expires * SECOND <= now))
  {
  }

  datatype LegacyWire = LegacyWire(id: int, name: string, created: int, expiration: Option<int>, hasExpired: bool)

  function FromLegacy(w: LegacyWire, now: int): Listed {
    Listed(FormatInt(w.id, 10),
           Token(w.name, false, w.hasExpired || (w.expiration.Some? && !(w.expiration.value > now)), w.expiration, w.created))
  }

  /** With the legacy API it is live before its expiry if it has one, unless Grafana calls it expired; its ID is its number. */
  lemma LegacyMeaning(w: LegacyWire, read: int, now: int)
    requires read <= now && 0 < w.id <= MAX_INT64
    ensures var x := FromLegacy(w, read);
      && ParseInt(x.id) == Some(w.id) && x.token.title == w.name && x.token.created == w.created
      && (C.Live(x.token, now) <==>
            !w.hasExpired && (w.expiration.Some? ==> read < w.expiration.value && now <= w.expiration.value))
      && (C.Expired(x.token, now) <==> w.hasExpired || (w.expiration.Some? && w.expiration.value <= now))
  {
    ParseFormat(w.id);
  }

  /** `legacyTokens`: one answer, refused as a whole when an ID is not positive. */
  method ListLegacy(account: string, answer: Option<seq<LegacyWire>>, clock: nat -> int) returns (r: Option<seq<Listed>>)
    ensures r.Some? <==>
      L.NumericId(account).Some? && answer.Some? && forall i :: 0 <= i < |answer.value| ==> answer.value[i].id > 0
    ensures r.Some? ==>
      |r.value| == |answer.value| && forall i :: 0 <= i < |r.value| ==> r.value[i] == FromLegacy(answer.value[i], clock(i))
  {
    if L.NumericId(account).None? || answer.None? {
      return None;
    }
    var all: seq<Listed> := [];
    for i := 0 to |answer.value|
      invariant |all| == i
      invariant forall j :: 0 <= j < i ==> answer.value[j].id > 0 && all[j] == FromLegacy(answer.value[j], clock(j))
    {
      if answer.value[i].id <= 0 {
        return None;
      }
      all := all + [FromLegacy(answer.value[i], clock(i))];
    }
    return Some(all);
  }

  /** The tokens that a listing describes. */
  function TokensOf(listing: seq<Listed>): Tokens {
    if listing == [] then map[]
    else TokensOf(listing[..|listing| - 1])[listing[|listing| - 1].id := listing[|listing| - 1].token]
  }

  lemma ListsOneMore(front: seq<Listed>, tokens: Tokens, last: Listed)
    requires Lists(front, tokens) && forall i :: 0 <= i < |front| ==> front[i].id != last.id
    ensures Lists(front + [last], tokens[last.id := last.token])
  {
    var all, more := front + [last], tokens[last.id := last.token];
    forall i | 0 <= i < |all|
      ensures all[i].id in more && more[all[i].id] == all[i].token
    {
      assert all[i] == if i < |front| then front[i] else last;
    }
    forall i, j | 0 <= i < j < |all|
      ensures all[i].id != all[j].id
    {
      assert all[i] == front[i] && all[j] == if j < |front| then front[j] else last;
    }
    forall id | id in more
      ensures exists i :: 0 <= i < |all| && all[i].id == id
    {
      if id == last.id {
        assert all[|front|].id == id;
      } else {
        var i :| 0 <= i < |front| && front[i].id == id;
        assert all[i].id == id;
      }
    }
  }

  /** A listing whose IDs differ names every token once. */
  lemma {:induction false} ListsTokens(listing: seq<Listed>)
    requires Distinct(listing)
    ensures Lists(listing, TokensOf(listing))
  {
    if listing != [] {
      var front, last := listing[..|listing| - 1], listing[|listing| - 1];
      ListsTokens(front);
      ListsOneMore(front, TokensOf(front), last);
      assert front + [last] == listing;
    }
  }

  /** Different legacy IDs stay different, and a delete by a listed ID goes to that very number. */
  lemma LegacyIdsDistinct(v: LegacyWire, w: LegacyWire, now: int)
    requires 0 < v.id <= MAX_INT64 && FromLegacy(v, now).id == FromLegacy(w, now).id
    ensures v.id == w.id && L.NumericId(FromLegacy(v, now).id) == Some(FromLegacy(v, now).id)
  {
    FormatInjective(v.id, w.id, 10);
    L.NumericIdCanonical(v.id, "");
  }
}
