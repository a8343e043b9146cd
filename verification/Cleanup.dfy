/** Revoking, reconciling and offboarding: the operations that only delete. */
module Cleanups {
  import opened Text
  import opened Remotes
  import opened Traces

  /** Every mutation from `start` on follows a passed Check directly. */
  ghost predicate AllGuarded(trace: seq<Entry>, start: nat) {
    forall k {:trigger trace[k]} :: start <= k < |trace| && trace[k].Called? ==> k > start && trace[k - 1] == Checked(true)
  }

  /** From one trace to a longer one every mutation is guarded, and if interrupted, a Check or a call failed. */
  ghost predicate Steps(trace: seq<Entry>, trace': seq<Entry>, interrupted: bool) {
    trace <= trace' && AllGuarded(trace', |trace|) && (interrupted ==> Interrupted(trace', |trace|))
  }

  /** Nothing was asked to change. */
  ghost predicate Untouched(trace: seq<Entry>, start: nat) {
    forall k {:trigger trace[k]} :: start <= k < |trace| ==> !trace[k].Called?
  }

  lemma StepsOn(t0: seq<Entry>, t1: seq<Entry>, t2: seq<Entry>, first: bool, second: bool)
    requires Steps(t0, t1, first) && Steps(t1, t2, second)
    ensures Steps(t0, t2, first || second)
    ensures Untouched(t1, |t0|) && Untouched(t2, |t1|) ==> Untouched(t2, |t0|)
  {
    assert forall k :: 0 <= k < |t1| ==> t2[k] == t1[k];
  }

  /** Reading or failing is a step, and the reason that shows is there. */
  lemma ReadSteps(trace: seq<Entry>, e: Entry, more: seq<Entry>)
    requires !e.Called? && forall x :: x in more ==> x.Settled?
    ensures Steps(trace, trace + [e] + more, IsInterruption(e)) && Untouched(trace + [e] + more, |trace|)
    ensures IsRejection(e) ==> Rejected(trace + [e] + more, |trace|)
    ensures (trace + [e] + more)[|trace|] == e
  {
    var trace' := trace + [e] + more;
    assert trace'[|trace|] == e;
    forall k | |trace| < k < |trace'|
      ensures trace'[k].Settled?
    {
      assert trace'[k] == more[k - |trace| - 1];
    }
  }

  lemma CallSteps(trace: seq<Entry>, call: Call, done: bool, mid: Tokens, after: Tokens)
    ensures Steps(trace, GuardedCall(trace, call, done, mid, after), !done)
  {
    var trace' := GuardedCall(trace, call, done, mid, after);
    assert trace'[|trace|] == Checked(true) && trace'[|trace| + 1] == Called(call, done, mid);
    assert trace'[|trace| + 2] == Settled(after);
  }

  /** Check, and if it passes, delete. */
  method CheckedDelete(remote: Remote, id: string) returns (ok: bool, reply: Reply, ghost mid: Store)
    requires remote.Valid()
    modifies remote`store, remote`ids, remote`trace
    ensures remote.Valid() && (old(remote.Spared()) && id !in remote.watched ==> remote.Spared())
    ensures Steps(old(remote.trace), remote.trace, !ok || !reply.Done?)
    ensures !ok ==> remote.store == mid == old(remote.store)
    ensures ok ==> Deletes(old(remote.store), mid, id, reply) && Lands(mid, remote.store)
    ensures Targets(remote.trace, |old(remote.trace)|) == if ok then [id] else []
    ensures Removals(remote.trace, |old(remote.trace)|) == if ok && reply.Done? then [id] else []
    ensures !ok ==> EndsUnchecked(remote.trace, |old(remote.trace)|)
    ensures ok && !reply.Done? ==> EndsFailing(remote.trace, |old(remote.trace)|)
  {
    ok := remote.Check();
    reply, mid := Reply.Refused, remote.store;
    if ok {
      ghost var s := remote.store;
      reply, mid := remote.DeleteToken(id);
      CallSteps(old(remote.trace), DeleteOf(s, id), reply.Done?, mid.tokens, remote.store.tokens);
      GuardedCallSent(old(remote.trace), DeleteOf(s, id), reply.Done?, mid.tokens, remote.store.tokens);
      if !reply.Done? { GuardedCallEnds(old(remote.trace), DeleteOf(s, id), false, mid.tokens, remote.store.tokens); }
    } else {
      assert remote.trace == old(remote.trace) + [Checked(false)] + [];
      ReadSteps(old(remote.trace), Checked(false), []);
      NothingSent(remote.trace, |old(remote.trace)|);
    }
  }

  // ----- revoke

  datatype Revoked = Revoked(error: bool, attempted: nat, deleted: nat)

  /** Of the tokens tried so far, those in `gone` were deleted; all tokens not tried are as they were. */
  ghost predicate Progress(s: Store, before: Tokens, tried: set<string>, gone: set<string>) {
    && (forall id :: id in before && id !in tried ==> id in s.tokens)
    && (forall id :: id in s.tokens ==> id in before && s.tokens[id] == before[id] && id !in gone)
    && gone <= tried && s.lateCreates == map[] && s.lateDeletes <= tried && s.lateAccount.Steady?
  }

  lemma ProgressStays(s: Store, s': Store, before: Tokens, tried: set<string>, gone: set<string>)
    requires Progress(s, before, tried, gone) && Lands(s, s')
    ensures Progress(s', before, tried, gone)
  {
    var creates, deletes, account :| s' == Land(s, creates, deletes, account);
  }

  /** One delete takes at most the token it aims at. */
  lemma ProgressDelete(s: Store, mid: Store, before: Tokens, tried: set<string>, gone: set<string>, id: string, reply: Reply)
    requires Progress(s, before, tried, gone) && Deletes(s, mid, id, reply)
    ensures Progress(mid, before, tried + {id}, if reply.Done? then gone + {id} else gone)
  {
  }

  /** Where the loop stands; without an error so far, every delete succeeded. */
  ghost predicate RevokeState(s: Store, before: Tokens, r: Revoked, tried: set<string>, gone: set<string>) {
    && Progress(s, before, tried, gone)
    && r.deleted == |gone| <= r.attempted == |tried|
    && (!r.error ==> s.Quiet() && gone == tried)
  }

  lemma RevokeNext(s: Store, mid: Store, s': Store, before: Tokens, r: Revoked, tried: set<string>, gone: set<string>,
                   id: string, reply: Reply)
    requires RevokeState(s, before, r, tried, gone) && id !in tried
    requires Deletes(s, mid, id, reply) && Lands(mid, s')
    ensures reply.Done? ==>
      RevokeState(s', before, Revoked(r.error, r.attempted + 1, r.deleted + 1), tried + {id}, gone + {id})
    ensures !reply.Done? ==> RevokeState(s', before, Revoked(true, r.attempted + 1, r.deleted), tried + {id}, gone)
  {
    var gone' := if reply.Done? then gone + {id} else gone;
    ProgressDelete(s, mid, before, tried, gone, id, reply);
    ProgressStays(mid, s', before, tried + {id}, gone');
    if reply.Done? {
      OneMoreGone(tried, gone, id);
      if !r.error { QuietStays(mid, s'); }
    }
  }

  lemma OneMoreGone(tried: set<string>, gone: set<string>, id: string)
    requires gone <= tried && id !in tried
    ensures |tried + {id}| == |tried| + 1 && |gone + {id}| == |gone| + 1
  {
  }

  lemma IdsNext(listing: seq<Listed>, k: nat)
    requires k < |listing|
    ensures Ids(listing[..k + 1]) == Ids(listing[..k]) + {listing[k].id}
    ensures Distinct(listing) ==> listing[k].id !in Ids(listing[..k])
  {
  }

  lemma IdsAll(before: Tokens, listing: seq<Listed>)
    requires Lists(listing, before)
    ensures Ids(listing[..|listing|]) == before.Keys
  {
    assert listing[..|listing|] == listing;
    forall id | id in before
      ensures id in Ids(listing)
    {
      var i :| 0 <= i < |listing| && listing[i].id == id;
    }
  }

  /** Since the tokens were listed in `s0`, those in `gone` were deleted, and only outstanding creations can add any. */
  ghost predicate Revoking(s0: Store, s: Store, gone: set<string>) {
    s.tokens.Keys <= (s0.tokens.Keys - gone) + s0.lateCreates.Keys && s.lateCreates.Keys <= s0.lateCreates.Keys
  }

  lemma RevokingNext(s0: Store, s: Store, mid: Store, s': Store, gone: set<string>, id: string, reply: Reply)
    requires Revoking(s0, s, gone) && s0.Apart() && id in s0.tokens && Deletes(s, mid, id, reply) && Lands(mid, s')
    ensures Revoking(s0, s', if reply.Done? then gone + {id} else gone)
  {
    var creates, deletes, account :| s' == Land(mid, creates, deletes, account);
  }

  /** One round: a failed Check stops the loop, a failed delete only counts as an error. */
  method RevokeOne(remote: Remote, id: string, r: Revoked, ghost quiet: bool, ghost s0: Store, ghost tried: set<string>,
                   ghost gone: set<string>)
    returns (stopped: bool, next: Revoked, ghost gone': set<string>)
    requires remote.Valid() && Revoking(s0, remote.store, gone) && s0.Apart() && id in s0.tokens && id !in tried
    requires quiet ==> RevokeState(remote.store, s0.tokens, r, tried, gone)
    modifies remote`store, remote`ids, remote`trace
    ensures remote.Valid() && Revoking(s0, remote.store, gone')
    ensures Steps(old(remote.trace), remote.trace, stopped || next.deleted == r.deleted)
    ensures stopped ==> next == r.(error := true) && gone' == gone
    ensures !stopped ==>
      || (next == Revoked(r.error, r.attempted + 1, r.deleted + 1) && gone' == gone + {id})
      || (next == Revoked(true, r.attempted + 1, r.deleted) && gone' == gone)
    ensures quiet ==> RevokeState(remote.store, s0.tokens, next, if stopped then tried else tried + {id}, gone')
    ensures stopped ==> EndsUnchecked(remote.trace, |old(remote.trace)|)
    ensures Targets(remote.trace, |old(remote.trace)|) == if stopped then [] else [id]
    ensures next.deleted == r.deleted + |Removals(remote.trace, |old(remote.trace)|)|
  {
    ghost var s := remote.store;
    var ok, reply;
    ghost var mid;
    ok, reply, mid := CheckedDelete(remote, id);
    if !ok {
      return true, r.(error := true), gone;
    }
    RevokingNext(s0, s, mid, remote.store, gone, id, reply);
    if quiet { RevokeNext(s, mid, remote.store, s0.tokens, r, tried, gone, id, reply); }
    if reply.Done? {
      return false, Revoked(r.error, r.attempted + 1, r.deleted + 1), gone + {id};
    }
    return false, Revoked(true, r.attempted + 1, r.deleted), gone;
  }

  /** Where the loop stands before token `k`. */
  ghost predicate RevokedSoFar(s0: Store, s: Store, listing: seq<Listed>, k: nat, r: Revoked, gone: set<string>, quiet: bool)
    requires k <= |listing|
  {
    && Revoking(s0, s, gone) && r.attempted == k
    && (if r.error then r.deleted < k else gone == Ids(listing[..k]) && r.deleted == k)
    && (quiet ==> RevokeState(s, s0.tokens, r, Ids(listing[..k]), gone))
  }

  /** Deletes were sent for the first `k` tokens, in order, and the counter says how many succeeded. */
  ghost predicate SentSoFar(trace: seq<Entry>, start: nat, listing: seq<Listed>, k: nat, r: Revoked)
    requires k <= |listing|
  {
    Targets(trace, start) == IdList(listing[..k]) && r.deleted == |Removals(trace, start)|
  }

  /** The round for token `k`. */
  method RevokeAt(remote: Remote, listing: seq<Listed>, k: nat, r: Revoked, ghost quiet: bool, ghost s0: Store,
                  ghost gone: set<string>, ghost start: seq<Entry>)
    returns (stopped: bool, next: Revoked, ghost gone': set<string>)
    requires remote.Valid() && s0.Apart() && Distinct(listing) && k < |listing| && listing[k].id in s0.tokens
    requires RevokedSoFar(s0, remote.store, listing, k, r, gone, quiet) && Steps(start, remote.trace, r.error)
    requires SentSoFar(remote.trace, |start|, listing, k, r)
    modifies remote`store, remote`ids, remote`trace
    ensures remote.Valid() && Steps(start, remote.trace, next.error)
    ensures stopped ==>
      && next == r.(error := true) && Revoking(s0, remote.store, gone')
      && (quiet ==> RevokeState(remote.store, s0.tokens, next, Ids(listing[..k]), gone'))
    ensures !stopped ==> RevokedSoFar(s0, remote.store, listing, k + 1, next, gone', quiet)
    ensures stopped ==> EndsUnchecked(remote.trace, |start|)
    ensures SentSoFar(remote.trace, |start|, listing, if stopped then k else k + 1, next)
  {
    ghost var trace := remote.trace;
    IdsNext(listing, k);
    IdListNext(listing, k);
    stopped, next, gone' := RevokeOne(remote, listing[k].id, r, quiet, s0, Ids(listing[..k]), gone);
    StepsOn(start, trace, remote.trace, r.error, stopped || next.deleted == r.deleted);
    SentOn(trace, remote.trace, |start|);
  }

  /** A failed delete does not stop the loop, a failed Check does: the deletes sent are those of the tokens tried, in order. */
  method RevokeAll(remote: Remote, listing: seq<Listed>, ghost quiet: bool, ghost s0: Store)
    returns (r: Revoked, ghost gone: set<string>)
    requires remote.Valid() && s0.Apart() && Lists(listing, s0.tokens) && Revoking(s0, remote.store, {})
    requires quiet ==> remote.store == s0 && s0.Quiet()
    modifies remote`store, remote`ids, remote`trace
    ensures remote.Valid() && Steps(old(remote.trace), remote.trace, r.error)
    ensures r.attempted <= |listing| && (r.error <==> r.deleted < |listing|)
    ensures !r.error ==> Revoking(s0, remote.store, s0.tokens.Keys) && gone == s0.tokens.Keys
    ensures quiet ==> RevokeState(remote.store, s0.tokens, r, Ids(listing[..r.attempted]), gone)
    ensures SentSoFar(remote.trace, |old(remote.trace)|, listing, r.attempted, r)
    ensures r.attempted < |listing| ==> EndsUnchecked(remote.trace, |old(remote.trace)|)
  {
    r, gone := Revoked(false, 0, 0), {};
    for k := 0 to |listing|
      invariant remote.Valid() && Steps(old(remote.trace), remote.trace, r.error)
      invariant SentSoFar(remote.trace, |old(remote.trace)|, listing, k, r)
      invariant RevokedSoFar(s0, remote.store, listing, k, r, gone, quiet)
    {
      var stopped;
      stopped, r, gone := RevokeAt(remote, listing, k, r, quiet, s0, gone, old(remote.trace));
      if stopped {
        return;
      }
    }
    IdsAll(s0.tokens, listing);
  }

  /** The tokens of an enabled or disabled Viewer; no listing and no error when there is no account. */
  method ListViewer(remote: Remote, ghost quiet: bool) returns (error: bool, listing: Option<seq<Listed>>, ghost s0: Store)
    requires remote.Valid() && (quiet ==> remote.store.Quiet())
    modifies remote`store, remote`trace
    ensures remote.Valid() && (quiet ==> remote.store == s0 == old(remote.store))
    ensures Steps(old(remote.trace), remote.trace, false) && Untouched(remote.trace, |old(remote.trace)|)
    ensures error ==> Rejected(remote.trace, |old(remote.trace)|)
    ensures Lands(old(remote.store), s0) && s0.Apart() && Revoking(s0, remote.store, {})
    ensures listing.Some? ==>
      && Lists(listing.value, s0.tokens)
      && old(remote.store).account.Some? && old(remote.store).account.value.role == "Viewer"
    ensures listing.Some? ==> !error && WasShown(remote.trace, |old(remote.trace)|, listing.value)
    ensures listing.None? && !error ==> old(remote.store).account.None?
  {
    var failed, account := remote.FindAccount();
    s0 := remote.store;
    if quiet { QuietStays(old(remote.store), s0); }
    ReadSteps(old(remote.trace), if failed then Failed(Looking) else Seen(account), [Settled(remote.store.tokens)]);
    if failed || account.None? {
      return failed, None, s0;
    }
    if account.value.role != "Viewer" {
      return true, None, s0;
    }
    ghost var trace := remote.trace;
    listing := remote.ListTokens();
    MentionedStays(s0, remote.store);
    RevokingStays(s0, remote.store);
    if quiet { QuietStays(s0, remote.store); }
    ReadSteps(trace, if listing.Some? then Shown(listing.value) else Failed(Listing), [Settled(remote.store.tokens)]);
    StepsOn(old(remote.trace), trace, remote.trace, false, listing.None?);
    RejectedOn(trace, remote.trace, |old(remote.trace)|);
    error := listing.None?;
  }

  lemma RevokingStays(s0: Store, s: Store)
    requires Lands(s0, s)
    ensures Revoking(s0, s, {})
  {
    var creates, deletes, account :| s == Land(s0, creates, deletes, account);
  }

  /** What a revoke leaves: success means that only a creation outstanding at its start can leave a token. */
  ghost predicate Revokes(s: Store, s': Store, r: Revoked, tried: set<string>, gone: set<string>) {
    && (!r.error && s.Attached() ==> s'.tokens.Keys <= s.lateCreates.Keys)
    && (s.Quiet() ==> RevokeState(s', s.tokens, r, tried, gone))
  }

  /**
   What a revoke asked for: a delete for every listed token, in the order of the listing, unless a Check failed, which
   is then the last thing that happened; and nothing without a listing.
   */
  ghost predicate Sends(trace: seq<Entry>, start: nat, listing: Option<seq<Listed>>, r: Revoked) {
    if listing.None? then Untouched(trace, start) && r.attempted == r.deleted == 0
    else
      && WasShown(trace, start, listing.value)
      && r.attempted <= |listing.value| && SentSoFar(trace, start, listing.value, r.attempted, r)
      && (r.attempted < |listing.value| ==> EndsUnchecked(trace, start))
  }

  ghost predicate IsViewer(s: Store) {
    s.account.Some? && s.account.value.role == "Viewer"
  }

  /** `revoke`; `attempted` and `deleted` are what the audit log reports. */
  method Revoke(remote: Remote)
    returns (r: Revoked, ghost listing: Option<seq<Listed>>, ghost tried: set<string>, ghost gone: set<string>)
    requires remote.Valid()
    modifies remote`store, remote`ids, remote`trace
    ensures remote.Valid() && Steps(old(remote.trace), remote.trace, r.error && r.attempted > 0)
    ensures r.error ==> Rejected(remote.trace, |old(remote.trace)|)
    ensures !IsViewer(old(remote.store)) ==> r.deleted == r.attempted == 0 && Untouched(remote.trace, |old(remote.trace)|)
    ensures Sends(remote.trace, |old(remote.trace)|, listing, r)
    ensures listing.None? && !r.error ==> old(remote.store).account.None?
    ensures Revokes(old(remote.store), remote.store, r, tried, gone)
  {
    var acquired := remote.Acquire();
    if !acquired {
      assert remote.trace == old(remote.trace) + [Failed(Locking)] + [];
      ReadSteps(old(remote.trace), Failed(Locking), []);
      return Revoked(true, 0, 0), None, {}, {};
    }
    assert remote.trace == old(remote.trace);
    r, listing, tried, gone := RevokeHeld(remote);
  }

  /** The rest of it, under the guard. */
  method RevokeHeld(remote: Remote)
    returns (r: Revoked, ghost listing: Option<seq<Listed>>, ghost tried: set<string>, ghost gone: set<string>)
    requires remote.Valid()
    modifies remote`store, remote`ids, remote`trace
    ensures remote.Valid() && Steps(old(remote.trace), remote.trace, r.error && r.attempted > 0)
    ensures r.error ==> Rejected(remote.trace, |old(remote.trace)|)
    ensures !IsViewer(old(remote.store)) ==> r.deleted == r.attempted == 0 && Untouched(remote.trace, |old(remote.trace)|)
    ensures Sends(remote.trace, |old(remote.trace)|, listing, r)
    ensures listing.None? && !r.error ==> old(remote.store).account.None?
    ensures Revokes(old(remote.store), remote.store, r, tried, gone)
  {
    ghost var quiet := remote.store.Quiet();
    var error, tokens;
    ghost var s0;
    error, tokens, s0 := ListViewer(remote, quiet);
    OnlyOutstanding(old(remote.store), s0, remote.store);
    if tokens.None? {
      return Revoked(error, 0, 0), None, {}, {};
    }
    ghost var trace := remote.trace;
    r, gone := RevokeAll(remote, tokens.value, quiet, s0);
    listing, tried := tokens, Ids(tokens.value[..r.attempted]);
    StepsOn(old(remote.trace), trace, remote.trace, false, r.error);
    RejectedOn(trace, remote.trace, |old(remote.trace)|);
    SendsOn(old(remote.trace), trace, remote.trace, tokens.value, r);
  }

  lemma SendsOn(t0: seq<Entry>, t1: seq<Entry>, t2: seq<Entry>, listing: seq<Listed>, r: Revoked)
    requires t0 <= t1 <= t2 && Untouched(t1, |t0|) && WasShown(t1, |t0|, listing)
    requires r.attempted <= |listing| && SentSoFar(t2, |t1|, listing, r.attempted, r)
    requires r.attempted < |listing| ==> EndsUnchecked(t2, |t1|)
    ensures Sends(t2, |t0|, Some(listing), r)
  {
    NothingSent(t1, |t0|);
    SentOn(t1, t2, |t0|);
    assert forall k :: 0 <= k < |t1| ==> t2[k] == t1[k];
  }

  lemma OnlyOutstanding(s: Store, s0: Store, s': Store)
    requires Lands(s, s0) && Revoking(s0, s', {})
    ensures s0.lateCreates.Keys <= s.lateCreates.Keys
    ensures s.tokens == map[] ==> s'.tokens.Keys <= s.lateCreates.Keys
  {
    var creates, deletes, account :| s0 == Land(s, creates, deletes, account);
  }

  /** When nothing is outstanding, success leaves no token. */
  lemma RevokedAll(s: Store, s': Store, r: Revoked, tried: set<string>, gone: set<string>)
    requires Revokes(s, s', r, tried, gone) && s.Quiet() && s.Attached() && !r.error
    ensures s'.tokens == map[] && s'.Quiet()
  {
    assert s.lateCreates.Keys == {};
    assert forall id :: id in s'.tokens ==> id in s'.tokens.Keys;
  }

  // ----- reconcile

  datatype Options = Options(apply: bool, deleteExpired: bool, keep: string)

  predicate Expired(t: Token, now: int) {
    t.revoked || t.hasExpired || (t.expiration.Some? && !(t.expiration.value > now))
  }

  /** A token that the options ask to delete, judged at `now`. */
  predicate Planned(t: Token, o: Options, now: int) {
    (o.keep != "" && t.title != o.keep) || (o.deleteExpired && Expired(t, now))
  }

  function Unplanned(tokens: Tokens, o: Options, now: int): Tokens {
    map id | id in tokens && !Planned(tokens[id], o, now) :: tokens[id]
  }

  /** No options plan a live token that is the one to keep, or any live token when none is named. */
  lemma LiveIsUnplanned(t: Token, o: Options, now: int)
    requires !Expired(t, now) && (o.keep == "" || t.title == o.keep)
    ensures !Planned(t, o, now)
  {
  }

  /**
   What the options mean: with a token to keep, only tokens of that name remain; when expired ones are deleted, none
   that was revoked, that Grafana calls expired, or whose time has come; and nothing else goes.
   */
  lemma WhatRemains(tokens: Tokens, o: Options, now: int, id: string)
    requires id in tokens
    ensures var t := tokens[id];
      var over := t.revoked || t.hasExpired || (t.expiration.Some? && t.expiration.value <= now);
      id in Unplanned(tokens, o, now) <==> (o.keep == "" || t.title == o.keep) && (o.deleteExpired ==> !over)
    ensures id in Unplanned(tokens, o, now) ==> Unplanned(tokens, o, now)[id] == tokens[id]
  {
  }

  datatype Plan = Plan(candidates: seq<Listed>, active: nat, expired: nat, keepFound: bool)

  /** The tokens to delete, in the order of the listing. */
  function Chosen(listing: seq<Listed>, o: Options, now: int): seq<Listed> {
    if listing == [] then []
    else
      var last := listing[|listing| - 1];
      Chosen(listing[..|listing| - 1], o, now) + if Planned(last.token, o, now) then [last] else []
  }

  /** Exactly the listed tokens that the options ask to delete, each once. */
  lemma {:induction false} ChosenExactly(listing: seq<Listed>, o: Options, now: int)
    requires Distinct(listing)
    ensures forall x :: x in Chosen(listing, o, now) <==> x in listing && Planned(x.token, o, now)
    ensures Distinct(Chosen(listing, o, now))
  {
    if listing != [] {
      var front, last := listing[..|listing| - 1], listing[|listing| - 1];
      assert listing == front + [last];
      ChosenExactly(front, o, now);
      var chosen := Chosen(front, o, now);
      forall x | x in chosen
        ensures x.id != last.id
      {
        var i :| 0 <= i < |front| && front[i] == x;
        assert listing[i] == x;
      }
    }
  }

  /** A live token with the title to keep. */
  ghost predicate KeepIsLive(listing: seq<Listed>, o: Options, now: int) {
    o.keep == "" || exists i :: 0 <= i < |listing| && listing[i].token.title == o.keep && !Expired(listing[i].token, now)
  }

  /** Where the listed tokens that have expired stand. */
  ghost function ExpiredIn(listing: seq<Listed>, now: int): set<int> {
    set i | 0 <= i < |listing| && Expired(listing[i].token, now)
  }

  lemma ExpiredNext(listing: seq<Listed>, i: nat, now: int)
    requires i < |listing|
    ensures |ExpiredIn(listing[..i + 1], now)| ==
      |ExpiredIn(listing[..i], now)| + if Expired(listing[i].token, now) then 1 else 0
  {
    var before := ExpiredIn(listing[..i], now);
    assert ExpiredIn(listing[..i + 1], now) == before + if Expired(listing[i].token, now) then {i as int} else {};
  }

  method MakePlan(listing: seq<Listed>, o: Options, now: int) returns (p: Plan)
    ensures p.candidates == Chosen(listing, o, now)
    ensures p.keepFound <==> KeepIsLive(listing, o, now)
    ensures p.expired == |ExpiredIn(listing, now)| && p.active == |listing| - p.expired
  {
    p := Plan([], 0, 0, o.keep == "");
    for i := 0 to |listing|
      invariant p.candidates == Chosen(listing[..i], o, now)
      invariant p.expired == |ExpiredIn(listing[..i], now)| && p.active == i - p.expired
      invariant p.keepFound <==> KeepIsLive(listing[..i], o, now)
    {
      var token := listing[i].token;
      assert listing[..i + 1][..i] == listing[..i] && listing[..i + 1][i] == listing[i];
      KeepNext(listing, i, o, now);
      ExpiredNext(listing, i, now);
      var expired := Expired(token, now);
      if expired {
        p := p.(expired := p.expired + 1);
      }
      if token.title == o.keep && !expired {
        p := p.(keepFound := true);
      }
      if (o.keep != "" && token.title != o.keep) || (o.deleteExpired && expired) {
        p := p.(candidates := p.candidates + [listing[i]]);
      }
      if !expired {
        p := p.(active := p.active + 1);
      }
    }
    assert listing[..|listing|] == listing;
  }

  lemma KeepNext(listing: seq<Listed>, i: nat, o: Options, now: int)
    requires i < |listing|
    ensures KeepIsLive(listing[..i + 1], o, now) <==>
      KeepIsLive(listing[..i], o, now) || (listing[i].token.title == o.keep && !Expired(listing[i].token, now))
  {
    var front, next := listing[..i], listing[..i + 1];
    assert next == front + [listing[i]];
    if KeepIsLive(front, o, now) && o.keep != "" {
      var j :| 0 <= j < |front| && front[j].token.title == o.keep && !Expired(front[j].token, now);
      assert next[j] == front[j];
    }
    if listing[i].token.title == o.keep && !Expired(listing[i].token, now) {
      assert next[i] == listing[i];
    }
  }

  /** All planned deletes done, in order, up to `k`; unplanned tokens are all there. */
  ghost predicate ReconcileState(s: Store, before: Tokens, tried: set<string>, o: Options, now: int) {
    && Progress(s, before, tried, tried) && s.Quiet()
    && (forall id :: id in tried ==> id in before && Planned(before[id], o, now))
  }

  lemma UnplannedKept(s: Store, before: Tokens, tried: set<string>, gone: set<string>, o: Options, now: int)
    requires Progress(s, before, tried, gone)
    requires forall id :: id in tried ==> id in before && Planned(before[id], o, now)
    ensures Keeps(Unplanned(before, o, now), s.tokens)
  {
  }

  /** One delete of the loop: unplanned tokens are kept, and a success carries the state on. */
  lemma ReconcileNext(s: Store, mid: Store, s': Store, before: Tokens, tried: set<string>, id: string, reply: Reply,
                      o: Options, now: int)
    requires ReconcileState(s, before, tried, o, now) && id in before && Planned(before[id], o, now)
    requires Deletes(s, mid, id, reply) && Lands(mid, s')
    ensures Keeps(Unplanned(before, o, now), s'.tokens)
    ensures reply.Done? ==> ReconcileState(s', before, tried + {id}, o, now)
  {
    var tried' := tried + {id};
    var gone := if reply.Done? then tried' else tried;
    ProgressDelete(s, mid, before, tried, tried, id, reply);
    ProgressStays(mid, s', before, tried', gone);
    UnplannedKept(s', before, tried', gone, o, now);
    if reply.Done? { QuietStays(mid, s'); }
  }

  /** One round: a failed Check or delete is an error. */
  method DeleteAt(remote: Remote, candidates: seq<Listed>, k: nat, ghost quiet: bool, ghost before: Tokens, ghost o: Options,
                  ghost now: int, ghost start: seq<Entry>)
    returns (error: bool)
    requires remote.Valid() && k < |candidates| && Steps(start, remote.trace, false)
    requires Applied(remote.trace, |start|, candidates[..k], false)
    requires quiet ==> ReconcileState(remote.store, before, Ids(candidates[..k]), o, now)
    requires quiet ==> candidates[k].id in before && Planned(before[candidates[k].id], o, now)
    modifies remote`store, remote`ids, remote`trace
    ensures remote.Valid() && Steps(start, remote.trace, error)
    ensures old(remote.Spared()) && candidates[k].id !in remote.watched ==> remote.Spared()
    ensures quiet ==> Keeps(Unplanned(before, o, now), remote.store.tokens)
    ensures quiet && !error ==> ReconcileState(remote.store, before, Ids(candidates[..k + 1]), o, now)
    ensures if error then Applied(remote.trace, |start|, candidates, true)
            else Applied(remote.trace, |start|, candidates[..k + 1], false)
  {
    ghost var s, trace, tried := remote.store, remote.trace, Ids(candidates[..k]);
    var ok, reply;
    ghost var mid;
    ok, reply, mid := CheckedDelete(remote, candidates[k].id);
    error := !ok || !reply.Done?;
    StepsOn(start, trace, remote.trace, false, error);
    AppliedNext(start, trace, remote.trace, candidates, k, !error);
    IdsNext(candidates, k);
    if quiet {
      if ok {
        ReconcileNext(s, mid, remote.store, before, tried, candidates[k].id, reply, o, now);
      } else {
        UnplannedKept(s, before, tried, tried, o, now);
      }
    }
  }

  /** Deletes the candidates one at a time, stopping at the first failed Check or delete. */
  method DeleteAll(remote: Remote, candidates: seq<Listed>, ghost quiet: bool, ghost before: Tokens, ghost o: Options,
                   ghost now: int)
    returns (error: bool)
    requires remote.Valid()
    requires quiet ==> remote.store.Quiet() && remote.store.tokens == before
    requires quiet ==> forall x :: x in candidates ==> x.id in before && before[x.id] == x.token && Planned(x.token, o, now)
    modifies remote`store, remote`ids, remote`trace
    ensures remote.Valid() && Steps(old(remote.trace), remote.trace, error)
    ensures old(remote.Spared()) && (forall x :: x in candidates ==> x.id !in remote.watched) ==> remote.Spared()
    ensures quiet ==> Keeps(Unplanned(before, o, now), remote.store.tokens)
    ensures quiet && !error ==> ReconcileState(remote.store, before, Ids(candidates), o, now)
    ensures Applied(remote.trace, |old(remote.trace)|, candidates, error)
  {
    ghost var spares := remote.Spared() && forall x :: x in candidates ==> x.id !in remote.watched;
    for k := 0 to |candidates|
      invariant remote.Valid() && Steps(old(remote.trace), remote.trace, false) && (spares ==> remote.Spared())
      invariant quiet ==> ReconcileState(remote.store, before, Ids(candidates[..k]), o, now)
      invariant Applied(remote.trace, |old(remote.trace)|, candidates[..k], false)
    {
      ghost var x := candidates[k];
      assert x in candidates;
      error := DeleteAt(remote, candidates, k, quiet, before, o, now, old(remote.trace));
      if error {
        return;
      }
    }
    assert candidates[..|candidates|] == candidates;
    if quiet { UnplannedKept(remote.store, before, Ids(candidates), Ids(candidates), o, now); }
    error := false;
  }

  /** The token to keep exists and is live, or none was named. */
  ghost predicate CanKeep(tokens: Tokens, o: Options, now: int) {
    o.keep == "" || exists id :: id in tokens && tokens[id].title == o.keep && !Expired(tokens[id], now)
  }

  /** Something failed, the account was not an enabled Viewer, or the token to keep was not live in the listing. */
  ghost predicate IsReconcileExcuse(e: Entry, o: Options, now: int) {
    || IsInterruption(e)
    || (AccountOf(e).Some? && !Fit(AccountOf(e).value))
    || (e.Shown? && !KeepIsLive(e.listing, o, now))
  }

  ghost predicate ReconcileExcused(trace: seq<Entry>, start: nat, o: Options, now: int) {
    exists k {:trigger trace[k]} :: start <= k < |trace| && IsReconcileExcuse(trace[k], o, now)
  }

  lemma ReconcileExcusedOn(trace: seq<Entry>, trace': seq<Entry>, start: nat, o: Options, now: int)
    requires start <= |trace| && trace <= trace'
    ensures
      ReconcileExcused(trace, start, o, now) || ReconcileExcused(trace', |trace|, o, now) || Interrupted(trace', |trace|) ==>
        ReconcileExcused(trace', start, o, now)
  {
    assert forall k :: 0 <= k < |trace| ==> trace'[k] == trace[k];
  }

  /** Whatever is watched was listed as it is. */
  ghost predicate SeesWatched(listing: seq<Listed>, watched: Tokens) {
    forall x :: x in listing && x.id in watched ==> x.token == watched[x.id]
  }

  /** What a plan says about the listing it was made from. */
  ghost predicate PlanOf(p: Plan, listing: seq<Listed>, o: Options, now: int) {
    && p.candidates == Chosen(listing, o, now) && KeepIsLive(listing, o, now)
    && p.expired == |ExpiredIn(listing, now)| && p.active == |listing| - p.expired
  }

  /** The reading half: find the account, accept only an enabled Viewer, list its tokens and plan. */
  method PlanFor(remote: Remote, o: Options, now: int, ghost quiet: bool)
    returns (error: bool, plan: Option<Plan>, listing: seq<Listed>)
    requires remote.Valid() && (quiet ==> remote.store.Quiet())
    modifies remote`store, remote`trace
    ensures remote.Valid() && (remote.Spared() <==> old(remote.Spared()))
    ensures Steps(old(remote.trace), remote.trace, false) && Untouched(remote.trace, |old(remote.trace)|)
    ensures plan.Some? ==> old(remote.store).account.Some? && Fit(old(remote.store).account.value)
    ensures plan.Some? ==> !error && Distinct(listing) && PlanOf(plan.value, listing, o, now)
    ensures plan.Some? && remote.Spared() ==> SeesWatched(listing, remote.watched)
    ensures quiet ==> remote.store == old(remote.store)
    ensures quiet && plan.Some? ==>
      && Lists(listing, remote.store.tokens) && CanKeep(remote.store.tokens, o, now)
      && plan.value.active + plan.value.expired == |remote.store.tokens|
    ensures plan.None? && !error ==> old(remote.store).account.None?
    ensures error ==> ReconcileExcused(remote.trace, |old(remote.trace)|, o, now)
  {
    ghost var s := remote.store;
    var failed, account := remote.FindAccount();
    if quiet { QuietStays(s, remote.store); }
    ReadSteps(old(remote.trace), if failed then Failed(Looking) else Seen(account), [Settled(remote.store.tokens)]);
    if failed || account.None? {
      return failed, None, [];
    }
    if account.value.disabled || account.value.role != "Viewer" {
      return true, None, [];
    }
    ghost var trace := remote.trace;
    plan, listing := PlanListed(remote, o, now, quiet);
    error := plan.None?;
    StepsOn(old(remote.trace), trace, remote.trace, false, false);
    ReconcileExcusedOn(trace, remote.trace, |old(remote.trace)|, o, now);
  }

  method PlanListed(remote: Remote, o: Options, now: int, ghost quiet: bool) returns (plan: Option<Plan>, listing: seq<Listed>)
    requires remote.Valid() && (quiet ==> remote.store.Quiet())
    modifies remote`store, remote`trace
    ensures remote.Valid() && (remote.Spared() <==> old(remote.Spared()))
    ensures Steps(old(remote.trace), remote.trace, false) && Untouched(remote.trace, |old(remote.trace)|)
    ensures plan.Some? ==> Distinct(listing) && PlanOf(plan.value, listing, o, now)
    ensures plan.Some? && remote.Spared() ==> SeesWatched(listing, remote.watched)
    ensures quiet ==> remote.store == old(remote.store)
    ensures quiet && plan.Some? ==>
      && Lists(listing, remote.store.tokens) && CanKeep(remote.store.tokens, o, now)
      && plan.value.active + plan.value.expired == |remote.store.tokens|
    ensures plan.None? ==> ReconcileExcused(remote.trace, |old(remote.trace)|, o, now)
  {
    ghost var s := remote.store;
    var listed := remote.ListTokens();
    if quiet { QuietStays(s, remote.store); }
    ReadSteps(old(remote.trace), if listed.Some? then Shown(listed.value) else Failed(Listing), [Settled(remote.store.tokens)]);
    if listed.None? {
      return None, [];
    }
    var p := MakePlan(listed.value, o, now);
    if !p.keepFound {
      return None, [];
    }
    if quiet {
      ListedSize(listed.value, remote.store.tokens);
      KeepInTokens(listed.value, remote.store.tokens, o, now);
    }
    return Some(p), listed.value;
  }

  /** In a quiet state: what a reconcile run leaves, with or without an error. */
  ghost predicate Reconciled(before: Store, after: Store, o: Options, now: int, error: bool, plan: Option<Plan>) {
    && Keeps(Unplanned(before.tokens, o, now), after.tokens)
    && (!o.apply || plan.None? ==> after == before)
    && (plan.Some? ==> CanKeep(before.tokens, o, now))
    && (!error && o.apply && plan.Some? ==> after.Quiet() && after.tokens == Unplanned(before.tokens, o, now))
  }

  ghost predicate NonePlanned(tokens: Tokens, o: Options, now: int) {
    forall id :: id in tokens ==> !Planned(tokens[id], o, now)
  }

  /**
   `reconcileOne` on an account: no delete ever aims at an unplanned token, so none that was safe at the start is
   missing at any moment, and nothing is deleted in a dry run or when the token to keep is not live. When nothing is
   outstanding, a completed run deletes exactly the planned tokens.
   */
  method ReconcileOne(remote: Remote, o: Options, now: int) returns (error: bool, plan: Option<Plan>, listing: seq<Listed>)
    requires remote.Valid()
    modifies remote`store, remote`ids, remote`trace
    ensures remote.Valid() && Steps(old(remote.trace), remote.trace, error && plan.Some?)
    ensures old(remote.Spared()) && NonePlanned(remote.watched, o, now) ==>
      && remote.Spared() && AlwaysKeeps(remote.trace, remote.from, remote.watched) && Keeps(remote.watched, remote.store.tokens)
    ensures old(remote.store).Quiet() ==> Reconciled(old(remote.store), remote.store, o, now, error, plan)
    ensures plan.Some? ==> old(remote.store).account.Some? && Fit(old(remote.store).account.value)
    ensures plan.Some? ==> Distinct(listing) && PlanOf(plan.value, listing, o, now)
    ensures old(remote.store).Quiet() && plan.Some? ==> Lists(listing, old(remote.store).tokens)
    ensures error && plan.Some? ==> o.apply
    ensures plan.None? && !error ==> old(remote.store).account.None?
    ensures !o.apply || plan.None? ==> Untouched(remote.trace, |old(remote.trace)|)
    ensures o.apply && plan.Some? ==> Applied(remote.trace, |old(remote.trace)|, plan.value.candidates, error)
    ensures error ==> ReconcileExcused(remote.trace, |old(remote.trace)|, o, now)
  {
    ghost var quiet := remote.store.Quiet();
    error, plan, listing := PlanFor(remote, o, now, quiet);
    if plan.None? || !o.apply {
      return;
    }
    ghost var trace := remote.trace;
    error := ApplyPlan(remote, plan.value.candidates, listing, o, now, quiet);
    StepsOn(old(remote.trace), trace, remote.trace, false, error);
    ReconcileExcusedOn(trace, remote.trace, |old(remote.trace)|, o, now);
    NothingSent(trace, |old(remote.trace)|);
    AppliedOn(old(remote.trace), trace, remote.trace, plan.value.candidates, error);
  }

  method ApplyPlan(remote: Remote, candidates: seq<Listed>, ghost listing: seq<Listed>, ghost o: Options, ghost now: int,
                   ghost quiet: bool)
    returns (error: bool)
    requires remote.Valid() && Distinct(listing) && candidates == Chosen(listing, o, now)
    requires quiet ==> remote.store.Quiet() && Lists(listing, remote.store.tokens)
    modifies remote`store, remote`ids, remote`trace
    ensures remote.Valid() && Steps(old(remote.trace), remote.trace, error)
    ensures old(remote.Spared()) && NonePlanned(remote.watched, o, now) && SeesWatched(listing, remote.watched) ==>
      remote.Spared()
    ensures quiet ==> Keeps(Unplanned(old(remote.store).tokens, o, now), remote.store.tokens)
    ensures quiet && !error ==> remote.store.Quiet() && remote.store.tokens == Unplanned(old(remote.store).tokens, o, now)
    ensures Applied(remote.trace, |old(remote.trace)|, candidates, error)
  {
    ghost var before := remote.store.tokens;
    ChosenExactly(listing, o, now);
    error := DeleteAll(remote, candidates, quiet, before, o, now);
    if quiet && !error {
      Survivors(remote.store, before, listing, o, now);
    }
  }

  lemma ListedSize(listing: seq<Listed>, tokens: Tokens)
    requires Lists(listing, tokens)
    ensures |listing| == |tokens|
  {
    IdsAll(tokens, listing);
    IdsSize(listing, |listing|);
  }

  lemma {:induction false} IdsSize(listing: seq<Listed>, k: nat)
    requires Distinct(listing) && k <= |listing|
    ensures |Ids(listing[..k])| == k
  {
    if k > 0 {
      IdsSize(listing, k - 1);
      IdsNext(listing, k - 1);
    }
  }

  lemma KeepInTokens(listing: seq<Listed>, tokens: Tokens, o: Options, now: int)
    requires Lists(listing, tokens) && KeepIsLive(listing, o, now)
    ensures CanKeep(tokens, o, now)
  {
    if o.keep != "" {
      var i :| 0 <= i < |listing| && listing[i].token.title == o.keep && !Expired(listing[i].token, now);
      assert listing[i].id in tokens;
    }
  }

  /** When all candidates are gone, exactly the tokens that were not planned remain. */
  lemma Survivors(s: Store, before: Tokens, listing: seq<Listed>, o: Options, now: int)
    requires Lists(listing, before) && ReconcileState(s, before, Ids(Chosen(listing, o, now)), o, now)
    ensures s.tokens == Unplanned(before, o, now)
  {
    ChosenExactly(listing, o, now);
    forall id | id in before && Planned(before[id], o, now)
      ensures id in Ids(Chosen(listing, o, now))
    {
      var i :| 0 <= i < |listing| && listing[i].id == id;
      assert listing[i] in Chosen(listing, o, now);
    }
  }

  lemma {:induction false} NoneChosen(listing: seq<Listed>, o: Options, now: int)
    requires forall x :: x in listing ==> !Planned(x.token, o, now)
    ensures Chosen(listing, o, now) == []
  {
    if listing != [] { NoneChosen(listing[..|listing| - 1], o, now); }
  }

  /** Planning again at the same instant: what survived has nothing to delete, and still the token to keep. */
  lemma PlanAgain(before: Tokens, again: seq<Listed>, o: Options, now: int)
    requires CanKeep(before, o, now) && Lists(again, Unplanned(before, o, now))
    ensures Chosen(again, o, now) == [] && KeepIsLive(again, o, now)
  {
    NoneChosen(again, o, now);
    if o.keep != "" {
      var id :| id in before && before[id].title == o.keep && !Expired(before[id], now);
      assert id in Unplanned(before, o, now);
      var i :| 0 <= i < |again| && again[i].id == id;
    }
  }

  // ----- offboard

  /** The only mutation is the deletion of the account, and only when asked for. */
  ghost predicate OnlyOffboards(trace: seq<Entry>, start: nat, apply: bool) {
    forall k {:trigger trace[k]} :: start <= k < |trace| && trace[k].Called? ==> apply && trace[k].call.DeleteAccount?
  }

  /**
   One target of `Offboard`: only a Viewer account is deleted, after a Check, and only when applying. Success of an
   apply means that there was no account, or that it is gone.
   */
  method OffboardOne(remote: Remote, apply: bool) returns (error: bool)
    requires remote.Valid()
    modifies remote`store, remote`trace
    ensures remote.Valid() && Steps(old(remote.trace), remote.trace, false)
    ensures OnlyOffboards(remote.trace, |old(remote.trace)|, apply)
    ensures !IsViewer(old(remote.store)) ==> Untouched(remote.trace, |old(remote.trace)|)
    ensures !error && apply ==> old(remote.store).account.None? || remote.store == GONE
    ensures old(remote.store).Quiet() ==>
      || remote.store == old(remote.store)
      || (apply && IsViewer(old(remote.store))
          && (remote.store == GONE || remote.store == old(remote.store).(lateAccount := Leaving)))
    ensures error ==> Rejected(remote.trace, |old(remote.trace)|)
  {
    ghost var s := remote.store;
    var acquired := remote.Acquire();
    if !acquired {
      assert remote.trace == old(remote.trace) + [Failed(Locking)] + [];
      ReadSteps(old(remote.trace), Failed(Locking), []);
      return true;
    }
    assert remote.trace == old(remote.trace);
    var failed, account := remote.FindAccount();
    if s.Quiet() { QuietStays(s, remote.store); }
    ReadSteps(old(remote.trace), if failed then Failed(Looking) else Seen(account), [Settled(remote.store.tokens)]);
    if failed || account.None? {
      return failed;
    }
    if account.value.role != "Viewer" {
      return true;
    }
    if !apply {
      return false;
    }
    ghost var trace := remote.trace;
    error := CheckedOffboard(remote);
    StepsOn(old(remote.trace), trace, remote.trace, false, error);
    RejectedOn(trace, remote.trace, |old(remote.trace)|);
  }

  method CheckedOffboard(remote: Remote) returns (error: bool)
    requires remote.Valid()
    modifies remote`store, remote`trace
    ensures remote.Valid() && Steps(old(remote.trace), remote.trace, error)
    ensures OnlyOffboards(remote.trace, |old(remote.trace)|, true)
    ensures remote.store in [old(remote.store), GONE, old(remote.store).(lateAccount := Leaving)]
    ensures !error ==> remote.store == GONE
  {
    var ok := remote.Check();
    if !ok {
      assert remote.trace == old(remote.trace) + [Checked(false)] + [];
      ReadSteps(old(remote.trace), Checked(false), []);
      return true;
    }
    var reply := remote.DeleteAccount();
    error := !reply.Done?;
    OffboardSteps(old(remote.trace), !error, remote.store.tokens);
  }

  lemma OffboardSteps(trace: seq<Entry>, done: bool, after: Tokens)
    ensures var trace' := trace + [Checked(true)] + [Called(Call.DeleteAccount, done, after)];
      Steps(trace, trace', !done) && OnlyOffboards(trace', |trace|, true)
  {
    var trace' := trace + [Checked(true)] + [Called(Call.DeleteAccount, done, after)];
    assert trace'[|trace|] == Checked(true) && trace'[|trace| + 1] == Called(Call.DeleteAccount, done, after);
  }

  // ----- the token shown on the page

  /** Still accepted by Grafana as far as `liveToken` can tell; at its very expiry a token still counts as live. */
  predicate Live(t: Token, now: int) {
    !t.revoked && !t.hasExpired && !(t.expiration.Some? && now > t.expiration.value)
  }

  /** A reconcile counts as expired exactly the tokens that are not live, and those that expire at this very moment. */
  lemma ExpiredOrLive(t: Token, now: int)
    ensures Expired(t, now) <==> !Live(t, now) || t.expiration == Some(now)
  {
  }

  /** The newest live token, the first one listed among equals. */
  method LiveToken(listing: seq<Listed>, now: int) returns (newest: Option<nat>)
    ensures newest.None? <==> forall i :: 0 <= i < |listing| ==> !Live(listing[i].token, now)
    ensures newest.Some? ==>
      && newest.value < |listing| && Live(listing[newest.value].token, now)
      && (forall i :: 0 <= i < |listing| && Live(listing[i].token, now) ==>
            listing[i].token.created <= listing[newest.value].token.created)
      && (forall i :: 0 <= i < newest.value && Live(listing[i].token, now) ==>
            listing[i].token.created < listing[newest.value].token.created)
  {
    newest := None;
    for i := 0 to |listing|
      invariant newest.None? <==> forall j :: 0 <= j < i ==> !Live(listing[j].token, now)
      invariant newest.Some? ==>
        && newest.value < i && Live(listing[newest.value].token, now)
        && (forall j :: 0 <= j < i && Live(listing[j].token, now) ==>
              listing[j].token.created <= listing[newest.value].token.created)
        && (forall j :: 0 <= j < newest.value && Live(listing[j].token, now) ==>
              listing[j].token.created < listing[newest.value].token.created)
    {
      var t := listing[i].token;
      if t.revoked || t.hasExpired || (t.expiration.Some? && now > t.expiration.value) {
        continue;
      }
      if newest.None? || t.created > listing[newest.value].token.created {
        newest := Some(i);
      }
    }
  }
}
