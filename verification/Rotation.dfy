/** Issuing a token: create the replacement, prepare its delivery, then delete the old ones. */
module Rotation {
  import opened Clock
  import opened Text
  import opened IdealCrypto
  import opened SessionCodecs
  import opened FlashCodecs
  import opened Remotes
  import opened Traces
  import opened Delivery

  /** `reconcile` is errTokenReconciliation somewhere in the error chain. */
  datatype Failure = Failure(reconcile: bool)

  datatype NewToken = Issued(delivered: Delivered) | NotIssued(failure: Failure)

  datatype Result = Result(error: Option<Failure>, token: string, cookie: string, partial: bool)

  // ----- names

  ghost predicate NoTitle(name: string, tokens: Tokens) {
    forall id :: id in tokens ==> tokens[id].title != name
  }

  /** The requested title is new: neither an ID ever in use nor the title of a token, present or to come. */
  ghost predicate Fresh(name: string, ids: set<string>, s: Store) {
    name !in ids && NoTitle(name, s.tokens) && NoTitle(name, s.lateCreates)
  }

  lemma FreshStays(name: string, ids: set<string>, s: Store, s': Store)
    requires Fresh(name, ids, s) && Lands(s, s')
    ensures Fresh(name, ids, s') && (!s.lateAccount.Leaving? ==> !s'.lateAccount.Leaving?)
  {
    var creates, deletes, account :| s' == Land(s, creates, deletes, account);
  }

  // ----- the run's own token

  /** Whatever has this title is the run's own token, which nothing outstanding can take away. */
  ghost predicate Own(s: Store, name: string, id: string, token: Token, legacy: bool) {
    && !s.lateAccount.Leaving? && id !in s.lateDeletes
    && OwnIn(s.tokens, name, id, token, legacy) && OwnIn(s.lateCreates, name, id, token, legacy)
    && (!legacy ==> id == token.title)
  }

  ghost predicate OwnIn(tokens: Tokens, name: string, id: string, token: Token, legacy: bool) {
    && (forall x :: x in tokens && tokens[x].title == name ==> x == id)
    && (id in tokens ==> tokens[id] == token)
    && (!legacy && name in tokens ==> name == id)
  }

  lemma OwnStays(s: Store, s': Store, name: string, id: string, token: Token, legacy: bool)
    requires Own(s, name, id, token, legacy) && Lands(s, s')
    ensures Own(s', name, id, token, legacy) && (id in s.tokens ==> id in s'.tokens)
  {
    var creates, deletes, account :| s' == Land(s, creates, deletes, account);
  }

  /** What one creation may have done, when nothing else had the title. */
  ghost predicate Creates(s: Store, mid: Store, id: string, token: Token) {
    || mid == s
    || mid == s.(tokens := s.tokens[id := token])
    || mid == s.(lateCreates := s.lateCreates[id := token])
  }

  lemma CreatesOwn(s: Store, mid: Store, ids: set<string>, name: string, id: string, token: Token, legacy: bool)
    requires Fresh(name, ids, s) && Mentioned(s) <= ids && id !in ids && Creates(s, mid, id, token)
    requires !s.lateAccount.Leaving? && (!legacy ==> id == token.title)
    ensures Own(mid, name, id, token, legacy)
  {
  }

  lemma CreatesPending(s: Store, mid: Store, id: string, token: Token)
    requires s.Quiet() && id !in s.tokens && Creates(s, mid, id, token)
    ensures Pending(s.tokens, id, token, mid)
  {
    assert mid.lateCreates == map[] || mid.lateCreates == map[id := token];
  }

  /** The old tokens and perhaps the new one, there or still to come. */
  ghost predicate Pending(old': Tokens, id: string, token: Token, s: Store) {
    && id !in old'
    && s.lateDeletes == {} && s.lateAccount.Steady?
    && (|| (s.tokens == old' && s.lateCreates == map[])
        || (s.tokens == old' && s.lateCreates == map[id := token])
        || (s.tokens == old'[id := token] && s.lateCreates == map[]))
  }

  lemma PendingStays(old': Tokens, id: string, token: Token, s: Store, s': Store)
    requires Pending(old', id, token, s) && Lands(s, s')
    ensures Pending(old', id, token, s') && s'.account == s.account
  {
    var creates, deletes, account :| s' == Land(s, creates, deletes, account);
    if s.lateCreates == map[] {
      QuietStays(s, s');
    } else if id in creates {
      assert s'.tokens == old'[id := token];
    } else {
      assert s'.tokens == old';
      assert s'.lateCreates == map[id := token];
    }
  }

  /**
   The legacy API deletes by ID, so the token is looked up by its name; only a single match will do. Here and below,
   `quiet` says that nothing else was outstanding, and then the tokens are known exactly.
   */
  method FindOwn(remote: Remote, name: string, ghost quiet: bool, ghost old': Tokens, ghost id: string, ghost token: Token)
    returns (target: Option<string>)
    requires remote.Valid() && remote.Spared() && Own(remote.store, name, id, token, remote.legacy)
    requires quiet ==> Pending(old', id, token, remote.store)
    modifies remote`store, remote`trace
    ensures remote.Valid() && remote.Spared() && Own(remote.store, name, id, token, remote.legacy)
    ensures target.Some? ==> target.value == id && token.title == name && id in remote.store.tokens
    ensures target.None? && remote.legacy ==> CleanupFailed(remote.trace, |old(remote.trace)|, name, true)
    ensures quiet ==> Pending(old', id, token, remote.store) && remote.store.account == old(remote.store).account
    ensures old(remote.trace) <= remote.trace && OnlyCleanup(remote.trace, |old(remote.trace)|, name, remote.legacy)
  {
    ghost var s := remote.store;
    var listing := remote.ListTokens();
    OwnStays(s, remote.store, name, id, token, remote.legacy);
    if quiet { PendingStays(old', id, token, s, remote.store); }
    ReadShows(old(remote.trace), if listing.Some? then Shown(listing.value) else Failed(Listing), [Settled(remote.store.tokens)],
      name, remote.legacy);
    if listing.None? {
      return None;
    }
    var matches := MatchesOf(listing.value, name);
    if |matches| != 1 {
      return None;
    }
    return Some(matches[0].id);
  }

  /** The listed tokens with this title. */
  method MatchesOf(listing: seq<Listed>, name: string) returns (matches: seq<Listed>)
    ensures |matches| == 1 <==> OneTitled(listing, name)
    ensures |matches| == 1 ==> matches[0] in listing && matches[0].token.title == name
  {
    matches := [];
    ghost var first: nat, second: nat := 0, 0;
    for i := 0 to |listing|
      invariant |matches| == 0 ==> forall j :: 0 <= j < i ==> listing[j].token.title != name
      invariant |matches| == 1 ==>
        && first < i && listing[first] == matches[0] && matches[0].token.title == name
        && forall j :: 0 <= j < i && j != first ==> listing[j].token.title != name
      invariant |matches| > 1 ==> first < second < i && listing[first].token.title == listing[second].token.title == name
    {
      if listing[i].token.title == name {
        if |matches| == 0 { first := i; } else if |matches| == 1 { second := i; }
        matches := matches + [listing[i]];
      }
    }
    if |matches| == 1 { assert listing[first] in listing; }
  }

  /** The delete of a cleanup: of a found ID with the legacy API, of the name with the IAM API. */
  method DeleteOwn(remote: Remote, name: string, target: string, ghost quiet: bool, ghost old': Tokens, ghost id: string,
                   ghost token: Token)
    returns (failed: bool)
    requires remote.Valid() && remote.Spared() && Own(remote.store, name, id, token, remote.legacy)
    requires target !in remote.watched
    requires if remote.legacy then target == id && id in remote.store.tokens && token.title == name else target == name
    requires quiet ==> Pending(old', id, token, remote.store) && target !in old'
    modifies remote`store, remote`ids, remote`trace
    ensures remote.Valid() && remote.Spared()
    ensures quiet && !failed ==> remote.store.tokens == old' && remote.store.Quiet()
    ensures CleanupEnds(remote.trace, |old(remote.trace)|, name, remote.legacy, failed)
    ensures old(remote.trace) <= remote.trace && OnlyCleanup(remote.trace, |old(remote.trace)|, name, remote.legacy)
  {
    ghost var s := remote.store;
    var reply;
    ghost var mid;
    reply, mid := remote.DeleteToken(target);
    OwnDelete(old(remote.trace), DeleteOf(s, target), reply.Done?, mid.tokens, remote.store.tokens, name, remote.legacy);
    if quiet && reply.Done? {
      assert target == id && mid.tokens == old';
      QuietStays(mid, remote.store);
    }
    return !reply.Done?;
  }

  lemma OwnDelete(trace: seq<Entry>, call: Call, done: bool, mid: Tokens, after: Tokens, name: string, legacy: bool)
    requires OwnCleanup(Called(call, done, mid), name, legacy)
    ensures OnlyCleanup(trace + [Called(call, done, mid)] + [Settled(after)], |trace|, name, legacy)
    ensures CleanupEnds(trace + [Called(call, done, mid)] + [Settled(after)], |trace|, name, legacy, !done)
  {
    assert (trace + [Called(call, done, mid)] + [Settled(after)])[|trace|] == Called(call, done, mid);
  }

  /** `cleanupUndeliveredToken`: by name with the IAM API, by the ID of the one listed match with the legacy API. */
  method Cleanup(remote: Remote, name: string, ghost quiet: bool, ghost old': Tokens, ghost id: string, ghost token: Token)
    returns (reconcile: bool)
    requires remote.Valid() && remote.Spared() && Own(remote.store, name, id, token, remote.legacy)
    requires id !in remote.watched && name !in remote.watched
    requires quiet ==> Pending(old', id, token, remote.store) && name !in old'
    modifies remote`store, remote`ids, remote`trace
    ensures remote.Valid() && remote.Spared()
    ensures quiet && !reconcile ==> remote.store.tokens == old' && remote.store.Quiet()
    ensures CleanupEnds(remote.trace, |old(remote.trace)|, name, remote.legacy, reconcile)
    ensures old(remote.trace) <= remote.trace && OnlyCleanup(remote.trace, |old(remote.trace)|, name, remote.legacy)
  {
    var target := name;
    if remote.legacy {
      var found := FindOwn(remote, name, quiet, old', id, token);
      if found.None? {
        return true;
      }
      target := found.value;
    }
    ghost var trace := remote.trace;
    reconcile := DeleteOwn(remote, name, target, quiet, old', id, token);
    CleanupOn(old(remote.trace), trace, remote.trace, name, remote.legacy);
    CleanupEndsOn(trace, remote.trace, |old(remote.trace)|, name, remote.legacy, reconcile);
  }

  lemma CleanupOn(t0: seq<Entry>, t1: seq<Entry>, t2: seq<Entry>, name: string, legacy: bool)
    requires t0 <= t1 <= t2 && OnlyCleanup(t1, |t0|, name, legacy) && OnlyCleanup(t2, |t1|, name, legacy)
    ensures OnlyCleanup(t2, |t0|, name, legacy)
  {
    assert forall k :: 0 <= k < |t1| ==> t2[k] == t1[k];
  }

  /** The request of a creation, and the state it leaves; `own` is what a cleanup can rely on. */
  method RequestToken(remote: Remote, name: string, ghost quiet: bool)
    returns (reply: CreateReply, ghost id: string, ghost token: Token)
    requires remote.Valid() && remote.Spared() && !remote.store.lateAccount.Leaving?
    requires Fresh(name, remote.ids, remote.store) && (quiet ==> remote.store.Quiet())
    modifies remote`store, remote`ids, remote`trace
    ensures remote.Valid() && remote.Spared() && Own(remote.store, name, id, token, remote.legacy)
    ensures id !in old(remote.ids) && id !in remote.watched && name !in remote.watched
    ensures old(remote.ids) <= remote.ids
    ensures quiet ==> Pending(old(remote.store).tokens, id, token, remote.store) && name !in old(remote.store).tokens
    ensures reply.Created? ==> token.title == reply.name && Safe(map[id := token], remote.store)
    ensures quiet && reply.Created? ==> remote.store == old(remote.store).(tokens := old(remote.store).tokens[id := token])
    ensures quiet && reply.CreateRefused? ==> remote.store == old(remote.store)
    ensures |remote.trace| == |old(remote.trace)| + 2 && old(remote.trace) <= remote.trace
    ensures var e := remote.trace[|old(remote.trace)|];
      e.Called? && e.call == Call.CreateToken(name, reply) && e.done == reply.Created?
    ensures remote.trace[|old(remote.trace)| + 1].Settled?
  {
    ghost var s, ids := remote.store, remote.ids;
    ghost var mid;
    reply, id, token, mid := remote.CreateToken(name);
    CreatesOwn(s, mid, ids, name, id, token, remote.legacy);
    OwnStays(mid, remote.store, name, id, token, remote.legacy);
    if quiet {
      CreatesPending(s, mid, id, token);
      PendingStays(s.tokens, id, token, mid, remote.store);
      if mid.Quiet() { QuietStays(mid, remote.store); }
    }
    if reply.Created? {
      SafeStays(map[id := token], mid, remote.store);
    }
  }

  /** `newToken` with either API: every answer but a refusal and the requested token is followed by a cleanup. */
  method NewTokenFor(remote: Remote, name: string, now: int, ttl: int, ghost quiet: bool)
    returns (r: NewToken, ghost id: string, ghost token: Token)
    requires remote.Valid() && remote.Spared() && !remote.store.lateAccount.Leaving?
    requires Fresh(name, remote.ids, remote.store) && (quiet ==> remote.store.Quiet())
    modifies remote`store, remote`ids, remote`trace
    ensures remote.Valid() && remote.Spared()
    ensures r.Issued? ==>
      && r.delivered.secret != "" && token.title == name && id !in old(remote.ids) && id !in remote.watched
      && Own(remote.store, name, id, token, remote.legacy) && Safe(map[id := token], remote.store)
      && AnsweredWith(remote.trace, |old(remote.trace)|, name, r.delivered, remote.legacy)
      && Dated(r.delivered, now, ttl, remote.legacy)
    ensures quiet && r.Issued? ==>
      && remote.store == old(remote.store).(tokens := old(remote.store).tokens[id := token])
      && Pending(old(remote.store).tokens, id, token, remote.store)
    ensures quiet && r.NotIssued? && !r.failure.reconcile ==>
      remote.store.tokens == old(remote.store).tokens && remote.store.Quiet()
    ensures r.NotIssued? ==> Excused(remote.trace, |old(remote.trace)|, name)
    ensures old(remote.trace) < remote.trace && IsCreation(remote.trace[|old(remote.trace)|], name)
    ensures r.NotIssued? ==> Resolves(remote.trace, |old(remote.trace)|, name, remote.legacy, r.failure.reconcile)
    ensures OnlyCleanup(remote.trace, |old(remote.trace)| + 1, name, remote.legacy)
  {
    ghost var before := remote.store.tokens;
    var reply;
    reply, id, token := RequestToken(remote, name, quiet);
    ghost var trace := remote.trace;
    var reconcile := false;
    match reply {
      case CreateRefused =>
        r := NotIssued(Failure(false));
      case CreateUnclear =>
        reconcile := Cleanup(remote, name, quiet, before, id, token);
        r := NotIssued(Failure(reconcile));
      case Created(secret, got, answered) =>
        if secret == "" {
          reconcile := Cleanup(remote, name, quiet, before, id, token);
          r := NotIssued(Failure(reconcile));
        } else if got != name {
          reconcile := Cleanup(remote, name, quiet, before, id, token);
          r := NotIssued(Failure(true));
        } else {
          r := Issued(Delivered(secret, now, if remote.legacy then Some(now + ttl) else UnixTime(answered)));
        }
    }
    CreationShown(old(remote.trace), trace, remote.trace, name, remote.legacy, reconcile);
  }

  /** What the first entry of a creation shows stays shown. */
  lemma CreationShown(t0: seq<Entry>, t1: seq<Entry>, t2: seq<Entry>, name: string, legacy: bool, reconcile: bool)
    requires t0 <= t1 <= t2 && |t1| == |t0| + 2 && t1[|t0|].Called? && t1[|t0| + 1].Settled?
    requires OnlyCleanup(t2, |t1|, name, legacy)
    ensures t2[|t0|] == t1[|t0|] && OnlyCleanup(t2, |t0| + 1, name, legacy)
    ensures IsExcuse(t1[|t0|], name) ==> Excused(t2, |t0|, name)
    ensures t2 == t1 ==> forall k {:trigger t2[k]} :: |t0| < k < |t2| ==> !t2[k].Called?
    ensures CleanupEnds(t2, |t1|, name, legacy, reconcile) ==> CleanupEnds(t2, |t0| + 1, name, legacy, reconcile)
  {
    assert forall k :: 0 <= k < |t1| ==> t2[k] == t1[k];
  }

  // ----- deleting the old tokens

  /** The replacement and the old tokens from `from` on. */
  function Left(old': Tokens, listing: seq<Listed>, from: nat, id: string, token: Token): Tokens
    requires from <= |listing|
  {
    (old' - Ids(listing[..from]))[id := token]
  }

  lemma LeftNext(old': Tokens, listing: seq<Listed>, from: nat, id: string, token: Token)
    requires Lists(listing, old') && from < |listing| && id !in old'
    ensures Left(old', listing, from, id, token) - {listing[from].id} == Left(old', listing, from + 1, id, token)
  {
    assert Ids(listing[..from + 1]) == Ids(listing[..from]) + {listing[from].id};
  }

  lemma LeftAll(old': Tokens, listing: seq<Listed>, id: string, token: Token)
    requires Lists(listing, old')
    ensures Left(old', listing, |listing|, id, token) == map[id := token]
    ensures Left(old', listing, 0, id, token) == old'[id := token]
  {
    assert forall x :: x in old' ==> x in Ids(listing[..|listing|]);
  }

  /** Stopped at old token `k`: everything after it is there, nothing before it, and it may be gone or going. */
  ghost predicate StoppedAt(s: Store, old': Tokens, listing: seq<Listed>, k: nat, id: string, token: Token)
    requires k < |listing|
  {
    && Keeps(Left(old', listing, k + 1, id, token), s.tokens)
    && Keeps(s.tokens, Left(old', listing, k, id, token))
    && s.lateCreates == map[] && s.lateDeletes <= {listing[k].id} && s.lateAccount.Steady?
  }

  /** At most the one delete that is outstanding can land. */
  lemma OneLateDelete(s: Store, s': Store, x: string)
    requires s.lateCreates == map[] && s.lateDeletes <= {x} && s.lateAccount.Steady? && Lands(s, s')
    ensures s'.tokens == s.tokens || s'.tokens == s.tokens - {x}
    ensures s'.lateCreates == map[] && s'.lateDeletes <= {x} && s'.lateAccount.Steady?
  {
    var creates, deletes, account :| s' == Land(s, creates, deletes, account);
    if x in s.lateDeletes * deletes {
      assert s.lateDeletes * deletes == {x};
    } else {
      assert s.lateDeletes * deletes == {};
      assert s'.tokens == s.tokens;
    }
  }

  lemma BetweenStays(least: Tokens, most: Tokens, tokens: Tokens, tokens': Tokens, x: string)
    requires least == most - {x} && Keeps(least, tokens) && Keeps(tokens, most)
    requires tokens' == tokens || tokens' == tokens - {x}
    ensures Keeps(least, tokens') && Keeps(tokens', most)
  {
  }

  lemma StoppedStays(s: Store, s': Store, old': Tokens, listing: seq<Listed>, k: nat, id: string, token: Token)
    requires k < |listing| && Lists(listing, old') && id !in old'
    requires StoppedAt(s, old', listing, k, id, token) && Lands(s, s')
    ensures StoppedAt(s', old', listing, k, id, token)
  {
    LeftNext(old', listing, k, id, token);
    OneLateDelete(s, s', listing[k].id);
    BetweenStays(Left(old', listing, k + 1, id, token), Left(old', listing, k, id, token), s.tokens, s'.tokens, listing[k].id);
  }

  /** Whatever the delete of old token `k` answers, it stops at `k` at worst, and the replacement stays. */
  lemma DeleteStops(s: Store, mid: Store, s': Store, old': Tokens, listing: seq<Listed>, k: nat, reply: Reply,
                    id: string, token: Token)
    requires k < |listing| && Lists(listing, old') && id !in old'
    requires s.Quiet() && s.tokens == Left(old', listing, k, id, token) && Lands(mid, s')
    requires Deletes(s, mid, listing[k].id, reply)
    ensures StoppedAt(s', old', listing, k, id, token)
    ensures reply.Done? ==> s'.Quiet() && s'.tokens == Left(old', listing, k + 1, id, token)
  {
    assert s.lateDeletes + {listing[k].id} == {listing[k].id};
    LeftNext(old', listing, k, id, token);
    BetweenStays(Left(old', listing, k + 1, id, token), Left(old', listing, k, id, token), s.tokens, mid.tokens, listing[k].id);
    StoppedStays(mid, s', old', listing, k, id, token);
    if reply.Done? { QuietStays(mid, s'); }
  }

  /** One round of the loop over the old tokens. The replacement is safe, and stays so. */
  method DeleteNext(remote: Remote, listing: seq<Listed>, k: nat, ghost quiet: bool, ghost old': Tokens, ghost id: string,
                    ghost token: Token)
    returns (ok: bool)
    requires remote.Valid() && k < |listing| && listing[k].id != id && Safe(map[id := token], remote.store)
    requires quiet ==>
      && Lists(listing, old') && id !in old' && remote.store.Quiet()
      && remote.store.tokens == Left(old', listing, k, id, token)
    modifies remote`store, remote`ids, remote`trace
    ensures remote.Valid() && Safe(map[id := token], remote.store)
    ensures quiet && ok ==> remote.store.Quiet() && remote.store.tokens == Left(old', listing, k + 1, id, token)
    ensures quiet && !ok ==> StoppedAt(remote.store, old', listing, k, id, token)
    ensures !ok ==> Interrupted(remote.trace, |old(remote.trace)|) && EndsFailing(remote.trace, |old(remote.trace)|)
    ensures ok ==> Targets(remote.trace, |old(remote.trace)|) == Removals(remote.trace, |old(remote.trace)|) == [listing[k].id]
    ensures !ok ==> Targets(remote.trace, |old(remote.trace)|) in [[], [listing[k].id]]
    ensures Walk(old(remote.trace), remote.trace, token.title, remote.legacy)
    ensures AlwaysTitled(remote.trace, |old(remote.trace)|, token.title)
  {
    ok := remote.Check();
    if !ok {
      if quiet { LeftNext(old', listing, k, id, token); }
      assert remote.trace == old(remote.trace) + [Checked(false)] + [];
      ReadWalks(old(remote.trace), Checked(false), [], token.title, remote.legacy);
      NothingSent(remote.trace, |old(remote.trace)|);
      return;
    }
    ghost var s := remote.store;
    var reply;
    ghost var mid;
    reply, mid := remote.DeleteToken(listing[k].id);
    ReplacementStays(s, mid, remote.store, listing[k].id, reply, id, token);
    if quiet { DeleteStops(s, mid, remote.store, old', listing, k, reply, id, token); }
    GuardedCallWalks(old(remote.trace), DeleteOf(s, listing[k].id), reply.Done?, mid.tokens, remote.store.tokens,
      token.title, remote.legacy);
    GuardedCallSent(old(remote.trace), DeleteOf(s, listing[k].id), reply.Done?, mid.tokens, remote.store.tokens);
    ok := reply.Done?;
    if !ok { GuardedCallEnds(old(remote.trace), DeleteOf(s, listing[k].id), false, mid.tokens, remote.store.tokens); }
  }

  lemma ReplacementStays(s: Store, mid: Store, s': Store, x: string, reply: Reply, id: string, token: Token)
    requires Safe(map[id := token], s) && x != id && Deletes(s, mid, x, reply) && Lands(mid, s')
    ensures Safe(map[id := token], s') && HasTitle(mid.tokens, token.title) && HasTitle(s'.tokens, token.title)
  {
    SafeDelete(map[id := token], s, mid, x, reply);
    SafeStays(map[id := token], mid, s');
    assert id in mid.tokens && id in s'.tokens;
  }

  /** What the loop has shown after `k` tokens. */
  ghost predicate DeletedSoFar(start: seq<Entry>, trace: seq<Entry>, listing: seq<Listed>, k: nat, name: string, legacy: bool)
    requires k <= |listing|
  {
    && Walk(start, trace, name, legacy) && AlwaysTitled(trace, |start|, name)
    && Applied(trace, |start|, listing[..k], false)
  }

  lemma DeletedOneMore(start: seq<Entry>, t1: seq<Entry>, t2: seq<Entry>, listing: seq<Listed>, k: nat, ok: bool, name: string,
                       legacy: bool)
    requires k < |listing| && DeletedSoFar(start, t1, listing, k, name, legacy)
    requires Walk(t1, t2, name, legacy) && AlwaysTitled(t2, |t1|, name) && (!ok ==> Interrupted(t2, |t1|))
    requires ok ==> Targets(t2, |t1|) == Removals(t2, |t1|) == [listing[k].id]
    requires !ok ==> Targets(t2, |t1|) in [[], [listing[k].id]] && EndsFailing(t2, |t1|)
    ensures ok ==> DeletedSoFar(start, t2, listing, k + 1, name, legacy)
    ensures !ok ==> Applied(t2, |start|, listing, true) && Interrupted(t2, |start|)
    ensures Walk(start, t2, name, legacy) && AlwaysTitled(t2, |start|, name)
  {
    WalkOn(start, t1, t2, name, legacy);
    TitledOn(t1, t2, |start|, name);
    InterruptedOn(t1, t2, |start|);
    AppliedNext(start, t1, t2, listing, k, ok);
  }

  /** The loop over the old tokens: a failed Check or a failed delete ends it with a partial result. */
  method DeleteOld(remote: Remote, listing: seq<Listed>, ghost quiet: bool, ghost old': Tokens, ghost id: string,
                   ghost token: Token)
    returns (partial: bool, k: nat)
    requires remote.Valid() && Safe(map[id := token], remote.store)
    requires forall i :: 0 <= i < |listing| ==> listing[i].id != id
    requires quiet ==> Lists(listing, old') && id !in old' && remote.store.Quiet() && remote.store.tokens == old'[id := token]
    modifies remote`store, remote`ids, remote`trace
    ensures remote.Valid() && Safe(map[id := token], remote.store)
    ensures quiet && !partial ==> remote.store.tokens == map[id := token] && remote.store.Quiet()
    ensures quiet && partial ==> k < |listing| && StoppedAt(remote.store, old', listing, k, id, token)
    ensures partial ==> Interrupted(remote.trace, |old(remote.trace)|)
    ensures !partial ==> k == |listing|
    ensures Applied(remote.trace, |old(remote.trace)|, listing, partial)
    ensures Walk(old(remote.trace), remote.trace, token.title, remote.legacy)
    ensures AlwaysTitled(remote.trace, |old(remote.trace)|, token.title)
  {
    k := 0;
    if quiet { LeftAll(old', listing, id, token); }
    while k < |listing|
      invariant k <= |listing| && remote.Valid() && Safe(map[id := token], remote.store)
      invariant quiet ==> remote.store.Quiet() && remote.store.tokens == Left(old', listing, k, id, token)
      invariant DeletedSoFar(old(remote.trace), remote.trace, listing, k, token.title, remote.legacy)
    {
      ghost var before := remote.trace;
      var ok := DeleteNext(remote, listing, k, quiet, old', id, token);
      DeletedOneMore(old(remote.trace), before, remote.trace, listing, k, ok, token.title, remote.legacy);
      if !ok {
        return true, k;
      }
      k := k + 1;
    }
    assert listing[..k] == listing;
    return false, k;
  }

  // ----- issue

  /** After a Check, creates the missing account. */
  method CreateMissing(remote: Remote, name: string, ghost quiet: bool) returns (account: Option<Account>)
    requires remote.Valid() && remote.Spared() && !remote.store.lateAccount.Leaving?
    requires Fresh(name, remote.ids, remote.store) && (quiet ==> remote.store.Quiet())
    modifies remote`store, remote`trace
    ensures remote.Valid() && remote.Spared() && !remote.store.lateAccount.Leaving?
    ensures Fresh(name, remote.ids, remote.store)
    ensures quiet ==> OnlyAccountChanged(old(remote.store), remote.store)
    ensures quiet && account.Some? ==> remote.store.Quiet() && remote.store.account == account
    ensures account.None? ==> Excused(remote.trace, |old(remote.trace)|, name)
    ensures account.Some? && !Fit(account.value) ==> Excused(remote.trace, |old(remote.trace)|, name)
    ensures NoCreation(remote.trace, |old(remote.trace)|)
    ensures Walk(old(remote.trace), remote.trace, name, remote.legacy)
  {
    ghost var s := remote.store;
    var ok := remote.Check();
    if !ok {
      assert remote.trace == old(remote.trace) + [Checked(false)] + [];
      ReadWalks(old(remote.trace), Checked(false), [], name, remote.legacy);
      return None;
    }
    ghost var mid;
    account, mid := remote.CreateAccount();
    FreshStays(name, remote.ids, mid, remote.store);
    ghost var call, done := Call.CreateAccount(account), account.Some?;
    GuardedCallWalks(old(remote.trace), call, done, mid.tokens, remote.store.tokens, name, remote.legacy);
    assert remote.trace == GuardedCall(old(remote.trace), call, done, mid.tokens, remote.store.tokens);
    if quiet { AccountSettles(s, mid, remote.store); }
  }

  ghost predicate OnlyAccountChanged(s: Store, s': Store) {
    s' == s.(account := s'.account, lateAccount := s'.lateAccount) && s'.TokensQuiet()
  }

  /** Only the account itself can still change. */
  lemma AccountSettles(s: Store, mid: Store, s': Store)
    requires s.Quiet() && Lands(mid, s')
    requires mid == s.(account := mid.account) || (mid == s.(lateAccount := mid.lateAccount) && mid.lateAccount.Arriving?)
    ensures OnlyAccountChanged(s, s')
    ensures mid.Quiet() ==> s' == mid
  {
    var creates, deletes, account :| s' == Land(mid, creates, deletes, account);
    assert s'.tokens == s.tokens;
  }

  /** Finds the account or creates it; only an enabled Viewer will do. */
  method LocateAccount(remote: Remote, name: string, ghost quiet: bool) returns (account: Option<Account>)
    requires remote.Valid() && remote.Spared() && !remote.store.lateAccount.Leaving?
    requires Fresh(name, remote.ids, remote.store) && (quiet ==> remote.store.Quiet())
    modifies remote`store, remote`trace
    ensures remote.Valid() && remote.Spared() && !remote.store.lateAccount.Leaving?
    ensures Fresh(name, remote.ids, remote.store)
    ensures quiet ==> OnlyAccountChanged(old(remote.store), remote.store)
    ensures quiet && account.Some? ==> remote.store.Quiet() && remote.store.account == account
    ensures account.Some? ==> Fit(account.value)
    ensures account.None? ==> Excused(remote.trace, |old(remote.trace)|, name)
    ensures NoCreation(remote.trace, |old(remote.trace)|)
    ensures Walk(old(remote.trace), remote.trace, name, remote.legacy)
  {
    ghost var s := remote.store;
    var failed;
    failed, account := remote.FindAccount();
    FreshStays(name, remote.ids, s, remote.store);
    if quiet { QuietStays(s, remote.store); }
    ReadWalks(old(remote.trace), if failed then Failed(Looking) else Seen(account), [Settled(remote.store.tokens)],
      name, remote.legacy);
    if failed {
      return None;
    }
    if account.None? {
      ghost var trace := remote.trace;
      account := CreateMissing(remote, name, quiet);
      WalkOn(old(remote.trace), trace, remote.trace, name, remote.legacy);
      ExcusedOn(trace, remote.trace, |old(remote.trace)|, name);
      if account.None? {
        return None;
      }
    }
    if account.value.disabled {
      return None;
    }
    if account.value.role != "Viewer" {
      return None;
    }
  }

  /** The Check and the creation it guards. */
  method CreateReplacement(remote: Remote, name: string, now: int, ttl: int, ghost quiet: bool)
    returns (r: NewToken, ghost id: string, ghost token: Token)
    requires remote.Valid() && remote.Spared() && !remote.store.lateAccount.Leaving?
    requires Fresh(name, remote.ids, remote.store) && (quiet ==> remote.store.Quiet())
    modifies remote`store, remote`ids, remote`trace
    ensures remote.Valid() && remote.Spared()
    ensures r.Issued? ==>
      && r.delivered.secret != "" && token.title == name && id !in old(remote.ids) && id !in remote.watched
      && Own(remote.store, name, id, token, remote.legacy) && Safe(map[id := token], remote.store)
      && AnsweredWith(remote.trace, |old(remote.trace)|, name, r.delivered, remote.legacy)
      && Dated(r.delivered, now, ttl, remote.legacy)
    ensures quiet && r.Issued? ==>
      && remote.store == old(remote.store).(tokens := old(remote.store).tokens[id := token])
      && Pending(old(remote.store).tokens, id, token, remote.store)
    ensures quiet && r.NotIssued? && !r.failure.reconcile ==>
      remote.store.tokens == old(remote.store).tokens && remote.store.Quiet()
    ensures r.NotIssued? ==>
      && Excused(remote.trace, |old(remote.trace)|, name)
      && Resolved(remote.trace, |old(remote.trace)|, name, remote.legacy, r.failure.reconcile)
    ensures Walk(old(remote.trace), remote.trace, name, remote.legacy)
  {
    var ok := remote.Check();
    if !ok {
      assert remote.trace == old(remote.trace) + [Checked(false)] + [];
      ReadWalks(old(remote.trace), Checked(false), [], name, remote.legacy);
      id, token := "", Token("", false, false, None, 0);
      r := NotIssued(Failure(false));
      return;
    }
    ghost var trace := remote.trace;
    r, id, token := NewTokenFor(remote, name, now, ttl, quiet);
    CheckedCreation(old(remote.trace), trace, remote.trace, name, remote.legacy);
    ExcusedOn(trace, remote.trace, |old(remote.trace)|, name);
    if r.Issued? { AnsweredOn(trace, remote.trace, |old(remote.trace)|, name, r.delivered, remote.legacy); }
  }

  lemma CheckedCreation(t0: seq<Entry>, t1: seq<Entry>, t2: seq<Entry>, name: string, legacy: bool)
    requires t1 == t0 + [Checked(true)] && t1 < t2 && OnlyCleanup(t2, |t1| + 1, name, legacy)
    ensures Walk(t0, t2, name, legacy)
  {
    assert t2[|t0|] == t1[|t0|] == Checked(true);
    assert forall k :: 0 <= k < |t1| ==> t2[k] == t1[k];
  }

  /** From the lookup to the new token. */
  method Replace(remote: Remote, name: string, now: int, ttl: int, ghost quiet: bool)
    returns (listing: seq<Listed>, created: NewToken, ghost id: string, ghost token: Token)
    requires remote.Valid() && remote.Spared() && !remote.store.lateAccount.Leaving?
    requires Fresh(name, remote.ids, remote.store) && (quiet ==> remote.store.Quiet())
    modifies remote`store, remote`ids, remote`trace
    ensures remote.Valid() && remote.Spared()
    ensures created.Issued? ==>
      && created.delivered.secret != "" && token.title == name && id !in remote.watched
      && Own(remote.store, name, id, token, remote.legacy) && Safe(map[id := token], remote.store)
      && AnsweredWith(remote.trace, |old(remote.trace)|, name, created.delivered, remote.legacy)
      && Dated(created.delivered, now, ttl, remote.legacy)
      && WasShown(remote.trace, |old(remote.trace)|, listing)
      && (forall i :: 0 <= i < |listing| ==> listing[i].id != id)
    ensures quiet && created.Issued? ==>
      && remote.store.tokens == old(remote.store).tokens[id := token] && remote.store.Quiet() && id !in old(remote.store).tokens
      && Pending(old(remote.store).tokens, id, token, remote.store) && Lists(listing, old(remote.store).tokens)
    ensures quiet && created.NotIssued? && !created.failure.reconcile ==>
      remote.store.tokens == old(remote.store).tokens && remote.store.TokensQuiet()
    ensures created.NotIssued? ==>
      && Excused(remote.trace, |old(remote.trace)|, name)
      && Resolved(remote.trace, |old(remote.trace)|, name, remote.legacy, created.failure.reconcile)
    ensures Walk(old(remote.trace), remote.trace, name, remote.legacy)
  {
    created := NotIssued(Failure(false));
    id, token := "", Token("", false, false, None, 0);
    var ready;
    ready, listing := Survey(remote, name, quiet);
    if !ready {
      return;
    }
    ghost var trace := remote.trace;
    created, id, token := CreateReplacement(remote, name, now, ttl, quiet);
    WalkOn(old(remote.trace), trace, remote.trace, name, remote.legacy);
    ExcusedOn(trace, remote.trace, |old(remote.trace)|, name);
    if created.Issued? {
      AnsweredOn(trace, remote.trace, |old(remote.trace)|, name, created.delivered, remote.legacy);
      WasShownOn(trace, remote.trace, |old(remote.trace)|, listing);
    } else {
      ResolvedOn(trace, remote.trace, |old(remote.trace)|, name, remote.legacy, created.failure.reconcile);
    }
  }

  /** Everything before the creation: the account, the listing, and the random bytes of the name. */
  method Survey(remote: Remote, name: string, ghost quiet: bool) returns (ready: bool, listing: seq<Listed>)
    requires remote.Valid() && remote.Spared() && !remote.store.lateAccount.Leaving?
    requires Fresh(name, remote.ids, remote.store) && (quiet ==> remote.store.Quiet())
    modifies remote`store, remote`trace
    ensures remote.Valid() && remote.Spared() && !remote.store.lateAccount.Leaving?
    ensures Fresh(name, remote.ids, remote.store)
    ensures quiet ==> remote.store.TokensQuiet() && remote.store.tokens == old(remote.store).tokens
    ensures quiet && ready ==> remote.store.Quiet() && Lists(listing, old(remote.store).tokens)
    ensures ready ==> forall i :: 0 <= i < |listing| ==> listing[i].id in remote.ids
    ensures !ready ==> Excused(remote.trace, |old(remote.trace)|, name)
    ensures ready ==> WasShown(remote.trace, |old(remote.trace)|, listing)
    ensures NoCreation(remote.trace, |old(remote.trace)|)
    ensures Walk(old(remote.trace), remote.trace, name, remote.legacy)
  {
    var located := LocateAccount(remote, name, quiet);
    if located.None? {
      return false, [];
    }
    ghost var s, trace := remote.store, remote.trace;
    var listed := remote.ListTokens();
    FreshStays(name, remote.ids, s, remote.store);
    if quiet { QuietStays(s, remote.store); }
    ReadSurveys(old(remote.trace), trace, if listed.Some? then Shown(listed.value) else Failed(Listing),
      [Settled(remote.store.tokens)], name, remote.legacy);
    if listed.None? {
      return false, [];
    }
    ghost var trace' := remote.trace;
    var drawn := remote.Draw();
    if !drawn {
      assert remote.trace == trace' + [Failed(Drawing)] + [];
      ReadSurveys(old(remote.trace), trace', Failed(Drawing), [], name, remote.legacy);
      return false, [];
    }
    assert remote.trace == trace';
    return true, listed.value;
  }

  /** One more read before the creation. */
  lemma ReadSurveys(t0: seq<Entry>, t1: seq<Entry>, e: Entry, more: seq<Entry>, name: string, legacy: bool)
    requires Walk(t0, t1, name, legacy) && NoCreation(t1, |t0|)
    requires !e.Called? && forall x :: x in more ==> x.Settled?
    ensures var t2 := t1 + [e] + more;
      && Walk(t0, t2, name, legacy) && NoCreation(t2, |t0|)
      && (IsExcuse(e, name) ==> Excused(t2, |t0|, name))
      && (e.Shown? ==> WasShown(t2, |t0|, e.listing))
  {
    var t2 := t1 + [e] + more;
    ReadWalks(t1, e, more, name, legacy);
    ReadShows(t1, e, more, name, legacy);
    WalkOn(t0, t1, t2, name, legacy);
    ExcusedOn(t1, t2, |t0|, name);
    NoCreationOn(t1, t2, |t0|);
  }

  /** In a quiet state: the account's tokens before and after, under each kind of result. */
  ghost predicate Outcome(before: Tokens, after: Store, r: Result, listing: seq<Listed>, stopped: nat,
                          id: string, token: Token, name: string) {
    if r.error.Some? then
      !r.error.value.reconcile ==> after.tokens == before && after.TokensQuiet()
    else
      && id !in before && token.title == name && Lists(listing, before)
      && (!r.partial ==> after.tokens == map[id := token] && after.Quiet())
      && (r.partial ==> stopped < |listing| && StoppedAt(after, before, listing, stopped, id, token))
  }

  /** The listed tokens were deleted in their order; a partial result is a failed Check or delete, and nothing after it. */
  ghost predicate Rotated(trace: seq<Entry>, start: nat, listing: seq<Listed>, partial: bool) {
    WasShown(trace, start, listing) && exists from :: start <= from <= |trace| && Applied(trace, from, listing, partial)
  }

  predicate BothFit(sealed: (string, string)) {
    |sealed.0| <= MAX_FLASH && |sealed.1| <= MAX_FLASH
  }

  /** Both sealed cookies deliver the new token, each with its own flag. */
  ghost predicate DeliversBoth(l: Ledger, aad: string, json: PayloadJson, sealed: (string, string), email: string,
                               d: Delivered, success: Prepared, partial: Prepared) {
    && Delivers(l, aad, json, sealed.0, email, d, false, success.expires)
    && Delivers(l, aad, json, sealed.1, email, d, true, partial.expires)
  }

  /**
   `issue` with a prepared delivery. `name` is new, no other actor changes this account meanwhile, and no deletion of
   the whole account is outstanding. Other effects of earlier operations may still land; when none can, the outcome is
   exact.
   */
  method Issue(remote: Remote, flash: FlashCodec, email: string, success: Prepared, partial: Prepared,
               name: string, now: int, ttl: int)
    returns (r: Result, listing: seq<Listed>, stopped: nat, ghost id: string, ghost token: Token,
             ghost sealed: (string, string), ghost d: Delivered)
    requires remote.Valid() && remote.Spared() && !remote.store.lateAccount.Leaving?
    requires Fresh(name, remote.ids, remote.store)
    requires flash.json.RoundTrips() && PreparedFor(flash, success, partial)
    modifies remote`store, remote`ids, remote`trace, flash`ledger
    ensures remote.Valid() && Walk(old(remote.trace), remote.trace, name, remote.legacy) && !remote.store.lateAccount.Leaving?
    ensures old(remote.store).Quiet() ==> Outcome(old(remote.store).tokens, remote.store, r, listing, stopped, id, token, name)
    ensures NoGap(remote.trace, remote.from, remote.watched, name)
    ensures r.error.Some? ==>
      && remote.Spared() && r.cookie == ""
      && AlwaysKeeps(remote.trace, remote.from, remote.watched) && Keeps(remote.watched, remote.store.tokens)
    ensures r.error.Some? ==> Excused(remote.trace, |old(remote.trace)|, name) || (r.token != "" && !BothFit(sealed))
    ensures r.error.Some? ==> Resolved(remote.trace, |old(remote.trace)|, name, remote.legacy, r.error.value.reconcile)
    ensures r.token != "" ==>
      && r.token == d.secret && AnsweredWith(remote.trace, |old(remote.trace)|, name, d, remote.legacy)
      && Dated(d, now, ttl, remote.legacy)
      && DeliversBoth(flash.ledger, flash.aad, flash.json, sealed, email, d, success, partial)
    ensures r.error.None? ==> Rotated(remote.trace, |old(remote.trace)|, listing, r.partial)
    ensures r.error.None? ==>
      && r.token != "" && BothFit(sealed) && r.cookie == (if r.partial then sealed.1 else sealed.0)
      && HasTitle(remote.store.tokens, name)
    ensures r.error.None? && r.partial ==> Interrupted(remote.trace, |old(remote.trace)|)
  {
    ghost var quiet, before := remote.store.Quiet(), remote.store.tokens;
    stopped, sealed, d := 0, ("", ""), Delivered("", 0, None);
    r := Result(Some(Failure(false)), "", "", false);
    var acquired := remote.Acquire();
    if !acquired {
      assert remote.trace == old(remote.trace) + [Failed(Locking)] + [];
      ReadWalks(old(remote.trace), Failed(Locking), [], name, remote.legacy);
      KeepsAll(remote.trace, remote.from, remote.watched, name);
      listing, id, token := [], "", Token("", false, false, None, 0);
      return;
    }
    assert remote.trace == old(remote.trace);
    var created;
    listing, created, id, token := Replace(remote, name, now, ttl, quiet);
    KeepsAll(remote.trace, remote.from, remote.watched, name);
    if created.NotIssued? {
      r := r.(error := Some(created.failure));
      return;
    }
    d := created.delivered;
    r := r.(token := created.delivered.secret);
    var successCookie, partialCookie := SealBoth(flash, email, success, partial, created.delivered);
    sealed := (successCookie, partialCookie);
    r, stopped := Deliver(remote, name, listing, r, successCookie, partialCookie, quiet, before, id, token, d, old(remote.trace));
  }

  lemma KeepsAll(trace: seq<Entry>, start: nat, kept: Tokens, name: string)
    requires AlwaysKeeps(trace, start, kept)
    ensures NoGap(trace, start, kept, name)
  {
  }

  /** The end of `issue`: with cookies that fit, the old tokens are deleted, otherwise the new one. */
  method Deliver(remote: Remote, name: string, listing: seq<Listed>, r0: Result, successCookie: string, partialCookie: string,
                 ghost quiet: bool, ghost before: Tokens, ghost id: string, ghost token: Token, ghost d: Delivered,
                 ghost start: seq<Entry>)
    returns (r: Result, stopped: nat)
    requires remote.Valid() && remote.Spared() && Walk(start, remote.trace, name, remote.legacy)
    requires token.title == name && id !in remote.watched && name !in remote.watched
    requires Own(remote.store, name, id, token, remote.legacy) && Safe(map[id := token], remote.store)
    requires r0.cookie == "" && !r0.partial && AnsweredWith(remote.trace, |start|, name, d, remote.legacy)
    requires WasShown(remote.trace, |start|, listing)
    requires forall i :: 0 <= i < |listing| ==> listing[i].id != id
    requires quiet ==>
      && Lists(listing, before) && id !in before && name !in before && remote.store.Quiet()
      && remote.store.tokens == before[id := token] && Pending(before, id, token, remote.store)
    modifies remote`store, remote`ids, remote`trace
    ensures remote.Valid() && Walk(start, remote.trace, name, remote.legacy) && !remote.store.lateAccount.Leaving?
    ensures quiet ==> Outcome(before, remote.store, r, listing, stopped, id, token, name)
    ensures NoGap(remote.trace, remote.from, remote.watched, name)
    ensures r.error.Some? <==> !BothFit((successCookie, partialCookie))
    ensures r.token == r0.token && AnsweredWith(remote.trace, |start|, name, d, remote.legacy)
    ensures r.error.Some? ==>
      && remote.Spared() && r.cookie == ""
      && Resolved(remote.trace, |start|, name, remote.legacy, r.error.value.reconcile)
    ensures r.error.None? ==> Rotated(remote.trace, |start|, listing, r.partial)
    ensures r.error.None? ==>
      r.cookie == (if r.partial then partialCookie else successCookie) && HasTitle(remote.store.tokens, name)
    ensures r.error.None? && r.partial ==> Interrupted(remote.trace, |start|)
  {
    stopped := 0;
    ghost var trace := remote.trace;
    if |successCookie| > MAX_FLASH || |partialCookie| > MAX_FLASH {
      var reconcile := Cleanup(remote, name, quiet, before, id, token);
      r := r0.(error := Some(Failure(reconcile)));
      CleanupWalks(trace, remote.trace, name, remote.legacy);
      WalkOn(start, trace, remote.trace, name, remote.legacy);
      AnsweredOn(trace, remote.trace, |start|, name, d, remote.legacy);
      TakenBack(trace, remote.trace, |start|, name, d, remote.legacy, reconcile);
      KeepsAll(remote.trace, remote.from, remote.watched, name);
      return;
    }
    var isPartial;
    isPartial, stopped := DeleteOld(remote, listing, quiet, before, id, token);
    r := r0.(error := None, partial := isPartial, cookie := if isPartial then partialCookie else successCookie);
    WalkOn(start, trace, remote.trace, name, remote.legacy);
    AnsweredOn(trace, remote.trace, |start|, name, d, remote.legacy);
    WasShownOn(trace, remote.trace, |start|, listing);
    assert Rotated(remote.trace, |start|, listing, isPartial);
    InterruptedOn(trace, remote.trace, |start|);
    NoGapOn(trace, remote.trace, remote.from, remote.watched, name);
    assert id in remote.store.tokens && remote.store.tokens[id] == token;
  }

  /**
   `prepareAndIssue`: the delivery is prepared first, and without randomness for it nothing is touched. `t0` and `t1`
   are the clock readings of the two preparations.
   */
  method PrepareAndIssue(remote: Remote, flash: FlashCodec, email: string, nonce0: Option<seq<Byte>>, nonce1: Option<seq<Byte>>,
                         t0: int, t1: int, name: string, now: int, ttl: int)
    returns (r: Result, listing: seq<Listed>, stopped: nat, ghost id: string, ghost token: Token,
             ghost sealed: (string, string), ghost d: Delivered)
    requires remote.Valid() && remote.Spared() && !remote.store.lateAccount.Leaving?
    requires Fresh(name, remote.ids, remote.store) && flash.json.RoundTrips()
    requires nonce0.Some? && nonce1.Some? ==> PreparedFor(flash, Prepared(nonce0.value, 0), Prepared(nonce1.value, 0))
    modifies remote`store, remote`ids, remote`trace, flash`ledger
    ensures remote.Valid() && Walk(old(remote.trace), remote.trace, name, remote.legacy) && !remote.store.lateAccount.Leaving?
    ensures nonce0.None? || nonce1.None? ==>
      r.error.Some? && remote.store == old(remote.store) && remote.trace == old(remote.trace)
    ensures old(remote.store).Quiet() && nonce0.Some? && nonce1.Some? ==>
      Outcome(old(remote.store).tokens, remote.store, r, listing, stopped, id, token, name)
    ensures NoGap(remote.trace, remote.from, remote.watched, name)
    ensures r.error.Some? && nonce0.Some? && nonce1.Some? ==>
      Excused(remote.trace, |old(remote.trace)|, name) || (r.token != "" && !BothFit(sealed))
    ensures r.error.Some? ==> Resolved(remote.trace, |old(remote.trace)|, name, remote.legacy, r.error.value.reconcile)
    ensures r.token != "" ==>
      && r.token == d.secret && AnsweredWith(remote.trace, |old(remote.trace)|, name, d, remote.legacy)
      && Dated(d, now, ttl, remote.legacy)
      && Delivers(flash.ledger, flash.aad, flash.json, sealed.0, email, d, false, Unix(t0 + flash.ttl))
      && Delivers(flash.ledger, flash.aad, flash.json, sealed.1, email, d, true, Unix(t1 + flash.ttl))
    ensures r.error.None? ==> Rotated(remote.trace, |old(remote.trace)|, listing, r.partial)
    ensures r.error.None? ==> r.token != "" && BothFit(sealed) && r.cookie == if r.partial then sealed.1 else sealed.0
  {
    listing, stopped, id, token, sealed := [], 0, "", Token("", false, false, None, 0), ("", "");
    d := Delivered("", 0, None);
    KeepsAll(remote.trace, remote.from, remote.watched, name);
    var success := flash.Prepare(nonce0, t0);
    if success.None? {
      r := Result(Some(Failure(false)), "", "", false);
      return;
    }
    var partial := flash.Prepare(nonce1, t1);
    if partial.None? {
      r := Result(Some(Failure(false)), "", "", false);
      return;
    }
    r, listing, stopped, id, token, sealed, d := Issue(remote, flash, email, success.value, partial.value, name, now, ttl);
  }
}
