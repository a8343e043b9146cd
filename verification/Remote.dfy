/**
 The outside of one operation on one identity: the guard it acquired, and Grafana with that identity's service
 account and tokens. Any call may fail; a failure that is not a refusal may have taken effect, or may do so later.
 */
module Remotes {
  import opened Text

  datatype Token = Token(title: string, revoked: bool, hasExpired: bool, expiration: Option<int>, created: int)

  /** Tokens of the account by ID. With the IAM API the ID is the title. */
  type Tokens = map<string, Token>

  datatype Account = Account(name: string, role: string, disabled: bool)

  /** What an unanswered call may still do to the account itself. */
  datatype LateAccount = Steady | Arriving(account: Account) | Leaving

  /** What Grafana holds, and the effects of unanswered calls that may still land. */
  datatype Store = Store(account: Option<Account>, tokens: Tokens, lateCreates: Tokens, lateDeletes: set<string>,
                         lateAccount: LateAccount)
  {
    predicate Quiet() {
      TokensQuiet() && lateAccount.Steady?
    }

    /** Nothing is outstanding that could change a token. */
    predicate TokensQuiet() {
      lateCreates == map[] && lateDeletes == {} && !lateAccount.Leaving?
    }

    /** A creation that is outstanding has not taken effect. */
    predicate Apart() {
      tokens.Keys !! lateCreates.Keys
    }

    /** Tokens belong to the account. */
    predicate Attached() {
      account.None? ==> tokens == map[]
    }
  }

  /** No account, and so no tokens. */
  const GONE: Store := Store(None, map[], map[], {}, Steady)

  function Land(s: Store, creates: set<string>, deletes: set<string>, account: bool): Store {
    if account && s.lateAccount.Leaving? then GONE
    else
      Store(if account && s.lateAccount.Arriving? && s.account.None? then Some(s.lateAccount.account) else s.account,
            (s.tokens + (s.lateCreates - (s.lateCreates.Keys - creates))) - (s.lateDeletes * deletes),
            s.lateCreates - creates,
            s.lateDeletes - deletes,
            if account then Steady else s.lateAccount)
  }

  /** Some of the late effects have landed. */
  ghost predicate Lands(s: Store, s': Store) {
    exists creates, deletes, account :: s' == Land(s, creates, deletes, account)
  }

  lemma LandLands(s: Store, creates: set<string>, deletes: set<string>, account: bool)
    ensures Lands(s, Land(s, creates, deletes, account))
  {
  }

  lemma QuietStays(s: Store, s': Store)
    requires s.Quiet() && Lands(s, s')
    ensures s' == s
  {
    var creates, deletes, account :| s' == Land(s, creates, deletes, account);
    assert s'.tokens == s.tokens;
  }

  /**
   The answer to a creation: the secret, the name of the token it belongs to and its expiry as the IAM API gives it; a
   refusal; or anything else that is no answer.
   */
  datatype CreateReply = Created(secret: string, name: string, expires: int) | CreateRefused | CreateUnclear

  /** The new token as the page shows it: the secret, when it was created, and when it expires. */
  datatype Delivered = Delivered(secret: string, created: int, expires: Option<int>)

  /** A mutation; the creations carry what was answered. */
  datatype Call =
    | CreateAccount(created: Option<Account>)
    | CreateToken(title: string, reply: CreateReply)
    | DeleteToken(id: string, target: Option<Token>)
    | DeleteAccount

  datatype Cause = Locking | Looking | Listing | Drawing

  /**
   What an observer sees: the result of each Check; each mutation, whether it was answered with success, and the tokens
   it leaves; late landings; the account and the tokens that were read; and anything else that failed.
   */
  datatype Entry =
    | Checked(ok: bool)
    | Called(call: Call, done: bool, after: Tokens)
    | Settled(after: Tokens)
    | Seen(account: Option<Account>)
    | Shown(listing: seq<Listed>)
    | Failed(cause: Cause)

  function After(e: Entry): Option<Tokens> {
    if e.Called? || e.Settled? then Some(e.after) else None
  }

  datatype Reply = Done | Refused | Unclear

  datatype Listed = Listed(id: string, token: Token)

  ghost predicate Distinct(listing: seq<Listed>) {
    forall i, j :: 0 <= i < j < |listing| ==> listing[i].id != listing[j].id
  }

  /** A listing names every token once. */
  ghost predicate Lists(listing: seq<Listed>, tokens: Tokens) {
    && (forall i :: 0 <= i < |listing| ==> listing[i].id in tokens && tokens[listing[i].id] == listing[i].token)
    && Distinct(listing)
    && (forall id :: id in tokens ==> exists i :: 0 <= i < |listing| && listing[i].id == id)
  }

  function Ids(listing: seq<Listed>): set<string> {
    set i | 0 <= i < |listing| :: listing[i].id
  }

  /** The effect of a delete as the call itself leaves it; success means that this call removed the token. */
  ghost predicate Deletes(s: Store, mid: Store, id: string, reply: Reply) {
    match reply
    case Done => id in s.tokens && mid == s.(tokens := s.tokens - {id})
    case Refused => mid == s
    case Unclear => mid == s || mid == s.(tokens := s.tokens - {id}) || mid == s.(lateDeletes := s.lateDeletes + {id})
  }

  /** Everything in `kept` is still there, unchanged. */
  ghost predicate Keeps(kept: Tokens, tokens: Tokens) {
    forall id :: id in kept ==> id in tokens && tokens[id] == kept[id]
  }

  /** From `start` on, nothing in `kept` is ever missing. */
  ghost predicate AlwaysKeeps(trace: seq<Entry>, start: nat, kept: Tokens) {
    forall k {:trigger trace[k]} :: start <= k < |trace| && After(trace[k]).Some? ==> Keeps(kept, After(trace[k]).value)
  }

  /** These tokens are there, and nothing outstanding can change that. */
  ghost predicate Safe(kept: Tokens, s: Store) {
    && Keeps(kept, s.tokens) && kept.Keys !! s.lateDeletes && kept.Keys !! s.lateCreates.Keys
    && !s.lateAccount.Leaving?
  }

  lemma SafeStays(kept: Tokens, s: Store, s': Store)
    requires Safe(kept, s) && Lands(s, s')
    ensures Safe(kept, s')
  {
    var creates, deletes, account :| s' == Land(s, creates, deletes, account);
  }

  /** A delete of something else leaves them so. */
  lemma SafeDelete(kept: Tokens, s: Store, mid: Store, id: string, reply: Reply)
    requires Safe(kept, s) && id !in kept && Deletes(s, mid, id, reply)
    ensures Safe(kept, mid)
  {
  }

  /** The tokens that nothing outstanding can delete. */
  function Undisturbed(s: Store): (kept: Tokens)
    ensures s.Apart() && !s.lateAccount.Leaving? ==> Safe(kept, s)
    ensures s.Quiet() ==> kept == s.tokens
  {
    if s.lateAccount.Leaving? then map[] else map id | id in s.tokens && id !in s.lateDeletes :: s.tokens[id]
  }

  /** From `start` on, no delete aims at any of these tokens or at the account. */
  ghost predicate Unaimed(trace: seq<Entry>, start: nat, ids: set<string>) {
    forall k {:trigger trace[k]} :: start <= k < |trace| && trace[k].Called? ==> Misses(trace[k].call, ids)
  }

  predicate Misses(call: Call, ids: set<string>) {
    !call.DeleteAccount? && (call.DeleteToken? ==> call.id !in ids)
  }

  lemma OneMore(trace: seq<Entry>, e: Entry, start: nat, kept: Tokens)
    requires start <= |trace|
    ensures Unaimed(trace + [e], start, kept.Keys) <==>
      Unaimed(trace, start, kept.Keys) && (e.Called? ==> Misses(e.call, kept.Keys))
    ensures AlwaysKeeps(trace + [e], start, kept) <==>
      AlwaysKeeps(trace, start, kept) && (After(e).Some? ==> Keeps(kept, After(e).value))
  {
    var longer := trace + [e];
    assert longer[|trace|] == e;
    assert forall k :: 0 <= k < |trace| ==> longer[k] == trace[k];
  }

  /** Every ID that a store mentions. */
  function Mentioned(s: Store): set<string> {
    s.tokens.Keys + s.lateCreates.Keys + s.lateDeletes
  }

  lemma MentionedStays(s: Store, s': Store)
    requires Lands(s, s')
    ensures Mentioned(s') <= Mentioned(s) && (s.Apart() ==> s'.Apart())
  {
    var creates, deletes, account :| s' == Land(s, creates, deletes, account);
  }

  /**
   `ids` are the IDs that were ever in use; none is given out twice. `watched` are any tokens that were safe when the
   trace had `from` entries: they stay as long as no delete aims at them.
   */
  class Remote {
    const legacy: bool
    var store: Store
    var ids: set<string>
    ghost var trace: seq<Entry>
    ghost var watched: Tokens
    ghost var from: nat

    ghost predicate Spared()
      reads this
    {
      Unaimed(trace, from, watched.Keys)
    }

    ghost predicate Valid()
      reads this
    {
      && from <= |trace| && store.Apart() && Mentioned(store) <= ids
      && (Spared() ==> Safe(watched, store) && AlwaysKeeps(trace, from, watched))
    }

    /** Any safe tokens can be watched from now on. */
    ghost method Watch(kept: Tokens)
      requires Valid() && Safe(kept, store)
      modifies this`watched, this`from
      ensures Valid() && Spared() && watched == kept && from == |trace|
    {
      watched, from := kept, |trace|;
    }

    ghost method Note(e: Entry)
      requires from <= |trace| && store.Apart() && Mentioned(store) <= ids
      requires Spared() && (e.Called? ==> Misses(e.call, watched.Keys)) ==>
        Safe(watched, store) && AlwaysKeeps(trace, from, watched)
      requires After(e).Some? ==> After(e).value == store.tokens
      modifies this`trace
      ensures Valid() && trace == old(trace) + [e]
      ensures Spared() <==> old(Spared()) && (e.Called? ==> Misses(e.call, watched.Keys))
    {
      OneMore(trace, e, from, watched);
      trace := trace + [e];
    }

    method Settle()
      requires Valid()
      modifies this`store, this`trace
      ensures Valid() && (Spared() <==> old(Spared()))
      ensures Lands(old(store), store) && trace == old(trace) + [Settled(store.tokens)]
    {
      var creates: set<string> := *;
      var deletes: set<string> := *;
      var account: bool := *;
      ghost var s := store;
      LandLands(s, creates, deletes, account);
      store := Land(store, creates, deletes, account);
      MentionedStays(s, store);
      if Spared() { SafeStays(watched, s, store); }
      Note(Settled(store.tokens));
    }

    /** The lock may not be had, for instance when the request is cancelled first. */
    method Acquire() returns (ok: bool)
      requires Valid()
      modifies this`trace
      ensures Valid() && (Spared() <==> old(Spared()))
      ensures trace == old(trace) + if ok then [] else [Failed(Locking)]
    {
      ok := *;
      if !ok { Note(Failed(Locking)); }
    }

    /** Random bytes, which may fail. */
    method Draw() returns (ok: bool)
      requires Valid()
      modifies this`trace
      ensures Valid() && (Spared() <==> old(Spared()))
      ensures trace == old(trace) + if ok then [] else [Failed(Drawing)]
    {
      ok := *;
      if !ok { Note(Failed(Drawing)); }
    }

    method Check() returns (ok: bool)
      requires Valid()
      modifies this`trace
      ensures Valid() && (Spared() <==> old(Spared()))
      ensures trace == old(trace) + [Checked(ok)]
    {
      ok := *;
      Note(Checked(ok));
    }

    /** The lookup by title: an error, no account, or the one account. */
    method FindAccount() returns (failed: bool, account: Option<Account>)
      requires Valid()
      modifies this`store, this`trace
      ensures Valid() && (Spared() <==> old(Spared()))
      ensures !failed ==> account == old(store).account
      ensures Lands(old(store), store)
      ensures trace == old(trace) + [if failed then Failed(Looking) else Seen(account)] + [Settled(store.tokens)]
    {
      failed := *;
      account := store.account;
      if failed { Note(Failed(Looking)); } else { Note(Seen(account)); }
      Settle();
    }

    /** Grafana answers with the account as it stored it; without an answer it may be there, or still to come. */
    method CreateAccount() returns (account: Option<Account>, ghost mid: Store)
      requires Valid()
      modifies this`store, this`trace
      ensures Valid() && (Spared() <==> old(Spared()))
      ensures account.Some? ==> mid == old(store).(account := account)
      ensures account.None? ==>
        || mid == old(store).(account := mid.account)
        || (mid == old(store).(lateAccount := mid.lateAccount) && mid.lateAccount.Arriving?)
      ensures Lands(mid, store)
      ensures trace == old(trace) + [Called(Call.CreateAccount(account), account.Some?, mid.tokens)] + [Settled(store.tokens)]
    {
      var role: string, disabled: bool, name: string, choice: nat := *, *, *, *;
      account := None;
      var stored := Account(name, role, disabled);
      if choice == 0 {
        account := Some(stored);
        store := store.(account := account);
      } else if choice == 1 {
        store := store.(account := Some(stored));
      } else if choice == 2 && !store.lateAccount.Leaving? {
        store := store.(lateAccount := Arriving(stored));
      }
      mid := store;
      Note(Called(Call.CreateAccount(account), account.Some?, store.tokens));
      Settle();
    }

    method ListTokens() returns (listing: Option<seq<Listed>>)
      requires Valid()
      modifies this`store, this`trace
      ensures Valid() && (Spared() <==> old(Spared()))
      ensures listing.Some? ==> Lists(listing.value, old(store).tokens)
      ensures Lands(old(store), store)
      ensures trace == old(trace) + [if listing.Some? then Shown(listing.value) else Failed(Listing)] + [Settled(store.tokens)]
    {
      listing := None;
      var failed: bool := *;
      if failed {
        Note(Failed(Listing));
      } else {
        var all := Enumerate(store.tokens);
        listing := Some(all);
        Note(Shown(all));
      }
      Settle();
    }

    /**
     A token is created under a new ID, at most one per call. An answer with a name tells the title that was
     stored. `mid` is the state the call itself leaves, before late effects land.
     */
    method CreateToken(title: string) returns (reply: CreateReply, ghost id: string, ghost token: Token, ghost mid: Store)
      requires Valid()
      modifies this`store, this`ids, this`trace
      ensures Valid() && (Spared() <==> old(Spared()))
      ensures id !in old(ids) && ids == old(ids) + {id} && (!legacy ==> id == token.title)
      ensures match reply
        case Created(_, name, _) => token.title == name && mid == old(store).(tokens := old(store).tokens[id := token])
        case CreateRefused => mid == old(store)
        case CreateUnclear =>
          || mid == old(store)
          || mid == old(store).(tokens := old(store).tokens[id := token])
          || mid == old(store).(lateCreates := old(store).lateCreates[id := token])
      ensures Lands(mid, store)
      ensures trace == old(trace) + [Called(Call.CreateToken(title, reply), reply.Created?, mid.tokens)]
        + [Settled(store.tokens)]
    {
      var newId: string :| newId !in ids by { Unused(ids); }
      var stored: string := *;
      if !legacy {
        stored := newId;
      }
      var created: int, expiration: Option<int>, secret: string, answered: int := *, *, *, *;
      var t := Token(stored, false, false, expiration, created);
      var choice: nat := *;
      ids := ids + {newId};
      if choice == 0 {
        store := store.(tokens := store.tokens[newId := t]);
        reply := Created(secret, stored, answered);
      } else if choice == 1 {
        reply := CreateRefused;
      } else {
        if choice == 2 {
          store := store.(tokens := store.tokens[newId := t]);
        } else if choice == 3 {
          store := store.(lateCreates := store.lateCreates[newId := t]);
        }
        reply := CreateUnclear;
      }
      id, token, mid := newId, t, store;
      Note(Called(Call.CreateToken(title, reply), reply.Created?, store.tokens));
      Settle();
    }

    method DeleteToken(id: string) returns (reply: Reply, ghost mid: Store)
      requires Valid()
      modifies this`store, this`ids, this`trace
      ensures Valid() && (Spared() <==> old(Spared()) && id !in watched.Keys)
      ensures ids == old(ids) + {id}
      ensures Deletes(old(store), mid, id, reply)
      ensures Lands(mid, store)
      ensures trace == old(trace) + [Called(DeleteOf(old(store), id), reply.Done?, mid.tokens)] + [Settled(store.tokens)]
    {
      ghost var call := DeleteOf(store, id);
      var choice: nat := *;
      ids := ids + {id};
      if choice == 0 && id in store.tokens {
        store := store.(tokens := store.tokens - {id});
        reply := Done;
      } else if choice == 1 {
        reply := Refused;
      } else {
        if choice == 2 {
          store := store.(tokens := store.tokens - {id});
        } else if choice == 3 {
          store := store.(lateDeletes := store.lateDeletes + {id});
        }
        reply := Unclear;
      }
      mid := store;
      Note(Called(call, reply.Done?, store.tokens));
      Settle();
    }

    /** Deleting the account takes its tokens with it; an unclear answer may mean the same, now or later. */
    method DeleteAccount() returns (reply: Reply)
      requires Valid()
      modifies this`store, this`trace
      ensures Valid()
      ensures match reply
        case Done => store == GONE
        case Refused => store == old(store)
        case Unclear => store == old(store) || store == GONE || store == old(store).(lateAccount := Leaving)
      ensures trace == old(trace) + [Called(Call.DeleteAccount, reply.Done?, store.tokens)]
    {
      var choice: nat := *;
      reply := if choice == 0 then Done else if choice == 1 then Refused else Unclear;
      if choice == 0 || choice == 2 {
        store := GONE;
      } else if choice == 3 {
        store := store.(lateAccount := Leaving);
      }
      Note(Called(Call.DeleteAccount, reply.Done?, store.tokens));
    }
  }

  function DeleteOf(s: Store, id: string): Call {
    Call.DeleteToken(id, if id in s.tokens then Some(s.tokens[id]) else None)
  }

  method Enumerate(tokens: Tokens) returns (listing: seq<Listed>)
    ensures Lists(listing, tokens)
  {
    listing := [];
    var rest := tokens.Keys;
    while rest != {}
      invariant rest <= tokens.Keys
      invariant forall i :: 0 <= i < |listing| ==>
        listing[i].id in tokens && listing[i].id !in rest && tokens[listing[i].id] == listing[i].token
      invariant forall i, j :: 0 <= i < j < |listing| ==> listing[i].id != listing[j].id
      invariant forall id :: id in tokens && id !in rest ==> exists i :: 0 <= i < |listing| && listing[i].id == id
      decreases |rest|
    {
      var id :| id in rest;
      ghost var before := listing;
      listing := listing + [Listed(id, tokens[id])];
      rest := rest - {id};
      forall x | x in tokens && x !in rest
        ensures exists i :: 0 <= i < |listing| && listing[i].id == x
      {
        if x == id {
          assert listing[|before|].id == x;
        } else {
          var i :| 0 <= i < |before| && before[i].id == x;
          assert listing[i].id == x;
        }
      }
    }
  }

  /** Some string is not in a finite set. */
  lemma Unused(taken: set<string>)
    ensures exists s: string :: s !in taken
  {
    var s := LongerThan(taken);
    assert s !in taken;
  }

  lemma {:induction false} LongerThan(taken: set<string>) returns (s: string)
    ensures forall t :: t in taken ==> |t| < |s|
  {
    if taken == {} {
      s := "x";
    } else {
      var t :| t in taken;
      var shorter := LongerThan(taken - {t});
      s := shorter + t + "x";
    }
  }
}
