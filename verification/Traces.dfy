/** What the trace of an operation shows from some entry on. */
module Traces {
  import opened Clock
  import opened Text
  import opened Remotes

  /** A mutation without a Check just before it may only aim at the run's own new token: by its name, or by a found ID. */
  ghost predicate OwnCleanup(e: Entry, name: string, legacy: bool) {
    && e.Called? && e.call.DeleteToken?
    && (e.call.target.Some? ==> e.call.target.value.title == name)
    && (if legacy then e.call.target.Some? else e.call.id == name)
  }

  ghost predicate OnlyCleanup(trace: seq<Entry>, start: nat, name: string, legacy: bool) {
    forall k {:trigger trace[k]} :: start <= k < |trace| && trace[k].Called? ==> OwnCleanup(trace[k], name, legacy)
  }

  /** From `start` on, every mutation follows a passed Check directly, or cleans up the run's own token. */
  ghost predicate Guarded(trace: seq<Entry>, start: nat, name: string, legacy: bool) {
    forall k {:trigger trace[k]} :: start <= k < |trace| && trace[k].Called? ==>
      (k > start && trace[k - 1] == Checked(true)) || OwnCleanup(trace[k], name, legacy)
  }

  /** From one trace to a longer one everything is guarded. */
  ghost predicate Walk(trace: seq<Entry>, trace': seq<Entry>, name: string, legacy: bool) {
    trace <= trace' && Guarded(trace', |trace|, name, legacy)
  }

  lemma WalkOn(t0: seq<Entry>, t1: seq<Entry>, t2: seq<Entry>, name: string, legacy: bool)
    requires Walk(t0, t1, name, legacy) && Walk(t1, t2, name, legacy)
    ensures Walk(t0, t2, name, legacy)
  {
    assert forall k :: 0 <= k < |t1| ==> t2[k] == t1[k];
  }

  lemma CleanupWalks(trace: seq<Entry>, trace': seq<Entry>, name: string, legacy: bool)
    requires trace <= trace' && OnlyCleanup(trace', |trace|, name, legacy)
    ensures Walk(trace, trace', name, legacy)
  {
  }

  // ----- what is there

  ghost predicate HasTitle(tokens: Tokens, name: string) {
    exists id :: id in tokens && tokens[id].title == name
  }

  /** From `start` on, a token with this title is always there. */
  ghost predicate AlwaysTitled(trace: seq<Entry>, start: nat, name: string) {
    forall k {:trigger trace[k]} :: start <= k < |trace| && After(trace[k]).Some? ==> HasTitle(After(trace[k]).value, name)
  }

  lemma TitledOn(trace: seq<Entry>, trace': seq<Entry>, start: nat, name: string)
    requires start <= |trace| && trace <= trace' && AlwaysTitled(trace, start, name) && AlwaysTitled(trace', |trace|, name)
    ensures AlwaysTitled(trace', start, name)
  {
    assert forall k :: 0 <= k < |trace| ==> trace'[k] == trace[k];
  }

  /** From `start` on, nothing in `kept` is missing unless the replacement is there. */
  ghost predicate NoGap(trace: seq<Entry>, start: nat, kept: Tokens, name: string) {
    forall k {:trigger trace[k]} :: start <= k < |trace| && After(trace[k]).Some? ==>
      Keeps(kept, After(trace[k]).value) || HasTitle(After(trace[k]).value, name)
  }

  lemma NoGapOn(trace: seq<Entry>, trace': seq<Entry>, start: nat, kept: Tokens, name: string)
    requires start <= |trace| && trace <= trace' && AlwaysKeeps(trace, start, kept) && AlwaysTitled(trace', |trace|, name)
    ensures NoGap(trace', start, kept, name)
  {
    assert forall k :: 0 <= k < |trace| ==> trace'[k] == trace[k];
  }

  /** So an account that starts with tokens has at least one at every step. */
  lemma NoGapNeverEmpty(trace: seq<Entry>, start: nat, kept: Tokens, name: string, k: nat)
    requires NoGap(trace, start, kept, name) && kept != map[]
    requires start <= k < |trace| && After(trace[k]).Some?
    ensures After(trace[k]).value != map[]
  {
    var after := After(trace[k]).value;
    if Keeps(kept, after) {
      var id :| id in kept;
      assert id in after;
    }
  }

  // ----- why an operation stopped

  /** A failed Check, a mutation not answered with success, or anything else that failed. */
  predicate IsInterruption(e: Entry) {
    e == Checked(false) || (e.Called? && !e.done) || e.Failed?
  }

  ghost predicate Interrupted(trace: seq<Entry>, start: nat) {
    exists k {:trigger trace[k]} :: start <= k < |trace| && IsInterruption(trace[k])
  }

  lemma InterruptedOn(trace: seq<Entry>, trace': seq<Entry>, start: nat)
    requires start <= |trace| && trace <= trace'
    ensures Interrupted(trace, start) || Interrupted(trace', |trace|) ==> Interrupted(trace', start)
  {
    assert forall k :: 0 <= k < |trace| ==> trace'[k] == trace[k];
  }

  /** An enabled Viewer. */
  predicate Fit(a: Account) {
    a.role == "Viewer" && !a.disabled
  }

  /** The account that a read or a creation was answered with. */
  function AccountOf(e: Entry): Option<Account> {
    if e.Seen? then e.account
    else if e.Called? && e.call.CreateAccount? then e.call.created
    else None
  }

  /** A creation was answered with no secret, or with the name of another token. */
  predicate IsBadAnswer(e: Entry, name: string) {
    e.Called? && e.call.CreateToken? && e.call.reply.Created?
    && (e.call.reply.secret == "" || e.call.reply.name != name)
  }

  predicate IsExcuse(e: Entry, name: string) {
    IsInterruption(e) || (AccountOf(e).Some? && !Fit(AccountOf(e).value)) || IsBadAnswer(e, name)
  }

  /** Something failed, the account was not an enabled Viewer, or the answer to the creation was useless. */
  ghost predicate Excused(trace: seq<Entry>, start: nat, name: string) {
    exists k {:trigger trace[k]} :: start <= k < |trace| && IsExcuse(trace[k], name)
  }

  lemma ExcusedOn(trace: seq<Entry>, trace': seq<Entry>, start: nat, name: string)
    requires start <= |trace| && trace <= trace'
    ensures Excused(trace, start, name) || Excused(trace', |trace|, name) ==> Excused(trace', start, name)
  {
    assert forall k :: 0 <= k < |trace| ==> trace'[k] == trace[k];
  }

  /** Something failed, or the account was not a Viewer. */
  predicate IsRejection(e: Entry) {
    IsInterruption(e) || (AccountOf(e).Some? && AccountOf(e).value.role != "Viewer")
  }

  ghost predicate Rejected(trace: seq<Entry>, start: nat) {
    exists k {:trigger trace[k]} :: start <= k < |trace| && IsRejection(trace[k])
  }

  lemma RejectedOn(trace: seq<Entry>, trace': seq<Entry>, start: nat)
    requires start <= |trace| && trace <= trace'
    ensures Rejected(trace, start) || Rejected(trace', |trace|) || Interrupted(trace', |trace|) ==> Rejected(trace', start)
  {
    assert forall k :: 0 <= k < |trace| ==> trace'[k] == trace[k];
  }

  /** A creation of this name was answered with this secret and the same name, and with the IAM API with this expiry. */
  predicate IsAnswer(e: Entry, name: string, d: Delivered, legacy: bool) {
    && e.Called? && e.done && e.call.CreateToken? && e.call.title == name
    && e.call.reply.Created? && e.call.reply.secret == d.secret && e.call.reply.name == name
    && (!legacy ==> d.expires == UnixTime(e.call.reply.expires))
  }

  ghost predicate AnsweredWith(trace: seq<Entry>, start: nat, name: string, d: Delivered, legacy: bool) {
    exists k {:trigger trace[k]} :: start <= k < |trace| && IsAnswer(trace[k], name, d, legacy)
  }

  lemma AnsweredOn(trace: seq<Entry>, trace': seq<Entry>, start: nat, name: string, d: Delivered, legacy: bool)
    requires start <= |trace| && trace <= trace'
    requires AnsweredWith(trace, start, name, d, legacy)
             || AnsweredWith(trace', |trace|, name, d, legacy)
    ensures AnsweredWith(trace', start, name, d, legacy)
  {
    assert forall k :: 0 <= k < |trace| ==> trace'[k] == trace[k];
  }

  // ----- what became of a creation that did not deliver

  predicate IsCreation(e: Entry, name: string) {
    e.Called? && e.call.CreateToken? && e.call.title == name
  }

  ghost predicate NoCreation(trace: seq<Entry>, start: nat) {
    forall k {:trigger trace[k]} :: start <= k < |trace| && trace[k].Called? ==> !trace[k].call.CreateToken?
  }

  lemma NoCreationOn(trace: seq<Entry>, trace': seq<Entry>, start: nat)
    requires start <= |trace| && trace <= trace' && NoCreation(trace, start) && NoCreation(trace', |trace|)
    ensures NoCreation(trace', start)
  {
    assert forall k :: 0 <= k < |trace| ==> trace'[k] == trace[k];
  }

  /** The token was created under another name. */
  predicate IsMisnamed(e: Entry, name: string) {
    IsCreation(e, name) && e.call.reply.Created? && e.call.reply.secret != "" && e.call.reply.name != name
  }

  /** Exactly one token in the listing has this title. */
  ghost predicate OneTitled(listing: seq<Listed>, name: string) {
    exists i :: 0 <= i < |listing| && listing[i].token.title == name
                && forall j :: 0 <= j < |listing| && listing[j].token.title == name ==> j == i
  }

  /** The delete of the run's own token did not succeed, or with the legacy API the token could not be told. */
  ghost predicate IsFailedCleanup(e: Entry, name: string, legacy: bool) {
    || (OwnCleanup(e, name, legacy) && !e.done)
    || (legacy && (e == Failed(Listing) || (e.Shown? && !OneTitled(e.listing, name))))
  }

  ghost predicate CleanupFailed(trace: seq<Entry>, start: nat, name: string, legacy: bool) {
    exists k {:trigger trace[k]} :: start <= k < |trace| && IsFailedCleanup(trace[k], name, legacy)
  }

  /** The delete of the run's own token succeeded. */
  ghost predicate CleanedUp(trace: seq<Entry>, start: nat, name: string, legacy: bool) {
    exists k {:trigger trace[k]} :: start <= k < |trace| && OwnCleanup(trace[k], name, legacy) && trace[k].done
  }

  /** How a cleanup ended; `reconcile` says that it failed. */
  ghost predicate CleanupEnds(trace: seq<Entry>, start: nat, name: string, legacy: bool, reconcile: bool) {
    if reconcile then CleanupFailed(trace, start, name, legacy) else CleanedUp(trace, start, name, legacy)
  }

  /**
   After the creation at `j`, an error that is marked for reconciliation exactly when the cleanup failed or the token
   got another name. A refused creation is never marked, and nothing is sent after it; after any other there is a
   cleanup.
   */
  ghost predicate Resolves(trace: seq<Entry>, j: nat, name: string, legacy: bool, reconcile: bool)
    requires j < |trace| && IsCreation(trace[j], name)
  {
    if trace[j].call.reply.CreateRefused? then
      !reconcile && forall k {:trigger trace[k]} :: j < k < |trace| ==> !trace[k].Called?
    else if IsMisnamed(trace[j], name) then
      reconcile && (CleanupFailed(trace, j + 1, name, legacy) || CleanedUp(trace, j + 1, name, legacy))
    else CleanupEnds(trace, j + 1, name, legacy, reconcile)
  }

  /** An error before any creation is not marked. */
  ghost predicate Resolved(trace: seq<Entry>, start: nat, name: string, legacy: bool, reconcile: bool) {
    || (NoCreation(trace, start) && !reconcile)
    || exists j {:trigger trace[j]} :: start <= j < |trace| && IsCreation(trace[j], name) && Resolves(trace, j, name, legacy, reconcile)
  }

  /** What happened before only moves the start. */
  lemma ResolvedOn(trace: seq<Entry>, trace': seq<Entry>, start: nat, name: string, legacy: bool, reconcile: bool)
    requires start <= |trace| && trace <= trace' && NoCreation(trace, start)
    requires Resolved(trace', |trace|, name, legacy, reconcile)
    ensures Resolved(trace', start, name, legacy, reconcile)
  {
    if NoCreation(trace', |trace|) && !reconcile { NoCreationOn(trace, trace', start); }
  }

  lemma CleanupEndsOn(trace: seq<Entry>, trace': seq<Entry>, start: nat, name: string, legacy: bool, reconcile: bool)
    requires start <= |trace| && trace <= trace' && CleanupEnds(trace', |trace|, name, legacy, reconcile)
    ensures CleanupEnds(trace', start, name, legacy, reconcile)
  {
  }

  /** A token that was answered for and is then taken back. */
  lemma TakenBack(trace: seq<Entry>, trace': seq<Entry>, start: nat, name: string, d: Delivered, legacy: bool, reconcile: bool)
    requires start <= |trace| && trace <= trace' && AnsweredWith(trace, start, name, d, legacy)
    requires CleanupEnds(trace', |trace|, name, legacy, reconcile)
    ensures Resolved(trace', start, name, legacy, reconcile)
  {
    var j :| start <= j < |trace| && IsAnswer(trace[j], name, d, legacy);
    assert trace'[j] == trace[j];
    CleanupEndsOn(trace, trace', j + 1, name, legacy, reconcile);
    assert Resolves(trace', j, name, legacy, reconcile);
  }

  // ----- what was sent

  /** The tokens that deletes were sent for, in order. */
  function Targets(trace: seq<Entry>, start: nat): seq<string> {
    if |trace| <= start then []
    else
      var e := trace[|trace| - 1];
      Targets(trace[..|trace| - 1], start) + if e.Called? && e.call.DeleteToken? then [e.call.id] else []
  }

  /** Those of them whose delete was answered with success. */
  function Removals(trace: seq<Entry>, start: nat): seq<string> {
    if |trace| <= start then []
    else
      var e := trace[|trace| - 1];
      Removals(trace[..|trace| - 1], start) + if e.Called? && e.call.DeleteToken? && e.done then [e.call.id] else []
  }

  lemma {:induction false} SentOn(trace: seq<Entry>, trace': seq<Entry>, start: nat)
    requires start <= |trace| && trace <= trace'
    ensures Targets(trace', start) == Targets(trace, start) + Targets(trace', |trace|)
    ensures Removals(trace', start) == Removals(trace, start) + Removals(trace', |trace|)
    decreases |trace'|
  {
    if |trace'| == |trace| {
      assert trace' == trace;
    } else {
      SentOn(trace, trace'[..|trace'| - 1], start);
    }
  }

  lemma {:induction false} NothingSent(trace: seq<Entry>, start: nat)
    requires forall k {:trigger trace[k]} :: start <= k < |trace| ==> !trace[k].Called?
    ensures Targets(trace, start) == [] && Removals(trace, start) == []
  {
    if |trace| > start {
      NothingSent(trace[..|trace| - 1], start);
    }
  }

  function IdList(listing: seq<Listed>): (ids: seq<string>)
    ensures |ids| == |listing|
  {
    if listing == [] then [] else IdList(listing[..|listing| - 1]) + [listing[|listing| - 1].id]
  }

  lemma IdListNext(listing: seq<Listed>, k: nat)
    requires k < |listing|
    ensures IdList(listing[..k + 1]) == IdList(listing[..k]) + [listing[k].id]
    ensures |listing| == k + 1 ==> listing[..k + 1] == listing
  {
    assert listing[..k + 1][..k] == listing[..k];
  }

  lemma {:induction false} IdListPrefix(listing: seq<Listed>, k: nat)
    requires k <= |listing|
    ensures IdList(listing[..k]) <= IdList(listing)
    decreases |listing|
  {
    if k == |listing| {
      assert listing[..k] == listing;
    } else {
      IdListPrefix(listing[..|listing| - 1], k);
      assert listing[..|listing| - 1][..k] == listing[..k];
    }
  }

  /** This listing was read. */
  ghost predicate WasShown(trace: seq<Entry>, start: nat, listing: seq<Listed>) {
    exists k {:trigger trace[k]} :: start <= k < |trace| && trace[k] == Shown(listing)
  }

  lemma WasShownOn(trace: seq<Entry>, trace': seq<Entry>, start: nat, listing: seq<Listed>)
    requires start <= |trace| && trace <= trace' && WasShown(trace, start, listing)
    ensures WasShown(trace', start, listing)
  {
    assert forall k :: 0 <= k < |trace| ==> trace'[k] == trace[k];
  }

  /** The last thing that happened is a failed Check. */
  predicate EndsUnchecked(trace: seq<Entry>, start: nat) {
    |trace| > start && trace[|trace| - 1] == Checked(false)
  }

  /** The last thing that happened is a failed Check, or a mutation without success, and what landed with it. */
  predicate EndsFailing(trace: seq<Entry>, start: nat) {
    || EndsUnchecked(trace, start)
    || (|trace| > start + 1 && trace[|trace| - 1].Settled? && trace[|trace| - 2].Called? && !trace[|trace| - 2].done)
  }

  /**
   Deletes were sent for these tokens in their order, for all of them without an error; an error is a failed Check or
   delete, and nothing happens after it.
   */
  ghost predicate Applied(trace: seq<Entry>, start: nat, candidates: seq<Listed>, error: bool) {
    if error then Targets(trace, start) <= IdList(candidates) && EndsFailing(trace, start)
    else Targets(trace, start) == Removals(trace, start) == IdList(candidates)
  }

  lemma AppliedNext(t0: seq<Entry>, t1: seq<Entry>, t2: seq<Entry>, candidates: seq<Listed>, k: nat, done: bool)
    requires t0 <= t1 <= t2 && k < |candidates| && Applied(t1, |t0|, candidates[..k], false)
    requires done ==> Targets(t2, |t1|) == Removals(t2, |t1|) == [candidates[k].id]
    requires !done ==> Targets(t2, |t1|) in [[], [candidates[k].id]] && EndsFailing(t2, |t1|)
    ensures if done then Applied(t2, |t0|, candidates[..k + 1], false) else Applied(t2, |t0|, candidates, true)
  {
    SentOn(t1, t2, |t0|);
    IdListNext(candidates, k);
    IdListPrefix(candidates, k);
    IdListPrefix(candidates, k + 1);
  }

  lemma AppliedOn(t0: seq<Entry>, t1: seq<Entry>, t2: seq<Entry>, candidates: seq<Listed>, error: bool)
    requires t0 <= t1 <= t2 && Targets(t1, |t0|) == Removals(t1, |t0|) == [] && Applied(t2, |t1|, candidates, error)
    ensures Applied(t2, |t0|, candidates, error)
  {
    SentOn(t1, t2, |t0|);
    assert [] + Targets(t2, |t1|) == Targets(t2, |t1|) && [] + Removals(t2, |t1|) == Removals(t2, |t1|);
  }

  // ----- single steps

  /** A passed Check with the mutation it guards. */
  function GuardedCall(trace: seq<Entry>, call: Call, done: bool, mid: Tokens, after: Tokens): seq<Entry> {
    trace + [Checked(true)] + [Called(call, done, mid)] + [Settled(after)]
  }

  lemma GuardedCallWalks(trace: seq<Entry>, call: Call, done: bool, mid: Tokens, after: Tokens, name: string, legacy: bool)
    ensures var trace' := GuardedCall(trace, call, done, mid, after);
      Walk(trace, trace', name, legacy) && (!done ==> Interrupted(trace', |trace|))
      && trace'[|trace| + 1] == Called(call, done, mid)
    ensures HasTitle(mid, name) && HasTitle(after, name) ==>
      AlwaysTitled(GuardedCall(trace, call, done, mid, after), |trace|, name)
  {
    var trace' := GuardedCall(trace, call, done, mid, after);
    assert trace'[|trace|] == Checked(true) && trace'[|trace| + 1] == Called(call, done, mid);
    assert trace'[|trace| + 2] == Settled(after);
  }

  lemma SentNext(trace: seq<Entry>, e: Entry, start: nat)
    requires start <= |trace|
    ensures Targets(trace + [e], start) == Targets(trace, start) + if e.Called? && e.call.DeleteToken? then [e.call.id] else []
    ensures Removals(trace + [e], start) ==
      Removals(trace, start) + if e.Called? && e.call.DeleteToken? && e.done then [e.call.id] else []
  {
    assert (trace + [e])[..|trace|] == trace;
  }

  /** An entry that sends nothing. */
  lemma SentSame(trace: seq<Entry>, e: Entry, start: nat)
    requires start <= |trace| && !e.Called?
    ensures Targets(trace + [e], start) == Targets(trace, start) && Removals(trace + [e], start) == Removals(trace, start)
  {
    SentNext(trace, e, start);
  }

  lemma FirstSent(trace: seq<Entry>, e: Entry, start: nat)
    requires start <= |trace| && e.Called? && Targets(trace, start) == Removals(trace, start) == []
    ensures Targets(trace + [e], start) == if e.call.DeleteToken? then [e.call.id] else []
    ensures Removals(trace + [e], start) == if e.call.DeleteToken? && e.done then [e.call.id] else []
  {
    SentNext(trace, e, start);
  }

  lemma GuardedCallSent(trace: seq<Entry>, call: Call, done: bool, mid: Tokens, after: Tokens)
    ensures var trace' := GuardedCall(trace, call, done, mid, after);
      && Targets(trace', |trace|) == (if call.DeleteToken? then [call.id] else [])
      && Removals(trace', |trace|) == (if call.DeleteToken? && done then [call.id] else [])
  {
    SentSame(trace, Checked(true), |trace|);
    FirstSent(trace + [Checked(true)], Called(call, done, mid), |trace|);
    SentSame(trace + [Checked(true)] + [Called(call, done, mid)], Settled(after), |trace|);
  }

  lemma GuardedCallEnds(trace: seq<Entry>, call: Call, done: bool, mid: Tokens, after: Tokens)
    requires !done
    ensures EndsFailing(GuardedCall(trace, call, done, mid, after), |trace|)
  {
    var trace' := GuardedCall(trace, call, done, mid, after);
    assert trace'[|trace'| - 2] == Called(call, done, mid);
  }

  /** Reading or failing, and no mutation. */
  lemma ReadWalks(trace: seq<Entry>, e: Entry, more: seq<Entry>, name: string, legacy: bool)
    requires !e.Called? && forall x :: x in more ==> x.Settled?
    ensures Walk(trace, trace + [e] + more, name, legacy)
    ensures IsExcuse(e, name) ==> Excused(trace + [e] + more, |trace|, name)
    ensures IsInterruption(e) ==> Interrupted(trace + [e] + more, |trace|)
  {
    var trace' := trace + [e] + more;
    assert trace'[|trace|] == e;
    forall k | |trace| < k < |trace'|
      ensures trace'[k].Settled?
    {
      assert trace'[k] == more[k - |trace| - 1];
    }
  }

  /** What a read shows of listings and cleanups. */
  lemma ReadShows(trace: seq<Entry>, e: Entry, more: seq<Entry>, name: string, legacy: bool)
    requires !e.Called? && forall x :: x in more ==> x.Settled?
    ensures var trace' := trace + [e] + more;
      && NoCreation(trace', |trace|) && OnlyCleanup(trace', |trace|, name, legacy)
      && (e.Shown? ==> WasShown(trace', |trace|, e.listing))
      && (IsFailedCleanup(e, name, legacy) ==> CleanupFailed(trace', |trace|, name, legacy))
  {
    var trace' := trace + [e] + more;
    assert trace'[|trace|] == e;
    forall k | |trace| < k < |trace'|
      ensures trace'[k].Settled?
    {
      assert trace'[k] == more[k - |trace| - 1];
    }
  }
}
