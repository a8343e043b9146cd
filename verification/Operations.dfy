/**
 Whole operations under the Lease: what issue, revoke, reconcile and offboard do to Grafana, set against the run of
 the Lease protocol in which their guards live.
 */
module Operations {
  import P = LeaseProtocol
  import O = LeaseOverlap
  import S = SerialOrder
  import Safe = LeaseSafety
  import G = Remotes
  import T = Traces
  import F = FlashCodecs
  import D = Delivery
  import R = Rotation
  import C = Cleanups

  /** One operation: the account it worked on, what its trace shows from `start` on, and its own new token's name. */
  datatype Operation = Operation(account: string, trace: seq<G.Entry>, start: nat, name: string, legacy: bool)

  /** A mutation that directly follows a passed Check. */
  predicate IsGuarded(trace: seq<G.Entry>, start: nat, k: nat) {
    start < k < |trace| && trace[k].Called? && trace[k - 1] == G.Checked(true)
  }

  /** The guarded mutations among the first `n` entries, in order, written as the calls of the protocol. */
  function Mutations(o: Operation, describe: G.Call -> string, n: nat): seq<P.Call>
    requires n <= |o.trace|
  {
    if n == 0 then []
    else
      Mutations(o, describe, n - 1)
      + if IsGuarded(o.trace, o.start, n - 1) then [P.Call(o.account, describe(o.trace[n - 1].call))] else []
  }

  function All(o: Operation, describe: G.Call -> string): seq<P.Call> {
    Mutations(o, describe, |o.trace|)
  }

  // ----- the operations

  datatype Request =
    | Issue(email: string, success: F.Prepared, partial: F.Prepared, name: string, now: int, ttl: int)
    | Revoke
    | Reconcile(options: C.Options, now: int)
    | Offboard(apply: bool)

  /** What an operation without an error has brought about, when nothing was outstanding. */
  ghost predicate Achieved(request: Request, before: G.Store, after: G.Store) {
    match request
    case Issue(_, _, _, name, _, _) => T.HasTitle(after.tokens, name)
    case Revoke => after.tokens == map[]
    case Reconcile(options, now) =>
      options.apply ==> before.account.None? || after.tokens == C.Unplanned(before.tokens, options, now)
    case Offboard(apply) => apply ==> before.account.None? || after == G.GONE
  }

  /** What an operation leaves alone, failed or not: of `kept`, the tokens that nothing outstanding can delete. */
  ghost predicate Considerate(request: Request, trace: seq<G.Entry>, start: nat, kept: G.Tokens) {
    match request
    case Issue(_, _, _, name, _, _) => T.NoGap(trace, start, kept, name)
    case Revoke => true
    case Reconcile(options, now) => G.AlwaysKeeps(trace, start, C.Unplanned(kept, options, now))
    case Offboard(apply) => !apply ==> G.AlwaysKeeps(trace, start, kept)
  }

  /** The operations that only delete have no mutation that is not guarded. */
  lemma AllGuardedIsGuarded(trace: seq<G.Entry>, start: nat, name: string, legacy: bool)
    requires C.AllGuarded(trace, start)
    ensures T.Guarded(trace, start, name, legacy)
  {
  }

  /**
   Any of the operations, and its trace: every mutation directly follows a passed Check, or deletes a token with the
   operation's own new name. What earlier operations left outstanding may land meanwhile; another operation can follow.
   */
  method Perform(remote: G.Remote, flash: F.FlashCodec, account: string, request: Request)
    returns (failed: bool, ghost o: Operation)
    requires remote.Valid() && flash.json.RoundTrips()
    requires request.Issue? ==>
      && R.Fresh(request.name, remote.ids, remote.store) && !remote.store.lateAccount.Leaving?
      && D.PreparedFor(flash, request.success, request.partial)
    modifies remote`store, remote`ids, remote`trace, remote`watched, remote`from, flash`ledger
    ensures remote.Valid() && old(remote.trace) <= remote.trace
    ensures o == Operation(account, remote.trace, |old(remote.trace)|, if request.Issue? then request.name else "", remote.legacy)
    ensures T.Guarded(o.trace, o.start, o.name, o.legacy)
    ensures forall k :: o.start <= k < |o.trace| && o.trace[k].Called? && !IsGuarded(o.trace, o.start, k) ==>
      T.OwnCleanup(o.trace[k], o.name, o.legacy)
    ensures !failed && old(remote.store).Quiet() && old(remote.store).Attached() ==>
      Achieved(request, old(remote.store), remote.store)
    ensures Considerate(request, o.trace, o.start, G.Undisturbed(old(remote.store)))
  {
    ghost var name := "";
    ghost var kept := G.Undisturbed(remote.store);
    match request {
      case Issue(email, success, partial, newName, now, ttl) =>
        remote.Watch(kept);
        var r, listing, stopped;
        ghost var id, token, sealed, d;
        r, listing, stopped, id, token, sealed, d := R.Issue(remote, flash, email, success, partial, newName, now, ttl);
        failed := r.error.Some?;
        name := newName;
      case Revoke =>
        var r;
        ghost var listing, tried, gone;
        r, listing, tried, gone := C.Revoke(remote);
        failed := r.error;
        if !failed && old(remote.store).Quiet() && old(remote.store).Attached() {
          C.RevokedAll(old(remote.store), remote.store, r, tried, gone);
        }
        AllGuardedIsGuarded(remote.trace, |old(remote.trace)|, name, remote.legacy);
      case Reconcile(options, now) =>
        if !remote.store.lateAccount.Leaving? { remote.Watch(C.Unplanned(kept, options, now)); }
        var plan, listing;
        failed, plan, listing := C.ReconcileOne(remote, options, now);
        AllGuardedIsGuarded(remote.trace, |old(remote.trace)|, name, remote.legacy);
      case Offboard(apply) =>
        if !remote.store.lateAccount.Leaving? { remote.Watch(kept); }
        failed := C.OffboardOne(remote, apply);
        AllGuardedIsGuarded(remote.trace, |old(remote.trace)|, name, remote.legacy);
    }
    o := Operation(account, remote.trace, |old(remote.trace)|, name, remote.legacy);
  }

  // ----- their serial order

  function CallsIn(started: seq<P.Started>): seq<P.Call> {
    if started == [] then [] else CallsIn(started[..|started| - 1]) + [started[|started| - 1].call]
  }

  /** The calls that the run started under guard `h` are the guarded mutations of the operation. */
  ghost predicate Accounts(s: P.State, h: string, o: Operation, describe: G.Call -> string) {
    CallsIn(S.CallsOf(s.started, h)) == All(o, describe)
  }

  /** The mutations of the operations, one operation after another. */
  function OneByOne(acquisitions: seq<string>, operations: map<string, Operation>, describe: G.Call -> string): seq<P.Call> {
    if acquisitions == [] then []
    else
      var last := acquisitions[|acquisitions| - 1];
      OneByOne(acquisitions[..|acquisitions| - 1], operations, describe)
      + if last in operations then All(operations[last], describe) else []
  }

  lemma {:induction false} CallsInConcat(a: seq<P.Started>, b: seq<P.Started>)
    ensures CallsIn(a + b) == CallsIn(a) + CallsIn(b)
    decreases |b|
  {
    if b == [] {
      assert a + b == a;
    } else {
      CallsInConcat(a, b[..|b| - 1]);
      assert (a + b)[..|a + b| - 1] == a + b[..|b| - 1];
    }
  }

  lemma {:induction false} TurnsOneByOne(acquisitions: seq<string>, s: P.State, operations: map<string, Operation>,
                                         describe: G.Call -> string)
    requires forall h :: h in acquisitions ==> h in operations && Accounts(s, h, operations[h], describe)
    ensures CallsIn(S.InTurn(acquisitions, s.started)) == OneByOne(acquisitions, operations, describe)
  {
    if acquisitions != [] {
      var front, last := acquisitions[..|acquisitions| - 1], acquisitions[|acquisitions| - 1];
      assert last in acquisitions;
      TurnsOneByOne(front, s, operations, describe);
      CallsInConcat(S.InTurn(front, s.started), S.CallsOf(s.started, last));
    }
  }

  /**
   Serial operations: all guarded mutations of all pods, in the order in which they started, are those of one whole
   operation after another, in the order in which the operations acquired the Lease.
   */
  lemma SerialOperations(c: P.Config, s0: P.State, events: seq<P.Event>, operations: map<string, Operation>,
                         describe: G.Call -> string)
    requires P.Init(c, s0) && P.Runs(c, s0, events) && Safe.Exclusive(c)
    requires var s := P.Run(c, s0, events);
      forall h :: h in s.acquisitions ==> h in operations && Accounts(s, h, operations[h], describe)
    ensures var s := P.Run(c, s0, events);
      CallsIn(s.started) == OneByOne(s.acquisitions, operations, describe)
  {
    S.SerialOrder(c, s0, events);
    var s := P.Run(c, s0, events);
    TurnsOneByOne(s.acquisitions, s, operations, describe);
  }

  // ----- every operation has its run

  function Starts(h: string, calls: seq<P.Call>): seq<P.Started> {
    if calls == [] then [] else Starts(h, calls[..|calls| - 1]) + [P.Started(h, calls[|calls| - 1])]
  }

  lemma {:induction false} StartsAreCalls(h: string, calls: seq<P.Call>)
    ensures S.CallsOf(Starts(h, calls), h) == Starts(h, calls) && CallsIn(Starts(h, calls)) == calls
  {
    if calls != [] {
      var front, last := calls[..|calls| - 1], calls[|calls| - 1];
      StartsAreCalls(h, front);
      assert Starts(h, calls)[..|Starts(h, calls)| - 1] == Starts(h, front);
      assert calls == front + [last];
    }
  }

  /** A guard that passes Check can start all these calls. */
  lemma {:induction false} StartAll(c: P.Config, s: P.State, h: string, r: int, calls: seq<P.Call>)
    returns (events: seq<P.Event>)
    requires P.PassesCheck(c, s, h, r) && s.started == []
    ensures P.Runs(c, s, events) && P.Run(c, s, events) == s.(started := Starts(h, calls))
  {
    if calls == [] {
      events := [];
    } else {
      var last := P.StartCall(h, r, calls[|calls| - 1]);
      events := StartAll(c, s, h, r, calls[..|calls| - 1]);
      O.RunExtend(c, s, events, last);
      events := events + [last];
    }
  }

  /** For every operation there is a run in which its guard starts exactly its guarded mutations. */
  lemma Realized(c: P.Config, o: Operation, describe: G.Call -> string) returns (s0: P.State, events: seq<P.Event>)
    requires c.Valid() && !O.Unreadable(c)
    ensures P.Init(c, s0) && P.Runs(c, s0, events)
    ensures var s := P.Run(c, s0, events);
      s.acquisitions == [c.Foreign() + "a"] && Accounts(s, c.Foreign() + "a", o, describe)
  {
    var h, now := c.Foreign() + "a", O.EarlyReading(c);
    var before;
    O.ReadyIsReadable(c);
    s0, before := O.FirstHolder(c, now);
    var started := StartAll(c, P.Run(c, s0, before), h, now, All(o, describe));
    O.RunJoin(c, s0, before, started);
    StartsAreCalls(h, All(o, describe));
    events := before + started;
  }

  /** The guarded mutations depend on the trace only as far as they go. */
  lemma {:induction false} MutationsPrefix(o: Operation, longer: Operation, describe: G.Call -> string, n: nat)
    requires n <= |o.trace| && o.trace <= longer.trace && o.account == longer.account && o.start == longer.start
    ensures Mutations(o, describe, n) == Mutations(longer, describe, n)
  {
    if n > 0 {
      MutationsPrefix(o, longer, describe, n - 1);
      assert forall k :: 0 <= k < n ==> longer.trace[k] == o.trace[k];
    }
  }

  function Described(account: string, calls: seq<G.Call>, describe: G.Call -> string): seq<P.Call> {
    if calls == [] then []
    else Described(account, calls[..|calls| - 1], describe) + [P.Call(account, describe(calls[|calls| - 1]))]
  }

  /** And any mutations at all are the guarded ones of some operation. */
  lemma {:induction false} AnyMutations(account: string, calls: seq<G.Call>, describe: G.Call -> string, legacy: bool)
    returns (o: Operation)
    ensures o.account == account && o.start == 0 && T.Guarded(o.trace, o.start, o.name, legacy)
    ensures All(o, describe) == Described(account, calls, describe)
  {
    if calls == [] {
      o := Operation(account, [], 0, "", legacy);
    } else {
      var last := calls[|calls| - 1];
      var shorter := AnyMutations(account, calls[..|calls| - 1], describe, legacy);
      var n := |shorter.trace|;
      o := shorter.(trace := shorter.trace + [G.Checked(true), G.Called(last, true, map[])]);
      MutationsPrefix(shorter, o, describe, n);
      assert o.trace[n] == G.Checked(true) && o.trace[n + 1] == G.Called(last, true, map[]);
      assert forall k :: 0 <= k < n ==> o.trace[k] == shorter.trace[k];
      assert Mutations(o, describe, n + 1) == Mutations(o, describe, n);
    }
  }
}
