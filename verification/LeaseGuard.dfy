/**
 The code of one pod: the acquiring loop, and the guard object with its renewing loop, Check and Release.
 What the clock, the ticker and the API server do is a script; the protocol module says which scripts occur.
 */
module LeaseGuards {
  import opened Clock
  import opened LeaseRecord
  import opened LeaseProtocol
  import opened Text

  /**
   One pass of the acquiring loop: the reading before the GET, its answer, the reading after it, the PUT's fate, and
   whether the wait after it ends with the ticker or with cancellation.
   */
  datatype Attempt = Attempt(attemptedAt: Time, got: Option<Lease>, now: Time, put: PutAnswer, cancelled: bool)

  datatype PutAnswer = Committed | Conflict | Failed

  datatype Outcome = Acquired | Retry | Error

  /** What `update(ctx, holder, true)` returns: only a refusal or a conflict lets the loop go on. */
  function AttemptOutcome(holder: string, a: Attempt): Outcome {
    if a.got.None? || a.got.value.renewTime.Malformed? then Error
    else if !MayWrite(a.got.value, holder, a.now, true) || a.put == Conflict then Retry
    else if a.put == Committed then Acquired
    else Error
  }

  /** One pass of the renewing loop: stopped, or a tick, and if in time a renewal and whether it succeeded. */
  datatype Round = Stop | Round(tick: Time, attemptedAt: Time, ok: bool)

  /** The guard after the renewing loop has seen these rounds; it looks no further once stopped or lost. */
  function AfterRounds(g: Guard, duration: int, rounds: seq<Round>): Guard
    decreases |rounds|
  {
    if rounds == [] || rounds[0].Stop? then g
    else
      var ticked := g.Ticked(rounds[0].tick, duration);
      if ticked.lost then ticked
      else
        var renewed := ticked.Renewed(rounds[0].attemptedAt, rounds[0].ok);
        if renewed.lost then renewed else AfterRounds(renewed, duration, rounds[1..])
  }

  /** The rounds that a loop starting unlost gets through: each ticked before the deadline set by the one before. */
  predicate InTime(lastRenew: Time, duration: int, rounds: seq<Round>)
    decreases |rounds|
  {
    rounds == [] || rounds[0].Stop?
    || (rounds[0].ok && rounds[0].tick < lastRenew + duration
        && InTime(rounds[0].attemptedAt, duration, rounds[1..]))
  }

  function LastAttempt(lastRenew: Time, rounds: seq<Round>): Time
    decreases |rounds|
  {
    if rounds == [] || rounds[0].Stop? then lastRenew else LastAttempt(rounds[0].attemptedAt, rounds[1..])
  }

  /** The loop keeps its guard exactly when every renewal was tried in time and succeeded. */
  lemma {:induction false} KeptExactlyInTime(g: Guard, duration: int, rounds: seq<Round>)
    requires !g.lost
    ensures var after := AfterRounds(g, duration, rounds);
      && !after.lost <==> InTime(g.lastRenew, duration, rounds)
    ensures InTime(g.lastRenew, duration, rounds) ==>
      AfterRounds(g, duration, rounds).lastRenew == LastAttempt(g.lastRenew, rounds)
    decreases |rounds|
  {
    if rounds != [] && !rounds[0].Stop? && rounds[0].ok && rounds[0].tick < g.lastRenew + duration {
      KeptExactlyInTime(g.Renewed(rounds[0].attemptedAt, true), duration, rounds[1..]);
    }
  }

  class LeaseGuard {
    const holder: string
    const duration: int
    var lost: bool
    var lastRenew: Time
    var released: bool

    constructor (holder: string, duration: int, attemptedAt: Time)
      ensures this.holder == holder && this.duration == duration && !released
      ensures View() == Guard(false, attemptedAt)
    {
      this.holder := holder;
      this.duration := duration;
      lost := false;
      lastRenew := attemptedAt;
      released := false;
    }

    function View(): Guard
      reads this
    {
      Guard(lost, lastRenew)
    }

    method Check(now: Time) returns (ok: bool)
      ensures ok == View().Passes(now, duration)
    {
      if !lost && !(lastRenew + duration > now) {
        return false;
      }
      return !lost;
    }

    method Renew(rounds: seq<Round>)
      modifies this`lost, this`lastRenew
      ensures !old(lost) ==> View() == AfterRounds(old(View()), duration, rounds)
    {
      for i := 0 to |rounds|
        invariant !old(lost) ==> !lost
        invariant !old(lost) ==>
          AfterRounds(View(), duration, rounds[i..]) == AfterRounds(old(View()), duration, rounds)
      {
        match rounds[i] {
          case Stop => return;
          case Round(tick, attemptedAt, ok) =>
            var expired := !(lastRenew + duration > tick);
            if expired {
              lost := true;
              return;
            }
            if !ok {
              lost := true;
              return;
            }
            lastRenew := attemptedAt;
        }
      }
    }

    /** Only the first call sends anything, and only while the Lease still names this guard. */
    method Release(got: Option<Lease>, now: Time) returns (sent: Option<Lease>)
      modifies this`released
      ensures released
      ensures sent.Some? <==> !old(released) && got.Some? && got.value.holder == holder
      ensures sent.Some? ==> sent.value == Vacated(got.value, now)
    {
      sent := None;
      if released {
        return;
      }
      released := true;
      if got.None? || got.value.holder != holder {
        return;
      }
      var lease := got.value;
      lease := lease.(holder := "");
      lease := lease.(renewTime := At(Truncate(now)));
      sent := Some(lease);
    }
  }

  datatype Ending = Guarded | GaveError | WasCancelled | StillTrying

  /** How the loop ends after these attempts, and after how many. */
  function EndOf(holder: string, attempts: seq<Attempt>): (Ending, nat) {
    if attempts == [] then (StillTrying, 0)
    else
      match AttemptOutcome(holder, attempts[0])
      case Acquired => (Guarded, 0)
      case Error => (GaveError, 0)
      case Retry =>
        if attempts[0].cancelled then (WasCancelled, 0)
        else var (ending, n) := EndOf(holder, attempts[1..]); (ending, n + 1)
  }

  /**
   It ends at the first attempt that reads a readable Lease, may write it, and commits: with a guard; or that gets no
   answer, cannot read the renewTime, or fails to write: with an error; or that is cancelled while waiting, after the
   Lease was taken or another pod wrote first. Every attempt before that one waited in this way and was not cancelled.
   */
  lemma {:induction false} EndIsFirst(holder: string, attempts: seq<Attempt>)
    ensures var (ending, n) := EndOf(holder, attempts);
      && n <= |attempts| && (ending == StillTrying <==> n == |attempts|)
      && (forall k :: 0 <= k < n ==> var a := attempts[k];
            && a.got.Some? && !a.got.value.renewTime.Malformed? && !a.cancelled
            && (!MayWrite(a.got.value, holder, a.now, true) || a.put == Conflict))
      && (n < |attempts| ==> var a := attempts[n];
            && (ending == GaveError <==>
                  a.got.None? || a.got.value.renewTime.Malformed?
                  || (MayWrite(a.got.value, holder, a.now, true) && a.put == Failed))
            && (ending == Guarded <==>
                  && a.got.Some? && !a.got.value.renewTime.Malformed?
                  && MayWrite(a.got.value, holder, a.now, true) && a.put == Committed)
            && (ending == WasCancelled ==> a.cancelled))
  {
    if attempts != [] && AttemptOutcome(holder, attempts[0]) == Retry && !attempts[0].cancelled {
      EndIsFirst(holder, attempts[1..]);
      assert forall k :: 0 < k < |attempts| ==> attempts[k] == attempts[1..][k - 1];
    }
  }

  /**
   The acquiring loop: it goes on exactly after a Lease that it may not write and after a conflict. Its guard counts from
   before the GET of the attempt that committed.
   */
  method Acquire(holder: string, seconds: nat, attempts: seq<Attempt>) returns (guard: LeaseGuard?, ending: Ending, tried: nat)
    ensures (ending, tried) == EndOf(holder, attempts)
    ensures tried <= |attempts| && (ending == StillTrying <==> tried == |attempts|)
    ensures forall k :: 0 <= k < tried ==> var a := attempts[k];
      && a.got.Some? && !a.got.value.renewTime.Malformed? && !a.cancelled
      && (!MayWrite(a.got.value, holder, a.now, true) || a.put == Conflict)
    ensures tried < |attempts| ==> var a := attempts[tried];
      && (ending == GaveError <==>
            a.got.None? || a.got.value.renewTime.Malformed? || (MayWrite(a.got.value, holder, a.now, true) && a.put == Failed))
      && (ending == Guarded <==>
            && a.got.Some? && !a.got.value.renewTime.Malformed?
            && MayWrite(a.got.value, holder, a.now, true) && a.put == Committed)
      && (ending == WasCancelled ==> a.cancelled)
    ensures guard != null <==> ending == Guarded
    ensures guard != null ==>
      && fresh(guard) && tried < |attempts| && guard.holder == holder && guard.duration == seconds * SECOND
      && guard.View() == Guard(false, attempts[tried].attemptedAt)
  {
    EndIsFirst(holder, attempts);
    tried := 0;
    while tried < |attempts|
      invariant tried <= |attempts|
      invariant EndOf(holder, attempts).0 == EndOf(holder, attempts[tried..]).0
      invariant EndOf(holder, attempts).1 == tried + EndOf(holder, attempts[tried..]).1
    {
      var a := attempts[tried];
      assert attempts[tried..][0] == a && attempts[tried..][1..] == attempts[tried + 1..];
      if a.got.None? {
        return null, GaveError, tried;
      }
      var decision := DecideUpdate(a.got.value, holder, seconds, a.now, true);
      match decision {
        case Unreadable => return null, GaveError, tried;
        case Refuse =>
        case Write(_) =>
          match a.put {
            case Committed =>
              guard := new LeaseGuard(holder, seconds * SECOND, a.attemptedAt);
              return guard, Guarded, tried;
            case Conflict =>
            case Failed => return null, GaveError, tried;
          }
      }
      if a.cancelled {
        return null, WasCancelled, tried;
      }
      tried := tried + 1;
    }
    return null, StillTrying, tried;
  }
}
