/**
 The acquiring loop of the protocol is the loop of the code: in every run, a process is where the loop is after the
 attempts that the run's own events spell out.
 */
module LeaseAttempts {
  import opened LeaseRecord
  import opened LeaseProtocol
  import opened LeaseGuards
  import opened Text
  import R = LeaseRounds

  /** The attempts that are over, and what the one under way has read when it sends its PUT. */
  datatype Tries = Tries(attempts: seq<Attempt>, got: Option<Lease>, now: Time)

  const NO_TRIES: Tries := Tries([], None, 0)

  function Over(t: Tries, attemptedAt: Time, got: Option<Lease>, now: Time, put: PutAnswer): Tries {
    t.(attempts := t.attempts + [LeaseGuards.Attempt.Attempt(attemptedAt, got, now, put, false)])
  }

  /** The wait after the last attempt was cancelled; before the first one there is nothing to cancel. */
  function Cancelled(t: Tries): Tries {
    if t.attempts == [] then t
    else
      var front, last := t.attempts[..|t.attempts| - 1], t.attempts[|t.attempts| - 1];
      t.(attempts := front + [last.(cancelled := true)])
  }

  /** What a step of the process adds: an attempt is over when the process loops again, holds the Lease or gives up. */
  function StepTries(c: Config, now: Time, lease: Option<Lease>, h: string, p: Process, e: Step, t: Tries): Tries
    requires StepEnabled(c, now, lease, p, e)
  {
    var next := StepNext(c, now, lease, h, p, e).acquiring;
    match e
    case ServeGet => if next.GaveUp? then Over(t, p.acquiring.attemptedAt, None, 0, Failed) else t
    case Decide(r) =>
      if next.Putting? then t.(got := Some(p.acquiring.snapshot), now := r)
      else Over(t, p.acquiring.attemptedAt, Some(p.acquiring.snapshot), r, Failed)
    case Confirm =>
      Over(t, p.acquiring.attemptedAt, t.got, t.now, if p.claim.committed then Committed else Conflict)
    case GiveUp =>
      if p.acquiring.Looping? then Cancelled(t)
      else if p.acquiring.Putting? then Over(t, p.acquiring.attemptedAt, t.got, t.now, Failed)
      else Over(t, p.acquiring.attemptedAt, None, 0, Failed)
    case _ => t
  }

  function EventTries(c: Config, s: State, e: Event, h: string, t: Tries): Tries
    requires Enabled(c, s, e)
  {
    if e.Local? && e.holder == h then StepTries(c, s.now, s.lease, h, s.processes[h], e.step, t) else t
  }

  /** The attempts of one process over a run. */
  function TriesOf(c: Config, s: State, events: seq<Event>, h: string, t: Tries): Tries
    requires Runs(c, s, events)
    decreases |events|
  {
    if events == [] then t
    else TriesOf(c, Next(c, s, events[0]), events[1..], h, EventTries(c, s, events[0], h, t))
  }

  lemma {:induction false} OneMoreAttempt(h: string, attempts: seq<Attempt>, a: Attempt)
    requires EndOf(h, attempts) == (StillTrying, |attempts|)
    ensures EndOf(h, attempts + [a]) == match AttemptOutcome(h, a)
      case Acquired => (Guarded, |attempts|)
      case Error => (GaveError, |attempts|)
      case Retry => if a.cancelled then (WasCancelled, |attempts|) else (StillTrying, |attempts| + 1)
  {
    if attempts == [] {
      assert [a][1..] == [];
    } else {
      assert (attempts + [a])[1..] == attempts[1..] + [a];
      OneMoreAttempt(h, attempts[1..], a);
    }
  }

  /** A loop that still tries did so before its last attempt, which lets it go on. */
  lemma {:induction false} OneAttemptLess(h: string, attempts: seq<Attempt>)
    requires attempts != [] && EndOf(h, attempts) == (StillTrying, |attempts|)
    ensures EndOf(h, attempts[..|attempts| - 1]) == (StillTrying, |attempts| - 1)
    ensures AttemptOutcome(h, attempts[|attempts| - 1]) == Retry
  {
    if |attempts| > 1 {
      OneAttemptLess(h, attempts[1..]);
      assert attempts[1..][..|attempts| - 2] == attempts[..|attempts| - 1][1..];
    }
  }

  lemma CancelEnds(h: string, t: Tries)
    requires EndOf(h, t.attempts) == (StillTrying, |t.attempts|)
    ensures var t' := Cancelled(t); t'.attempts == [] || EndOf(h, t'.attempts) == (WasCancelled, |t'.attempts| - 1)
  {
    if t.attempts != [] {
      var front, last := t.attempts[..|t.attempts| - 1], t.attempts[|t.attempts| - 1];
      OneAttemptLess(h, t.attempts);
      OneMoreAttempt(h, front, last.(cancelled := true));
    }
  }

  /** Where the process is, the loop is, and a guard counts from the attempt that it was acquired with. */
  ghost predicate TriesOk(h: string, p: Process, t: Tries, first: Guard) {
    var (ending, n) := EndOf(h, t.attempts);
    match p.acquiring
    case Held => ending == Guarded && n == |t.attempts| - 1 && first == Guard(false, t.attempts[n].attemptedAt)
    case GaveUp => t.attempts == [] || (ending in {GaveError, WasCancelled} && n == |t.attempts| - 1)
    case Putting(_) =>
      && ending == StillTrying && n == |t.attempts|
      && t.got.Some? && !t.got.value.renewTime.Malformed? && MayWrite(t.got.value, h, t.now, true)
    case _ => ending == StillTrying && n == |t.attempts|
  }

  lemma StepKeepsTries(c: Config, now: Time, lease: Option<Lease>, h: string, p: Process, e: Step, t: Tries, log: R.Log)
    requires TriesOk(h, p, t, log.first) && StepEnabled(c, now, lease, p, e)
    ensures TriesOk(h, StepNext(c, now, lease, h, p, e), StepTries(c, now, lease, h, p, e, t),
                    R.StepLog(c, now, lease, h, p, e, log).first)
  {
    var t' := StepTries(c, now, lease, h, p, e, t);
    if e.GiveUp? && p.acquiring.Looping? {
      CancelEnds(h, t);
    } else if t'.attempts != t.attempts {
      OneMoreAttempt(h, t.attempts, t'.attempts[|t.attempts|]);
    }
  }

  ghost predicate TriesFollow(s: State, h: string, t: Tries, first: Guard) {
    if h in s.processes then TriesOk(h, s.processes[h], t, first) else t.attempts == []
  }

  lemma EventKeepsTries(c: Config, s: State, e: Event, h: string, t: Tries, log: R.Log)
    requires TriesFollow(s, h, t, log.first) && Enabled(c, s, e)
    ensures TriesFollow(Next(c, s, e), h, EventTries(c, s, e, h, t), R.EventLog(c, s, e, h, log).first)
  {
    if e.Local? && e.holder == h {
      StepKeepsTries(c, s.now, s.lease, h, s.processes[h], e.step, t, log);
    }
  }

  lemma {:induction false} RunKeepsTries(c: Config, s: State, events: seq<Event>, h: string, t: Tries, log: R.Log)
    requires TriesFollow(s, h, t, log.first) && Runs(c, s, events)
    ensures TriesFollow(Run(c, s, events), h, TriesOf(c, s, events, h, t), R.LogOf(c, s, events, h, log).first)
    decreases |events|
  {
    if events != [] {
      EventKeepsTries(c, s, events[0], h, t, log);
      RunKeepsTries(c, Next(c, s, events[0]), events[1..], h, EventTries(c, s, events[0], h, t),
        R.EventLog(c, s, events[0], h, log));
    }
  }

  /**
   In every run: a process that holds a guard is one whose loop ended with it at its last attempt, and the guard counts
   from there; one that gave up is one whose loop ended with an error or was cancelled, unless it never tried; any other
   is still trying.
   */
  lemma LoopFollowsAttempts(c: Config, s0: State, events: seq<Event>, h: string)
    requires Init(c, s0) && Runs(c, s0, events) && h in Run(c, s0, events).processes
    ensures var (attempts, p) := (TriesOf(c, s0, events, h, NO_TRIES).attempts, Run(c, s0, events).processes[h]);
      var (ending, n) := EndOf(h, attempts);
      && (p.acquiring.Held? <==> ending == Guarded)
      && (p.acquiring.Held? ==>
            && n == |attempts| - 1
            && R.LogOf(c, s0, events, h, R.NO_LOG).first == Guard(false, attempts[n].attemptedAt))
      && (p.acquiring.GaveUp? ==> attempts == [] || ending in {GaveError, WasCancelled})
      && (ending in {GaveError, WasCancelled} ==> p.acquiring.GaveUp?)
  {
    RunKeepsTries(c, s0, events, h, NO_TRIES, R.NO_LOG);
  }
}
