/**
 The guard in the protocol is the guard of the code: in every run it is what the renewing loop makes of the rounds
 that the run's own events spell out, and whether a renewal succeeded is what became of its PUT.
 */
module LeaseRounds {
  import opened LeaseRecord
  import opened LeaseProtocol
  import opened LeaseGuards
  import opened Text

  /** The guard as it was acquired, the last tick, and the rounds since. */
  datatype Log = Log(first: Guard, tick: Time, rounds: seq<Round>)

  const NO_LOG: Log := Log(Guard(false, 0), 0, [])

  function Logged(log: Log, round: Round): Log {
    log.(rounds := log.rounds + [round])
  }

  /** What a step of the process adds: a round is complete when the loop is lost or waits again. */
  function StepLog(c: Config, now: Time, lease: Option<Lease>, h: string, p: Process, e: Step, log: Log): Log
    requires StepEnabled(c, now, lease, p, e)
  {
    match e
    case Confirm => if p.claim.committed then Log(Guard(false, p.acquiring.attemptedAt), 0, []) else log
    case Tick(r) =>
      if p.guard.lastRenew + c.Duration() > r then log.(tick := r) else Logged(log, Round(r, r, false))
    case ServeRenewGet => if lease.Some? then log else Logged(log, Round(log.tick, p.renewing.attemptedAt, false))
    case DecideRenew(r) =>
      var snapshot := p.renewing.snapshot;
      if !snapshot.renewTime.Malformed? && MayWrite(snapshot, h, r, false) then log
      else Logged(log, Round(log.tick, p.renewing.attemptedAt, false))
    case ConfirmRenew => Logged(log, Round(log.tick, p.renewing.attemptedAt, p.claim.committed))
    case FailRenew => Logged(log, Round(log.tick, log.tick, false))
    case StopRenew => Logged(log, Stop)
    case _ => log
  }

  function EventLog(c: Config, s: State, e: Event, h: string, log: Log): Log
    requires Enabled(c, s, e)
  {
    if e.Local? && e.holder == h then StepLog(c, s.now, s.lease, h, s.processes[h], e.step, log) else log
  }

  /** The log of one process over a run. */
  function LogOf(c: Config, s: State, events: seq<Event>, h: string, log: Log): Log
    requires Runs(c, s, events)
    decreases |events|
  {
    if events == [] then log
    else LogOf(c, Next(c, s, events[0]), events[1..], h, EventLog(c, s, events[0], h, log))
  }

  /** The loop got through all these rounds. */
  ghost predicate Running(g: Guard, duration: int, rounds: seq<Round>) {
    (forall x :: x in rounds ==> x.Round?) && !AfterRounds(g, duration, rounds).lost
  }

  /** One more round is seen by the guard that the others left. */
  lemma {:induction false} OneMoreRound(g: Guard, duration: int, rounds: seq<Round>, x: Round)
    requires !g.lost && Running(g, duration, rounds)
    ensures AfterRounds(g, duration, rounds + [x]) == AfterRounds(AfterRounds(g, duration, rounds), duration, [x])
    decreases |rounds|
  {
    if rounds == [] {
      assert rounds + [x] == [x];
    } else {
      assert rounds[0] in rounds;
      var ticked := g.Ticked(rounds[0].tick, duration);
      var renewed := ticked.Renewed(rounds[0].attemptedAt, rounds[0].ok);
      assert (rounds + [x])[1..] == rounds[1..] + [x];
      OneMoreRound(renewed, duration, rounds[1..], x);
    }
  }

  lemma OneRound(g: Guard, duration: int, x: Round)
    requires !g.lost
    ensures AfterRounds(g, duration, [x]) ==
      if x.Stop? then g
      else if g.Ticked(x.tick, duration).lost then g.Ticked(x.tick, duration)
      else g.Ticked(x.tick, duration).Renewed(x.attemptedAt, x.ok)
  {
    assert [x][1..] == [];
  }

  /** The guard of a process is the loop's; while the loop runs, its last tick came in time. */
  ghost predicate LogOk(c: Config, p: Process, log: Log) {
    p.acquiring.Held? ==>
      && !log.first.lost
      && p.guard == AfterRounds(log.first, c.Duration(), log.rounds)
      && (!p.renewing.Stopped? ==> Running(log.first, c.Duration(), log.rounds))
      && (!p.renewing.Stopped? && !p.renewing.Waiting? ==> p.guard.lastRenew + c.Duration() > log.tick)
  }

  lemma StepKeepsLog(c: Config, now: Time, lease: Option<Lease>, h: string, p: Process, e: Step, log: Log)
    requires LogOk(c, p, log) && StepEnabled(c, now, lease, p, e)
    requires !p.acquiring.Held? ==> p.renewing.Waiting?
    ensures LogOk(c, StepNext(c, now, lease, h, p, e), StepLog(c, now, lease, h, p, e, log))
  {
    var log' := StepLog(c, now, lease, h, p, e, log);
    if p.acquiring.Held? && log'.rounds != log.rounds {
      var x := log'.rounds[|log.rounds|];
      OneMoreRound(log.first, c.Duration(), log.rounds, x);
      OneRound(p.guard, c.Duration(), x);
    }
  }

  /** Before it is held, a process has not begun to renew. */
  ghost predicate NotYet(s: State) {
    forall h :: h in s.processes && !s.processes[h].acquiring.Held? ==> s.processes[h].renewing.Waiting?
  }

  lemma NotYetStays(c: Config, s: State, e: Event)
    requires NotYet(s) && Enabled(c, s, e)
    ensures NotYet(Next(c, s, e))
  {
  }

  ghost predicate GuardLogged(c: Config, s: State, h: string, log: Log) {
    h in s.processes ==> LogOk(c, s.processes[h], log)
  }

  lemma EventKeepsLog(c: Config, s: State, e: Event, h: string, log: Log)
    requires NotYet(s) && GuardLogged(c, s, h, log) && Enabled(c, s, e)
    ensures GuardLogged(c, Next(c, s, e), h, EventLog(c, s, e, h, log))
  {
    if e.Local? && e.holder == h {
      StepKeepsLog(c, s.now, s.lease, h, s.processes[h], e.step, log);
    }
  }

  lemma {:induction false} RunKeepsLog(c: Config, s: State, events: seq<Event>, h: string, log: Log)
    requires NotYet(s) && GuardLogged(c, s, h, log) && Runs(c, s, events)
    ensures GuardLogged(c, Run(c, s, events), h, LogOf(c, s, events, h, log))
    decreases |events|
  {
    if events != [] {
      NotYetStays(c, s, events[0]);
      EventKeepsLog(c, s, events[0], h, log);
      RunKeepsLog(c, Next(c, s, events[0]), events[1..], h, EventLog(c, s, events[0], h, log));
    }
  }

  /** In every run, a held guard is what the loop makes of the rounds since it was acquired. */
  lemma GuardFollowsRounds(c: Config, s0: State, events: seq<Event>, h: string)
    requires Init(c, s0) && Runs(c, s0, events)
    requires var s := Run(c, s0, events); h in s.processes && s.processes[h].acquiring.Held?
    ensures var log := LogOf(c, s0, events, h, NO_LOG);
      !log.first.lost && Run(c, s0, events).processes[h].guard == AfterRounds(log.first, c.Duration(), log.rounds)
  {
    RunKeepsLog(c, s0, events, h, NO_LOG);
  }
}
