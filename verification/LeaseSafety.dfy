/** What the Lease protocol guarantees in every run. */
module LeaseSafety {
  import opened Clock
  import opened LeaseRecord
  import opened LeaseProtocol
  import opened Text
  import opened LeaseInvariant

  predicate Holds(s: State, h: string) {
    s.lease.Some? && s.lease.value.holder == h
  }

  /** The process wrote the Lease once and is not its holder now. */
  predicate Ousted(s: State, h: string) {
    h in s.processes && s.processes[h].stored.Some? && !Holds(s, h)
  }

  /**
   A guard that passes Check without being the holder can do so only around its stored expiry: not before
   it by more than the clock skew, and less than a microsecond plus the skew after it.
   */
  lemma OustedWindow(c: Config, s: State, h: string, reading: Time)
    requires Inv(c, s) && PassesCheck(c, s, h, reading) && !Holds(s, h)
    ensures Ousted(s, h)
    ensures var expiry := s.processes[h].stored.value + c.Duration();
      expiry - c.skew <= s.now < expiry + MICROSECOND + c.skew
  {
    assert ProcessOk(c, s.now, s.lease, h, s.processes[h]);
  }

  /** Whole microseconds and a skew below half of one leave that window empty. */
  predicate Exclusive(c: Config) {
    c.coarse && 2 * c.skew < MICROSECOND
  }

  lemma MultipleTruncates(t: Time, stored: Time, seconds: nat, reading: Time)
    requires Truncate(t) <= Truncate(stored) && reading % MICROSECOND == 0
    requires t % MICROSECOND == 0
    requires t + seconds * SECOND > reading
    ensures reading + MICROSECOND <= Truncate(stored) + seconds * SECOND
  {
    assert (t + seconds * SECOND - reading) % MICROSECOND == 0;
  }

  /** The acquisition times that coarse clocks show are whole microseconds, and stay so. */
  ghost predicate CoarseOk(s: State) {
    forall h :: h in s.processes ==> CoarseProcess(s.processes[h])
  }

  ghost predicate CoarseProcess(p: Process) {
    && p.guard.lastRenew % MICROSECOND == 0
    && (p.stored.Some? ==> p.stored.value % MICROSECOND == 0)
    && (match p.acquiring
        case Getting(at, _) => at % MICROSECOND == 0
        case Creating(at) => at % MICROSECOND == 0
        case Got(at, _) => at % MICROSECOND == 0
        case Putting(at) => at % MICROSECOND == 0
        case _ => true)
    && (match p.renewing
        case RenewGetting(at) => at % MICROSECOND == 0
        case RenewGot(at, _) => at % MICROSECOND == 0
        case RenewPutting(at) => at % MICROSECOND == 0
        case _ => true)
  }

  lemma CoarseStep(c: Config, now: Time, lease: Option<Lease>, h: string, p: Process, e: Step)
    requires c.coarse && CoarseProcess(p) && StepEnabled(c, now, lease, p, e)
    ensures CoarseProcess(StepNext(c, now, lease, h, p, e))
  {
  }

  lemma EventKeepsCoarse(c: Config, s: State, e: Event)
    requires c.coarse && CoarseOk(s) && Enabled(c, s, e)
    ensures CoarseOk(Next(c, s, e))
  {
    match e
    case Local(h, step) =>
      assert CoarseProcess(s.processes[h]);
      CoarseStep(c, s.now, s.lease, h, s.processes[h], step);
    case ServeCreate(h) => assert CoarseProcess(s.processes[h]);
    case ServeClaim(h) => assert CoarseProcess(s.processes[h]);
    case ServeVacate(h) => assert CoarseProcess(s.processes[h]);
    case _ =>
  }

  lemma {:induction false} RunKeepsCoarse(c: Config, s: State, events: seq<Event>)
    requires c.coarse && CoarseOk(s) && Runs(c, s, events)
    ensures CoarseOk(Run(c, s, events))
    decreases |events|
  {
    if events != [] {
      EventKeepsCoarse(c, s, events[0]);
      RunKeepsCoarse(c, Next(c, s, events[0]), events[1..]);
    }
  }

  /** On such clocks only the holder of the Lease passes Check. */
  lemma PassesOnlyAsHolder(c: Config, s: State, h: string, reading: Time)
    requires Inv(c, s) && CoarseOk(s) && Exclusive(c) && PassesCheck(c, s, h, reading)
    ensures Holds(s, h)
  {
    if !Holds(s, h) {
      OustedWindow(c, s, h, reading);
      var p := s.processes[h];
      assert ProcessOk(c, s.now, s.lease, h, p) && CoarseProcess(p);
      MultipleTruncates(p.guard.lastRenew, p.stored.value, c.seconds, reading);
      assert false;
    }
  }

  /** Mutual exclusion: in every reachable state at most one unreleased guard passes Check. */
  lemma MutualExclusion(c: Config, s0: State, events: seq<Event>, a: string, b: string, ra: Time, rb: Time)
    requires Init(c, s0) && Runs(c, s0, events) && Exclusive(c)
    requires PassesCheck(c, Run(c, s0, events), a, ra) && PassesCheck(c, Run(c, s0, events), b, rb)
    ensures a == b
  {
    InitHolds(c, s0);
    RunKeeps(c, s0, events);
    RunKeepsCoarse(c, s0, events);
    PassesOnlyAsHolder(c, Run(c, s0, events), a, ra);
    PassesOnlyAsHolder(c, Run(c, s0, events), b, rb);
  }

  /** An ousted process never writes the Lease again, whatever it still has in flight. */
  lemma OustedStays(c: Config, s: State, e: Event, h: string)
    requires Inv(c, s) && Enabled(c, s, e) && Ousted(s, h)
    ensures Ousted(Next(c, s, e), h)
    ensures Next(c, s, e).processes[h].stored == s.processes[h].stored
  {
    var p := s.processes[h];
    assert ProcessOk(c, s.now, s.lease, h, p);
    match e
    case Local(g, step) => StepKeeps(c, s.now, s.lease, g, s.processes[g], step);
    case ServeClaim(g) => assert ProcessOk(c, s.now, s.lease, g, s.processes[g]);
    case ServeVacate(g) => assert ProcessOk(c, s.now, s.lease, g, s.processes[g]);
    case _ =>
  }

  lemma {:induction false} OustedForever(c: Config, s: State, events: seq<Event>, h: string)
    requires Inv(c, s) && Runs(c, s, events) && Ousted(s, h)
    ensures Ousted(Run(c, s, events), h)
    ensures Run(c, s, events).processes[h].stored == s.processes[h].stored
    decreases |events|
  {
    if events != [] {
      EventKeeps(c, s, events[0]);
      OustedStays(c, s, events[0], h);
      OustedForever(c, Next(c, s, events[0]), events[1..], h);
    }
  }

  /**
   Quantified overlap: if two unreleased guards both pass Check at one moment and again at a later one,
   the two moments are less than twice the skew plus one microsecond apart.
   */
  lemma OverlapBound(c: Config, s0: State, before: seq<Event>, between: seq<Event>,
                     a: string, b: string, ra: Time, rb: Time, ra': Time, rb': Time)
    requires Init(c, s0) && Runs(c, s0, before) && Runs(c, Run(c, s0, before), between) && a != b
    requires PassesCheck(c, Run(c, s0, before), a, ra) && PassesCheck(c, Run(c, s0, before), b, rb)
    requires var s' := Run(c, Run(c, s0, before), between);
      PassesCheck(c, s', a, ra') && PassesCheck(c, s', b, rb')
    ensures Run(c, Run(c, s0, before), between).now - Run(c, s0, before).now < 2 * c.skew + MICROSECOND
  {
    InitHolds(c, s0);
    RunKeeps(c, s0, before);
    var s := Run(c, s0, before);
    RunKeeps(c, s, between);
    var s' := Run(c, s, between);
    var (x, r, r') := if Holds(s, a) then (b, rb, rb') else (a, ra, ra');
    OustedWindow(c, s, x, r);
    OustedForever(c, s, between, x);
    OustedWindow(c, s', x, r');
  }

  /** Release writes the Lease only while its own guard is the holder; otherwise its PUT changes nothing. */
  lemma ReleaseIsHarmless(c: Config, s: State, h: string)
    requires Inv(c, s) && Enabled(c, s, ServeVacate(h))
    ensures var s' := Next(c, s, ServeVacate(h));
      if s'.processes[h].vacate == Answered(true)
      then Holds(s, h) && s'.lease.value.holder == "" && s'.acquisitions == s.acquisitions
      else s'.lease == s.lease
  {
    assert ProcessOk(c, s.now, s.lease, h, s.processes[h]);
  }

  /** Once the PUT of Release has committed, that guard is the holder in no later state. */
  lemma ReleaseIsFinal(c: Config, s: State, h: string, events: seq<Event>)
    requires Inv(c, s) && Enabled(c, s, ServeVacate(h))
    requires var s' := Next(c, s, ServeVacate(h));
      s'.processes[h].vacate == Answered(true) && Runs(c, s', events)
    ensures !Holds(Run(c, Next(c, s, ServeVacate(h)), events), h)
  {
    var s' := Next(c, s, ServeVacate(h));
    assert ProcessOk(c, s.now, s.lease, h, s.processes[h]);
    EventKeeps(c, s, ServeVacate(h));
    OustedForever(c, s', events, h);
  }

  /** `leaseTransitions` counts the committed acquisitions, each by another process, and metadata survives. */
  lemma TransitionsCountAcquisitions(c: Config, s0: State, events: seq<Event>)
    requires Init(c, s0) && Runs(c, s0, events)
    ensures var s := Run(c, s0, events);
      && (forall i, j :: 0 <= i < j < |s.acquisitions| ==> s.acquisitions[i] != s.acquisitions[j])
      && (s.lease.Some? ==>
            && s.lease.value.transitions == Wrap32(InitialTransitions(c) + |s.acquisitions|)
            && s.lease.value.metadata == InitialMetadata(c))
  {
    InitHolds(c, s0);
    RunKeeps(c, s0, events);
  }
}
