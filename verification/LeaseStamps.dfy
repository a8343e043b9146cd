/** What the stamps in the Lease say: when its last acquirer took it, and when it was written last. */
module LeaseStamps {
  import opened Clock
  import opened LeaseRecord
  import opened LeaseProtocol
  import opened LeaseInvariant
  import opened Text

  /**
   A claim that commits: a renewal by the holder moves renewTime alone; a takeover also stamps acquireTime and counts a
   transition. Nothing else that the Lease carries changes.
   */
  lemma ClaimWrites(c: Config, s: State, h: string)
    requires Inv(c, s) && Enabled(c, s, ServeClaim(h))
    ensures var s' := Next(c, s, ServeClaim(h));
      if s'.processes[h].claim != Answered(true) then s'.lease == s.lease
      else
        && s.lease.Some? && s'.lease.Some?
        && var (l, l', stamp) := (s.lease.value, s'.lease.value, At(Truncate(s.processes[h].claim.reading)));
          && l'.holder == h && l'.seconds == c.seconds && l'.metadata == l.metadata && l'.version > l.version
          && l'.renewTime == stamp
          && l'.acquireTime == (if l.holder == h then l.acquireTime else stamp)
          && l'.transitions == (if l.holder == h then l.transitions else Wrap32(l.transitions + 1))
  {
    assert ProcessOk(c, s.now, s.lease, h, s.processes[h]);
  }

  /** The PUT of Release, when it commits, clears the holder and stamps renewTime; nothing else changes. */
  lemma VacateWrites(c: Config, s: State, h: string)
    requires Inv(c, s) && Enabled(c, s, ServeVacate(h))
    ensures var s' := Next(c, s, ServeVacate(h));
      if s'.processes[h].vacate != Answered(true) then s'.lease == s.lease
      else
        && s.lease.Some? && s'.lease.Some?
        && var (l, l') := (s.lease.value, s'.lease.value);
          && l.holder == h && l'.holder == "" && l'.version > l.version
          && l'.renewTime == At(Truncate(s.processes[h].vacate.reading))
          && (l'.seconds, l'.metadata, l'.acquireTime, l'.transitions) == (l.seconds, l.metadata, l.acquireTime, l.transitions)
  {
    assert ProcessOk(c, s.now, s.lease, h, s.processes[h]);
  }

  // ----- the order of the stamps

  /** What a process sends is stamped no earlier than what it has stored, and it renews no more once it releases. */
  ghost predicate Forward(p: Process) {
    && (p.stored.Some? ==> p.stored.value <= p.clock && p.stored.value % MICROSECOND == 0)
    && (p.claim.InFlight? ==>
          p.claim.reading <= p.clock && (p.stored.Some? ==> p.stored.value <= p.claim.reading))
    && (p.vacate.InFlight? ==>
          && (p.stored.Some? ==> p.stored.value <= p.vacate.reading)
          && (p.claim.InFlight? ==> p.claim.reading <= p.vacate.reading))
    && (p.releasing.Unreleased? || p.releasing.Joining? || (p.acquiring.Held? && p.renewing.Stopped?))
  }

  /** Once acquired, the Lease was taken no later than it was written last. */
  ghost predicate InOrder(s: State) {
    s.acquisitions != [] ==>
      && s.lease.Some? && s.lease.value.acquireTime.At? && s.lease.value.renewTime.At?
      && s.lease.value.acquireTime.time <= s.lease.value.renewTime.time
  }

  ghost predicate Stamped(s: State) {
    InOrder(s) && forall h :: h in s.processes ==> Forward(s.processes[h])
  }

  lemma StepForward(c: Config, now: Time, lease: Option<Lease>, h: string, p: Process, e: Step)
    requires ProcessOk(c, now, lease, h, p) && Forward(p) && StepEnabled(c, now, lease, p, e)
    ensures Forward(StepNext(c, now, lease, h, p, e))
  {
  }

  lemma ClaimForward(c: Config, s: State, h: string)
    requires Inv(c, s) && Stamped(s) && Enabled(c, s, ServeClaim(h))
    ensures Stamped(Next(c, s, ServeClaim(h)))
  {
    var p := s.processes[h];
    assert ProcessOk(c, s.now, s.lease, h, p) && Forward(p);
    SenderForward(p, Answered(Current(s.lease, p.claim.snapshot)));
    ClaimWrites(c, s, h);
    if p.stored.Some? { TruncatesAfter(p.stored.value, p.claim.reading); }
  }

  lemma SenderForward(p: Process, answer: Request)
    requires Forward(p) && p.claim.InFlight? && answer.Answered?
    ensures Forward(p.(claim := answer, stored := if answer.committed then Some(Truncate(p.claim.reading)) else p.stored))
  {
  }

  lemma TruncatesAfter(stamp: Time, reading: Time)
    requires stamp <= reading && stamp % MICROSECOND == 0
    ensures stamp <= Truncate(reading) <= reading && Truncate(reading) % MICROSECOND == 0
  {
  }

  lemma VacateForward(c: Config, s: State, h: string)
    requires Inv(c, s) && Stamped(s) && Enabled(c, s, ServeVacate(h))
    ensures Stamped(Next(c, s, ServeVacate(h)))
  {
    var p := s.processes[h];
    assert ProcessOk(c, s.now, s.lease, h, p) && Forward(p);
    VacateWrites(c, s, h);
    if p.stored.Some? { TruncatesAfter(p.stored.value, p.vacate.reading); }
  }

  lemma EventKeepsStamps(c: Config, s: State, e: Event)
    requires Inv(c, s) && Stamped(s) && Enabled(c, s, e)
    ensures Stamped(Next(c, s, e))
  {
    match e
    case Local(h, step) =>
      assert ProcessOk(c, s.now, s.lease, h, s.processes[h]) && Forward(s.processes[h]);
      StepForward(c, s.now, s.lease, h, s.processes[h], step);
    case ServeClaim(h) => ClaimForward(c, s, h);
    case ServeVacate(h) => VacateForward(c, s, h);
    case ServeCreate(h) => assert Forward(s.processes[h]);
    case _ =>
  }

  lemma {:induction false} RunKeepsStamps(c: Config, s: State, events: seq<Event>)
    requires Inv(c, s) && Stamped(s) && Runs(c, s, events)
    ensures Stamped(Run(c, s, events))
    decreases |events|
  {
    if events != [] {
      EventKeeps(c, s, events[0]);
      EventKeepsStamps(c, s, events[0]);
      RunKeepsStamps(c, Next(c, s, events[0]), events[1..]);
    }
  }

  /** In every run, whatever lands late: from the first acquisition on, acquireTime is never after renewTime. */
  lemma AcquiredBeforeWritten(c: Config, s0: State, events: seq<Event>)
    requires Init(c, s0) && Runs(c, s0, events)
    ensures InOrder(Run(c, s0, events))
  {
    InitHolds(c, s0);
    RunKeepsStamps(c, s0, events);
  }

  /** The holder's stamp never goes back: a renewal, and the PUT of Release, are stamped no earlier than what they replace. */
  lemma StampsAdvance(c: Config, s0: State, events: seq<Event>, h: string, e: Event)
    requires Init(c, s0) && Runs(c, s0, events) && Enabled(c, Run(c, s0, events), e) && e in [ServeClaim(h), ServeVacate(h)]
    requires var l := Run(c, s0, events).lease; l.Some? && l.value.holder == h
    ensures var (l, l') := (Run(c, s0, events).lease.value.renewTime, Next(c, Run(c, s0, events), e).lease.value.renewTime);
      l.At? && l'.At? && l.time <= l'.time
  {
    InitHolds(c, s0);
    RunKeeps(c, s0, events);
    RunKeepsStamps(c, s0, events);
    var s := Run(c, s0, events);
    assert ProcessOk(c, s.now, s.lease, h, s.processes[h]) && Forward(s.processes[h]);
    match e
    case ServeClaim(_) => ClaimWrites(c, s, h); TruncatesAfter(s.processes[h].stored.value, s.processes[h].claim.reading);
    case ServeVacate(_) => VacateWrites(c, s, h); TruncatesAfter(s.processes[h].stored.value, s.processes[h].vacate.reading);
  }
}
