/** What every step of the Lease protocol keeps. */
module LeaseInvariant {
  import opened LeaseRecord
  import opened LeaseProtocol
  import opened Text

  /** What a process read earlier is no newer than the Lease, and is the Lease while the version is the same. */
  ghost predicate ReadEarlier(lease: Option<Lease>, snapshot: Lease) {
    && lease.Some?
    && snapshot.version <= lease.value.version
    && (snapshot.version == lease.value.version ==> snapshot == lease.value)
  }

  ghost predicate SnapshotsEarlier(lease: Option<Lease>, p: Process) {
    && (p.acquiring.Got? ==> ReadEarlier(lease, p.acquiring.snapshot))
    && (p.renewing.RenewGot? ==> ReadEarlier(lease, p.renewing.snapshot))
    && (p.releasing.ReleaseGot? ==> ReadEarlier(lease, p.releasing.snapshot))
    && (p.claim.InFlight? ==> ReadEarlier(lease, p.claim.snapshot))
    && (p.vacate.InFlight? ==> ReadEarlier(lease, p.vacate.snapshot))
  }

  /** Until an acquisition is confirmed, the process has written at most once, by the PUT it waits for. */
  ghost predicate AcquiringOk(p: Process) {
    match p.acquiring
    case Looping => p.claim.Idle? && p.stored.None?
    case Getting(_, _) => p.claim.Idle? && p.stored.None?
    case Creating(_) => p.claim.Idle? && p.stored.None?
    case Got(_, _) => p.claim.Idle? && p.stored.None?
    case Putting(at) =>
      && !p.claim.Idle?
      && (p.claim.InFlight? ==> p.stored.None? && at <= p.claim.reading)
      && (p.claim.Answered? ==>
            if p.claim.committed then p.stored.Some? && Truncate(at) <= p.stored.value else p.stored.None?)
    case Held => p.stored.Some?
    case GaveUp => p.claim.InFlight? ==> p.stored.None?
  }

  ghost predicate AttemptsOk(p: Process) {
    match p.acquiring
    case Getting(at, _) => at <= p.clock
    case Creating(at) => at <= p.clock
    case Got(at, _) => at <= p.clock
    case Putting(at) => at <= p.clock
    case _ => true
  }

  /** The local deadline never runs ahead of the stored one by a whole microsecond. */
  ghost predicate HeldOk(h: string, p: Process) {
    && p.stored.Some?
    && Truncate(p.guard.lastRenew) <= p.stored.value
    && p.guard.lastRenew <= p.clock
    && (p.claim.InFlight? ==> p.claim.snapshot.holder == h && p.guard.lastRenew <= p.claim.reading)
    && (match p.renewing
        case Waiting => p.claim.Idle?
        case Due => p.claim.Idle?
        case RenewGetting(at) => p.claim.Idle? && at <= p.clock
        case RenewGot(at, _) => p.claim.Idle? && at <= p.clock
        case RenewPutting(at) =>
          && !p.claim.Idle?
          && at <= p.clock
          && (p.claim.InFlight? ==> at <= p.claim.reading)
          && (p.claim == Answered(true) ==> Truncate(at) <= p.stored.value)
        case Stopped => true)
  }

  ghost predicate ReleasingOk(h: string, p: Process) {
    match p.releasing
    case ReleasePutting => p.vacate.InFlight? ==> p.vacate.snapshot.holder == h
    case Released => p.vacate.InFlight? ==> p.vacate.snapshot.holder == h
    case _ => p.vacate.Idle?
  }

  /** The stamp that a PUT in flight will store was read before now. */
  ghost predicate ReadingsPast(c: Config, now: Time, p: Process) {
    && p.clock <= now + c.skew
    && (p.claim.InFlight? ==> p.claim.reading <= now + c.skew)
  }

  /** A claim in flight was sent by the holder, or on a Lease that looked free or expired. */
  ghost predicate ClaimAllowed(h: string, p: Process) {
    p.claim.InFlight? ==>
      MayWrite(p.claim.snapshot, h, p.claim.reading, true) && !p.claim.snapshot.renewTime.Malformed?
  }

  /** The holder's stamp is the stored one; a former holder that never vacated has run out by now. */
  ghost predicate TenureOk(c: Config, now: Time, lease: Option<Lease>, h: string, p: Process) {
    && (p.stored.Some? ==>
          lease.Some? && (lease.value.holder == h || p.vacate == Answered(true) || Expired(c, now, p.stored.value)))
    && (lease.Some? && lease.value.holder == h ==>
          && p.stored.Some?
          && lease.value.renewTime == At(p.stored.value)
          && lease.value.seconds == c.seconds
          && p.vacate != Answered(true))
  }

  ghost predicate Expired(c: Config, now: Time, stored: Time) {
    stored + c.Duration() <= now + c.skew
  }

  ghost predicate ProcessOk(c: Config, now: Time, lease: Option<Lease>, h: string, p: Process) {
    && SnapshotsEarlier(lease, p)
    && AcquiringOk(p)
    && AttemptsOk(p)
    && (p.acquiring.Held? ==> HeldOk(h, p))
    && (!p.acquiring.Held? ==> p.renewing.Waiting? && p.releasing.Unreleased?)
    && ReleasingOk(h, p)
    && ReadingsPast(c, now, p)
    && ClaimAllowed(h, p)
    && TenureOk(c, now, lease, h, p)
  }

  /** Those who acquired are those who wrote, each listed once. */
  ghost predicate Acquirers(acquisitions: seq<string>, processes: map<string, Process>) {
    && (forall h :: h in acquisitions <==> h in processes && processes[h].stored.Some?)
    && (forall i, j :: 0 <= i < j < |acquisitions| ==> acquisitions[i] != acquisitions[j])
  }

  /** The holder is the last acquirer, and every acquisition is one transition. */
  ghost predicate LeaseOk(c: Config, lease: Option<Lease>, acquisitions: seq<string>) {
    if lease.None? then c.initial.None? && acquisitions == []
    else
      && (lease.value.holder == "" || lease.value.holder == c.Foreign()
          || (acquisitions != [] && lease.value.holder == acquisitions[|acquisitions| - 1]))
      && lease.value.transitions == Wrap32(InitialTransitions(c) + |acquisitions|)
      && lease.value.metadata == InitialMetadata(c)
  }

  ghost predicate HistoryOk(c: Config, s: State) {
    Acquirers(s.acquisitions, s.processes) && LeaseOk(c, s.lease, s.acquisitions)
  }

  function InitialTransitions(c: Config): int {
    if c.initial.Some? then c.initial.value.transitions else 0
  }

  function InitialMetadata(c: Config): string {
    if c.initial.Some? then c.initial.value.metadata else ""
  }

  ghost predicate Inv(c: Config, s: State) {
    && c.Valid()
    && 0 <= s.now
    && (forall h :: h in s.processes ==>
          h != "" && h != c.Foreign() && ProcessOk(c, s.now, s.lease, h, s.processes[h]))
    && HistoryOk(c, s)
  }

  lemma AcquiringKeeps(c: Config, now: Time, lease: Option<Lease>, h: string, p: Process, e: Step)
    requires e.Attempt? || e.ServeGet? || e.Decide? || e.Confirm? || e.GiveUp?
    requires c.Valid() && h != ""
    requires ProcessOk(c, now, lease, h, p) && StepEnabled(c, now, lease, p, e)
    ensures ProcessOk(c, now, lease, h, StepNext(c, now, lease, h, p, e))
    ensures StepNext(c, now, lease, h, p, e).stored == p.stored
  {
  }

  lemma RenewingKeeps(c: Config, now: Time, lease: Option<Lease>, h: string, p: Process, e: Step)
    requires e.Tick? || e.BeginRenew? || e.ServeRenewGet? || e.DecideRenew? || e.ConfirmRenew? || e.FailRenew? || e.StopRenew?
    requires c.Valid() && h != ""
    requires ProcessOk(c, now, lease, h, p) && StepEnabled(c, now, lease, p, e)
    ensures ProcessOk(c, now, lease, h, StepNext(c, now, lease, h, p, e))
    ensures StepNext(c, now, lease, h, p, e).stored == p.stored
  {
  }

  lemma ReleasingKeeps(c: Config, now: Time, lease: Option<Lease>, h: string, p: Process, e: Step)
    requires e.CallRelease? || e.Join? || e.ServeReleaseGet? || e.DecideRelease? || e.FinishRelease?
    requires c.Valid() && h != ""
    requires ProcessOk(c, now, lease, h, p) && StepEnabled(c, now, lease, p, e)
    ensures ProcessOk(c, now, lease, h, StepNext(c, now, lease, h, p, e))
    ensures StepNext(c, now, lease, h, p, e).stored == p.stored
  {
  }

  /** Every step inside a process keeps what the process guarantees. */
  lemma StepKeeps(c: Config, now: Time, lease: Option<Lease>, h: string, p: Process, e: Step)
    requires c.Valid() && h != ""
    requires ProcessOk(c, now, lease, h, p) && StepEnabled(c, now, lease, p, e)
    ensures ProcessOk(c, now, lease, h, StepNext(c, now, lease, h, p, e))
    ensures StepNext(c, now, lease, h, p, e).stored == p.stored
  {
    if e.Attempt? || e.ServeGet? || e.Decide? || e.Confirm? || e.GiveUp? {
      AcquiringKeeps(c, now, lease, h, p, e);
    } else if e.CallRelease? || e.Join? || e.ServeReleaseGet? || e.DecideRelease? || e.FinishRelease? {
      ReleasingKeeps(c, now, lease, h, p, e);
    } else {
      RenewingKeeps(c, now, lease, h, p, e);
    }
  }

  /** Time passing only helps: what had expired stays expired. */
  lemma AdvanceKeeps(c: Config, now: Time, to: Time, lease: Option<Lease>, h: string, p: Process)
    requires now <= to && ProcessOk(c, now, lease, h, p)
    ensures ProcessOk(c, to, lease, h, p)
  {
  }

  /** Creating the Lease changes nothing for a process, since none can have read or written it before. */
  lemma CreateKeeps(c: Config, now: Time, lease: Option<Lease>, h: string, p: Process)
    requires h != "" && ProcessOk(c, now, lease, h, p)
    ensures ProcessOk(c, now, Created(lease), h, p)
  {
  }

  /** A claim that lands makes its sender the holder. */
  lemma ClaimKeepsSender(c: Config, s: State, h: string)
    requires Inv(c, s) && Enabled(c, s, ServeClaim(h))
    ensures var s' := Next(c, s, ServeClaim(h)); ProcessOk(c, s'.now, s'.lease, h, s'.processes[h])
  {
    var p := s.processes[h];
    assert ProcessOk(c, s.now, s.lease, h, p);
    if Current(s.lease, p.claim.snapshot) {
      ClaimLands(c, s.now, s.lease, h, p);
    }
  }

  lemma ClaimLands(c: Config, now: Time, lease: Option<Lease>, h: string, p: Process)
    requires c.Valid() && h != "" && ProcessOk(c, now, lease, h, p) && p.claim.InFlight? && Current(lease, p.claim.snapshot)
    ensures var written := Claimed(lease.value, h, c.seconds, p.claim.reading).(version := lease.value.version + 1);
      ProcessOk(c, now, Some(written), h, p.(claim := Answered(true), stored := Some(Truncate(p.claim.reading))))
  {
  }

  /** A claim that lands leaves every other process right: if one of them was the holder, its stamp had expired. */
  lemma ClaimKeepsOther(c: Config, s: State, h: string, g: string)
    requires Inv(c, s) && Enabled(c, s, ServeClaim(h)) && g in s.processes && g != h
    ensures var s' := Next(c, s, ServeClaim(h)); ProcessOk(c, s'.now, s'.lease, g, s.processes[g])
  {
    assert ProcessOk(c, s.now, s.lease, h, s.processes[h]);
    assert ProcessOk(c, s.now, s.lease, g, s.processes[g]);
  }

  lemma VacateKeepsSender(c: Config, s: State, h: string)
    requires Inv(c, s) && Enabled(c, s, ServeVacate(h))
    ensures var s' := Next(c, s, ServeVacate(h)); ProcessOk(c, s'.now, s'.lease, h, s'.processes[h])
  {
    assert ProcessOk(c, s.now, s.lease, h, s.processes[h]);
  }

  /** A PUT of Release that lands was sent by the holder, so no other process loses anything by it. */
  lemma VacateKeepsOther(c: Config, s: State, h: string, g: string)
    requires Inv(c, s) && Enabled(c, s, ServeVacate(h)) && g in s.processes && g != h
    ensures var s' := Next(c, s, ServeVacate(h)); ProcessOk(c, s'.now, s'.lease, g, s.processes[g])
  {
    assert ProcessOk(c, s.now, s.lease, h, s.processes[h]);
    assert ProcessOk(c, s.now, s.lease, g, s.processes[g]);
  }

  lemma ProcessesKeep(c: Config, s: State, e: Event, g: string)
    requires Inv(c, s) && Enabled(c, s, e) && g in Next(c, s, e).processes
    ensures var s' := Next(c, s, e);
      g != "" && g != c.Foreign() && ProcessOk(c, s'.now, s'.lease, g, s'.processes[g])
  {
    match e
    case Advance(to) => AdvanceKeeps(c, s.now, to, s.lease, g, s.processes[g]);
    case Begin(h) =>
    case Local(h, step) =>
      if g == h { StepKeeps(c, s.now, s.lease, h, s.processes[h], step); }
    case ServeCreate(h) =>
      CreateKeeps(c, s.now, s.lease, g, s.processes[g]);
    case CreateElsewhere =>
      CreateKeeps(c, s.now, s.lease, g, s.processes[g]);
    case ServeClaim(h) =>
      if g == h { ClaimKeepsSender(c, s, h); } else { ClaimKeepsOther(c, s, h, g); }
    case ServeVacate(h) =>
      if g == h { VacateKeepsSender(c, s, h); } else { VacateKeepsOther(c, s, h, g); }
    case StartCall(_, _, _) =>
  }

  lemma AcquirersKept(acquisitions: seq<string>, processes: map<string, Process>, h: string, p: Process)
    requires Acquirers(acquisitions, processes)
    requires p.stored.Some? <==> h in processes && processes[h].stored.Some?
    ensures Acquirers(acquisitions, processes[h := p])
  {
  }

  lemma AcquirersGrow(acquisitions: seq<string>, processes: map<string, Process>, h: string, p: Process)
    requires Acquirers(acquisitions, processes) && h in processes && processes[h].stored.None? && p.stored.Some?
    ensures Acquirers(acquisitions + [h], processes[h := p])
  {
  }

  lemma ClaimKeepsLease(c: Config, s: State, h: string)
    requires c.Valid() && Enabled(c, s, ServeClaim(h))
    requires LeaseOk(c, s.lease, s.acquisitions)
    requires ReadEarlier(s.lease, s.processes[h].claim.snapshot)
    ensures LeaseOk(c, Next(c, s, ServeClaim(h)).lease, Next(c, s, ServeClaim(h)).acquisitions)
  {
    WrapNext(InitialTransitions(c) + |s.acquisitions|);
  }

  lemma WrapNext(x: int)
    ensures Wrap32(Wrap32(x) + 1) == Wrap32(x + 1)
  {
  }

  /** A committed claim is a new acquisition exactly when it changes the holder. */
  lemma ClaimKeepsHistory(c: Config, s: State, h: string)
    requires Inv(c, s) && Enabled(c, s, ServeClaim(h))
    ensures HistoryOk(c, Next(c, s, ServeClaim(h)))
  {
    var p, p' := s.processes[h], Next(c, s, ServeClaim(h)).processes[h];
    assert ProcessOk(c, s.now, s.lease, h, p);
    ClaimKeepsLease(c, s, h);
    if p.stored.None? && p'.stored.Some? {
      AcquirersGrow(s.acquisitions, s.processes, h, p');
    } else {
      AcquirersKept(s.acquisitions, s.processes, h, p');
    }
  }

  lemma VacateKeepsHistory(c: Config, s: State, h: string)
    requires Inv(c, s) && Enabled(c, s, ServeVacate(h))
    ensures HistoryOk(c, Next(c, s, ServeVacate(h)))
  {
    assert ProcessOk(c, s.now, s.lease, h, s.processes[h]);
    AcquirersKept(s.acquisitions, s.processes, h, Next(c, s, ServeVacate(h)).processes[h]);
  }

  lemma HistoryKeeps(c: Config, s: State, e: Event)
    requires Inv(c, s) && Enabled(c, s, e)
    ensures HistoryOk(c, Next(c, s, e))
  {
    match e
    case Begin(h) => AcquirersKept(s.acquisitions, s.processes, h, FRESH);
    case Local(h, step) =>
      StepKeeps(c, s.now, s.lease, h, s.processes[h], step);
      AcquirersKept(s.acquisitions, s.processes, h, StepNext(c, s.now, s.lease, h, s.processes[h], step));
    case ServeCreate(h) => AcquirersKept(s.acquisitions, s.processes, h, Next(c, s, e).processes[h]);
    case ServeClaim(h) => ClaimKeepsHistory(c, s, h);
    case ServeVacate(h) => VacateKeepsHistory(c, s, h);
    case _ =>
  }

  /** Every event keeps the invariant. */
  lemma EventKeeps(c: Config, s: State, e: Event)
    requires Inv(c, s) && Enabled(c, s, e)
    ensures Inv(c, Next(c, s, e))
  {
    forall g | g in Next(c, s, e).processes
      ensures var s' := Next(c, s, e);
        g != "" && g != c.Foreign() && ProcessOk(c, s'.now, s'.lease, g, s'.processes[g])
    {
      ProcessesKeep(c, s, e, g);
    }
    HistoryKeeps(c, s, e);
  }

  /** So it holds in every reachable state. */
  lemma {:induction false} RunKeeps(c: Config, s: State, events: seq<Event>)
    requires Inv(c, s) && Runs(c, s, events)
    ensures Inv(c, Run(c, s, events))
    decreases |events|
  {
    if events != [] {
      EventKeeps(c, s, events[0]);
      RunKeeps(c, Next(c, s, events[0]), events[1..]);
    }
  }

  lemma InitHolds(c: Config, s: State)
    requires Init(c, s)
    ensures Inv(c, s)
  {
  }
}
