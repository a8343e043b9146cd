/**
 Pods competing for one Lease, as a state machine. A process is one call of Acquire together with the
 guard it may return: the acquiring loop, the renewing goroutine and Release. Requests travel on their
 own: the server answers a GET or applies a PUT at some moment between sending and receiving, a client may
 give up at any time, and a PUT that was given up may still land later. `CreateElsewhere` is a readiness
 probe, or a POST that its sender gave up on.
 */
module LeaseProtocol {
  import opened Clock
  import opened LeaseRecord
  import opened Text

  /**
   `skew` bounds how far a pod's clock may be from real time. `coarse` says that clocks only show whole
   microseconds. `initial` is the Lease found at the start, if any; its holder never acts.
   */
  datatype Config = Config(seconds: nat, skew: nat, coarse: bool, initial: Option<Lease>) {
    predicate Valid() {
      && 0 < seconds < 0x8000_0000
      && (initial.Some? ==> -0x8000_0000 <= initial.value.transitions < 0x8000_0000)
    }

    function Duration(): int {
      seconds * SECOND
    }

    function Foreign(): string {
      if initial.Some? then initial.value.holder else ""
    }
  }

  /** A PUT: sent on the strength of a snapshot and one clock reading, then answered by the server. */
  datatype Request = Idle | InFlight(snapshot: Lease, reading: Time) | Answered(committed: bool)

  datatype Acquiring =
    | Looping
    | Getting(attemptedAt: Time, created: bool)
    | Creating(attemptedAt: Time)
    | Got(attemptedAt: Time, snapshot: Lease)
    | Putting(attemptedAt: Time)
    | Held
    | GaveUp

  datatype Renewing =
    | Waiting
    | Due
    | RenewGetting(attemptedAt: Time)
    | RenewGot(attemptedAt: Time, snapshot: Lease)
    | RenewPutting(attemptedAt: Time)
    | Stopped

  datatype Releasing =
    | Unreleased
    | Joining
    | ReleaseGetting
    | ReleaseGot(snapshot: Lease)
    | ReleasePutting
    | Released

  /** The two fields of a leaseGuard that Check reads. */
  datatype Guard = Guard(lost: bool, lastRenew: Time) {
    predicate Passes(now: Time, duration: int) {
      !lost && lastRenew + duration > now
    }

    /** A tick of the renewal timer: past the local deadline the guard is lost. */
    function Ticked(now: Time, duration: int): Guard {
      if lastRenew + duration > now then this else this.(lost := true)
    }

    /** The answer to a renewal attempted at `attemptedAt`. */
    function Renewed(attemptedAt: Time, ok: bool): Guard {
      if ok then this.(lastRenew := attemptedAt) else this.(lost := true)
    }
  }

  /** `stored` is history: the renewTime of the last PUT of this process that the server committed. */
  datatype Process = Process(
    acquiring: Acquiring,
    renewing: Renewing,
    releasing: Releasing,
    claim: Request,
    vacate: Request,
    guard: Guard,
    clock: Time,
    stored: Option<Time>)

  const FRESH: Process :=
    Process(Looping, Waiting, Unreleased, Idle, Idle, Guard(false, 0), 0, None)

  /** Steps inside one process; the ones that read the clock carry the reading. */
  datatype Step =
    | Attempt(reading: Time)
    | ServeGet
    | Decide(reading: Time)
    | Confirm
    | GiveUp
    | Tick(reading: Time)
    | BeginRenew(reading: Time)
    | ServeRenewGet
    | DecideRenew(reading: Time)
    | ConfirmRenew
    | FailRenew
    | StopRenew
    | CallRelease
    | Join
    | ServeReleaseGet
    | DecideRelease(reading: Time)
    | FinishRelease

  datatype Event =
    | Advance(to: Time)
    | Begin(holder: string)
    | Local(holder: string, step: Step)
    | ServeCreate(holder: string)
    | CreateElsewhere
    | ServeClaim(holder: string)
    | ServeVacate(holder: string)
    | StartCall(holder: string, reading: Time, call: Call)

  /** A guarded Grafana mutation, identified by the account it touches and what it does there. */
  datatype Call = Call(account: string, action: string)

  datatype Started = Started(holder: string, call: Call)

  /** `acquisitions` and `started` are history: who took the Lease, and which guarded calls began. */
  datatype State = State(
    now: Time,
    lease: Option<Lease>,
    processes: map<string, Process>,
    acquisitions: seq<string>,
    started: seq<Started>)

  predicate IsReading(c: Config, now: Time, reading: Time) {
    && now - c.skew <= reading <= now + c.skew
    && 0 <= reading
    && (c.coarse ==> reading % MICROSECOND == 0)
  }

  /** A reading of the process's own clock, which never runs backwards. */
  predicate Reads(c: Config, now: Time, p: Process, reading: Time) {
    IsReading(c, now, reading) && p.clock <= reading
  }

  predicate StepEnabled(c: Config, now: Time, lease: Option<Lease>, p: Process, e: Step) {
    match e
    case Attempt(r) => p.acquiring.Looping? && Reads(c, now, p, r)
    case ServeGet => p.acquiring.Getting?
    case Decide(r) => p.acquiring.Got? && Reads(c, now, p, r)
    case Confirm => p.acquiring.Putting? && p.claim.Answered?
    case GiveUp => !p.acquiring.Held? && !p.acquiring.GaveUp?
    case Tick(r) => p.acquiring.Held? && p.renewing.Waiting? && Reads(c, now, p, r)
    case BeginRenew(r) => p.acquiring.Held? && p.renewing.Due? && Reads(c, now, p, r)
    case ServeRenewGet => p.acquiring.Held? && p.renewing.RenewGetting?
    case DecideRenew(r) => p.acquiring.Held? && p.renewing.RenewGot? && Reads(c, now, p, r)
    case ConfirmRenew => p.acquiring.Held? && p.renewing.RenewPutting? && p.claim.Answered?
    case FailRenew =>
      p.acquiring.Held? && (p.renewing.RenewGetting? || p.renewing.RenewGot? || p.renewing.RenewPutting?)
    case StopRenew => p.acquiring.Held? && p.renewing.Waiting? && !p.releasing.Unreleased?
    case CallRelease => p.acquiring.Held? && p.releasing.Unreleased?
    case Join => p.releasing.Joining? && p.renewing.Stopped?
    case ServeReleaseGet => p.releasing.ReleaseGetting?
    case DecideRelease(r) => p.releasing.ReleaseGot? && Reads(c, now, p, r)
    case FinishRelease => p.releasing.ReleaseGetting? || p.releasing.ReleaseGot? || p.releasing.ReleasePutting?
  }

  /** A renewal that failed before its PUT was answered. */
  function Lost(p: Process): Process {
    p.(guard := p.guard.(lost := true), renewing := Stopped)
  }

  function StepNext(c: Config, now: Time, lease: Option<Lease>, h: string, p: Process, e: Step): Process
    requires StepEnabled(c, now, lease, p, e)
  {
    match e
    case Attempt(r) => p.(acquiring := Getting(r, false), clock := r)
    case ServeGet =>
      if lease.Some? then p.(acquiring := Got(p.acquiring.attemptedAt, lease.value))
      else if p.acquiring.created then p.(acquiring := GaveUp)
      else p.(acquiring := Creating(p.acquiring.attemptedAt))
    case Decide(r) =>
      var snapshot := p.acquiring.snapshot;
      if snapshot.renewTime.Malformed? then p.(acquiring := GaveUp, clock := r)
      else if MayWrite(snapshot, h, r, true) then
        p.(acquiring := Putting(p.acquiring.attemptedAt), claim := InFlight(snapshot, r), clock := r)
      else p.(acquiring := Looping, clock := r)
    case Confirm =>
      if p.claim.committed then
        p.(acquiring := Held, claim := Idle, guard := Guard(false, p.acquiring.attemptedAt))
      else p.(acquiring := Looping, claim := Idle)
    case GiveUp => p.(acquiring := GaveUp)
    case Tick(r) =>
      var inTime := p.guard.lastRenew + c.Duration() > r;
      p.(guard := p.guard.Ticked(r, c.Duration()), renewing := if inTime then Due else Stopped, clock := r)
    case BeginRenew(r) => p.(renewing := RenewGetting(r), clock := r)
    case ServeRenewGet =>
      if lease.Some? then p.(renewing := RenewGot(p.renewing.attemptedAt, lease.value)) else Lost(p)
    case DecideRenew(r) =>
      var snapshot := p.renewing.snapshot;
      if !snapshot.renewTime.Malformed? && MayWrite(snapshot, h, r, false) then
        p.(renewing := RenewPutting(p.renewing.attemptedAt), claim := InFlight(snapshot, r), clock := r)
      else Lost(p).(clock := r)
    case ConfirmRenew =>
      p.(guard := p.guard.Renewed(p.renewing.attemptedAt, p.claim.committed),
         renewing := if p.claim.committed then Waiting else Stopped,
         claim := Idle)
    case FailRenew => Lost(p)
    case StopRenew => p.(renewing := Stopped)
    case CallRelease => p.(releasing := Joining)
    case Join => p.(releasing := ReleaseGetting)
    case ServeReleaseGet =>
      if lease.Some? then p.(releasing := ReleaseGot(lease.value)) else p.(releasing := Released)
    case DecideRelease(r) =>
      if p.releasing.snapshot.holder == h then
        p.(releasing := ReleasePutting, vacate := InFlight(p.releasing.snapshot, r), clock := r)
      else p.(releasing := Released, clock := r)
    case FinishRelease => p.(releasing := Released)
  }

  /** Check passing on a guard that Release has not been called on. */
  predicate PassesCheck(c: Config, s: State, h: string, reading: Time) {
    && h in s.processes
    && s.processes[h].acquiring.Held?
    && s.processes[h].releasing.Unreleased?
    && IsReading(c, s.now, reading)
    && s.processes[h].guard.Passes(reading, c.Duration())
  }

  predicate Enabled(c: Config, s: State, e: Event) {
    match e
    case Advance(to) => s.now <= to
    case Begin(h) => h != "" && h != c.Foreign() && h !in s.processes
    case Local(h, step) => h in s.processes && StepEnabled(c, s.now, s.lease, s.processes[h], step)
    case ServeCreate(h) => h in s.processes && s.processes[h].acquiring.Creating?
    case CreateElsewhere => true
    case ServeClaim(h) => h in s.processes && s.processes[h].claim.InFlight?
    case ServeVacate(h) => h in s.processes && s.processes[h].vacate.InFlight?
    case StartCall(h, r, _) => PassesCheck(c, s, h, r)
  }

  /** A write lands exactly when the Lease still has the version the writer had read. */
  predicate Current(lease: Option<Lease>, snapshot: Lease) {
    lease.Some? && lease.value.version == snapshot.version
  }

  const EMPTY_LEASE: Lease := Lease(0, "", "", 0, Unset, Unset, 0)

  /** A POST of the empty Lease; when one exists already it conflicts and changes nothing. */
  function Created(lease: Option<Lease>): Option<Lease> {
    if lease.Some? then lease else Some(EMPTY_LEASE)
  }

  function Next(c: Config, s: State, e: Event): State
    requires Enabled(c, s, e)
  {
    match e
    case Advance(to) => s.(now := to)
    case Begin(h) => s.(processes := s.processes[h := FRESH])
    case Local(h, step) =>
      s.(processes := s.processes[h := StepNext(c, s.now, s.lease, h, s.processes[h], step)])
    case ServeCreate(h) =>
      var p := s.processes[h];
      s.(lease := Created(s.lease),
         processes := s.processes[h := p.(acquiring := Getting(p.acquiring.attemptedAt, true))])
    case CreateElsewhere => s.(lease := Created(s.lease))
    case ServeClaim(h) =>
      var p := s.processes[h];
      var InFlight(snapshot, reading) := p.claim;
      if Current(s.lease, snapshot) then
        var written := Claimed(snapshot, h, c.seconds, reading).(version := snapshot.version + 1);
        s.(lease := Some(written),
           processes := s.processes[h := p.(claim := Answered(true), stored := Some(Truncate(reading)))],
           acquisitions := if s.lease.value.holder == h then s.acquisitions else s.acquisitions + [h])
      else
        s.(processes := s.processes[h := p.(claim := Answered(false))])
    case ServeVacate(h) =>
      var p := s.processes[h];
      var InFlight(snapshot, reading) := p.vacate;
      if Current(s.lease, snapshot) then
        s.(lease := Some(Vacated(snapshot, reading).(version := snapshot.version + 1)),
           processes := s.processes[h := p.(vacate := Answered(true))])
      else
        s.(processes := s.processes[h := p.(vacate := Answered(false))])
    case StartCall(h, _, call) => s.(started := s.started + [Started(h, call)])
  }

  predicate Init(c: Config, s: State) {
    && c.Valid()
    && 0 <= s.now
    && s.lease == c.initial
    && s.processes == map[]
    && s.acquisitions == []
    && s.started == []
  }

  predicate Runs(c: Config, s: State, events: seq<Event>)
    decreases |events|
  {
    events == [] || (Enabled(c, s, events[0]) && Runs(c, Next(c, s, events[0]), events[1..]))
  }

  function Run(c: Config, s: State, events: seq<Event>): State
    requires Runs(c, s, events)
    decreases |events|
  {
    if events == [] then s else Run(c, Next(c, s, events[0]), events[1..])
  }
}
