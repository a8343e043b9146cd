/** The clock condition of mutual exclusion is exact: without it, some run has two guards passing Check. */
module LeaseOverlap {
  import opened Clock
  import opened LeaseRecord
  import opened LeaseProtocol
  import opened Text
  import opened LeaseSafety

  lemma {:induction false} RunExtend(c: Config, s: State, events: seq<Event>, e: Event)
    requires Runs(c, s, events) && Enabled(c, Run(c, s, events), e)
    ensures Runs(c, s, events + [e])
    ensures Run(c, s, events + [e]) == Next(c, Run(c, s, events), e)
    decreases |events|
  {
    if events == [] {
      assert events + [e] == [e];
      assert Runs(c, Next(c, s, e), []);
    } else {
      RunExtend(c, Next(c, s, events[0]), events[1..], e);
      assert (events + [e])[1..] == events[1..] + [e];
    }
  }

  lemma {:induction false} RunJoin(c: Config, s: State, first: seq<Event>, second: seq<Event>)
    requires Runs(c, s, first) && Runs(c, Run(c, s, first), second)
    ensures Runs(c, s, first + second)
    ensures Run(c, s, first + second) == Run(c, Run(c, s, first), second)
    decreases |first|
  {
    if first == [] {
      assert first + second == second;
    } else {
      RunJoin(c, Next(c, s, first[0]), first[1..], second);
      assert (first + second)[1..] == first[1..] + second;
    }
  }

  function AcquireSteps(h: string, r: Time): seq<Event> {
    [Begin(h), Local(h, Attempt(r)), Local(h, ServeGet), Local(h, Decide(r)), ServeClaim(h), Local(h, Confirm)]
  }

  /** The acquiring process after the first `i` of those steps. */
  function AcquiringAfter(lease: Lease, r: Time, i: nat): Process {
    if i <= 1 then FRESH
    else if i == 2 then FRESH.(acquiring := Getting(r, false), clock := r)
    else if i == 3 then FRESH.(acquiring := Got(r, lease), clock := r)
    else if i == 4 then FRESH.(acquiring := Putting(r), claim := InFlight(lease, r), clock := r)
    else if i == 5 then
      FRESH.(acquiring := Putting(r), claim := Answered(true), clock := r, stored := Some(Truncate(r)))
    else FRESH.(acquiring := Held, guard := Guard(false, r), clock := r, stored := Some(Truncate(r)))
  }

  /** The whole state after the first `i` steps from `s`. */
  ghost predicate AcquireAt(c: Config, s: State, h: string, r: Time, i: nat, now: State)
    requires s.lease.Some?
  {
    && now.now == s.now
    && now.lease == Some(if i < 5 then s.lease.value
                         else Claimed(s.lease.value, h, c.seconds, r).(version := s.lease.value.version + 1))
    && now.processes == (if i == 0 then s.processes else s.processes[h := AcquiringAfter(s.lease.value, r, i)])
    && now.acquisitions == (if i < 5 then s.acquisitions else s.acquisitions + [h])
    && now.started == s.started
  }

  /** A fresh process that would be a new holder, and a Lease that it finds available. */
  ghost predicate CanAcquire(c: Config, s: State, h: string, r: Time) {
    && h != "" && h != c.Foreign() && h !in s.processes && IsReading(c, s.now, r)
    && s.lease.Some? && s.lease.value.holder != h && !s.lease.value.renewTime.Malformed? && Available(s.lease.value, r)
  }

  lemma AcquireNext(c: Config, s: State, h: string, r: Time, i: nat, now: State)
    requires CanAcquire(c, s, h, r)
    requires i < 6 && AcquireAt(c, s, h, r, i, now)
    ensures Enabled(c, now, AcquireSteps(h, r)[i])
    ensures AcquireAt(c, s, h, r, i + 1, Next(c, now, AcquireSteps(h, r)[i]))
  {
  }

  /** A fresh process finds the Lease available and acquires it with one attempt at reading `r`. */
  lemma AcquireRun(c: Config, s: State, h: string, r: Time) returns (events: seq<Event>)
    requires CanAcquire(c, s, h, r)
    ensures Runs(c, s, events) && AcquireAt(c, s, h, r, 6, Run(c, s, events))
  {
    events := [];
    for i := 0 to 6
      invariant Runs(c, s, events) && AcquireAt(c, s, h, r, i, Run(c, s, events))
    {
      AcquireNext(c, s, h, r, i, Run(c, s, events));
      RunExtend(c, s, events, AcquireSteps(h, r)[i]);
      events := events + [AcquireSteps(h, r)[i]];
    }
  }

  /** In the run of `events` from `s0`, two guards end up passing Check together. */
  ghost predicate Overlaps(c: Config, s0: State, events: seq<Event>, a: string, b: string, ra: Time, rb: Time) {
    && Init(c, s0)
    && Runs(c, s0, events)
    && a != b
    && PassesCheck(c, Run(c, s0, events), a, ra)
    && PassesCheck(c, Run(c, s0, events), b, rb)
  }

  /** A Lease whose renewTime does not parse. */
  predicate Unreadable(c: Config) {
    c.initial.Some? && c.initial.value.renewTime.Malformed?
  }

  /**
   From any initial Lease, two guards pass Check together in some run exactly when clocks show fractions of a
   microsecond or are off by at least half of one, unless the Lease cannot be read and so is never acquired.
   */
  lemma ExclusiveIsExact(c: Config)
    requires c.Valid()
    ensures (exists s0, events, a, b, ra, rb :: Overlaps(c, s0, events, a, b, ra, rb)) <==> !Exclusive(c) && !Unreadable(c)
  {
    if Exclusive(c) || Unreadable(c) {
      forall s0, events, a, b, ra, rb
        ensures !Overlaps(c, s0, events, a, b, ra, rb)
      {
        if Overlaps(c, s0, events, a, b, ra, rb) {
          if Exclusive(c) {
            MutualExclusion(c, s0, events, a, b, ra, rb);
          } else {
            NobodyHolds(c, s0, events);
          }
        }
      }
    } else {
      var s0, events, ra, rb := Overlap(c);
      assert Overlaps(c, s0, events, c.Foreign() + "a", c.Foreign() + "b", ra, rb);
    }
  }

  // ----- a Lease that cannot be read

  /** Nobody got past the decision, the Lease is the initial one, and nothing has happened. */
  ghost predicate Stuck(c: Config, s: State) {
    && s.lease == c.initial && s.acquisitions == [] && s.started == []
    && forall h :: h in s.processes ==> StuckProcess(c, s.processes[h])
  }

  ghost predicate StuckProcess(c: Config, p: Process) {
    && p.claim.Idle? && p.vacate.Idle? && p.releasing.Unreleased?
    && !p.acquiring.Putting? && !p.acquiring.Held?
    && (p.acquiring.Got? ==> Some(p.acquiring.snapshot) == c.initial)
  }

  lemma StuckStep(c: Config, now: Time, h: string, p: Process, e: Step)
    requires Unreadable(c) && StuckProcess(c, p) && StepEnabled(c, now, c.initial, p, e)
    ensures StuckProcess(c, StepNext(c, now, c.initial, h, p, e))
  {
  }

  lemma StuckStays(c: Config, s: State, e: Event)
    requires Unreadable(c) && Stuck(c, s) && Enabled(c, s, e)
    ensures Stuck(c, Next(c, s, e))
  {
    match e
    case Local(h, step) => StuckStep(c, s.now, h, s.processes[h], step);
    case _ =>
  }

  /** With an unreadable Lease no guard is ever held, in any run, and no guarded call starts. */
  lemma NobodyHolds(c: Config, s0: State, events: seq<Event>)
    requires Unreadable(c) && Init(c, s0) && Runs(c, s0, events)
    ensures var s := Run(c, s0, events);
      && s.lease == c.initial && s.acquisitions == [] && s.started == []
      && forall h :: h in s.processes ==> !s.processes[h].acquiring.Held?
  {
    RunStuck(c, s0, events);
  }

  lemma {:induction false} RunStuck(c: Config, s: State, events: seq<Event>)
    requires Unreadable(c) && Stuck(c, s) && Runs(c, s, events)
    ensures Stuck(c, Run(c, s, events))
    decreases |events|
  {
    if events != [] {
      StuckStays(c, s, events[0]);
      RunStuck(c, Next(c, s, events[0]), events[1..]);
    }
  }

  // ----- the overlap

  /** A whole microsecond by which the initial Lease has run out. */
  function Ready(c: Config): Time {
    if c.initial.None? || Expiry(c.initial.value) <= 0 then 0 else Expiry(c.initial.value) * MICROSECOND
  }

  /** What the first holder reads: late in a microsecond if clocks show that. */
  function EarlyReading(c: Config): Time {
    Ready(c) + if c.coarse then 0 else 999
  }

  lemma ReadyIsReadable(c: Config)
    ensures 0 <= Ready(c) <= EarlyReading(c) && Truncate(EarlyReading(c)) == Ready(c) && Ready(c) % MICROSECOND == 0
    ensures c.initial.Some? ==> Expiry(c.initial.value) <= EarlyReading(c)
  {
  }

  /** The Lease is there: the initial one, or a new one. */
  lemma LeaseThere(c: Config) returns (s0: State, events: seq<Event>)
    requires c.Valid() && !Unreadable(c)
    ensures Init(c, s0) && Runs(c, s0, events)
    ensures var s := Run(c, s0, events);
      && s.now == EarlyReading(c) && s.processes == map[] && s.acquisitions == [] && s.started == []
      && s.lease == Created(c.initial)
  {
    ReadyIsReadable(c);
    s0 := State(EarlyReading(c), c.initial, map[], [], []);
    events := [CreateElsewhere];
    assert Runs(c, Next(c, s0, CreateElsewhere), []);
  }

  /** The first guard holds the Lease since its stamp at `Ready`, and time has gone on to `late`. */
  ghost predicate FirstHolds(c: Config, s: State, late: Time) {
    var a := c.Foreign() + "a";
    && s.now == late && s.processes.Keys == {a} && s.acquisitions == [a] && s.started == []
    && s.lease.Some? && s.lease.value.holder == a && s.lease.value.seconds == c.seconds
    && s.lease.value.renewTime == At(Ready(c))
    && s.processes[a].acquiring.Held? && s.processes[a].releasing.Unreleased?
    && s.processes[a].guard == Guard(false, EarlyReading(c))
  }

  lemma FirstHolder(c: Config, late: Time) returns (s0: State, events: seq<Event>)
    requires c.Valid() && !Unreadable(c) && EarlyReading(c) <= late
    ensures Init(c, s0) && Runs(c, s0, events) && FirstHolds(c, Run(c, s0, events), late)
  {
    ReadyIsReadable(c);
    var there;
    s0, there := LeaseThere(c);
    var first := AcquireRun(c, Run(c, s0, there), c.Foreign() + "a", EarlyReading(c));
    RunJoin(c, s0, there, first);
    RunExtend(c, s0, there + first, Advance(late));
    events := there + first + [Advance(late)];
  }

  /** While the first guard still passes Check on its own clock, the second one takes the Lease on another. */
  lemma SecondHolder(c: Config, s: State, ra: Time, rb: Time) returns (events: seq<Event>)
    requires c.Valid() && FirstHolds(c, s, s.now) && IsReading(c, s.now, rb)
    requires PassesCheck(c, s, c.Foreign() + "a", ra) && Ready(c) + c.Duration() <= rb
    ensures Runs(c, s, events)
    ensures PassesCheck(c, Run(c, s, events), c.Foreign() + "a", ra) && PassesCheck(c, Run(c, s, events), c.Foreign() + "b", rb)
    ensures Run(c, s, events).acquisitions == [c.Foreign() + "a", c.Foreign() + "b"] && Run(c, s, events).started == []
  {
    assert (c.Foreign() + "a")[|c.Foreign()|] != (c.Foreign() + "b")[|c.Foreign()|];
    events := AcquireRun(c, s, c.Foreign() + "b", rb);
  }

  lemma WholeLater(r: Time, seconds: nat)
    requires r % MICROSECOND == 0
    ensures (r + seconds * SECOND) % MICROSECOND == 0 && (r + seconds * SECOND - MICROSECOND) % MICROSECOND == 0
  {
  }

  /** A moment at which one clock still shows less than `early` and the duration, and another all of `ready` and it. */
  lemma Readings(c: Config, ready: Time, early: Time) returns (late: Time, ra: Time, rb: Time)
    requires c.Valid() && !Exclusive(c) && 0 <= ready && ready % MICROSECOND == 0
    requires early == ready + if c.coarse then 0 else 999
    ensures early <= late && IsReading(c, late, ra) && IsReading(c, late, rb)
    ensures ra < early + c.Duration() && rb == ready + c.Duration()
  {
    WholeLater(ready, c.seconds);
    rb := ready + c.Duration();
    late := if c.coarse then rb - 500 else rb;
    ra := if c.coarse then rb - 1000 else rb;
  }

  /** The first holder read its clock late in a microsecond, or its clock is behind; the second one's is ahead. */
  lemma Overlap(c: Config) returns (s0: State, events: seq<Event>, ra: Time, rb: Time)
    requires c.Valid() && !Unreadable(c) && !Exclusive(c)
    ensures Overlaps(c, s0, events, c.Foreign() + "a", c.Foreign() + "b", ra, rb)
    ensures Run(c, s0, events).acquisitions == [c.Foreign() + "a", c.Foreign() + "b"] && Run(c, s0, events).started == []
  {
    ReadyIsReadable(c);
    var late;
    late, ra, rb := Readings(c, Ready(c), EarlyReading(c));
    var before;
    s0, before := FirstHolder(c, late);
    assert (c.Foreign() + "a")[|c.Foreign()|] != (c.Foreign() + "b")[|c.Foreign()|];
    var second := SecondHolder(c, Run(c, s0, before), ra, rb);
    RunJoin(c, s0, before, second);
    events := before + second;
  }
}
