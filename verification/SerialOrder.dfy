/**
 Guarded Grafana mutations of different pods fall into one serial order. `started` lists them as they began,
 each in one step with the Check before it.
 */
module SerialOrder {
  import opened Clock
  import opened LeaseRecord
  import opened LeaseProtocol
  import opened LeaseInvariant
  import opened LeaseSafety
  import O = LeaseOverlap

  /** The calls that the operation of one process started. */
  function CallsOf(started: seq<Started>, h: string): seq<Started> {
    if started == [] then []
    else
      var last := started[|started| - 1];
      CallsOf(started[..|started| - 1], h) + if last.holder == h then [last] else []
  }

  /** The same calls, operation by operation in the order in which the operations acquired the Lease. */
  function InTurn(acquisitions: seq<string>, started: seq<Started>): seq<Started> {
    if acquisitions == [] then []
    else
      InTurn(acquisitions[..|acquisitions| - 1], started) + CallsOf(started, acquisitions[|acquisitions| - 1])
  }

  lemma {:induction false} NoCallsOf(started: seq<Started>, h: string)
    requires forall x :: x in started ==> x.holder != h
    ensures CallsOf(started, h) == []
  {
    if started != [] {
      NoCallsOf(started[..|started| - 1], h);
    }
  }

  lemma {:induction false} InTurnIgnores(acquisitions: seq<string>, started: seq<Started>, x: Started)
    requires x.holder !in acquisitions
    ensures InTurn(acquisitions, started + [x]) == InTurn(acquisitions, started)
  {
    if acquisitions != [] {
      InTurnIgnores(acquisitions[..|acquisitions| - 1], started, x);
      assert (started + [x])[..|started|] == started;
    }
  }

  /** Every call was started by an acquirer, and the calls lie in turn. */
  ghost predicate InOrder(acquisitions: seq<string>, started: seq<Started>) {
    && (forall x :: x in started ==> x.holder in acquisitions)
    && started == InTurn(acquisitions, started)
  }

  ghost predicate Serial(s: State) {
    InOrder(s.acquisitions, s.started)
  }

  lemma CallsOfAppend(started: seq<Started>, x: Started)
    ensures CallsOf(started + [x], x.holder) == CallsOf(started, x.holder) + [x]
  {
    assert (started + [x])[..|started|] == started;
  }

  lemma InTurnAppend(acquisitions: seq<string>, started: seq<Started>, x: Started)
    requires acquisitions != [] && x.holder == acquisitions[|acquisitions| - 1]
    requires x.holder !in acquisitions[..|acquisitions| - 1]
    ensures InTurn(acquisitions, started + [x]) == InTurn(acquisitions, started) + [x]
  {
    InTurnIgnores(acquisitions[..|acquisitions| - 1], started, x);
    CallsOfAppend(started, x);
  }

  /** A guard that passes Check belongs to the last acquirer. */
  lemma PassesOnlyAsLast(c: Config, s: State, h: string, reading: Time)
    requires Inv(c, s) && CoarseOk(s) && Exclusive(c) && PassesCheck(c, s, h, reading)
    ensures s.acquisitions != [] && h == s.acquisitions[|s.acquisitions| - 1]
    ensures h !in s.acquisitions[..|s.acquisitions| - 1]
  {
    PassesOnlyAsHolder(c, s, h, reading);
  }

  lemma StartInOrder(acquisitions: seq<string>, started: seq<Started>, x: Started)
    requires InOrder(acquisitions, started)
    requires acquisitions != [] && x.holder == acquisitions[|acquisitions| - 1]
    requires x.holder !in acquisitions[..|acquisitions| - 1]
    ensures InOrder(acquisitions, started + [x])
  {
    InTurnAppend(acquisitions, started, x);
  }

  lemma AcquireInOrder(acquisitions: seq<string>, started: seq<Started>, h: string)
    requires InOrder(acquisitions, started) && h !in acquisitions
    ensures InOrder(acquisitions + [h], started)
  {
    NoCallsOf(started, h);
    assert (acquisitions + [h])[..|acquisitions|] == acquisitions;
  }

  lemma ClaimKeepsSerial(c: Config, s: State, h: string)
    requires Inv(c, s) && Serial(s) && Enabled(c, s, ServeClaim(h))
    ensures Serial(Next(c, s, ServeClaim(h)))
  {
    assert ProcessOk(c, s.now, s.lease, h, s.processes[h]);
    if Next(c, s, ServeClaim(h)).acquisitions != s.acquisitions {
      AcquireInOrder(s.acquisitions, s.started, h);
    }
  }

  lemma EventKeepsSerial(c: Config, s: State, e: Event)
    requires Inv(c, s) && CoarseOk(s) && Exclusive(c) && Serial(s) && Enabled(c, s, e)
    ensures Serial(Next(c, s, e))
  {
    match e {
      case StartCall(h, reading, call) =>
        PassesOnlyAsLast(c, s, h, reading);
        StartInOrder(s.acquisitions, s.started, Started(h, call));
      case ServeClaim(h) => ClaimKeepsSerial(c, s, h);
      case _ =>
    }
  }

  lemma {:induction false} RunKeepsSerial(c: Config, s: State, events: seq<Event>)
    requires Inv(c, s) && CoarseOk(s) && Exclusive(c) && Serial(s) && Runs(c, s, events)
    ensures Serial(Run(c, s, events))
    decreases |events|
  {
    if events != [] {
      EventKeepsSerial(c, s, events[0]);
      EventKeeps(c, s, events[0]);
      EventKeepsCoarse(c, s, events[0]);
      RunKeepsSerial(c, Next(c, s, events[0]), events[1..]);
    }
  }

  /** Serial order: the calls of different operations never interleave, and follow the order of acquisition. */
  lemma SerialOrder(c: Config, s0: State, events: seq<Event>)
    requires Init(c, s0) && Runs(c, s0, events) && Exclusive(c)
    ensures var s := Run(c, s0, events);
      s.started == InTurn(s.acquisitions, s.started)
  {
    InitHolds(c, s0);
    RunKeepsSerial(c, s0, events);
  }

  // ----- the clock condition is exact

  /** In the run of `events` from `s0`, some call started out of turn. */
  ghost predicate OutOfTurn(c: Config, s0: State, events: seq<Event>) {
    && Init(c, s0)
    && Runs(c, s0, events)
    && Run(c, s0, events).started != InTurn(Run(c, s0, events).acquisitions, Run(c, s0, events).started)
  }

  /** Serial order can be broken exactly when mutual exclusion can. */
  lemma SerialIsExact(c: Config)
    requires c.Valid()
    ensures (exists s0, events :: OutOfTurn(c, s0, events)) <==> !Exclusive(c) && !O.Unreadable(c)
  {
    if Exclusive(c) || O.Unreadable(c) {
      forall s0, events
        ensures !OutOfTurn(c, s0, events)
      {
        if OutOfTurn(c, s0, events) {
          if Exclusive(c) { SerialOrder(c, s0, events); } else { O.NobodyHolds(c, s0, events); }
        }
      }
    } else {
      var s0, events := Interleaving(c);
      assert OutOfTurn(c, s0, events);
    }
  }

  lemma Interleaved(a: Started, b: Started)
    requires a.holder != b.holder
    ensures [a, b, a] != InTurn([a.holder, b.holder], [a, b, a])
  {
    assert [a, b, a][..2] == [a, b] && [a, b][..1] == [a] && [a][..0] == [];
    assert [a.holder, b.holder][..1] == [a.holder] && [a.holder][..0] == [];
    assert CallsOf([a], a.holder) == [a] && CallsOf([a, b], a.holder) == [a];
    assert CallsOf([a, b, a], a.holder) == [a, a];
    assert InTurn([a.holder], [a, b, a]) == [a, a];
    assert InTurn([a.holder, b.holder], [a, b, a])[1] == a;
  }

  /** Two guards that pass Check together start calls in turns. */
  lemma Interleaving(c: Config) returns (s0: State, events: seq<Event>)
    requires c.Valid() && !Exclusive(c) && !O.Unreadable(c)
    ensures OutOfTurn(c, s0, events)
  {
    var before, ra, rb;
    s0, before, ra, rb := O.Overlap(c);
    var call := Call("", "");
    var a, b := c.Foreign() + "a", c.Foreign() + "b";
    var first, second := StartCall(a, ra, call), StartCall(b, rb, call);
    O.RunExtend(c, s0, before, first);
    O.RunExtend(c, s0, before + [first], second);
    O.RunExtend(c, s0, before + [first] + [second], first);
    events := before + [first] + [second] + [first];
    Interleaved(Started(a, call), Started(b, call));
    assert Run(c, s0, events).started == [Started(a, call), Started(b, call), Started(a, call)];
  }

  // ----- on any clocks

  lemma {:induction false} ReleasedStays(c: Config, s: State, events: seq<Event>, h: string)
    requires Runs(c, s, events) && h in s.processes && !s.processes[h].releasing.Unreleased?
    ensures var s' := Run(c, s, events); h in s'.processes && !s'.processes[h].releasing.Unreleased?
    decreases |events|
  {
    if events != [] {
      ReleasedStays(c, Next(c, s, events[0]), events[1..], h);
    }
  }

  /** An ousted guard passes Check for less than twice the skew and a microsecond more. */
  lemma OustedStartsNoMore(c: Config, s: State, events: seq<Event>, h: string, reading: Time)
    requires Inv(c, s) && Ousted(s, h) && Runs(c, s, events) && PassesCheck(c, Run(c, s, events), h, reading)
    ensures Run(c, s, events).now - s.now < 2 * c.skew + MICROSECOND
  {
    assert ProcessOk(c, s.now, s.lease, h, s.processes[h]);
    if s.processes[h].vacate == Answered(true) {
      ReleasedStays(c, s, events, h);
    } else {
      RunKeeps(c, s, events);
      OustedForever(c, s, events, h);
      OustedWindow(c, Run(c, s, events), h, reading);
    }
  }

  /**
   Whatever the clocks: once the claim of `g` has landed, an earlier acquirer starts no guarded call later than twice
   the skew and a microsecond after it.
   */
  lemma StartsSoonEnd(c: Config, s0: State, before: seq<Event>, g: string, between: seq<Event>, h: string, reading: Time,
                      call: Call)
    requires Init(c, s0) && Runs(c, s0, before) && Enabled(c, Run(c, s0, before), ServeClaim(g))
    requires var s, s' := Run(c, s0, before), Next(c, Run(c, s0, before), ServeClaim(g));
      && s'.processes[g].claim == Answered(true) && h in s.acquisitions && h != g
      && Runs(c, s', between) && Enabled(c, Run(c, s', between), StartCall(h, reading, call))
    ensures var s' := Next(c, Run(c, s0, before), ServeClaim(g));
      Run(c, s', between).now - s'.now < 2 * c.skew + MICROSECOND
  {
    InitHolds(c, s0);
    RunKeeps(c, s0, before);
    var s := Run(c, s0, before);
    EventKeeps(c, s, ServeClaim(g));
    assert ProcessOk(c, s.now, s.lease, g, s.processes[g]);
    OustedStartsNoMore(c, Next(c, s, ServeClaim(g)), between, h, reading);
  }

  // ----- the effect of the calls

  /** The effect of calls on whatever they change. */
  function Effect<W>(apply: (W, Call) -> W, world: W, calls: seq<Started>): W {
    if calls == [] then world
    else apply(Effect(apply, world, calls[..|calls| - 1]), calls[|calls| - 1].call)
  }

  /** The effect of whole operations, each starting where the one before it ended. */
  function EffectInTurn<W>(apply: (W, Call) -> W, world: W, acquisitions: seq<string>, started: seq<Started>): W {
    if acquisitions == [] then world
    else
      var last := |acquisitions| - 1;
      Effect(apply, EffectInTurn(apply, world, acquisitions[..last], started), CallsOf(started, acquisitions[last]))
  }

  lemma {:induction false} EffectOfConcat<W>(apply: (W, Call) -> W, world: W, a: seq<Started>, b: seq<Started>)
    ensures Effect(apply, world, a + b) == Effect(apply, Effect(apply, world, a), b)
    decreases |b|
  {
    if b == [] {
      assert a + b == a;
    } else {
      EffectOfConcat(apply, world, a, b[..|b| - 1]);
      assert (a + b)[..|a + b| - 1] == a + b[..|b| - 1];
    }
  }

  lemma {:induction false} EffectOfTurns<W>(apply: (W, Call) -> W, world: W, acquisitions: seq<string>, started: seq<Started>)
    ensures Effect(apply, world, InTurn(acquisitions, started)) == EffectInTurn(apply, world, acquisitions, started)
  {
    if acquisitions != [] {
      var last := |acquisitions| - 1;
      EffectOfTurns(apply, world, acquisitions[..last], started);
      EffectOfConcat(apply, world, InTurn(acquisitions[..last], started), CallsOf(started, acquisitions[last]));
    }
  }

  /** So whatever the calls do, doing them as they started is doing one operation after another. */
  lemma SerialEffect<W>(c: Config, s0: State, events: seq<Event>, apply: (W, Call) -> W, world: W)
    requires Init(c, s0) && Runs(c, s0, events) && Exclusive(c)
    ensures var s := Run(c, s0, events);
      Effect(apply, world, s.started) == EffectInTurn(apply, world, s.acquisitions, s.started)
  {
    SerialOrder(c, s0, events);
    var s := Run(c, s0, events);
    EffectOfTurns(apply, world, s.acquisitions, s.started);
  }
}
