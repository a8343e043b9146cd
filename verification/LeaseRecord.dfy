/** The coordination Lease as the pods see it, and the decision that `update` takes after reading it. */
module LeaseRecord {
  import opened Clock

  /** Nanoseconds since Go's zero time. */
  type Time = int

  /** A Kubernetes MicroTime keeps six fractional digits, so formatting truncates. */
  function Truncate(t: Time): (whole: Time)
    ensures whole <= t < whole + MICROSECOND && whole % MICROSECOND == 0
  {
    t - t % MICROSECOND
  }

  /** `leaseTransitions` is an int32 and wraps. */
  function Wrap32(x: int): (r: int)
    ensures -0x8000_0000 <= r < 0x8000_0000 && (x - r) % 0x1_0000_0000 == 0
  {
    (x + 0x8000_0000) % 0x1_0000_0000 - 0x8000_0000
  }

  datatype Stamp = Unset | At(time: Time) | Malformed

  /** `metadata` stands for the labels, annotations, finalizers and owner references that a PUT sends back. */
  datatype Lease = Lease(
    version: nat,
    metadata: string,
    holder: string,
    seconds: int,
    acquireTime: Stamp,
    renewTime: Stamp,
    transitions: int)

  datatype Decision = Unreadable | Refuse | Write(lease: Lease)

  function Expiry(lease: Lease): Time {
    if lease.renewTime.At? then lease.renewTime.time + lease.seconds * SECOND else 0
  }

  predicate Available(lease: Lease, now: Time) {
    lease.holder == "" || Expiry(lease) <= now
  }

  /** What a PUT by `holder` at reading `now` carries: a renewal when the Lease is its own, a takeover otherwise. */
  function Claimed(lease: Lease, holder: string, seconds: nat, now: Time): Lease {
    var kept := lease.(holder := holder, seconds := seconds, renewTime := At(Truncate(now)));
    if lease.holder == holder then kept
    else kept.(acquireTime := At(Truncate(now)), transitions := Wrap32(lease.transitions + 1))
  }

  /** A Lease may be written exactly by its holder, or by a pod in Acquire once it is free or expired. */
  predicate MayWrite(lease: Lease, holder: string, now: Time, acquire: bool) {
    lease.holder == holder || (acquire && Available(lease, now))
  }

  /** The part of `update` between the GET and the PUT, branch by branch. */
  method DecideUpdate(lease: Lease, holder: string, seconds: nat, now: Time, acquire: bool) returns (d: Decision)
    ensures d.Unreadable? <==> lease.renewTime.Malformed?
    ensures d.Write? <==> !lease.renewTime.Malformed? && MayWrite(lease, holder, now, acquire)
    ensures d.Write? ==> d.lease == Claimed(lease, holder, seconds, now)
  {
    var expires := 0;
    match lease.renewTime {
      case Unset =>
      case Malformed => return Unreadable;
      case At(t) => expires := t + lease.seconds * SECOND;
    }
    var ours := lease.holder == holder;
    var available := lease.holder == "" || !(expires > now);
    if !acquire && !ours {
      return Refuse;
    }
    if !ours && !available {
      return Refuse;
    }
    var next := lease;
    if !ours {
      next := next.(transitions := Wrap32(next.transitions + 1), acquireTime := At(Truncate(now)));
    }
    next := next.(holder := holder);
    next := next.(seconds := seconds);
    next := next.(renewTime := At(Truncate(now)));
    return Write(next);
  }

  /** What Release sends back: the holder cleared, everything else but the stamp kept. */
  function Vacated(lease: Lease, now: Time): Lease {
    lease.(holder := "", renewTime := At(Truncate(now)))
  }
}
