/** Units of time, in nanoseconds, and seconds since 1970. */
module Clock {
  import opened Text

  const MICROSECOND: int := 1_000
  const SECOND: int := 1_000_000_000

  /** `unixTime`: zero and below mean no time. */
  function UnixTime(v: int): Option<int> {
    if v <= 0 then None else Some(v * SECOND)
  }

  function WholeSecond(t: int): int {
    t - t % SECOND
  }
}
