/** Spans of time in nanoseconds, and the whole seconds that `int64(d.Seconds())` makes of them. */
module Durations {
  const NANOS: int := 1_000_000_000

  /** Truncation toward zero. */
  function WholeSeconds(d: int): (s: int)
    ensures d >= 0 ==> s * 1_000_000_000 <= d < (s + 1) * 1_000_000_000
    ensures d < 0 ==> (s - 1) * 1_000_000_000 < d <= s * 1_000_000_000
  {
    if d >= 0 then d / NANOS else -((-d) / NANOS)
  }
}
