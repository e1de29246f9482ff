/** Definitions shared by every module: optional values and Go's truncating division.
    Instants and durations are `int` nanoseconds; the instant 0 is Go's zero time. */
module Common {

  datatype Option<+T> = None | Some(value: T)

  const NS_PER_SECOND := 1_000_000_000

  function Max(a: int, b: int): int { if a >= b then a else b }

  function RealMin(a: real, b: real): real { if a <= b then a else b }

  /** Integer division as Go performs it: toward zero. */
  function TruncDiv(a: int, b: int): int
    requires b > 0
  {
    if a >= 0 then a / b else -((-a) / b)
  }

  /** Whole seconds of a duration, as `int64(d.Seconds())`. */
  function Seconds(d: int): int { TruncDiv(d, NS_PER_SECOND) }
}
