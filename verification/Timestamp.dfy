/** Time as the library counts it: microseconds since the epoch (tools/base/Timestamp.h). */
module Timestamps {

  const MICROS_PER_SECOND: int := 1000 * 1000
  const SECONDS_PER_DAY: int := 60 * 60 * 24

  /** The time stamp that stands for "no time". */
  const INVALID: int := 0

  predicate IsValid(t: int) {
    t > 0
  }

  /** A C++ cast from double to an integer type: the fraction is dropped, towards zero. */
  function Truncate(x: real): int {
    if x >= 0.0 then x.Floor else -((-x).Floor)
  }

  /** C++ integer division by a positive number: towards zero. */
  function Quotient(n: int, d: int): int
    requires d > 0
  {
    if n >= 0 then n / d else -((-n) / d)
  }

  /** The microseconds that add_time adds for a length given in seconds. */
  function Micros(seconds: real): int {
    Truncate(seconds * (MICROS_PER_SECOND as real))
  }

  function AddTime(t: int, seconds: real): int {
    t + Micros(seconds)
  }

  function Seconds(t: int): int {
    Quotient(t, MICROS_PER_SECOND)
  }

  /** The day that t falls in. */
  function Period(t: int): int {
    Quotient(Quotient(t, MICROS_PER_SECOND), SECONDS_PER_DAY)
  }

  /** The microseconds of an interval are its length, cut to whole ones: towards zero. */
  lemma MicrosWhole(seconds: real)
    ensures seconds >= 0.0 ==> Micros(seconds) as real <= seconds * 1000000.0 < Micros(seconds) as real + 1.0
    ensures seconds <= 0.0 ==> Micros(seconds) as real - 1.0 < seconds * 1000000.0 <= Micros(seconds) as real
  {
  }

  /** Seconds and days are whole, for times that are not negative. */
  lemma SecondsWhole(t: int)
    requires t >= 0
    ensures Seconds(t) * 1000000 <= t < (Seconds(t) + 1) * 1000000
    ensures Period(t) * 86400 * 1000000 <= t < (Period(t) + 1) * 86400 * 1000000
  {
  }

  /** A repeating timer never moves backwards, and one with an interval of a
      microsecond or more moves forward. */
  lemma MicrosOfInterval(seconds: real)
    requires seconds > 0.0
    ensures Micros(seconds) >= 0
    ensures Micros(seconds) >= 1 <==> seconds * 1000000.0 >= 1.0
  {
  }
}
