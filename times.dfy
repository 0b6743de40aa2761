/** Go `time.Time` values as the model uses them. A time is a count of
    seconds since Go's zero time, 0001-01-01T00:00:00Z, so that `IsZero()`
    is "equals 0". */
module Times {

  type Time = int

  /** A timestamp with the sub-second part a parser may produce. */
  datatype Instant = Instant(sec: Time, nsec: Nanos)
  type Nanos = n: nat | n < 1_000_000_000

  /** A reading of the wall clock after `AdjustTime`: whole seconds, and
      (for any clock this software runs under) later than year 1. */
  type Clock = t: Time | t > 0 witness 1

  predicate IsZero(t: Time) {
    t == 0
  }

  predicate InstantIsZero(i: Instant) {
    i.sec == 0 && i.nsec == 0
  }

  const SecondsPerDay: int := 86400

  /** 1904-01-01T00:00:00Z, the MP4 (QuickTime) epoch: 695055 days after year 1. */
  const Mp4Epoch: Time := 695055 * SecondsPerDay

  /** 2002-12-08T12:00:00Z, a date some cameras write by mistake. */
  const ExifDateBug: Instant := Instant(731191 * SecondsPerDay + 12 * 3600, 0)

  /** `AdjustTime`: UTC truncated to whole seconds. */
  function AdjustTime(i: Instant): (t: Time)
    ensures t * 1_000_000_000 <= i.sec * 1_000_000_000 + i.nsec < (t + 1) * 1_000_000_000
  {
    i.sec
  }
}
