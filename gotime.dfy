/**
 * The part of Go's `time.Time` the validator relies on: `time.Unix(sec, nsec)`
 * builds an instant from whole seconds and NANOseconds since the Unix epoch,
 * moving any nanoseconds outside [0, 1e9) into the seconds.
 */
module GoTime {
  import opened Integers

  const NANOS_PER_SECOND: int := 1_000_000_000

  /** An instant as Go keeps it: seconds since the epoch and a normalised nanosecond part. */
  datatype Instant = Instant(sec: int, nsec: int)

  /** The instant as one number: nanoseconds since the Unix epoch. */
  function Nanos(t: Instant): int {
    t.sec * NANOS_PER_SECOND + t.nsec
  }

  predicate Normalised(t: Instant) {
    0 <= t.nsec < NANOS_PER_SECOND
  }

  /**
   * `time.Unix(sec, nsec)`. The result is normalised and denotes exactly
   * `sec` seconds plus `nsec` nanoseconds after the epoch.
   */
  function Unix(sec: int, nsec: int): (t: Instant)
    ensures Normalised(t)
    ensures Nanos(t) == sec * NANOS_PER_SECOND + nsec
  {
    if nsec < 0 || nsec >= NANOS_PER_SECOND then
      var n := TruncDiv(nsec, NANOS_PER_SECOND);
      var s, ns := sec + n, nsec - n * NANOS_PER_SECOND;
      if ns < 0 then Instant(s - 1, ns + NANOS_PER_SECOND) else Instant(s, ns)
    else
      Instant(sec, nsec)
  }

  /** A normalised instant is determined by the point in time it denotes. */
  lemma NormalisedUnique(a: Instant, b: Instant)
    requires Normalised(a) && Normalised(b)
    requires Nanos(a) == Nanos(b)
    ensures a == b
  {
  }

  /** Two `time.Unix` calls give the same instant exactly when they denote the same nanosecond. */
  lemma UnixEqual(sec1: int, nsec1: int, sec2: int, nsec2: int)
    ensures Unix(sec1, nsec1) == Unix(sec2, nsec2)
        <==> sec1 * NANOS_PER_SECOND + nsec1 == sec2 * NANOS_PER_SECOND + nsec2
  {
  }
}
