// What the Go code does with time.Time and time.Duration where a wire value decides an instant: both are
// 64 bits wide. Instants are nanoseconds from 1970 and, for a clock reading, of an ordinary date.
module Clock {
  const MAX := 0x7fff_ffff_ffff_ffff
  const MIN := -0x8000_0000_0000_0000
  const SPAN := 0x1_0000_0000_0000_0000

  type int64 = x: int | MIN <= x <= MAX

  const SECOND := 1_000_000_000

  // Seconds from the year 1, where time.Time counts from, to 1970.
  const EPOCH := 62_135_596_800

  /** Two's complement. */
  function Wrap(x: int): int64 {
    (x - MIN) % SPAN + MIN
  }

  /** The instant of time.Unix(seconds, 0). */
  function UnixTime(seconds: int64): int {
    (Wrap(seconds + EPOCH) - EPOCH) * SECOND
  }

  /** Time.Sub saturates. */
  function Sub(t: int, u: int): int64 {
    if t - u > MAX then MAX else if t - u < MIN then MIN else t - u
  }

  /** The clock check of readClientHello: the negation wraps. */
  predicate HelloFresh(skew: int64, seconds: int64, now: int) {
    var delta: int := Sub(now, UnixTime(seconds));
    (if delta < 0 then Wrap(-delta) else delta) <= skew
  }

  /** No further ahead than the skew and, as Sub measures it, no further behind. */
  predicate InWindow(skew: int64, at: int, now: int) {
    Sub(now, at) <= skew && at - now <= skew
  }

  /** So far ahead that the difference saturates. */
  predicate FarAhead(at: int, now: int) {
    at - now >= -MIN
  }

  lemma WrapKeeps(x: int)
    ensures MIN <= x <= MAX ==> Wrap(x) == x
    ensures MAX < x < MAX + SPAN ==> Wrap(x) == x - SPAN
    ensures Wrap(-MIN) == MIN
  {
  }

  /** The check accepts the window it is meant to accept, and also everything at least 2^63 nanoseconds,
      some 292 years, ahead: there the negated difference is still negative. */
  lemma HelloFreshIff(skew: int64, seconds: int64, now: int)
    requires skew > 0
    ensures var at := UnixTime(seconds);
      HelloFresh(skew, seconds, now) <==> InWindow(skew, at, now) || FarAhead(at, now)
  {
    var delta: int := Sub(now, UnixTime(seconds));
    WrapKeeps(-delta);
  }

  /** A timestamp is the instant it says up to the point where time.Unix wraps; later ones lie before the
      year 1. */
  lemma UnixTimeIs(seconds: int64)
    ensures UnixTime(seconds) == if seconds <= MAX - EPOCH then seconds * SECOND else (seconds - SPAN) * SECOND
  {
    WrapKeeps(seconds + EPOCH);
  }

  const FAR_STAMP: int64 := 0x100_0000_0000

  /** Such a timestamp: some 35000 years ahead, for any clock reading up to the year 2116. */
  lemma FarStampIsFresh(skew: int64, now: int)
    requires skew > 0 && 0 <= now <= 0x4000_0000_0000_0000
    ensures FarAhead(UnixTime(FAR_STAMP), now) && HelloFresh(skew, FAR_STAMP, now)
  {
    UnixTimeIs(FAR_STAMP);
    HelloFreshIff(skew, FAR_STAMP, now);
  }
}
