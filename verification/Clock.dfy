/** Instants and durations in nanoseconds, and the whole-second stamps of a JWT. */
module Clock {

  const SECOND := 1_000_000_000
  const MINUTE := 60 * SECOND
  const HOUR := 60 * MINUTE

  /** A NumericDate: the instant cut down to a whole second. */
  function Stamp(t: int): (r: int)
    ensures r <= t < r + SECOND && r % SECOND == 0
    ensures r == t / 1_000_000_000 * 1_000_000_000
  {
    t - t % SECOND
  }

  /** Claim validation with a leeway, in both directions. */
  predicate InForce(iat: int, exp: int, leeway: int, now: int) {
    iat - leeway <= now <= exp + leeway
  }
}
