/**
 * Wall-clock instants as the server sees them: `time.Time` values in whole
 * milliseconds since the Unix epoch. The clock itself is never read by the
 * model; every operation that consults it takes "now" as a parameter.
 */
module Clock {
  /** Go's zero `time.Time` (January 1 of year 1, UTC), which `IsZero` recognises. */
  const ZeroTimeMs: int := -62_135_596_800_000

  /** `t.After(u)`. */
  predicate After(t: int, u: int)
  {
    t > u
  }
}
