/** Times are integer nanoseconds from the Unix epoch. */
module Time {
  /** Go's zero time, January 1 of year 1. */
  const ZERO_TIME: int := -62135596800000000000
}
