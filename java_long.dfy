/** Java's 64-bit `long`, used for entity ids and id counters. */
module JavaLong {

  const LONG_MIN: int := -0x8000_0000_0000_0000
  const LONG_MAX: int := 0x7FFF_FFFF_FFFF_FFFF

  type Long = x: int | LONG_MIN <= x <= LONG_MAX

  /** AtomicLong.incrementAndGet: add one, wrapping from the largest long to the smallest. */
  function IncrementAndGet(n: Long): (r: Long)
    ensures n < LONG_MAX ==> r == n + 1
    ensures n == LONG_MAX ==> r == LONG_MIN
  {
    if n == LONG_MAX then LONG_MIN else n + 1
  }
}
