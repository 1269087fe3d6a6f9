/** The units of the clock arithmetic. */
module Clock {
  /** The steady clock counts nanoseconds. */
  const NS_PER_MS: nat := 1_000_000

  /** `int` and `unsigned int` have 32 bits. */
  const INT_RANGE: nat := 0x1_0000_0000
  const INT_MAX: nat := 0x7FFF_FFFF
}
