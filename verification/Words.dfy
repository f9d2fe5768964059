/** The 64-bit counters of the source. */
module Words {
  type U64 = n: nat | n <= U64_MAX

  const U64_MAX: nat := 0xFFFF_FFFF_FFFF_FFFF
}
