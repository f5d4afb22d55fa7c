/** The 64-bit machine word that the counters of the allocator and the router wrap around in. */
module Words {
  const WORD: int := 0x1_0000_0000_0000_0000
  const HALF: int := 0x8000_0000_0000_0000

  type Int64 = n: int | -HALF <= n < HALF
}
