/** Steady-clock readings, in nanoseconds. */
module Clock {
  const NS_PER_MS := 1_000_000

  /** The cast of a duration to whole milliseconds truncates toward zero. */
  function ElapsedMs(since: int, now: int): int {
    if now >= since then (now - since) / NS_PER_MS else -((since - now) / NS_PER_MS)
  }
}
