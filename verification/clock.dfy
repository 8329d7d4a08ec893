/** The millisecond clock the handlers and the client read with `new Date()`. */
module Clock {
  const MINUTE_MS: int := 60_000
  const HOUR_MS: int := 3_600_000
  const DAY_MS: int := 86_400_000
}
