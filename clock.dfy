/** Time as the cart service sees it. `Time.current` is never read inside the
    model: every operation that stamps or compares a time takes `now` as a
    parameter. A time is a whole number of seconds in UTC. */
module Clock {
  type Time = int

  const Hour: int := 3600
  const Day: int := 24 * Hour

  /** `3.hours`: how long a cart may sit without interaction before the sweep marks it abandoned. */
  const IdleLimit: int := 3 * Hour

  /** `7.days`: how long a cart stays abandoned before it is destroyed. */
  const PurgeAge: int := 7 * Day
}
