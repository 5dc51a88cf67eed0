/** Units of time in milliseconds, the unit every instant and difference of
    the page is measured in. */
module Time {
  const SECOND_MS: nat := 1000
  const MINUTE_MS: nat := 60 * SECOND_MS
  /** One hour: the countdown's hour field, and the width of the status
      windows on either side of the launch. */
  const HOUR_MS: nat := 60 * MINUTE_MS
  const DAY_MS: nat := 24 * HOUR_MS
}
