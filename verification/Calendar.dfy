/** Clocks and dates: seconds since a midnight UTC, and day numbers. */
module Calendar {
  const DAY := 86400
  const IST_OFFSET := 19800  // five and a half hours ahead of UTC

  function IstDate(now: int): int {
    (now + IST_OFFSET) / DAY
  }
}
