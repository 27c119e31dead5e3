/** Instants are whole seconds since a fixed epoch; the calendar is a single
    time zone with 24-hour days (no daylight-saving shifts). */
module Calendar {

  const SecondsPerHour := 3600
  const SecondsPerDay := 86400

  /** Midnight at the start of the day holding `t`. */
  function StartOfDay(t: int): (d: int)
    ensures d <= t < d + SecondsPerDay
    ensures d % SecondsPerDay == 0
  {
    t - t % SecondsPerDay
  }

  /** Hour of the day (0..23) of the instant `t`. */
  function Hour(t: int): (h: int)
    ensures 0 <= h < 24
    ensures StartOfDay(t) + h * SecondsPerHour <= t < StartOfDay(t) + (h + 1) * SecondsPerHour
  {
    (t % SecondsPerDay) / SecondsPerHour
  }

  /** Both instants fall on the same calendar day. */
  predicate SameDay(a: int, b: int) {
    StartOfDay(a) == StartOfDay(b)
  }

  /** An instant is on the same day as its own midnight, and a midnight is its own start of day. */
  lemma StartOfDayIsOnSameDay(t: int)
    ensures SameDay(StartOfDay(t), t)
    ensures StartOfDay(StartOfDay(t)) == StartOfDay(t)
  {
    var d := StartOfDay(t);
    assert d % SecondsPerDay == 0;
  }
}
