/** The day-boundary arithmetic of the monitor loop (main.py, `monitor`).
    Timestamps are whole seconds already shifted by the local UTC offset, so a
    day starts at a multiple of 86400. */
module DayClock {

  const SecondsPerDay: int := 3600 * 24
  /** Tomorrow's directory is made this many seconds before midnight. */
  const ProvisionLead: int := 180

  /** `int(a / b)` in Python: true division, then truncation toward zero. */
  function TruncDiv(a: int, b: int): (q: int)
    requires b > 0
    ensures a >= 0 ==> q * b <= a < q * b + b
    ensures a < 0 ==> q * b - b < a <= q * b
  {
    if a >= 0 then a / b else -((-a) / b)
  }

  /** `int(ts / 86400) * 86400`, which is also `new_today_ts`. */
  function DayStart(ts: int): int {
    TruncDiv(ts, SecondsPerDay) * SecondsPerDay
  }

  /** `new_tomorrow_ts`: the day that will have begun 180 seconds from now. */
  function TomorrowTs(ts: int): int {
    DayStart(ts + ProvisionLead)
  }

  /** `new_remove_at_ts`: the first day kept by a window of `savingPeriod`
      days. */
  function RemoveAtTs(ts: int, savingPeriod: int): int {
    DayStart(ts - savingPeriod * SecondsPerDay)
  }

  /** For a non-negative timestamp, today's start is the multiple of a day
      at or before it, less than a day back. */
  lemma TodayBounds(ts: int)
    requires ts >= 0
    ensures DayStart(ts) % SecondsPerDay == 0
    ensures DayStart(ts) <= ts < DayStart(ts) + SecondsPerDay
  {
  }

  /** Only one multiple of a day has that property. */
  lemma DayStartUnique(ts: int, m: int)
    requires ts >= 0 && m % SecondsPerDay == 0 && m <= ts < m + SecondsPerDay
    ensures m == DayStart(ts)
  {
    TodayBounds(ts);
  }

  /** Tomorrow differs from today exactly when the lead reaches the next
      midnight, and is then the next day. */
  lemma TomorrowIsNextDay(ts: int)
    requires ts >= 0
    ensures TomorrowTs(ts) != DayStart(ts) <==> ts + ProvisionLead >= DayStart(ts) + SecondsPerDay
    ensures TomorrowTs(ts) != DayStart(ts) ==> TomorrowTs(ts) == DayStart(ts) + SecondsPerDay
  {
    var d := DayStart(ts);
    TodayBounds(ts);
    if ts + ProvisionLead >= d + SecondsPerDay {
      assert (d + SecondsPerDay) % SecondsPerDay == 0;
      DayStartUnique(ts + ProvisionLead, d + SecondsPerDay);
    } else {
      DayStartUnique(ts + ProvisionLead, d);
    }
  }

  /** Once the window lies after the epoch, the retention boundary is today
      moved back by the window. */
  lemma RemoveAtIsWindowBack(ts: int, savingPeriod: int)
    requires savingPeriod >= 0 && ts - savingPeriod * SecondsPerDay >= 0
    ensures RemoveAtTs(ts, savingPeriod) == DayStart(ts) - savingPeriod * SecondsPerDay
  {
    var back := ts - savingPeriod * SecondsPerDay;
    var d := DayStart(ts);
    TodayBounds(ts);
    assert (d - savingPeriod * SecondsPerDay) % SecondsPerDay == 0;
    DayStartUnique(back, d - savingPeriod * SecondsPerDay);
  }
}
