/** Day arithmetic shared by every "completed today" and "claimed today" test. */
module Constants {

  const MsPerDay: int := 86_400_000

  /**
   * `getCurrentUnixDay()`: `BigInt(Math.floor(Date.now() / 86_400_000))`, with the clock reading
   * `nowMs` passed in. The result is the whole number of days since the Unix epoch: the unique
   * integer whose one-day window contains `nowMs`.
   */
  function UnixDay(nowMs: int): (day: int)
    ensures day * MsPerDay <= nowMs < (day + 1) * MsPerDay
    ensures nowMs >= 0 ==> day >= 0
  {
    nowMs / MsPerDay
  }

  /** The day window characterises the day number uniquely. */
  lemma UnixDayUnique(nowMs: int, day: int)
    requires day * MsPerDay <= nowMs < (day + 1) * MsPerDay
    ensures UnixDay(nowMs) == day
  {
    var d := UnixDay(nowMs);
    assert (d - day) * MsPerDay < MsPerDay && (day - d) * MsPerDay < MsPerDay;
  }

  /** A later clock reading never gives an earlier day. */
  lemma UnixDayMonotonic(a: int, b: int)
    requires a <= b
    ensures UnixDay(a) <= UnixDay(b)
  {
    var da, db := UnixDay(a), UnixDay(b);
    assert (da - db) * MsPerDay < MsPerDay;
  }

  /** Every reading inside day `day`'s window gives `day`: repeated calls within a day agree. */
  lemma UnixDayConstantInWindow(day: int, offset: int)
    requires 0 <= offset < MsPerDay
    ensures UnixDay(day * MsPerDay + offset) == day
  {
    UnixDayUnique(day * MsPerDay + offset, day);
  }

  /** Crossing a window boundary raises the day number by exactly one. */
  lemma UnixDayStepsAtBoundary(day: int)
    ensures UnixDay(day * MsPerDay - 1) == day - 1
    ensures UnixDay(day * MsPerDay) == day
  {
    UnixDayUnique(day * MsPerDay - 1, day - 1);
    UnixDayUnique(day * MsPerDay, day);
  }
}
