/**
 * `dayDifference` of constants/timeDifference.ts: both dates are moved, in
 * place, to local midnight of their own day, then the millisecond
 * difference is divided by the length of a day and floored.
 *
 * The local zone is a fixed offset `tz` from UTC, in milliseconds (local
 * wall-clock time = time value + tz); there are no daylight-saving jumps.
 */
module TimeDifference {

  /** `1000 * 60 * 60 * 24`. */
  const MsPerDay: int := 1000 * 60 * 60 * 24

  /** A mutable JavaScript `Date`, holding its time value. */
  class JsDate {
    var time: int

    constructor (t: int)
      ensures time == t
    {
      time := t;
    }

    /** `getTime()`. */
    function GetTime(): int
      reads this
    {
      time
    }

    /** `setHours(0, 0, 0, 0)`: moves this date to local midnight of its own day. */
    method SetMidnight(tz: int)
      modifies this
      ensures time == Midnight(old(time), tz)
    {
      time := LocalDay(time, tz) * MsPerDay - tz;
    }
  }

  /** The number of the local calendar day that contains the instant `t`. */
  function LocalDay(t: int, tz: int): int {
    (t + tz) / MsPerDay
  }

  /** The instant at which the local day containing `t` begins. */
  function Midnight(t: int, tz: int): (m: int)
    ensures m <= t < m + MsPerDay
    ensures LocalDay(m, tz) == LocalDay(t, tz)
    ensures (m + tz) % MsPerDay == 0
  {
    var d := LocalDay(t, tz);
    assert (d * MsPerDay) / MsPerDay == d && (d * MsPerDay) % MsPerDay == 0 by {
      MultipleOfDay(d, 0);
    }
    d * MsPerDay - tz
  }

  /** `Math.floor(x / d)` for a positive divisor. */
  function FloorDiv(x: int, d: int): (q: int)
    requires d > 0
    ensures q * d <= x < q * d + d
  {
    x / d
  }

  /**
   * The value `dayDifference(item, today)` returns, as a function of the two
   * time values before the call: the signed number of local calendar days
   * from the day of `today` to the day of `item`.
   */
  function DaysBetween(item: int, today: int, tz: int): (n: int)
    ensures n == LocalDay(item, tz) - LocalDay(today, tz)
  {
    var a, b := Midnight(item, tz), Midnight(today, tz);
    assert a - b == (LocalDay(item, tz) - LocalDay(today, tz)) * MsPerDay;
    MultipleOfDay(LocalDay(item, tz) - LocalDay(today, tz), 0);
    FloorDiv(a - b, MsPerDay)
  }

  /** Division by a day undoes multiplication by a day, for any remainder below a day. */
  lemma MultipleOfDay(n: int, r: int)
    requires 0 <= r < MsPerDay
    ensures (n * MsPerDay + r) / MsPerDay == n && (n * MsPerDay + r) % MsPerDay == r
  {
  }

  /**
   * `dayDifference(item, today)`. Both arguments are truncated to midnight
   * in place (the same object may be passed twice); the result is the floor
   * of the day delta of the truncated times.
   */
  method DayDifference(item: JsDate, today: JsDate, tz: int) returns (d: int)
    modifies item, today
    ensures item.time == Midnight(old(item.time), tz)
    ensures today.time == Midnight(old(today.time), tz)
    ensures d * MsPerDay <= item.time - today.time < d * MsPerDay + MsPerDay
    ensures d == DaysBetween(old(item.time), old(today.time), tz)
  {
    item.SetMidnight(tz);
    today.SetMidnight(tz);
    d := FloorDiv(item.GetTime() - today.GetTime(), MsPerDay);
  }

  /** `dayDifference(item)`: `today` defaults to a fresh `new Date()` read from the clock `now`. */
  method DayDifferenceFromNow(item: JsDate, now: int, tz: int) returns (d: int)
    modifies item
    ensures item.time == Midnight(old(item.time), tz)
    ensures d == DaysBetween(old(item.time), now, tz)
  {
    var today := new JsDate(now);
    d := DayDifference(item, today, tz);
  }

  /** Two instants on the same local day are 0 days apart, whatever their times of day. */
  lemma SameDayIsZero(item: int, today: int, tz: int)
    ensures DaysBetween(item, today, tz) == 0 <==> Midnight(item, tz) == Midnight(today, tz)
  {
  }

  /** Positive exactly when `item` lies on a later local day, negative when on an earlier one. */
  lemma Sign(item: int, today: int, tz: int)
    ensures DaysBetween(item, today, tz) > 0 <==> Midnight(item, tz) > Midnight(today, tz)
    ensures DaysBetween(item, today, tz) < 0 <==> Midnight(item, tz) < Midnight(today, tz)
  {
  }

  /** Swapping the arguments negates the result: the difference is a whole number of days. */
  lemma Antisymmetric(item: int, today: int, tz: int)
    ensures DaysBetween(today, item, tz) == -DaysBetween(item, today, tz)
  {
  }

  /** On already-normalised dates the truncation moves nothing and the value is the same. */
  lemma Idempotent(item: int, today: int, tz: int)
    ensures Midnight(Midnight(item, tz), tz) == Midnight(item, tz)
    ensures DaysBetween(Midnight(item, tz), Midnight(today, tz), tz) == DaysBetween(item, today, tz)
  {
  }

  /** An instant exactly `n` days after `t` lies `n` calendar days after it. */
  lemma {:induction false} ShiftByDays(t: int, n: int, tz: int)
    ensures DaysBetween(t + n * MsPerDay, t, tz) == n
  {
    var r := (t + tz) % MsPerDay;
    assert t + tz == LocalDay(t, tz) * MsPerDay + r;
    assert t + n * MsPerDay + tz == (LocalDay(t, tz) + n) * MsPerDay + r;
    MultipleOfDay(LocalDay(t, tz) + n, r);
  }

  /** A second call on the dates a first call left behind changes nothing and returns the same value. */
  method CallTwice(item: JsDate, today: JsDate, tz: int) returns (first: int, second: int)
    modifies item, today
    ensures first == second
    ensures item.time == Midnight(old(item.time), tz) && today.time == Midnight(old(today.time), tz)
  {
    first := DayDifference(item, today, tz);
    second := DayDifference(item, today, tz);
    Idempotent(old(item.time), old(today.time), tz);
  }
}
