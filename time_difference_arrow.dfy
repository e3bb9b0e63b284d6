/**
 * `dayDifference` of constants/timeDifference.tsx: the same computation
 * written as an arrow function, with the same in-place truncation of both
 * dates.
 */
module TimeDifferenceArrow {
  import TD = TimeDifference

  /** The arrow-function `dayDifference(item, today)`. */
  method DayDifference(item: TD.JsDate, today: TD.JsDate, tz: int) returns (d: int)
    modifies item, today
    ensures item.time == TD.Midnight(old(item.time), tz)
    ensures today.time == TD.Midnight(old(today.time), tz)
    ensures d * TD.MsPerDay <= item.time - today.time < d * TD.MsPerDay + TD.MsPerDay
    ensures d == TD.DaysBetween(old(item.time), old(today.time), tz)
  {
    item.SetMidnight(tz);
    today.SetMidnight(tz);
    d := TD.FloorDiv(item.GetTime() - today.GetTime(), TD.MsPerDay);
  }

  /** `dayDifference(item)` with `today` defaulting to `new Date()` read from the clock `now`. */
  method DayDifferenceFromNow(item: TD.JsDate, now: int, tz: int) returns (d: int)
    modifies item
    ensures item.time == TD.Midnight(old(item.time), tz)
    ensures d == TD.DaysBetween(old(item.time), now, tz)
  {
    var today := new TD.JsDate(now);
    d := DayDifference(item, today, tz);
  }

  /**
   * Both copies, each given its own pair of dates holding the same time
   * values, return the same number and leave the same truncated times.
   */
  method AgreesWithModuleVersion(item: int, today: int, tz: int) returns (fromTs: int, fromTsx: int)
    ensures fromTs == fromTsx
    ensures fromTsx == TD.LocalDay(item, tz) - TD.LocalDay(today, tz)
  {
    var i1 := new TD.JsDate(item);
    var t1 := new TD.JsDate(today);
    var i2 := new TD.JsDate(item);
    var t2 := new TD.JsDate(today);
    fromTs := TD.DayDifference(i1, t1, tz);
    fromTsx := DayDifference(i2, t2, tz);
    assert i1.time == i2.time && t1.time == t2.time;
  }
}
