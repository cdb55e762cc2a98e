/** JavaScript's `Date` object, seen through its local wall-clock fields. A Date
    holds a single mutable value; `setHours` and `setDate` replace it in place,
    and `new Date(d)` makes an independent copy. Time zones, daylight-saving
    transitions and the engine's year range are not part of this model. */
module DateObject {
  import opened Calendar

  datatype TimeOfDay = TimeOfDay(hours: int, minutes: int, seconds: int, millis: int)

  predicate ValidTime(t: TimeOfDay) {
    0 <= t.hours < 24 && 0 <= t.minutes < 60 && 0 <= t.seconds < 60 && 0 <= t.millis < 1000
  }

  const Midnight := TimeOfDay(0, 0, 0, 0)
  const LastMillisecond := TimeOfDay(23, 59, 59, 999)

  /** The local fields of a Date: what `getFullYear()`, `getMonth()`,
      `getDate()`, `getHours()`, `getMinutes()`, `getSeconds()` and
      `getMilliseconds()` report. */
  datatype LocalDateTime = LocalDateTime(date: CivilDate, time: TimeOfDay)

  predicate ValidDateTime(v: LocalDateTime) {
    ValidDate(v.date) && ValidTime(v.time)
  }

  /** The year `new Date(y, m, d)` uses: a year from 0 to 99 means 1900 + y. */
  function ConstructorYear(y: int): (r: int)
    ensures 0 <= y <= 99 ==> r == 1900 + y
    ensures !(0 <= y <= 99) ==> r == y
  {
    if 0 <= y <= 99 then 1900 + y else y
  }

  /** The date `new Date(y, m, d)` denotes: the month is reduced modulo 12 into
      the year, then `d - 1` days are counted from the first of that month, so
      day 0 is the last day of the month before. */
  function MakeDay(y: int, m: int, d: int): (c: CivilDate)
    ensures ValidDate(c)
  {
    AddDays(CivilDate(ConstructorYear(y) + m / 12, m % 12, 1), d - 1)
  }

  class Date {
    var value: LocalDateTime

    predicate Valid()
      reads this
    {
      ValidDateTime(value)
    }

    /** `new Date(d)`: a new object holding the same value as `d`. */
    constructor Copy(d: Date)
      requires d.Valid()
      ensures Valid() && value == d.value
    {
      value := d.value;
    }

    /** `new Date(y, m, d)`: midnight on the normalised date. */
    constructor FromParts(y: int, m: int, d: int)
      ensures Valid() && value == LocalDateTime(MakeDay(y, m, d), Midnight)
    {
      value := LocalDateTime(MakeDay(y, m, d), Midnight);
    }

    /** `getDay()`: 0 for Sunday through 6 for Saturday. */
    function GetDay(): (w: int)
      reads this
      requires Valid()
      ensures 0 <= w < 7
    {
      Weekday(value.date)
    }

    /** `setHours(h, min, s, ms)` with in-range arguments: the date stays. */
    method SetHours(h: int, min: int, s: int, ms: int)
      requires Valid() && ValidTime(TimeOfDay(h, min, s, ms))
      modifies this
      ensures Valid()
      ensures value == LocalDateTime(old(value.date), TimeOfDay(h, min, s, ms))
    {
      value := value.(time := TimeOfDay(h, min, s, ms));
    }

    /** `setDate(n)`: day n of the current month, counted on from its first
        day, so values outside the month roll into the neighbouring months.
        The time of day stays. */
    method SetDate(n: int)
      requires Valid()
      modifies this
      ensures Valid() && value.time == old(value.time)
      ensures value.date == AddDays(old(value.date), n - old(value.date.day))
    {
      ShiftFromFirstOfMonth(value.date, n);
      value := value.(date := AddDays(value.date.(day := 1), n - 1));
    }
  }
}
