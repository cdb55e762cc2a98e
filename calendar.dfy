/** The proleptic Gregorian calendar that JavaScript's Date uses for its local
    fields. Month lengths follow section 5.7 of RFC 3339 and the leap-year rule
    its Appendix C gives. Months are numbered from 0, as `getMonth()` reports
    them. Every date gets an ordinal, its distance in days from 1970-01-01,
    which is what day arithmetic and the day of the week are defined by. */
module Calendar {

  datatype CivilDate = CivilDate(year: int, month: int, day: int)

  predicate IsLeapYear(y: int) {
    y % 4 == 0 && (y % 100 != 0 || y % 400 == 0)
  }

  function DaysInMonth(y: int, m: int): (n: int)
    requires 0 <= m < 12
    ensures 28 <= n <= 31
  {
    if m == 1 then (if IsLeapYear(y) then 29 else 28)
    else if m == 3 || m == 5 || m == 8 || m == 10 then 30
    else 31
  }

  predicate ValidDate(c: CivilDate) {
    0 <= c.month < 12 && 1 <= c.day <= DaysInMonth(c.year, c.month)
  }

  function DaysInYear(y: int): int {
    if IsLeapYear(y) then 366 else 365
  }

  /** Days of year `y` that lie in the months before month `m`. */
  function DaysBeforeMonth(y: int, m: int): int
    requires 0 <= m <= 12
  {
    [0, 31, 59, 90, 120, 151, 181, 212, 243, 273, 304, 334, 365][m]
      + (if m >= 2 && IsLeapYear(y) then 1 else 0)
  }

  /** A count of leap years before year `y`; only its differences matter. */
  function LeapYearsBefore(y: int): int {
    (y - 1) / 4 - (y - 1) / 100 + (y - 1) / 400
  }

  /** Days from 1970-01-01 to January 1st of year `y`. */
  function DaysBeforeYear(y: int): int {
    365 * (y - 1970) + LeapYearsBefore(y) - LeapYearsBefore(1970)
  }

  function Ordinal(c: CivilDate): int
    requires ValidDate(c)
  {
    DaysBeforeYear(c.year) + DaysBeforeMonth(c.year, c.month) + c.day - 1
  }

  /** Day of the week as `getDay()` reports it: 0 is Sunday. 1970-01-01 was a Thursday. */
  function Weekday(c: CivilDate): (w: int)
    requires ValidDate(c)
    ensures 0 <= w < 7
  {
    (Ordinal(c) + 4) % 7
  }

  /** The weekday read off a known ordinal. */
  lemma WeekdayFromOrdinal(c: CivilDate, o: int)
    requires ValidDate(c) && Ordinal(c) == o
    ensures Weekday(c) == (o + 4) % 7
  {
  }

  /** Stepping from y - 1 to y raises y / k exactly when k divides y. */
  lemma DivStep4(y: int)
    ensures y / 4 - (y - 1) / 4 == if y % 4 == 0 then 1 else 0
  {
  }

  lemma DivStep100(y: int)
    ensures y / 100 - (y - 1) / 100 == if y % 100 == 0 then 1 else 0
  {
  }

  lemma DivStep400(y: int)
    ensures y / 400 - (y - 1) / 400 == if y % 400 == 0 then 1 else 0
  {
  }

  lemma CenturyIsLeapCandidate(y: int)
    requires y % 100 == 0
    ensures y % 4 == 0
  {
    var q := y / 100;
    assert y == 4 * (25 * q);
  }

  lemma QuadCenturyIsCentury(y: int)
    requires y % 400 == 0
    ensures y % 100 == 0
  {
    var q := y / 400;
    assert y == 100 * (4 * q);
  }

  /** Year y adds one to the leap-year count exactly when it is a leap year. */
  lemma LeapCountStep(y: int)
    ensures LeapYearsBefore(y + 1) - LeapYearsBefore(y) == if IsLeapYear(y) then 1 else 0
  {
    DivStep4(y);
    DivStep100(y);
    DivStep400(y);
    if y % 100 == 0 {
      CenturyIsLeapCandidate(y);
    }
    if y % 400 == 0 {
      QuadCenturyIsCentury(y);
    }
  }

  lemma LeapYearsStep(y: int)
    ensures DaysBeforeYear(y + 1) == DaysBeforeYear(y) + DaysInYear(y)
  {
    LeapCountStep(y);
  }

  lemma {:induction false} DaysBeforeYearGrows(y1: int, y2: int)
    requires y1 < y2
    ensures DaysBeforeYear(y1 + 1) <= DaysBeforeYear(y2)
    decreases y2 - y1
  {
    if y1 + 1 < y2 {
      DaysBeforeYearGrows(y1 + 1, y2);
      LeapYearsStep(y1 + 1);
    }
  }

  /** An ordinal lies within the days of its own year. */
  lemma OrdinalWithinYear(c: CivilDate)
    requires ValidDate(c)
    ensures DaysBeforeYear(c.year) <= Ordinal(c) < DaysBeforeYear(c.year + 1)
  {
    LeapYearsStep(c.year);
  }

  lemma MonthStep(y: int, m: int)
    requires 0 <= m < 12
    ensures DaysBeforeMonth(y, m + 1) == DaysBeforeMonth(y, m) + DaysInMonth(y, m)
  {
  }

  lemma {:induction false} MonthsGrow(y: int, m1: int, m2: int)
    requires 0 <= m1 < m2 <= 12
    ensures DaysBeforeMonth(y, m1 + 1) <= DaysBeforeMonth(y, m2)
    decreases m2 - m1
  {
    if m1 + 1 < m2 {
      MonthsGrow(y, m1 + 1, m2);
      MonthStep(y, m1 + 1);
    }
  }

  /** Different dates have different ordinals. */
  lemma OrdinalInjective(a: CivilDate, b: CivilDate)
    requires ValidDate(a) && ValidDate(b) && Ordinal(a) == Ordinal(b)
    ensures a == b
  {
    OrdinalWithinYear(a);
    OrdinalWithinYear(b);
    if a.year < b.year {
      DaysBeforeYearGrows(a.year, b.year);
      assert false;
    } else if b.year < a.year {
      DaysBeforeYearGrows(b.year, a.year);
      assert false;
    }
    MonthStep(a.year, a.month);
    MonthStep(b.year, b.month);
    if a.month < b.month {
      MonthsGrow(a.year, a.month, b.month);
      assert false;
    } else if b.month < a.month {
      MonthsGrow(b.year, b.month, a.month);
      assert false;
    }
  }

  /** The following day, across month and year ends. */
  function NextDay(c: CivilDate): (r: CivilDate)
    requires ValidDate(c)
    ensures ValidDate(r)
  {
    if c.day < DaysInMonth(c.year, c.month) then c.(day := c.day + 1)
    else if c.month < 11 then CivilDate(c.year, c.month + 1, 1)
    else CivilDate(c.year + 1, 0, 1)
  }

  /** The preceding day, across month and year starts. */
  function PrevDay(c: CivilDate): (r: CivilDate)
    requires ValidDate(c)
    ensures ValidDate(r)
  {
    if c.day > 1 then c.(day := c.day - 1)
    else if c.month > 0 then CivilDate(c.year, c.month - 1, DaysInMonth(c.year, c.month - 1))
    else CivilDate(c.year - 1, 11, 31)
  }

  lemma NextDayOrdinal(c: CivilDate)
    requires ValidDate(c)
    ensures Ordinal(NextDay(c)) == Ordinal(c) + 1
  {
    if c.day == DaysInMonth(c.year, c.month) && c.month == 11 {
      LeapYearsStep(c.year);
    }
  }

  lemma PrevDayOrdinal(c: CivilDate)
    requires ValidDate(c)
    ensures Ordinal(PrevDay(c)) == Ordinal(c) - 1
  {
    if c.day == 1 && c.month == 0 {
      LeapYearsStep(c.year - 1);
    }
  }

  /** The date `k` days after `c` (before it when `k` is negative). */
  function AddDays(c: CivilDate, k: int): (r: CivilDate)
    requires ValidDate(c)
    ensures ValidDate(r)
    decreases if k < 0 then -k else k
  {
    if k == 0 then c
    else if k > 0 then AddDays(NextDay(c), k - 1)
    else AddDays(PrevDay(c), k + 1)
  }

  /** Shifting by `k` days moves the ordinal by exactly `k`. */
  lemma {:induction false} AddDaysOrdinal(c: CivilDate, k: int)
    requires ValidDate(c)
    ensures Ordinal(AddDays(c, k)) == Ordinal(c) + k
    decreases if k < 0 then -k else k
  {
    if k > 0 {
      var next := NextDay(c);
      assert AddDays(c, k) == AddDays(next, k - 1);
      NextDayOrdinal(c);
      AddDaysOrdinal(next, k - 1);
    } else if k < 0 {
      var prev := PrevDay(c);
      assert AddDays(c, k) == AddDays(prev, k + 1);
      PrevDayOrdinal(c);
      AddDaysOrdinal(prev, k + 1);
    }
  }

  /** Setting the day of the month to `n`: the first of c's month, shifted
      by `n - 1` days, is `c` shifted by `n - c.day` days. */
  lemma ShiftFromFirstOfMonth(c: CivilDate, n: int)
    requires ValidDate(c)
    ensures ValidDate(c.(day := 1))
    ensures AddDays(c.(day := 1), n - 1) == AddDays(c, n - c.day)
  {
    AddDaysOrdinal(c.(day := 1), n - 1);
    AddDaysOrdinal(c, n - c.day);
    OrdinalInjective(AddDays(c.(day := 1), n - 1), AddDays(c, n - c.day));
  }

  /** The day before the first of the following month is the last day of month m. */
  lemma DayBeforeNextMonth(y: int, m: int)
    requires 0 <= m < 12
    ensures ValidDate(CivilDate(y + (m + 1) / 12, (m + 1) % 12, 1))
    ensures AddDays(CivilDate(y + (m + 1) / 12, (m + 1) % 12, 1), -1) == CivilDate(y, m, DaysInMonth(y, m))
  {
    var next := CivilDate(y + (m + 1) / 12, (m + 1) % 12, 1);
    assert AddDays(next, -1) == AddDays(PrevDay(next), 0);
    if m == 11 {
      assert next == CivilDate(y + 1, 0, 1);
    } else {
      assert next == CivilDate(y, m + 1, 1);
    }
  }

  /** A worked check of the weekday anchor: 3 March 2025 was a Monday. */
  lemma MondayThirdOfMarch2025()
    ensures Weekday(CivilDate(2025, 2, 3)) == 1
  {
  }
}
