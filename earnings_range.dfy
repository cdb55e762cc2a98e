/** The date-range side of the earnings screen: the day bounds, the local
    timestamp text sent as query bounds, and the Today / This Week / This Month
    presets. */
module EarningsRange {
  import opened Common
  import opened Decimal
  import opened Calendar
  import opened DateObject

  /** `startOfDay(d)`: a copy of `d` set to 00:00:00.000 on the same date. */
  method StartOfDay(d: Date) returns (x: Date)
    requires d.Valid()
    ensures fresh(x) && x.Valid()
    ensures x.value == LocalDateTime(d.value.date, Midnight)
  {
    x := new Date.Copy(d);
    x.SetHours(0, 0, 0, 0);
  }

  /** `endOfDay(d)`: a copy of `d` set to 23:59:59.999 on the same date. */
  method EndOfDay(d: Date) returns (x: Date)
    requires d.Valid()
    ensures fresh(x) && x.Valid()
    ensures x.value == LocalDateTime(d.value.date, LastMillisecond)
  {
    x := new Date.Copy(d);
    x.SetHours(23, 59, 59, 999);
  }

  /** `pad(n)`: the decimal text of n, left-padded with '0' to two characters. */
  function Pad(n: int): string {
    PadStart2(IntToString(n))
  }

  /** The text `toISO` builds from local fields: the year unpadded, then the
      fixed-width rest. `FormatRoundTrip` reads every field back from it. */
  function Format(v: LocalDateTime): (r: string)
    ensures |r| >= |IntToString(v.date.year)| + 15
    ensures r[..|IntToString(v.date.year)|] == IntToString(v.date.year)
  {
    IntToString(v.date.year) + FixedWidthPart(v)
  }

  /** `-MM-DDTHH:MM:SS`, with the month as `getMonth() + 1`, every field padded,
      and no milliseconds or offset. */
  function FixedWidthPart(v: LocalDateTime): string {
    "-" + Pad(v.date.month + 1) + "-" + Pad(v.date.day)
      + "T" + Pad(v.time.hours) + ":" + Pad(v.time.minutes) + ":" + Pad(v.time.seconds)
  }

  /** `toISO(dt)`: a text from which the date's local year, month (as
      `getMonth() + 1`), day, hours, minutes and seconds read back. */
  function ToIso(dt: Date): (r: string)
    reads dt
    ensures dt.Valid() ==> ParseIso(r) == Some(FieldsOf(dt.value))
  {
    FormatReadsBack(dt);
    Format(dt.value)
  }

  /** `FormatRoundTrip` for the value a `Date` holds. */
  lemma FormatReadsBack(dt: Date)
    ensures dt.Valid() ==> ParseIso(Format(dt.value)) == Some(FieldsOf(dt.value))
  {
    if dt.Valid() {
      var v := dt.value;
      FormatRoundTrip(v);
      assert FieldsOf(v) == IsoFields(v.date.year, v.date.month + 1, v.date.day,
                                      v.time.hours, v.time.minutes, v.time.seconds);
    }
  }

  /** The fields a timestamp text carries, with the month counted from 1. */
  datatype IsoFields = IsoFields(year: int, month: int, day: int, hour: int, minute: int, second: int)

  /** The fields the text of `v` should carry: the month one higher than
      `getMonth()`, no milliseconds. */
  function FieldsOf(v: LocalDateTime): IsoFields {
    IsoFields(v.date.year, v.date.month + 1, v.date.day, v.time.hours, v.time.minutes, v.time.seconds)
  }

  predicate DigitPair(s: string, i: int) {
    0 <= i && i + 1 < |s| && IsDigit(s[i]) && IsDigit(s[i + 1])
  }

  /** Reads `Y-MM-DDTHH:MM:SS` back: the last fifteen characters hold the
      fixed-width part, everything before them is the year. */
  function ParseIso(s: string): Option<IsoFields> {
    if |s| < 16 then None
    else
      var t := s[|s| - 15..];
      if t[0] == '-' && t[3] == '-' && t[6] == 'T' && t[9] == ':' && t[12] == ':'
         && DigitPair(t, 1) && DigitPair(t, 4) && DigitPair(t, 7)
         && DigitPair(t, 10) && DigitPair(t, 13)
      then
        match ParseInt(s[..|s| - 15])
        case None => None
        case Some(y) =>
          Some(IsoFields(y, TwoDigitValue(t, 1), TwoDigitValue(t, 4), TwoDigitValue(t, 7),
                         TwoDigitValue(t, 10), TwoDigitValue(t, 13)))
      else None
  }

  /** The layout `-AA-BBTCC:DD:EE` of five two-digit fields: separators at
      fixed places and each field readable where it was put. */
  lemma FieldLayout(a: string, b: string, c: string, d: string, e: string)
    requires DigitPair(a, 0) && DigitPair(b, 0) && DigitPair(c, 0) && DigitPair(d, 0) && DigitPair(e, 0)
    requires |a| == 2 && |b| == 2 && |c| == 2 && |d| == 2 && |e| == 2
    ensures var t := "-" + a + "-" + b + "T" + c + ":" + d + ":" + e;
      |t| == 15 && t[0] == '-' && t[3] == '-' && t[6] == 'T' && t[9] == ':' && t[12] == ':'
      && DigitPair(t, 1) && DigitPair(t, 4) && DigitPair(t, 7) && DigitPair(t, 10) && DigitPair(t, 13)
      && TwoDigitValue(t, 1) == TwoDigitValue(a, 0) && TwoDigitValue(t, 4) == TwoDigitValue(b, 0)
      && TwoDigitValue(t, 7) == TwoDigitValue(c, 0) && TwoDigitValue(t, 10) == TwoDigitValue(d, 0)
      && TwoDigitValue(t, 13) == TwoDigitValue(e, 0)
  {
    var t := "-" + a + "-" + b + "T" + c + ":" + d + ":" + e;
    assert t == ['-', a[0], a[1], '-', b[0], b[1], 'T', c[0], c[1], ':', d[0], d[1], ':', e[0], e[1]];
  }

  /** The fixed-width part of a valid date-time has its separators in place
      and its two-digit fields read back as the fields. */
  lemma FixedWidthPartFields(v: LocalDateTime)
    requires ValidDateTime(v)
    ensures var t := FixedWidthPart(v);
      |t| == 15 && t[0] == '-' && t[3] == '-' && t[6] == 'T' && t[9] == ':' && t[12] == ':'
      && DigitPair(t, 1) && DigitPair(t, 4) && DigitPair(t, 7) && DigitPair(t, 10) && DigitPair(t, 13)
      && TwoDigitValue(t, 1) == v.date.month + 1 && TwoDigitValue(t, 4) == v.date.day
      && TwoDigitValue(t, 7) == v.time.hours && TwoDigitValue(t, 10) == v.time.minutes
      && TwoDigitValue(t, 13) == v.time.seconds
  {
    Pad2RoundTrip(v.date.month + 1);
    Pad2RoundTrip(v.date.day);
    Pad2RoundTrip(v.time.hours);
    Pad2RoundTrip(v.time.minutes);
    Pad2RoundTrip(v.time.seconds);
    FieldLayout(Pad(v.date.month + 1), Pad(v.date.day), Pad(v.time.hours),
                Pad(v.time.minutes), Pad(v.time.seconds));
  }

  /** Reading the text of a valid date-time gives back its fields, with the
      month one higher than `getMonth()`. */
  lemma FormatRoundTrip(v: LocalDateTime)
    requires ValidDateTime(v)
    ensures ParseIso(Format(v)) ==
            Some(IsoFields(v.date.year, v.date.month + 1, v.date.day,
                           v.time.hours, v.time.minutes, v.time.seconds))
  {
    var y, t := IntToString(v.date.year), FixedWidthPart(v);
    FixedWidthPartFields(v);
    IntRoundTrip(v.date.year);
    var s := Format(v);
    assert s[|s| - 15..] == t;
    assert s[..|s| - 15] == y;
  }

  /** `full-date "T" partial-time` of section 5.6 of RFC 3339, without the
      optional fraction: four-digit year, month 01-12, a day that exists in
      that month (section 5.7), hour 00-23, minute 00-59, second 00-60. */
  predicate IsRfc3339LocalDateTime(s: string) {
    |s| == 19 && AllDigits(s[0..4]) && s[4] == '-' && DigitPair(s, 5) && s[7] == '-'
    && DigitPair(s, 8) && s[10] == 'T' && DigitPair(s, 11) && s[13] == ':'
    && DigitPair(s, 14) && s[16] == ':' && DigitPair(s, 17)
    && 1 <= TwoDigitValue(s, 5) <= 12
    && 1 <= TwoDigitValue(s, 8) <= DaysInMonth(DigitsValue(s[0..4]), TwoDigitValue(s, 5) - 1)
    && TwoDigitValue(s, 11) <= 23 && TwoDigitValue(s, 14) <= 59 && TwoDigitValue(s, 17) <= 60
  }

  /** For four-digit years the text is an RFC 3339 local date-time. */
  lemma FormatIsRfc3339(v: LocalDateTime)
    requires ValidDateTime(v) && 1000 <= v.date.year <= 9999
    ensures IsRfc3339LocalDateTime(Format(v))
  {
    var s, y, t := Format(v), IntToString(v.date.year), FixedWidthPart(v);
    FourDigitText(v.date.year);
    NatRoundTrip(v.date.year);
    FixedWidthPartFields(v);
    assert s[0..4] == y;
    forall i | 0 <= i < 15 ensures s[4 + i] == t[i] { }
  }

  datatype Preset = Today | ThisWeek | ThisMonth

  /** `(day + 6) % 7`: how many days back the Monday of the week lies. */
  function DaysSinceMonday(day: int): (k: int)
    requires 0 <= day < 7
    ensures 0 <= k < 7
  {
    (day + 6) % 7
  }

  /** The Monday of the week (Monday to Sunday) that contains `c`. */
  function WeekStart(c: CivilDate): (r: CivilDate)
    requires ValidDate(c)
    ensures ValidDate(r)
  {
    AddDays(c, -DaysSinceMonday(Weekday(c)))
  }

  function WeekEnd(c: CivilDate): (r: CivilDate)
    requires ValidDate(c)
    ensures ValidDate(r)
  {
    AddDays(WeekStart(c), 6)
  }

  /** Going back `(w + 6) % 7` days from a day whose weekday is w = (o + 4) % 7
      lands on weekday 1. */
  lemma BackToMonday(o: int)
    ensures (o - DaysSinceMonday((o + 4) % 7) + 4) % 7 == 1
  {
    var w := (o + 4) % 7;
    var q := (o + 4) / 7;
    assert o + 4 == 7 * q + w;
    if w == 0 {
      assert o - DaysSinceMonday(w) + 4 == 7 * (q - 1) + 1;
    } else {
      assert o - DaysSinceMonday(w) + 4 == 7 * q + 1;
    }
  }

  lemma SundayAfterMonday(o: int)
    requires (o + 4) % 7 == 1
    ensures (o + 6 + 4) % 7 == 0
  {
    assert o + 6 + 4 == 7 * ((o + 4) / 7 + 1);
  }

  /** The week's arithmetic on ordinals: from ordinal `o`, going back to `m`
      and on six days to `e` spans a Monday to a Sunday around `o`. */
  lemma WeekOrdinals(o: int, m: int, e: int)
    requires m == o - DaysSinceMonday((o + 4) % 7) && e == m + 6
    ensures (m + 4) % 7 == 1 && (e + 4) % 7 == 0 && m <= o <= e
  {
    BackToMonday(o);
    SundayAfterMonday(m);
  }

  /** The week's first day lies `(day + 6) % 7` days back and its last six
      days after that. */
  lemma WeekStartEndOrdinals(c: CivilDate)
    requires ValidDate(c)
    ensures Ordinal(WeekStart(c)) == Ordinal(c) - DaysSinceMonday(Weekday(c))
    ensures Ordinal(WeekEnd(c)) == Ordinal(WeekStart(c)) + 6
  {
    AddDaysOrdinal(c, -DaysSinceMonday(Weekday(c)));
    AddDaysOrdinal(WeekStart(c), 6);
  }

  /** The week runs from a Monday to the Sunday six days later, and contains `c`. */
  lemma WeekBounds(c: CivilDate)
    requires ValidDate(c)
    ensures Weekday(WeekStart(c)) == 1 && Weekday(WeekEnd(c)) == 0
    ensures Ordinal(WeekEnd(c)) == Ordinal(WeekStart(c)) + 6
    ensures Ordinal(WeekStart(c)) <= Ordinal(c) <= Ordinal(WeekEnd(c))
  {
    WeekStartEndOrdinals(c);
    var o, m, e := Ordinal(c), Ordinal(WeekStart(c)), Ordinal(WeekEnd(c));
    WeekdayFromOrdinal(c, o);
    WeekOrdinals(o, m, e);
    WeekdayFromOrdinal(WeekStart(c), m);
    WeekdayFromOrdinal(WeekEnd(c), e);
  }

  /** The first day of the month that `new Date(y, m, 1)` denotes for `c`. */
  function MonthStart(c: CivilDate): (r: CivilDate)
    requires ValidDate(c)
    ensures ValidDate(r)
  {
    CivilDate(ConstructorYear(c.year), c.month, 1)
  }

  /** The last day of that month, as `new Date(y, m + 1, 0)` denotes it. */
  function MonthEnd(c: CivilDate): (r: CivilDate)
    requires ValidDate(c)
    ensures ValidDate(r)
  {
    var y := ConstructorYear(c.year);
    CivilDate(y, c.month, DaysInMonth(y, c.month))
  }

  /** For years outside 0..99 the month range runs from day 1 to the month's
      last day (29 February exactly in leap years) and contains `c`. */
  lemma MonthBounds(c: CivilDate)
    requires ValidDate(c) && !(0 <= c.year <= 99)
    ensures MonthStart(c) == c.(day := 1)
    ensures MonthEnd(c) == c.(day := DaysInMonth(c.year, c.month))
    ensures c.month == 1 ==> (MonthEnd(c).day == 29 <==> IsLeapYear(c.year))
    ensures Ordinal(MonthStart(c)) <= Ordinal(c) <= Ordinal(MonthEnd(c))
    ensures NextDay(MonthEnd(c)).day == 1
  {
  }

  /** For years 0..99 the JavaScript constructor reads the year as 19xx, so the
      month range lies in year 1900 + y and not in the year of `c`. */
  lemma MonthBoundsTwoDigitYear(c: CivilDate)
    requires ValidDate(c) && 0 <= c.year <= 99
    ensures MonthStart(c).year == MonthEnd(c).year == c.year + 1900
  {
  }

  /** The TODAY branch of `applyPreset`. */
  method TodayBounds(now: Date) returns (s: string, e: string)
    requires now.Valid()
    ensures s == Format(LocalDateTime(now.value.date, Midnight))
    ensures e == Format(LocalDateTime(now.value.date, LastMillisecond))
  {
    var first := StartOfDay(now);
    var last := EndOfDay(now);
    s, e := ToIso(first), ToIso(last);
  }

  /** `monday = new Date(now); monday.setDate(now.getDate() - diffToMon)` with
      `diffToMon = (now.getDay() + 6) % 7`. */
  method MondayOf(now: Date) returns (monday: Date)
    requires now.Valid()
    ensures fresh(monday) && monday.Valid()
    ensures monday.value == LocalDateTime(WeekStart(now.value.date), now.value.time)
  {
    var today := now.value.date;
    var day := now.GetDay();
    var diffToMon := DaysSinceMonday(day);
    monday := new Date.Copy(now);
    var n := today.day - diffToMon;
    ghost var before := monday.value.date;
    monday.SetDate(n);
    MondayByDayOfMonth(before, n);
  }

  /** `sunday = new Date(monday); sunday.setDate(monday.getDate() + 6)`. */
  method SundayOf(now: Date, monday: Date) returns (sunday: Date)
    requires now.Valid() && monday.Valid()
    requires monday.value.date == WeekStart(now.value.date)
    ensures fresh(sunday) && sunday.Valid()
    ensures sunday.value == LocalDateTime(WeekEnd(now.value.date), monday.value.time)
  {
    sunday := new Date.Copy(monday);
    ghost var before := sunday.value.date;
    sunday.SetDate(monday.value.date.day + 6);
    SundayByDayOfMonth(now.value.date, before);
  }

  /** The THIS_WEEK branch of `applyPreset`: back to Monday by
      `(day + 6) % 7` days, then on to Sunday six days later. */
  method ThisWeekBounds(now: Date) returns (s: string, e: string)
    requires now.Valid()
    ensures s == Format(LocalDateTime(WeekStart(now.value.date), Midnight))
    ensures e == Format(LocalDateTime(WeekEnd(now.value.date), LastMillisecond))
  {
    var monday := MondayOf(now);
    var sunday := SundayOf(now, monday);
    var first := StartOfDay(monday);
    var last := EndOfDay(sunday);
    s, e := ToIso(first), ToIso(last);
  }

  /** What `monday.setDate(now.getDate() - diffToMon)` computes is the week's Monday. */
  lemma MondayByDayOfMonth(today: CivilDate, n: int)
    requires ValidDate(today) && n == today.day - DaysSinceMonday(Weekday(today))
    ensures AddDays(today, n - today.day) == WeekStart(today)
  {
    AddDaysOrdinal(today, n - today.day);
    AddDaysOrdinal(today, -DaysSinceMonday(Weekday(today)));
    OrdinalInjective(AddDays(today, n - today.day), WeekStart(today));
  }

  /** What `sunday.setDate(monday.getDate() + 6)` computes is the week's Sunday. */
  lemma SundayByDayOfMonth(today: CivilDate, monday: CivilDate)
    requires ValidDate(today) && monday == WeekStart(today)
    ensures AddDays(monday, (monday.day + 6) - monday.day) == WeekEnd(today)
  {
    assert (monday.day + 6) - monday.day == 6;
  }

  /** The THIS_MONTH branch of `applyPreset`: `new Date(y, m, 1)` and
      `new Date(y, m + 1, 0)`. */
  method ThisMonthBounds(now: Date) returns (s: string, e: string)
    requires now.Valid()
    ensures s == Format(LocalDateTime(MonthStart(now.value.date), Midnight))
    ensures e == Format(LocalDateTime(MonthEnd(now.value.date), LastMillisecond))
  {
    var y, m := now.value.date.year, now.value.date.month;
    assert m / 12 == 0 && m % 12 == m;
    var first := new Date.FromParts(y, m, 1);
    assert first.value.date == MonthStart(now.value.date);
    var last := new Date.FromParts(y, m + 1, 0);
    DayBeforeNextMonth(ConstructorYear(y), m);
    assert last.value.date == MonthEnd(now.value.date);
    var firstStart := StartOfDay(first);
    var lastEnd := EndOfDay(last);
    s, e := ToIso(firstStart), ToIso(lastEnd);
  }

  /** `applyPreset`: the local start and end bounds it passes to `load`. */
  method ApplyPreset(preset: Preset, now: Date) returns (s: string, e: string)
    requires now.Valid()
    ensures preset == Today ==>
              s == Format(LocalDateTime(now.value.date, Midnight))
              && e == Format(LocalDateTime(now.value.date, LastMillisecond))
    ensures preset == ThisWeek ==>
              s == Format(LocalDateTime(WeekStart(now.value.date), Midnight))
              && e == Format(LocalDateTime(WeekEnd(now.value.date), LastMillisecond))
    ensures preset == ThisMonth ==>
              s == Format(LocalDateTime(MonthStart(now.value.date), Midnight))
              && e == Format(LocalDateTime(MonthEnd(now.value.date), LastMillisecond))
  {
    if preset == Today {
      s, e := TodayBounds(now);
    } else if preset == ThisWeek {
      s, e := ThisWeekBounds(now);
    } else {
      s, e := ThisMonthBounds(now);
    }
  }
}
