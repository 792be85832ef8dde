/**
 * The proleptic Gregorian calendar as Python's `datetime` module counts it: dates as day
 * ordinals (0001-01-01 is day 1), and ISO 8601 week dates, `date.isocalendar` and
 * `date.fromisocalendar`.
 */
module IsoCalendar {
  import opened Results

  const MinYear := 1
  const MaxYear := 9999

  datatype Date = Date(year: int, month: int, day: int)

  predicate IsLeap(year: int) {
    year % 4 == 0 && (year % 100 != 0 || year % 400 == 0)
  }

  function YearLength(year: int): int {
    if IsLeap(year) then 366 else 365
  }

  function DaysInMonth(year: int, month: int): int
    requires 1 <= month <= 12
  {
    if month == 2 then (if IsLeap(year) then 29 else 28)
    else if month in {4, 6, 9, 11} then 30
    else 31
  }

  /** The days of the year before the first of `month`. */
  function DaysBeforeMonth(year: int, month: int): int
    requires 1 <= month <= 12
  {
    [0, 31, 59, 90, 120, 151, 181, 212, 243, 273, 304, 334][month - 1]
      + (if month > 2 && IsLeap(year) then 1 else 0)
  }

  /** The days before January 1 of `year`. */
  function DaysBeforeYear(year: int): int {
    var y := year - 1;
    y * 365 + y / 4 - y / 100 + y / 400
  }

  predicate ValidDate(d: Date) {
    && MinYear <= d.year <= MaxYear
    && 1 <= d.month <= 12
    && 1 <= d.day <= DaysInMonth(d.year, d.month)
  }

  /** The day number of a date (`date.toordinal`). */
  function Ordinal(d: Date): int
    requires 1 <= d.month <= 12
  {
    DaysBeforeYear(d.year) + DaysBeforeMonth(d.year, d.month) + d.day
  }

  /** The day number of 9999-12-31, the last representable date. */
  const MaxOrdinal := 3652059

  /** Day numbers of Mondays leave remainder 1 by 7: 0001-01-01 was a Monday. */
  predicate IsMonday(ordinal: int) {
    ordinal % 7 == 1
  }

  /**
   * The day number of the Monday that starts ISO week 1 of a year whose January 1 is day
   * `firstDay`: the Monday of the week that holds January 4.
   */
  function Week1MondayFrom(firstDay: int): (r: int)
    ensures IsMonday(r)
    ensures firstDay - 3 <= r <= firstDay + 3
  {
    var firstWeekday := (firstDay + 6) % 7;
    var monday := firstDay - firstWeekday;
    if firstWeekday > 3 then monday + 7 else monday
  }

  /** The day number of the Monday that starts ISO week 1 of `year`. */
  function Week1Monday(year: int): (r: int)
    ensures IsMonday(r)
    ensures DaysBeforeYear(year) + 1 - 3 <= r <= DaysBeforeYear(year) + 1 + 3
  {
    Week1MondayFrom(DaysBeforeYear(year) + 1)
  }

  /**
   * The number of ISO weeks of a year whose January 1 is day `firstDay`: 53 when it starts
   * on a Thursday, or on a Wednesday in a leap year, and 52 otherwise.
   */
  function WeeksFrom(firstDay: int, leap: bool): int {
    var firstWeekday := firstDay % 7;
    if firstWeekday == 4 || (firstWeekday == 3 && leap) then 53 else 52
  }

  function WeeksInYear(year: int): int {
    WeeksFrom(DaysBeforeYear(year) + 1, IsLeap(year))
  }

  /** `ordinal` is day `day` (1 = Monday) of ISO week `week` of ISO year `year`. */
  predicate IsIsoWeekDate(ordinal: int, year: int, week: int, day: int) {
    && MinYear <= year <= MaxYear
    && 1 <= week <= WeeksInYear(year)
    && 1 <= day <= 7
    && ordinal == Week1Monday(year) + 7 * (week - 1) + (day - 1)
  }

  /** The `ValueError`s of `date.fromisocalendar`. */
  datatype IsoError =
    | YearOutOfRange(year: int)
    | InvalidWeek(week: int)
    | InvalidWeekday(day: int)
    | DateOutOfRange(ordinal: int)  // the date lies after 9999-12-31

  /**
   * `date.fromisocalendar(year, week, day)`, as a day number: the checks in the order the
   * library makes them, then the offset from the Monday of week 1.
   */
  function FromIsoCalendar(year: int, week: int, day: int): (r: Result<int, IsoError>)
    ensures r.Ok? ==> IsIsoWeekDate(r.value, year, week, day) && 1 <= r.value <= MaxOrdinal
    ensures r.Err? <==>
      || !(MinYear <= year <= MaxYear)
      || !(1 <= week <= WeeksInYear(year))
      || !(1 <= day <= 7)
      || Week1Monday(year) + 7 * (week - 1) + (day - 1) > MaxOrdinal
  {
    if !(MinYear <= year <= MaxYear) then Err(YearOutOfRange(year))
    else if !(0 < week < 53) && !(week == 53 && WeeksInYear(year) == 53) then Err(InvalidWeek(week))
    else if !(0 < day < 8) then Err(InvalidWeekday(day))
    else
      var ordinal := Week1Monday(year) + (week - 1) * 7 + (day - 1);
      if ordinal > MaxOrdinal then Err(DateOutOfRange(ordinal))
      else
        Week1MondayOfFirstYear();
        Week1MondayMonotone(MinYear, year);
        Ok(ordinal)
  }

  /** The ISO year, week and weekday of a date. */
  datatype IsoDate = IsoDate(year: int, week: int, weekday: int)

  /** `date.isocalendar`. */
  function IsoCalendarOf(d: Date): IsoDate
    requires ValidDate(d)
  {
    IsoWeekOf(d.year, Ordinal(d))
  }

  /** The ISO week date of day number `today`, a day of calendar year `year`. */
  function IsoWeekOf(year: int, today: int): IsoDate {
    var week1Monday := Week1Monday(year);
    var week := (today - week1Monday) / 7;
    var day := (today - week1Monday) % 7;
    if week < 0 then
      var prevMonday := Week1Monday(year - 1);
      IsoDate(year - 1, (today - prevMonday) / 7 + 1, (today - prevMonday) % 7 + 1)
    else if week >= 52 && today >= Week1Monday(year + 1) then
      IsoDate(year + 1, 1, day + 1)
    else
      IsoDate(year, week + 1, day + 1)
  }

  // ---------------------------------------------------------------------------------------
  // Calendar arithmetic

  lemma Div4Succ(y: int)
    ensures (y + 1) / 4 == y / 4 + (if (y + 1) % 4 == 0 then 1 else 0)
  {
  }

  lemma Div100Succ(y: int)
    ensures (y + 1) / 100 == y / 100 + (if (y + 1) % 100 == 0 then 1 else 0)
  {
  }

  lemma Div400Succ(y: int)
    ensures (y + 1) / 400 == y / 400 + (if (y + 1) % 400 == 0 then 1 else 0)
  {
  }

  lemma Divisible400Is100(year: int)
    ensures year % 400 == 0 ==> year % 100 == 0
  {
    if year % 400 == 0 {
      var k := year / 400;
      assert year == 100 * (4 * k);
    }
  }

  lemma Divisible100Is4(year: int)
    ensures year % 100 == 0 ==> year % 4 == 0
  {
    if year % 100 == 0 {
      var k := year / 100;
      assert year == 4 * (25 * k);
    }
  }

  /** A year has 365 days, 366 when it is a leap year. */
  lemma YearLengthIsDaysBetween(year: int)
    ensures DaysBeforeYear(year + 1) == DaysBeforeYear(year) + YearLength(year)
  {
    var y := year - 1;
    Div4Succ(y);
    Div100Succ(y);
    Div400Succ(y);
    Divisible400Is100(year);
    Divisible100Is4(year);
    var leap := if IsLeap(year) then 1 else 0;
    assert (y + 1) / 4 - (y + 1) / 100 + (y + 1) / 400 == y / 4 - y / 100 + y / 400 + leap;
  }

  /** The day number of a valid date lies within its year. */
  lemma OrdinalWithinYear(d: Date)
    requires ValidDate(d)
    ensures DaysBeforeYear(d.year) + 1 <= Ordinal(d) <= DaysBeforeYear(d.year) + YearLength(d.year)
  {
  }

  /** Every valid date has a day number from 1 (0001-01-01) to `MaxOrdinal` (9999-12-31). */
  lemma OrdinalInRange(d: Date)
    requires ValidDate(d)
    ensures 1 <= Ordinal(d) <= MaxOrdinal
  {
  }

  /** Week 1 of the next year starts as many weeks later as the year has. */
  lemma ConsecutiveMondays(firstDay: int, leap: bool)
    ensures Week1MondayFrom(firstDay + (if leap then 366 else 365)) ==
              Week1MondayFrom(firstDay) + 7 * WeeksFrom(firstDay, leap)
  {
    var q := (firstDay + 6) / 7;
    var wd := (firstDay + 6) % 7;
    assert firstDay == 7 * q + wd - 6;
  }

  /** The Mondays of week 1 of two consecutive years lie the weeks of the first year apart. */
  lemma WeeksBetweenMondays(year: int)
    ensures Week1Monday(year + 1) == Week1Monday(year) + 7 * WeeksInYear(year)
  {
    YearLengthIsDaysBetween(year);
    ConsecutiveMondays(DaysBeforeYear(year) + 1, IsLeap(year));
  }

  /** Later years start week 1 later. */
  lemma {:induction false} Week1MondayMonotone(year: int, later: int)
    requires year <= later
    ensures Week1Monday(year) <= Week1Monday(later)
    ensures year < later ==> Week1Monday(year + 1) <= Week1Monday(later)
    decreases later - year
  {
    if year < later {
      WeeksBetweenMondays(year);
      Week1MondayMonotone(year + 1, later);
    }
  }

  /** ISO week 1 of year 1 starts on 0001-01-01. */
  lemma Week1MondayOfFirstYear()
    ensures Week1Monday(MinYear) == 1
  {
  }

  /** ISO week 1 of year 10000 starts after the last representable date. */
  lemma Week1MondayAfterLastYear()
    ensures Week1Monday(MaxYear + 1) > MaxOrdinal
  {
  }

  // ---------------------------------------------------------------------------------------
  // ISO week dates

  /** A day number is the week date of at most one (year, week, weekday). */
  lemma IsoWeekDateUnique(ordinal: int, y1: int, w1: int, d1: int, y2: int, w2: int, d2: int)
    requires IsIsoWeekDate(ordinal, y1, w1, d1) && IsIsoWeekDate(ordinal, y2, w2, d2)
    ensures y1 == y2 && w1 == w2 && d1 == d2
  {
    WeeksBetweenMondays(y1);
    WeeksBetweenMondays(y2);
    if y1 < y2 {
      Week1MondayMonotone(y1, y2);
    } else if y2 < y1 {
      Week1MondayMonotone(y2, y1);
    }
  }

  /** A day within the weeks that start at `monday` has its week and weekday by division by 7. */
  lemma WeekWithin(t: int, monday: int, weeks: int)
    requires monday <= t < monday + 7 * weeks
    ensures 1 <= (t - monday) / 7 + 1 <= weeks
    ensures 1 <= (t - monday) % 7 + 1 <= 7
    ensures t == monday + 7 * ((t - monday) / 7) + (t - monday) % 7
  {
  }

  /** A day before week 1 of its calendar year lies in the last ISO week of the year before. */
  lemma IsoWeekOfPreviousYear(year: int, t: int)
    requires MinYear < year <= MaxYear
    requires Week1Monday(year) - 3 <= t < Week1Monday(year)
    ensures var iso := IsoWeekOf(year, t);
      IsIsoWeekDate(t, iso.year, iso.week, iso.weekday)
  {
    var a := Week1Monday(year - 1);
    WeeksBetweenMondays(year - 1);
    assert (t - Week1Monday(year)) / 7 < 0;
    assert IsoWeekOf(year, t) == IsoDate(year - 1, (t - a) / 7 + 1, (t - a) % 7 + 1);
    WeekWithin(t, a, WeeksInYear(year - 1));
  }

  /** Counting from a Monday `weeks` weeks earlier gives the same weekday. */
  lemma ShiftByWeeks(t: int, b: int, c: int, weeks: int)
    requires c == b + 7 * weeks && c <= t <= c + 6
    ensures (t - b) / 7 == weeks && (t - b) % 7 == t - c
  {
  }

  /** A day on or after week 1 of the next year lies in week 1 of that year. */
  lemma IsoWeekOfNextYear(year: int, t: int)
    requires MinYear <= year < MaxYear
    requires Week1Monday(year + 1) <= t <= Week1Monday(year + 1) + 6
    ensures var iso := IsoWeekOf(year, t);
      IsIsoWeekDate(t, iso.year, iso.week, iso.weekday)
  {
    var b := Week1Monday(year);
    var c := Week1Monday(year + 1);
    WeeksBetweenMondays(year);
    ShiftByWeeks(t, b, c, WeeksInYear(year));
    assert IsoWeekOf(year, t) == IsoDate(year + 1, 1, t - c + 1);
  }

  /** A day between week 1 of its year and week 1 of the next lies in its own ISO year. */
  lemma IsoWeekOfSameYear(year: int, t: int)
    requires MinYear <= year <= MaxYear
    requires Week1Monday(year) <= t < Week1Monday(year + 1)
    ensures var iso := IsoWeekOf(year, t);
      IsIsoWeekDate(t, iso.year, iso.week, iso.weekday)
  {
    var b := Week1Monday(year);
    WeeksBetweenMondays(year);
    WeekWithin(t, b, WeeksInYear(year));
    assert IsoWeekOf(year, t) == IsoDate(year, (t - b) / 7 + 1, (t - b) % 7 + 1);
  }

  /** `date.isocalendar` returns the ISO week date of the date. */
  lemma IsoCalendarOfIsWeekDate(d: Date)
    requires ValidDate(d)
    ensures var iso := IsoCalendarOf(d);
      IsIsoWeekDate(Ordinal(d), iso.year, iso.week, iso.weekday)
  {
    var y := d.year;
    var t := Ordinal(d);
    OrdinalWithinYear(d);
    YearLengthIsDaysBetween(y);
    if t < Week1Monday(y) {
      if y == MinYear {
        Week1MondayOfFirstYear();
        assert false;
      }
      IsoWeekOfPreviousYear(y, t);
    } else if t >= Week1Monday(y + 1) {
      if y == MaxYear {
        Week1MondayAfterLastYear();
        assert false;
      }
      IsoWeekOfNextYear(y, t);
    } else {
      IsoWeekOfSameYear(y, t);
    }
  }

  /** `fromisocalendar` undoes `isocalendar`: the week date of a date leads back to it. */
  lemma IsoCalendarRoundTrip(d: Date)
    requires ValidDate(d)
    ensures var iso := IsoCalendarOf(d);
      FromIsoCalendar(iso.year, iso.week, iso.weekday) == Ok(Ordinal(d))
  {
    OrdinalInRange(d);
    IsoCalendarOfIsWeekDate(d);
  }

  /** `isocalendar` undoes `fromisocalendar`: the date of a week date has that week date. */
  lemma FromIsoCalendarRoundTrip(year: int, week: int, weekday: int, d: Date)
    requires FromIsoCalendar(year, week, weekday).Ok?
    requires ValidDate(d) && Ordinal(d) == FromIsoCalendar(year, week, weekday).value
    ensures IsoCalendarOf(d) == IsoDate(year, week, weekday)
  {
    IsoCalendarOfIsWeekDate(d);
    var iso := IsoCalendarOf(d);
    IsoWeekDateUnique(Ordinal(d), iso.year, iso.week, iso.weekday, year, week, weekday);
  }
}
