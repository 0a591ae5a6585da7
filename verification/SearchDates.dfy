/** The dates a search may name, in the searcher's time zone. */
module SearchDates {
  import opened Common
  import opened Text
  import opened Calendar
  import opened TimeText

  // ---------------------------------------------------------------------------- dates

  function DigitsAt(s: string): Option<int>
    requires |s| == 4
  {
    var a, b := Two(s[..2]), Two(s[2..]);
    if a.Some? && b.Some? then Some(100 * a.value + b.value) else None
  }

  /** /^(\d{4})-(\d{2})-(\d{2})$/ */
  function DateShape(value: string): Option<Date> {
    if |value| != 10 || value[4] != '-' || value[7] != '-' then None
    else
      var y, m, d := DigitsAt(value[..4]), Two(value[5..7]), Two(value[8..]);
      if y.Some? && m.Some? && d.Some? then Some(Date(y.value, m.value, d.value)) else None
  }

  const MS_A_MINUTE := 60000

  /** Midnight at the start of a local day, or nothing when Date.UTC makes another day of the numbers. */
  function LocalDayStart(value: string, tz: int): Option<int> {
    var shape := DateShape(value);
    if shape == None then None
    else
      var d := shape.value;
      var day := UtcDay(d.year, d.month, d.day);
      if DateOf(day) != d then None else Some(day * MS_A_DAY + tz * MS_A_MINUTE)
  }

  lemma ShapeIsSmall(value: string)
    ensures DateShape(value).Some? ==> var d := DateShape(value).value;
            0 <= d.year < 10000 && 0 <= d.month < 100 && 0 <= d.day < 100
  {
  }

  /** A date is accepted exactly when it is written in full and is a day of the calendar from the year
      100 on; it then stands for that day's midnight, moved by the time zone. */
  lemma AcceptsRealDays(value: string, tz: int)
    ensures var shape := DateShape(value);
            if shape.Some? && shape.value.year >= 100 && Real(shape.value)
            then LocalDayStart(value, tz) == Some(DayOf(shape.value) * MS_A_DAY + tz * MS_A_MINUTE)
            else LocalDayStart(value, tz) == None
  {
    hide DateShape, UtcDay, DateOf, DayOf, Real;
    var shape := DateShape(value);
    if shape.Some? {
      ShapeIsSmall(value);
      UtcDayKeeps(shape.value);
    }
  }

  lemma UtcDayKeeps(d: Date)
    requires 0 <= d.year < 10000 && 0 <= d.month < 100 && 0 <= d.day < 100
    ensures DateOf(UtcDay(d.year, d.month, d.day)) == d <==> d.year >= 100 && Real(d)
    ensures d.year >= 100 && Real(d) ==> UtcDay(d.year, d.month, d.day) == DayOf(d)
  {
    var day := UtcDay(d.year, d.month, d.day);
    DateOfDay(day);
    if d.year >= 100 && Real(d) {
      UtcDayOfReal(d);
      DayOfDate(d);
    } else if d.year < 100 && Real(d) {
      OldYearsMove(d);
    }
    hide DayOf, UtcDay, DateOf, Real;
  }

  lemma UtcDayOfReal(d: Date)
    requires d.year >= 100 && Real(d)
    ensures UtcDay(d.year, d.month, d.day) == DayOf(d)
  {
    assert (d.month - 1) / 12 == 0 && (d.month - 1) % 12 == d.month - 1;
    hide DayOf, Real;
  }

  /** Years 0 to 99 are taken for 1900 to 1999. */
  lemma OldYearsMove(d: Date)
    requires 0 <= d.year < 100 && 0 <= d.month < 100 && 0 <= d.day < 100 && Real(d)
    ensures DayOf(d) < UtcDay(d.year, d.month, d.day)
  {
    assert (d.month - 1) / 12 == 0 && (d.month - 1) % 12 == d.month - 1;
    hide Real;
    YearsApart(d.year, 1900 + d.year);
    hide DayFromYear;
    LeapShift(d.year, 1900 + d.year, d.month);
    hide MonthStart;
  }

  lemma LeapShift(y: int, z: int, m: int)
    ensures MonthStart(Leap(z), m) >= MonthStart(Leap(y), m) - 1
  {
  }

  // ---------------------------------------------------------------------------- the instants filters name

  /** A day that starts here starts in a year written with four digits; so does the day after it, but
      for the last day of the year 9999 in time zones not ahead of UTC. */
  lemma DayStartsAreFourDigits(value: string, tz: int)
    requires -840 <= tz <= 840 && LocalDayStart(value, tz).Some?
    ensures NamesInstants(DateShape(value), tz, LocalDayStart(value, tz).value)
  {
    hide LocalDayStart, DateShape, Real, DayOf, NamesInstants;
    AcceptsRealDays(value, tz);
    ShapeIsSmall(value);
    DaySpan(DateShape(value).value, tz);
  }

  ghost predicate NamesInstants(shape: Option<Date>, tz: int, start: int) {
    && InRange(start) && FourDigits(start) && start % 1000 == 0
    && InRange(start + MS_A_DAY) && (start + MS_A_DAY) % 1000 == 0
    && (if shape == Some(Date(9999, 12, 31)) && tz >= 0 then StampOf(SecondOf(start + MS_A_DAY)).date.year >= 10000
        else FourDigits(start + MS_A_DAY))
  }

  lemma DaySpan(d: Date, tz: int)
    requires Real(d) && 100 <= d.year < 10000 && -840 <= tz <= 840
    ensures NamesInstants(Some(d), tz, DayOf(d) * MS_A_DAY + tz * MS_A_MINUTE)
  {
    hide Real, DayOf, DayFromYear, FourDigits, StampOf, SecondOf, InRange;
    LastDay(d);
    EpochYears();
    ThatDay(DayOf(d), tz);
    DayAfter(DayOf(d), tz);
  }

  lemma ThatDay(day: int, tz: int)
    requires -840 <= tz <= 840 && DayFromYear(100) <= day < DayFromYear(10000)
    ensures var start := day * MS_A_DAY + tz * MS_A_MINUTE; InRange(start) && FourDigits(start) && start % 1000 == 0
  {
    hide DayFromYear, FourDigits, StampOf, SecondOf, InRange;
    EpochYears();
    YearAt(day, tz);
    Reachable(day, tz);
  }

  lemma DayAfter(day: int, tz: int)
    requires -840 <= tz <= 840 && DayFromYear(100) <= day < DayFromYear(10000)
    ensures var after := day * MS_A_DAY + tz * MS_A_MINUTE + MS_A_DAY;
            && InRange(after) && after % 1000 == 0
            && (if day == DayFromYear(10000) - 1 && tz >= 0 then StampOf(SecondOf(after)).date.year >= 10000
                  else FourDigits(after))
  {
    hide DayFromYear, FourDigits, StampOf, SecondOf, InRange;
    EpochYears();
    NextDay(day, tz);
    YearAt(day + 1, tz);
    Reachable(day + 1, tz);
  }

  lemma NextDay(day: int, tz: int)
    ensures day * MS_A_DAY + tz * MS_A_MINUTE + MS_A_DAY == (day + 1) * MS_A_DAY + tz * MS_A_MINUTE
  {
  }

  lemma Reachable(day: int, tz: int)
    requires -840 <= tz <= 840 && -800000 < day <= 3000000
    ensures InRange(day * MS_A_DAY + tz * MS_A_MINUTE)
  {
  }

  /** The year of a midnight moved by a time zone. */
  lemma YearAt(day: int, tz: int)
    requires -840 <= tz <= 840
    ensures var ms := day * MS_A_DAY + tz * MS_A_MINUTE;
            && ms % 1000 == 0
            && StampOf(SecondOf(ms)).date.year == DateOf(if tz < 0 then day - 1 else day).year
            && (FourDigits(ms) <==> DayFromYear(0) <= (if tz < 0 then day - 1 else day) < DayFromYear(10000))
            && (StampOf(SecondOf(ms)).date.year >= 10000 <==> (if tz < 0 then day - 1 else day) >= DayFromYear(10000))
  {
    var ms := day * MS_A_DAY + tz * MS_A_MINUTE;
    assert ms == 1000 * (day * 86400 + tz * 60);
    assert SecondOf(ms) == day * 86400 + tz * 60;
    assert SecondOf(ms) / 86400 == if tz < 0 then day - 1 else day;
    YearOf(SecondOf(ms) / 86400);
    hide DateOf, DayFromYear;
  }

  lemma EpochYears()
    ensures -800000 < DayFromYear(0) < DayFromYear(100) - 2 && DayFromYear(10000) < 3000000
  {
  }

  lemma LastDay(d: Date)
    requires Real(d) && 100 <= d.year < 10000
    ensures DayFromYear(100) <= DayOf(d) < DayFromYear(10000)
    ensures DayOf(d) == DayFromYear(10000) - 1 <==> d == Date(9999, 12, 31)
  {
    WithinYear(d);
    YearsApart(100, d.year);
    YearsApart(d.year + 1, 10000);
    var e := Date(9999, 12, 31);
    LastOf9999();
    hide DayFromYear, DayOf, Real;
    if DayOf(d) == DayOf(e) {
      DayOfDate(d);
      DayOfDate(e);
    }
  }

  lemma LastOf9999()
    ensures Real(Date(9999, 12, 31)) && DayOf(Date(9999, 12, 31)) == DayFromYear(10000) - 1
  {
    YearLength(9999);
    hide DayFromYear;
  }

  /** Which days have years of four digits. */
  lemma YearOf(day: int)
    ensures 0 <= DateOf(day).year < 10000 <==> DayFromYear(0) <= day < DayFromYear(10000)
    ensures DateOf(day).year >= 10000 <==> day >= DayFromYear(10000)
  {
    DateOfDay(day);
    var d := DateOf(day);
    WithinYear(d);
    hide DayFromYear, DayOf, Real, DateOf;
    if d.year < 0 { YearsApart(d.year + 1, 0); } else { YearsApart(0, d.year); }
    if d.year < 10000 { YearsApart(d.year + 1, 10000); } else { YearsApart(10000, d.year); }
  }
}
