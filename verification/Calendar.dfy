/** Dates and instants as JavaScript's Date keeps them (ECMAScript, "Time Values and Time Range"), and the
    'YYYY-MM-DD HH:MM:SS' UTC text the database stores. */
module Calendar {
  import opened Common
  import opened Text

  datatype Date = Date(year: int, month: int, day: int)

  predicate Leap(y: int) {
    y % 4 == 0 && (y % 100 != 0 || y % 400 == 0)
  }

  /** Days from 1970-01-01 to the first day of a year. */
  function DayFromYear(y: int): int {
    365 * (y - 1970) + (y - 1969) / 4 - (y - 1901) / 100 + (y - 1601) / 400
  }

  /** Days in a year before its month m (m = 13: all of them). */
  function MonthStart(leap: bool, m: int): int {
    var one := if leap then 1 else 0;
    if m <= 1 then 0 else if m == 2 then 31
    else
      one +
      if m == 3 then 59 else if m == 4 then 90 else if m == 5 then 120 else if m == 6 then 151 else if m == 7 then 181
      else if m == 8 then 212 else if m == 9 then 243 else if m == 10 then 273 else if m == 11 then 304
      else if m == 12 then 334 else 365
  }

  function DaysIn(y: int, m: int): int {
    MonthStart(Leap(y), m + 1) - MonthStart(Leap(y), m)
  }

  /** A day of the calendar. */
  predicate Real(d: Date) {
    1 <= d.month <= 12 && 1 <= d.day <= DaysIn(d.year, d.month)
  }

  function DayOf(d: Date): int {
    DayFromYear(d.year) + MonthStart(Leap(d.year), d.month) + d.day - 1
  }

  lemma YearLength(y: int)
    ensures DayFromYear(y + 1) == DayFromYear(y) + if Leap(y) then 366 else 365
  {
    Quotient(y, 4, 1969);
    Quotient(y, 100, 1901);
    Quotient(y, 400, 1601);
  }

  lemma Quotient(y: int, n: int, offset: int)
    requires (n == 4 && offset == 1969) || (n == 100 && offset == 1901) || (n == 400 && offset == 1601)
    ensures (y + 1 - offset) / n == (y - offset) / n + if y % n == 0 then 1 else 0
  {
  }

  lemma {:induction false} YearsApart(y: int, z: int)
    requires y <= z
    ensures DayFromYear(z) - DayFromYear(y) >= 365 * (z - y)
    decreases z - y
  {
    if y < z {
      YearsApart(y, z - 1);
      YearLength(z - 1);
    }
  }

  /** The year a day falls in, looked for from year y on. */
  function YearFrom(day: int, y: int): (r: int)
    ensures DayFromYear(r) <= day < DayFromYear(r + 1)
    decreases if day < DayFromYear(y) then DayFromYear(y) - day
              else if day >= DayFromYear(y + 1) then day - DayFromYear(y) + 1 else 0
  {
    YearLength(y - 1);
    YearLength(y);
    YearLength(y + 1);
    if day < DayFromYear(y) then YearFrom(day, y - 1)
    else if day >= DayFromYear(y + 1) then YearFrom(day, y + 1)
    else y
  }

  function MonthAt(leap: bool, dayOfYear: int, m: int): (r: int)
    requires 1 <= m <= 12 && MonthStart(leap, m) <= dayOfYear < MonthStart(leap, 13)
    ensures m <= r <= 12 && MonthStart(leap, r) <= dayOfYear < MonthStart(leap, r + 1)
    decreases 12 - m
  {
    if dayOfYear < MonthStart(leap, m + 1) then m else MonthAt(leap, dayOfYear, m + 1)
  }

  function DateOf(day: int): Date {
    var y := YearFrom(day, 1970);
    YearLength(y);
    var m := MonthAt(Leap(y), day - DayFromYear(y), 1);
    Date(y, m, day - DayFromYear(y) - MonthStart(Leap(y), m) + 1)
  }

  /** Day numbers and days of the calendar are one to one. */
  lemma DateOfDay(day: int)
    ensures Real(DateOf(day)) && DayOf(DateOf(day)) == day
  {
    YearLength(DateOf(day).year);
  }

  lemma DayOfDate(d: Date)
    requires Real(d)
    ensures DateOf(DayOf(d)) == d
  {
    var e := DateOf(DayOf(d));
    DateOfDay(DayOf(d));
    if Earlier(d, e) { EarlierDays(d, e); }
    if Earlier(e, d) { EarlierDays(e, d); }
  }

  predicate Earlier(a: Date, b: Date) {
    a.year < b.year || (a.year == b.year && (a.month < b.month || (a.month == b.month && a.day < b.day)))
  }

  lemma EarlierDays(a: Date, b: Date)
    requires Real(a) && Real(b) && Earlier(a, b)
    ensures DayOf(a) < DayOf(b)
  {
    hide DayFromYear;
    if a.year < b.year {
      WithinYear(a);
      WithinYear(b);
      YearsApart(a.year + 1, b.year);
    } else if a.month < b.month {
      MonthsGrow(Leap(a.year), a.month + 1, b.month);
    }
  }

  lemma WithinYear(d: Date)
    requires Real(d)
    ensures DayFromYear(d.year) <= DayOf(d) < DayFromYear(d.year + 1)
  {
    YearLength(d.year);
    MonthsGrow(Leap(d.year), d.month + 1, 13);
  }

  lemma MonthsGrow(leap: bool, m: int, n: int)
    requires 1 <= m <= n <= 13
    ensures MonthStart(leap, m) <= MonthStart(leap, n)
  {
  }

  /** The Gregorian calendar's month lengths, and the day after one. */
  function MonthLength(y: int, m: int): int {
    if m == 4 || m == 6 || m == 9 || m == 11 then 30
    else if m != 2 then 31
    else if y % 4 == 0 && (y % 100 != 0 || y % 400 == 0) then 29 else 28
  }

  function DayAfterDate(d: Date): Date {
    if d.day < MonthLength(d.year, d.month) then Date(d.year, d.month, d.day + 1)
    else if d.month < 12 then Date(d.year, d.month + 1, 1)
    else Date(d.year + 1, 1, 1)
  }

  /** The days follow one another as the calendar has them... */
  lemma DaysFollow(day: int)
    ensures DateOf(day + 1) == DayAfterDate(DateOf(day))
  {
    hide DateOf, DayOf, Real, DayAfterDate;
    DateOfDay(day);
    NextIsReal(DateOf(day));
    DayOfDate(DayAfterDate(DateOf(day)));
  }

  /** ... and day 0 is the first of 1970. */
  lemma DaysBegin(day: int)
    requires day == 0
    ensures DateOf(day) == Date(1970, 1, 1)
  {
    hide DateOf, DayOf, Real;
    EpochDay();
    DayOfDate(Date(1970, 1, 1));
  }

  lemma EpochDay()
    ensures Real(Date(1970, 1, 1)) && DayOf(Date(1970, 1, 1)) == 0
  {
  }

  lemma NextIsReal(d: Date)
    requires Real(d)
    ensures Real(DayAfterDate(d)) && DayOf(DayAfterDate(d)) == DayOf(d) + 1
  {
    YearLength(d.year);
    LengthsAgree(d.year, d.month);
    if d.day < MonthLength(d.year, d.month) || d.month < 12 {
      if d.month < 12 { LengthsAgree(d.year, d.month + 1); }
      hide DayFromYear, MonthLength, Leap;
    } else {
      hide DayFromYear, MonthLength, Leap;
      assert MonthStart(Leap(d.year), 13) == MonthStart(Leap(d.year), 12) + d.day;
    }
  }

  lemma LengthsAgree(y: int, m: int)
    requires 1 <= m <= 12
    ensures DaysIn(y, m) == MonthLength(y, m) >= 1
  {
  }

  // ---------------------------------------------------------------------------- instants

  const MS_A_DAY := 86400000

  /** Date.UTC(y, month - 1, day) in days: months beyond the year and days beyond the month run on, and
      years 0 to 99 mean 1900 to 1999. */
  function UtcDay(y: int, month: int, day: int): int {
    var year := if 0 <= y <= 99 then 1900 + y else y;
    DayOf(Date(year + (month - 1) / 12, (month - 1) % 12 + 1, day))
  }

  datatype Stamp = Stamp(date: Date, hour: int, minute: int, second: int)

  /** The whole second an instant in milliseconds falls in. */
  function SecondOf(ms: int): int {
    ms / 1000
  }

  function StampOf(second: int): Stamp {
    var rest := second % 86400;
    Stamp(DateOf(second / 86400), rest / 3600, rest / 60 % 60, rest % 60)
  }

  function SecondAt(t: Stamp): int {
    DayOf(t.date) * 86400 + t.hour * 3600 + t.minute * 60 + t.second
  }

  predicate OfDay(t: Stamp) {
    Real(t.date) && 0 <= t.hour < 24 && 0 <= t.minute < 60 && 0 <= t.second < 60
  }

  lemma StampOfSecond(second: int)
    ensures OfDay(StampOf(second)) && SecondAt(StampOf(second)) == second
  {
    DateOfDay(second / 86400);
    hide DateOf, DayOf, Real;
    Clock(second % 86400);
  }

  lemma Clock(rest: int)
    requires 0 <= rest < 86400
    ensures 0 <= rest / 3600 < 24 && 0 <= rest / 60 % 60 < 60 && 0 <= rest % 60 < 60
    ensures rest / 3600 * 3600 + rest / 60 % 60 * 60 + rest % 60 == rest
  {
  }

  predicate Sooner(a: Stamp, b: Stamp) {
    Earlier(a.date, b.date) ||
    (a.date == b.date && (a.hour < b.hour || (a.hour == b.hour
    && (a.minute < b.minute || (a.minute == b.minute && a.second < b.second)))))
  }

  lemma SoonerIff(a: int, b: int)
    ensures Sooner(StampOf(a), StampOf(b)) <==> a < b
  {
    StampOfSecond(a);
    StampOfSecond(b);
    var s, t := StampOf(a), StampOf(b);
    hide StampOf;
    if Sooner(s, t) { SoonerSeconds(s, t); }
    if Sooner(t, s) { SoonerSeconds(t, s); }
  }

  lemma SoonerSeconds(s: Stamp, t: Stamp)
    requires OfDay(s) && OfDay(t) && Sooner(s, t)
    ensures SecondAt(s) < SecondAt(t)
  {
    if Earlier(s.date, t.date) { EarlierDays(s.date, t.date); }
    hide DayOf, Real, Earlier;
  }
}
