/** Instants as text: 'YYYY-MM-DD HH:MM:SS' in UTC, compared as text and read back. */
module TimeText {
  import opened Common
  import opened Text
  import opened Calendar

  function Pad2(n: int): string
    requires 0 <= n < 100
  {
    [Digit(n / 10), Digit(n % 10)]
  }

  function Pad4(n: int): string
    requires 0 <= n < 10000
  {
    Pad2(n / 100) + Pad2(n % 100)
  }

  /** toISOString().slice(0, 19).replace('T', ' '): years outside 0 to 9999 are written with a sign and
      six digits there, so the seconds fall off the end. */
  function StampText(t: Stamp): string
    requires OfDay(t) && -1000000 < t.date.year < 1000000
  {
    var y := t.date.year;
    DaysAreSmall(t.date);
    var months := "-" + Pad2(t.date.month) + "-" + Pad2(t.date.day);
    if 0 <= y < 10000 then Pad4(y) + months + " " + Pad2(t.hour) + ":" + Pad2(t.minute) + ":" + Pad2(t.second)
    else
      var n := if y < 0 then -y else y;
      (if y < 0 then "-" else "+") + Pad2(n / 10000) + Pad4(n % 10000) + months + " " + Pad2(t.hour) + ":"
        + Pad2(t.minute)
  }

  lemma DaysAreSmall(d: Date)
    requires Real(d)
    ensures d.day < 100
  {
  }

  // The instants a JavaScript Date can hold.
  predicate InRange(ms: int) {
    -8640000000000000 <= ms <= 8640000000000000
  }

  lemma YearInRange(ms: int)
    requires InRange(ms)
    ensures -1000000 < StampOf(SecondOf(ms)).date.year < 1000000
  {
    var d := StampOf(SecondOf(ms)).date;
    var day := SecondOf(ms) / 86400;
    DateOfDay(day);
    WithinYear(d);
    if d.year > 1970 { YearsApart(1970, d.year); }
    if d.year < 1970 { YearsApart(d.year + 1, 1970); }
  }

  function SqlTime(ms: int): string
    requires InRange(ms)
  {
    YearInRange(ms);
    StampOfSecond(SecondOf(ms));
    StampText(StampOf(SecondOf(ms)))
  }

  /** The instant falls in a year written with four digits. */
  predicate FourDigits(ms: int) {
    0 <= StampOf(SecondOf(ms)).date.year < 10000
  }

  // ---------------------------------------------------------------------------- order

  lemma LessAfter(p: string, q: string, x: string, y: string)
    requires |p| == |q|
    ensures Less(p + x, q + y) <==> Less(p, q) || (p == q && Less(x, y))
  {
    if p != "" {
      LessAfter(p[1..], q[1..], x, y);
      assert (p + x)[1..] == p[1..] + x && (q + y)[1..] == q[1..] + y;
      assert p == q <==> p[0] == q[0] && p[1..] == q[1..];
    } else {
      assert p + x == x && q + y == y;
    }
  }

  lemma DigitOrder(a: int, b: int)
    requires 0 <= a < 10 && 0 <= b < 10
    ensures Digit(a) < Digit(b) <==> a < b
    ensures Digit(a) == Digit(b) <==> a == b
  {
  }

  lemma Pad2Order(a: int, b: int)
    requires 0 <= a < 100 && 0 <= b < 100
    ensures Less(Pad2(a), Pad2(b)) <==> a < b
    ensures Pad2(a) == Pad2(b) <==> a == b
  {
    DigitOrder(a / 10, b / 10);
    DigitOrder(a % 10, b % 10);
    assert Pad2(a)[1..] == [Digit(a % 10)] && Pad2(b)[1..] == [Digit(b % 10)];
    assert Pad2(a)[0] == Digit(a / 10) && Pad2(b)[0] == Digit(b / 10);
    assert Less([Digit(a % 10)], [Digit(b % 10)]) <==> a % 10 < b % 10;
  }

  lemma Pad4Order(a: int, b: int)
    requires 0 <= a < 10000 && 0 <= b < 10000
    ensures Less(Pad4(a), Pad4(b)) <==> a < b
    ensures Pad4(a) == Pad4(b) <==> a == b
  {
    Pad2Order(a / 100, b / 100);
    Pad2Order(a % 100, b % 100);
    LessAfter(Pad2(a / 100), Pad2(b / 100), Pad2(a % 100), Pad2(b % 100));
    assert Pad4(a)[..2] == Pad2(a / 100) && Pad4(a)[2..] == Pad2(a % 100);
    assert Pad4(b)[..2] == Pad2(b / 100) && Pad4(b)[2..] == Pad2(b % 100);
  }

  /** Two digits, a separator, and what follows. */
  lemma FieldOrder(a: int, b: int, separator: string, x: string, y: string)
    requires 0 <= a < 100 && 0 <= b < 100
    ensures Less(separator + Pad2(a) + x, separator + Pad2(b) + y) <==> a < b || (a == b && Less(x, y))
  {
    Pad2Order(a, b);
    LessAfter(Pad2(a), Pad2(b), x, y);
    Same(separator);
    LessAfter(separator, separator, Pad2(a) + x, Pad2(b) + y);
    assert separator + Pad2(a) + x == separator + (Pad2(a) + x) && separator + Pad2(b) + y == separator + (Pad2(b) + y);
  }

  lemma Same(p: string)
    ensures !Less(p, p)
  {
  }

  function ClockText(t: Stamp): string
    requires OfDay(t)
  {
    " " + Pad2(t.hour) + (":" + Pad2(t.minute) + (":" + Pad2(t.second) + ""))
  }

  lemma ClockOrder(s: Stamp, t: Stamp, x: string, y: string)
    requires OfDay(s) && OfDay(t)
    ensures Less(ClockText(s) + x, ClockText(t) + y) <==>
            s.hour < t.hour || (s.hour == t.hour && (s.minute < t.minute
              || (s.minute == t.minute && (s.second < t.second || (s.second == t.second && Less(x, y))))))
  {
    var s3, t3 := ":" + Pad2(s.second) + x, ":" + Pad2(t.second) + y;
    var s2, t2 := ":" + Pad2(s.minute) + s3, ":" + Pad2(t.minute) + t3;
    FieldOrder(s.second, t.second, ":", x, y);
    FieldOrder(s.minute, t.minute, ":", s3, t3);
    FieldOrder(s.hour, t.hour, " ", s2, t2);
    hide Less, Pad2;
    assert ClockText(s) + x == " " + Pad2(s.hour) + s2;
    assert ClockText(t) + y == " " + Pad2(t.hour) + t2;
  }

  function DayText(d: Date): string
    requires Real(d) && 0 <= d.year < 10000
  {
    DaysAreSmall(d);
    Pad4(d.year) + ("-" + Pad2(d.month) + ("-" + Pad2(d.day)))
  }

  lemma DayOrder(d: Date, e: Date, x: string, y: string)
    requires Real(d) && Real(e) && 0 <= d.year < 10000 && 0 <= e.year < 10000
    ensures Less(DayText(d) + x, DayText(e) + y) <==> Earlier(d, e) || (d == e && Less(x, y))
  {
    DaysAreSmall(d);
    DaysAreSmall(e);
    var d2, e2 := "-" + Pad2(d.day) + x, "-" + Pad2(e.day) + y;
    var d1, e1 := "-" + Pad2(d.month) + d2, "-" + Pad2(e.month) + e2;
    FieldOrder(d.day, e.day, "-", x, y);
    FieldOrder(d.month, e.month, "-", d2, e2);
    Pad4Order(d.year, e.year);
    LessAfter(Pad4(d.year), Pad4(e.year), d1, e1);
    hide Less, Pad2, Pad4;
    assert DayText(d) + x == Pad4(d.year) + d1;
    assert DayText(e) + y == Pad4(e.year) + e1;
  }

  lemma TextParts(t: Stamp)
    requires OfDay(t) && 0 <= t.date.year < 10000
    ensures StampText(t) == DayText(t.date) + ClockText(t) && |StampText(t)| == 19 && |DayText(t.date)| == 10
  {
    DaysAreSmall(t.date);
    hide Pad2, Pad4;
    assert |Pad4(t.date.year)| == 4 by { Widths(t.date.year % 100, t.date.year); }
    Widths(t.date.month, 0);
    Widths(t.date.day, 0);
    Widths(t.hour, 0);
    Widths(t.minute, 0);
    Widths(t.second, 0);
  }

  lemma Widths(a: int, b: int)
    requires 0 <= a < 100 && 0 <= b < 10000
    ensures |Pad2(a)| == 2 && |Pad4(b)| == 4
  {
  }

  /** In years 0 to 9999 the text compares as the seconds do, whatever is written after it. */
  lemma TextOrder(a: int, b: int, x: string, y: string)
    requires InRange(a) && InRange(b) && FourDigits(a) && FourDigits(b)
    ensures Less(SqlTime(a) + x, SqlTime(b) + y) <==>
              SecondOf(a) < SecondOf(b) || (SecondOf(a) == SecondOf(b) && Less(x, y))
    ensures SqlTime(a) == SqlTime(b) <==> SecondOf(a) == SecondOf(b)
  {
    var s, t := StampOf(SecondOf(a)), StampOf(SecondOf(b));
    StampOfSecond(SecondOf(a));
    StampOfSecond(SecondOf(b));
    SoonerIff(SecondOf(a), SecondOf(b));
    SoonerIff(SecondOf(b), SecondOf(a));
    TextParts(s);
    TextParts(t);
    hide StampOf, SecondOf, StampText, DayText, ClockText;
    StampOrder(s, t, x, y);
    assert SqlTime(a) == SqlTime(b) ==> s == t by {
      if SqlTime(a) == SqlTime(b) {
        StampOrder(s, t, "", "");
        StampOrder(t, s, "", "");
        Same(SqlTime(a) + "");
      }
    }
  }

  lemma StampOrder(s: Stamp, t: Stamp, x: string, y: string)
    requires OfDay(s) && OfDay(t) && 0 <= s.date.year < 10000 && 0 <= t.date.year < 10000
    ensures Less(StampText(s) + x, StampText(t) + y) <==> Sooner(s, t) || (s == t && Less(x, y))
  {
    TextParts(s);
    TextParts(t);
    DayOrder(s.date, t.date, ClockText(s) + x, ClockText(t) + y);
    ClockOrder(s, t, x, y);
    hide Less, DayText, ClockText, StampText, Earlier;
    assert DayText(s.date) + ClockText(s) + x == DayText(s.date) + (ClockText(s) + x);
    assert DayText(t.date) + ClockText(t) + y == DayText(t.date) + (ClockText(t) + y);
  }

  /** From year 10000 on the text starts with a sign and so comes before all others. */
  lemma FarTextIsFirst(a: int, far: int, x: string)
    requires InRange(a) && InRange(far) && FourDigits(a) && StampOf(SecondOf(far)).date.year >= 10000
    ensures !Less(SqlTime(a) + x, SqlTime(far))
  {
    var s, t := StampOf(SecondOf(a)), StampOf(SecondOf(far));
    StampOfSecond(SecondOf(a));
    StampOfSecond(SecondOf(far));
    YearInRange(far);
    hide StampOf, SecondOf;
    FirstDigit(s, x);
    FirstSign(t);
    assert (SqlTime(a) + x)[0] > SqlTime(far)[0];
  }

  lemma FirstDigit(s: Stamp, x: string)
    requires OfDay(s) && 0 <= s.date.year < 10000
    ensures StampText(s) != "" && '0' <= (StampText(s) + x)[0] <= '9'
  {
    TextParts(s);
    assert StampText(s)[0] == Digit(s.date.year / 100 / 10);
  }

  lemma FirstSign(t: Stamp)
    requires OfDay(t) && 10000 <= t.date.year < 1000000
    ensures StampText(t) != "" && StampText(t)[0] == '+'
  {
  }

  // ---------------------------------------------------------------------------- reading it back

  function DigitOf(c: char): Option<int> {
    if '0' <= c <= '9' then Some(c as int - '0' as int) else None
  }

  function Two(s: string): Option<int>
    requires |s| == 2
  {
    var a, b := DigitOf(s[0]), DigitOf(s[1]);
    if a.Some? && b.Some? then Some(10 * a.value + b.value) else None
  }

  /** Date.parse of the first 19 characters with T for the blank and Z behind, in seconds. */
  function Parse(text: string): Option<int> {
    if |text| < 19 || text[4] != '-' || text[7] != '-' || text[10] != ' ' || text[13] != ':'
      || text[16] != ':' then None
    else
      var c, y := Two(text[0..2]), Two(text[2..4]);
      var mo, d := Two(text[5..7]), Two(text[8..10]);
      var h, mi, s := Two(text[11..13]), Two(text[14..16]), Two(text[17..19]);
      if c == None || y == None || mo == None || d == None || h == None || mi == None || s == None then None
      else
        var t := Stamp(Date(100 * c.value + y.value, mo.value, d.value), h.value, mi.value, s.value);
        if OfDay(t) || (OfDay(t.(hour := 0)) && t.hour == 24 && t.minute == 0 && t.second == 0) then Some(SecondAt(t))
          else None
  }

  lemma TwoPad(n: int)
    requires 0 <= n < 100
    ensures |Pad2(n)| == 2 && Two(Pad2(n)) == Some(n)
  {
  }

  /** In years 0 to 9999 the text reads back as the second it was written for, whatever follows it. */
  lemma ParseReadsBack(ms: int, x: string)
    requires InRange(ms) && FourDigits(ms)
    ensures Parse(SqlTime(ms) + x) == Some(SecondOf(ms))
  {
    var t := StampOf(SecondOf(ms));
    StampOfSecond(SecondOf(ms));
    hide StampOf, SecondOf;
    StampReadsBack(t, x);
  }

  lemma StampReadsBack(t: Stamp, x: string)
    requires OfDay(t) && 0 <= t.date.year < 10000
    ensures Parse(StampText(t) + x) == Some(SecondAt(t))
  {
    var text := StampText(t) + x;
    DaysAreSmall(t.date);
    Slots(t, x);
    TwoPad(t.date.year / 100);
    TwoPad(t.date.year % 100);
    TwoPad(t.date.month);
    TwoPad(t.date.day);
    TwoPad(t.hour);
    TwoPad(t.minute);
    TwoPad(t.second);
    hide Two, Pad2, StampText, Real, DayOf;
    assert t == Stamp(Date(100 * (t.date.year / 100)
             + t.date.year % 100, t.date.month, t.date.day), t.hour, t.minute, t.second);
  }

  lemma Slots(t: Stamp, x: string)
    requires OfDay(t) && 0 <= t.date.year < 10000 && t.date.day < 100
    ensures var text := StampText(t) + x;
            && |text| >= 19 && text[4] == '-' && text[7] == '-' && text[10] == ' ' && text[13] == ':' && text[16] == ':'
            && text[0..2] == Pad2(t.date.year / 100) && text[2..4] == Pad2(t.date.year % 100)
            && text[5..7] == Pad2(t.date.month) && text[8..10] == Pad2(t.date.day)
            && text[11..13] == Pad2(t.hour) && text[14..16] == Pad2(t.minute) && text[17..19] == Pad2(t.second)
  {
    var c, y, mo, d, h, mi, s := Pad2(t.date.year / 100), Pad2(t.date.year % 100), Pad2(t.date.month),
      Pad2(t.date.day), Pad2(t.hour), Pad2(t.minute), Pad2(t.second);
    Lengths(t);
    assert StampText(t) + x == c + y + "-" + mo + "-" + d + " " + h + ":" + mi + ":" + s + x;
    hide Pad2, StampText;
  }

  lemma Lengths(t: Stamp)
    requires OfDay(t) && 0 <= t.date.year < 10000 && t.date.day < 100
    ensures |Pad2(t.date.year / 100)| == |Pad2(t.date.year % 100)| == |Pad2(t.date.month)| == |Pad2(t.date.day)| == 2
    ensures |Pad2(t.hour)| == |Pad2(t.minute)| == |Pad2(t.second)| == 2
  {
  }
}
