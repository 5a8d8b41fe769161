/**
 Timestamps are stored as the text of `datetime.isoformat()` in UTC and compared as text by SQLite.
 This module proves that the text order is the time order, although `isoformat` drops the fraction
 when the microseconds are zero.
 */
module IsoTime {
  import opened Common

  datatype DateTime = DateTime(year: nat, month: nat, day: nat, hour: nat, minute: nat, second: nat, micro: nat)

  predicate Leap(y: nat) {
    y % 4 == 0 && (y % 100 != 0 || y % 400 == 0)
  }

  function DaysInMonth(y: nat, m: nat): nat {
    if m == 2 then (if Leap(y) then 29 else 28)
    else if m == 4 || m == 6 || m == 9 || m == 11 then 30
    else 31
  }

  /** The values Python's `datetime` can hold: years 1 to 9999. */
  predicate Valid(t: DateTime) {
    && 1 <= t.year <= 9999 && 1 <= t.month <= 12 && 1 <= t.day <= DaysInMonth(t.year, t.month)
    && t.hour < 24 && t.minute < 60 && t.second < 60 && t.micro < 1_000_000
  }

  /** Days of the proleptic Gregorian calendar before January 1st of year y. */
  function DaysBeforeYear(y: nat): int
    requires 1 <= y
  {
    365 * (y - 1) + (y - 1) / 4 - (y - 1) / 100 + (y - 1) / 400
  }

  function DaysBeforeMonth(y: nat, m: nat): nat
    requires 1 <= m
  {
    if m == 1 then 0 else DaysBeforeMonth(y, m - 1) + DaysInMonth(y, m - 1)
  }

  function DayNumber(t: DateTime): int
    requires Valid(t)
  {
    DaysBeforeYear(t.year) + DaysBeforeMonth(t.year, t.month) + t.day
  }

  /** Microseconds on the UTC time line. */
  function Instant(t: DateTime): int
    requires Valid(t)
  {
    (((DayNumber(t) * 24 + t.hour) * 60 + t.minute) * 60 + t.second) * 1_000_000 + t.micro
  }

  // ----- rendering -----

  function Digit(d: nat): char
    requires d < 10
  {
    '0' + d as char
  }

  /** The low `width` decimal digits of n, zero-padded. */
  function Pad(n: nat, width: nat): string {
    if width == 0 then "" else Pad(n / 10, width - 1) + [Digit(n % 10)]
  }

  /** `isoformat`: the fraction is written only when it is not zero. */
  function Fraction(micro: nat): string {
    (if micro == 0 then "" else "." + Pad(micro, 6)) + "+00:00"
  }

  function Field(n: nat, width: nat, rest: string): string {
    Pad(n, width) + rest
  }

  function Clock(t: DateTime): string {
    Field(t.hour, 2, ":" + Field(t.minute, 2, ":" + Field(t.second, 2, Fraction(t.micro))))
  }

  function Iso(t: DateTime): string {
    Field(t.year, 4, "-" + Field(t.month, 2, "-" + Field(t.day, 2, "T" + Clock(t))))
  }

  /** SQLite's BINARY collation on the ASCII text written here. */
  predicate TextLess(a: string, b: string) {
    |b| > 0 && (|a| == 0 || a[0] < b[0] || (a[0] == b[0] && TextLess(a[1..], b[1..])))
  }

  // ----- text order -----

  lemma {:induction false} TextLessConcat(x: string, y: string, u: string, v: string)
    requires |x| == |y|
    ensures TextLess(x + u, y + v) <==> TextLess(x, y) || (x == y && TextLess(u, v))
  {
    if x == [] {
      assert x + u == u && y + v == v;
    } else {
      assert (x + u)[1..] == x[1..] + u && (y + v)[1..] == y[1..] + v;
      TextLessConcat(x[1..], y[1..], u, v);
      assert x == [x[0]] + x[1..] && y == [y[0]] + y[1..];
    }
  }

  lemma {:induction false} PadOrder(a: nat, b: nat, w: nat)
    requires a < Pow10(w) && b < Pow10(w)
    ensures |Pad(a, w)| == |Pad(b, w)| == w
    ensures TextLess(Pad(a, w), Pad(b, w)) <==> a < b
    ensures Pad(a, w) == Pad(b, w) <==> a == b
  {
    if w > 0 {
      PadOrder(a / 10, b / 10, w - 1);
      var da, db := [Digit(a % 10)], [Digit(b % 10)];
      TextLessConcat(Pad(a / 10, w - 1), Pad(b / 10, w - 1), da, db);
      assert TextLess(da, db) <==> a % 10 < b % 10;
      if Pad(a, w) == Pad(b, w) {
        assert Pad(a, w)[..w - 1] == Pad(a / 10, w - 1) && Pad(b, w)[..w - 1] == Pad(b / 10, w - 1);
        assert Pad(a, w)[w - 1] == Digit(a % 10) && Pad(b, w)[w - 1] == Digit(b % 10);
      }
    }
  }

  /** One numeric field decides, and only a tie looks further right. */
  lemma FieldOrder(a: nat, b: nat, w: nat, u: string, v: string)
    requires a < Pow10(w) && b < Pow10(w)
    ensures TextLess(Field(a, w, u), Field(b, w, v)) <==> a < b || (a == b && TextLess(u, v))
  {
    PadOrder(a, b, w);
    TextLessConcat(Pad(a, w), Pad(b, w), u, v);
  }

  lemma Separated(sep: string, u: string, v: string)
    ensures TextLess(sep + u, sep + v) <==> TextLess(u, v)
  {
    TextLessConcat(sep, sep, u, v);
    NotLessThanItself(sep);
  }

  lemma {:induction false} NotLessThanItself(s: string)
    ensures !TextLess(s, s)
  {
    if s != [] {
      NotLessThanItself(s[1..]);
    }
  }

  lemma Powers()
    ensures Pow10(2) == 100 && Pow10(4) == 10_000 && Pow10(6) == 1_000_000
  {
    assert Pow10(1) == 10;
    assert Pow10(3) == 1000;
    assert Pow10(5) == 100_000;
  }

  /** Where '+' sorting before '.' matters: a dropped fraction still sorts first. */
  lemma FractionOrder(a: nat, b: nat)
    requires a < 1_000_000 && b < 1_000_000
    ensures TextLess(Fraction(a), Fraction(b)) <==> a < b
  {
    Powers();
    PadOrder(a, b, 6);
    var zone := "+00:00";
    NotLessThanItself(zone);
    if a != 0 && b != 0 {
      assert Fraction(a) == "." + Field(a, 6, zone) && Fraction(b) == "." + Field(b, 6, zone);
      Separated(".", Field(a, 6, zone), Field(b, 6, zone));
      FieldOrder(a, b, 6, zone, zone);
    } else {
      assert "" + zone == zone;
      assert a == 0 ==> Fraction(a)[0] == '+';
      assert b == 0 ==> Fraction(b)[0] == '+';
      assert a != 0 ==> Fraction(a)[0] == '.';
      assert b != 0 ==> Fraction(b)[0] == '.';
    }
  }

  predicate ClockBefore(a: DateTime, b: DateTime) {
    if a.hour != b.hour then a.hour < b.hour
    else if a.minute != b.minute then a.minute < b.minute
    else if a.second != b.second then a.second < b.second
    else a.micro < b.micro
  }

  predicate DateBefore(a: DateTime, b: DateTime) {
    a.year < b.year || (a.year == b.year && (a.month < b.month || (a.month == b.month && a.day < b.day)))
  }

  predicate SameDate(a: DateTime, b: DateTime) {
    a.year == b.year && a.month == b.month && a.day == b.day
  }

  lemma ClockOrder(a: DateTime, b: DateTime)
    requires Valid(a) && Valid(b)
    ensures TextLess(Clock(a), Clock(b)) <==> ClockBefore(a, b)
  {
    Powers();
    FractionOrder(a.micro, b.micro);
    var sa, sb := Field(a.second, 2, Fraction(a.micro)), Field(b.second, 2, Fraction(b.micro));
    FieldOrder(a.second, b.second, 2, Fraction(a.micro), Fraction(b.micro));
    Separated(":", sa, sb);
    var ma, mb := Field(a.minute, 2, ":" + sa), Field(b.minute, 2, ":" + sb);
    FieldOrder(a.minute, b.minute, 2, ":" + sa, ":" + sb);
    Separated(":", ma, mb);
    FieldOrder(a.hour, b.hour, 2, ":" + ma, ":" + mb);
  }

  lemma TextOrder(a: DateTime, b: DateTime)
    requires Valid(a) && Valid(b)
    ensures TextLess(Iso(a), Iso(b)) <==> DateBefore(a, b) || (SameDate(a, b) && ClockBefore(a, b))
  {
    Powers();
    ClockOrder(a, b);
    Separated("T", Clock(a), Clock(b));
    var da, db := Field(a.day, 2, "T" + Clock(a)), Field(b.day, 2, "T" + Clock(b));
    FieldOrder(a.day, b.day, 2, "T" + Clock(a), "T" + Clock(b));
    Separated("-", da, db);
    var ma, mb := Field(a.month, 2, "-" + da), Field(b.month, 2, "-" + db);
    FieldOrder(a.month, b.month, 2, "-" + da, "-" + db);
    Separated("-", ma, mb);
    FieldOrder(a.year, b.year, 4, "-" + ma, "-" + mb);
  }

  // ----- calendar order -----

  function YearLength(y: nat): nat {
    if Leap(y) then 366 else 365
  }

  lemma LeapCounts(y: nat)
    requires 1 <= y
    ensures y / 4 == (y - 1) / 4 + (if y % 4 == 0 then 1 else 0)
    ensures y / 100 == (y - 1) / 100 + (if y % 100 == 0 then 1 else 0)
    ensures y / 400 == (y - 1) / 400 + (if y % 400 == 0 then 1 else 0)
  {
  }

  lemma Centuries(y: nat)
    ensures y % 400 == 0 ==> y % 100 == 0
    ensures y % 100 == 0 ==> y % 4 == 0
  {
    assert y % 400 == 0 ==> y == 100 * (4 * (y / 400));
    assert y % 100 == 0 ==> y == 4 * (25 * (y / 100));
  }

  lemma NextYear(y: nat)
    requires 1 <= y
    ensures DaysBeforeYear(y + 1) == DaysBeforeYear(y) + YearLength(y)
  {
    LeapCounts(y);
    Centuries(y);
  }

  lemma {:induction false} YearsApart(y: nat, z: nat)
    requires 1 <= y < z
    ensures DaysBeforeYear(y) + YearLength(y) <= DaysBeforeYear(z)
  {
    NextYear(z - 1);
    if y < z - 1 {
      YearsApart(y, z - 1);
    }
  }

  lemma {:induction false} MonthsApart(y: nat, m: nat, n: nat)
    requires 1 <= m < n <= 13
    ensures DaysBeforeMonth(y, m) + DaysInMonth(y, m) <= DaysBeforeMonth(y, n)
  {
    if m < n - 1 {
      MonthsApart(y, m, n - 1);
    }
  }

  lemma MonthsFillTheYear(y: nat)
    ensures DaysBeforeMonth(y, 13) == YearLength(y)
  {
    assert DaysBeforeMonth(y, 2) == 31;
    assert DaysBeforeMonth(y, 3) == 31 + DaysInMonth(y, 2);
    assert DaysBeforeMonth(y, 5) == DaysBeforeMonth(y, 3) + 61;
    assert DaysBeforeMonth(y, 7) == DaysBeforeMonth(y, 5) + 61;
    assert DaysBeforeMonth(y, 9) == DaysBeforeMonth(y, 7) + 62;
    assert DaysBeforeMonth(y, 11) == DaysBeforeMonth(y, 9) + 61;
  }

  lemma DateOrder(a: DateTime, b: DateTime)
    requires Valid(a) && Valid(b) && DateBefore(a, b)
    ensures DayNumber(a) < DayNumber(b)
  {
    MonthsFillTheYear(a.year);
    MonthsApart(a.year, a.month, 13);
    if a.year < b.year {
      YearsApart(a.year, b.year);
    } else if a.month < b.month {
      MonthsApart(a.year, a.month, b.month);
    }
  }

  /** The main result: SQLite's text comparison of two stored stamps is comparison in time. */
  lemma IsoOrderIsTimeOrder(a: DateTime, b: DateTime)
    requires Valid(a) && Valid(b)
    ensures TextLess(Iso(a), Iso(b)) <==> Instant(a) < Instant(b)
  {
    TextOrder(a, b);
    if DateBefore(a, b) {
      DateOrder(a, b);
    } else if DateBefore(b, a) {
      DateOrder(b, a);
    }
  }

  /** Equal text means the same instant, so no stamp is lost by going through text. */
  lemma IsoIsInjective(a: DateTime, b: DateTime)
    requires Valid(a) && Valid(b)
    ensures Iso(a) == Iso(b) <==> a == b
  {
    NotLessThanItself(Iso(a));
    TextOrder(a, b);
    TextOrder(b, a);
  }
}
