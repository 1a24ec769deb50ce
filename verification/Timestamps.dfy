/**
 The text order that the state database relies on. Every timestamp column holds the
 `isoformat()` text of an aware UTC datetime, and SQL compares those texts byte by byte
 (`fired_at < ?`, `ORDER BY ts DESC`). `isoformat()` leaves the microsecond part out when it
 is zero, so texts of two shapes are compared. The module proves that the comparison still
 is the chronological one.
 */
module Timestamps {

  /** A UTC datetime, field by field. */
  datatype DateTime = DateTime(
    year: int, month: int, day: int,
    hour: int, minute: int, second: int, micro: int)
  {
    predicate Valid() {
      && 1 <= year <= 9999
      && 1 <= month <= 12
      && 1 <= day <= DaysInMonth(year, month)
      && 0 <= hour < 24 && 0 <= minute < 60 && 0 <= second < 60
      && 0 <= micro < 1_000_000
    }
  }

  // ----- Chronological order: microseconds on the proleptic Gregorian calendar

  predicate Leap(y: int) {
    y % 4 == 0 && (y % 100 != 0 || y % 400 == 0)
  }

  function DaysInMonth(y: int, m: int): int
    requires 1 <= m <= 12
  {
    if m == 2 then (if Leap(y) then 29 else 28)
    else if m == 4 || m == 6 || m == 9 || m == 11 then 30
    else 31
  }

  function DaysInYear(y: int): int {
    if Leap(y) then 366 else 365
  }

  /** Days in the years before `y`, counted from year 1. */
  function DaysBeforeYear(y: int): int {
    (y - 1) * 365 + (y - 1) / 4 - (y - 1) / 100 + (y - 1) / 400
  }

  /** Days in the months of year `y` before month `m`. */
  function DaysBeforeMonth(y: int, m: int): int
    requires 1 <= m <= 13
    decreases m
  {
    if m == 1 then 0 else DaysBeforeMonth(y, m - 1) + DaysInMonth(y, m - 1)
  }

  function Ordinal(t: DateTime): int
    requires t.Valid()
  {
    DaysBeforeYear(t.year) + DaysBeforeMonth(t.year, t.month) + t.day
  }

  /** The instant, in microseconds since the start of the calendar. */
  function Instant(t: DateTime): int
    requires t.Valid()
  {
    (((Ordinal(t) * 24 + t.hour) * 60 + t.minute) * 60 + t.second) * 1_000_000 + t.micro
  }

  lemma QuotientSteps(y: int)
    ensures y / 4 - (y - 1) / 4 == if y % 4 == 0 then 1 else 0
    ensures y / 100 - (y - 1) / 100 == if y % 100 == 0 then 1 else 0
    ensures y / 400 - (y - 1) / 400 == if y % 400 == 0 then 1 else 0
  {
  }

  lemma CenturiesAreMultiples(y: int)
    ensures y % 400 == 0 ==> y % 100 == 0
    ensures y % 100 == 0 ==> y % 4 == 0
  {
  }

  lemma YearStep(y: int)
    ensures DaysBeforeYear(y + 1) == DaysBeforeYear(y) + DaysInYear(y)
  {
    QuotientSteps(y);
    CenturiesAreMultiples(y);
  }

  lemma {:induction false} YearsAreOrdered(y: int, z: int)
    requires y < z
    ensures DaysBeforeYear(y) + DaysInYear(y) <= DaysBeforeYear(z)
    decreases z - y
  {
    YearStep(y);
    if y + 1 < z {
      YearsAreOrdered(y + 1, z);
    }
  }

  lemma {:induction false} MonthsAreOrdered(y: int, m: int, n: int)
    requires 1 <= m < n <= 13
    ensures DaysBeforeMonth(y, m) + DaysInMonth(y, m) <= DaysBeforeMonth(y, n)
    decreases n - m
  {
    if m + 1 < n {
      MonthsAreOrdered(y, m + 1, n);
    }
  }

  lemma YearLength(y: int)
    ensures DaysBeforeMonth(y, 13) == DaysInYear(y)
  {
    var f := DaysInMonth(y, 2);
    assert DaysBeforeMonth(y, 3) == 31 + f;
    assert DaysBeforeMonth(y, 5) == 31 + f + 31 + 30;
    assert DaysBeforeMonth(y, 7) == 31 + f + 31 + 30 + 31 + 30;
    assert DaysBeforeMonth(y, 9) == 31 + f + 31 + 30 + 31 + 30 + 31 + 31;
    assert DaysBeforeMonth(y, 11) == 31 + f + 31 + 30 + 31 + 30 + 31 + 31 + 30 + 31;
  }

  lemma DayOfYearBounds(t: DateTime)
    requires t.Valid()
    ensures 1 <= DaysBeforeMonth(t.year, t.month) + t.day <= DaysInYear(t.year)
  {
    MonthsAreOrdered(t.year, t.month, 13);
    YearLength(t.year);
    if 1 < t.month {
      MonthsAreOrdered(t.year, 1, t.month);
    }
  }

  /** Field-wise order on dates, most significant field first. */
  predicate DateBefore(a: DateTime, b: DateTime) {
    || a.year < b.year
    || (a.year == b.year && a.month < b.month)
    || (a.year == b.year && a.month == b.month && a.day < b.day)
  }

  lemma DateOrder(a: DateTime, b: DateTime)
    requires a.Valid() && b.Valid() && DateBefore(a, b)
    ensures Ordinal(a) < Ordinal(b)
  {
    DayOfYearBounds(a);
    DayOfYearBounds(b);
    if a.year < b.year {
      YearsAreOrdered(a.year, b.year);
    } else if a.month < b.month {
      MonthsAreOrdered(a.year, a.month, b.month);
    }
  }

  // ----- Text order

  /** Byte order on texts, the order of SQLite's default collation. */
  predicate TextLess(a: string, b: string) {
    if b == [] then false
    else if a == [] then true
    else if a[0] != b[0] then a[0] < b[0]
    else TextLess(a[1..], b[1..])
  }

  function Pow10(w: nat): int {
    if w == 0 then 1 else 10 * Pow10(w - 1)
  }

  function Digit(d: int): char
    requires 0 <= d <= 9
  {
    ('0' as int + d) as char
  }

  /** The zero-padded decimal text of `n`, `w` characters wide. */
  function Padded(n: int, w: nat): (s: string)
    requires 0 <= n < Pow10(w)
    ensures |s| == w
    ensures forall i :: 0 <= i < |s| ==> '0' <= s[i] <= '9'
  {
    if w == 0 then "" else Padded(n / 10, w - 1) + [Digit(n % 10)]
  }

  lemma SkipCommon(c: string, s: string, t: string)
    ensures TextLess(c + s, c + t) == TextLess(s, t)
  {
    if c == [] {
      assert c + s == s && c + t == t;
    } else {
      assert (c + s)[1..] == c[1..] + s;
      assert (c + t)[1..] == c[1..] + t;
      SkipCommon(c[1..], s, t);
    }
  }

  lemma Irreflexive(s: string)
    ensures !TextLess(s, s)
  {
  }

  lemma ConsOrder(a: char, b: char, s: string, t: string)
    ensures TextLess([a] + s, [b] + t) <==> a < b || (a == b && TextLess(s, t))
  {
    assert ([a] + s)[1..] == s && ([b] + t)[1..] == t;
  }

  /** Two padded numbers of one width compare as numbers, and the texts after them break a tie. */
  lemma {:induction false} PaddedOrder(n: int, m: int, w: nat, s: string, t: string)
    requires 0 <= n < Pow10(w) && 0 <= m < Pow10(w)
    ensures TextLess(Padded(n, w) + s, Padded(m, w) + t) <==> n < m || (n == m && TextLess(s, t))
  {
    if w == 0 {
      assert Padded(n, w) + s == s && Padded(m, w) + t == t;
    } else {
      var (a, b) := (Digit(n % 10), Digit(m % 10));
      PaddedOrder(n / 10, m / 10, w - 1, [a] + s, [b] + t);
      ConsOrder(a, b, s, t);
      assert Padded(n, w) + s == Padded(n / 10, w - 1) + ([a] + s);
      assert Padded(m, w) + t == Padded(m / 10, w - 1) + ([b] + t);
    }
  }

  // ----- isoformat()

  function Fraction(micro: int): string
    requires 0 <= micro < 1_000_000
  {
    if micro == 0 then "" else "." + Padded(micro, 6)
  }

  function TimeTail(t: DateTime): string
    requires t.Valid()
  {
    Padded(t.second, 2) + (Fraction(t.micro) + "+00:00")
  }

  function ClockText(t: DateTime): string
    requires t.Valid()
  {
    Padded(t.hour, 2) + (":" + (Padded(t.minute, 2) + (":" + TimeTail(t))))
  }

  /** `datetime.isoformat()` of an aware UTC datetime. */
  function IsoFormat(t: DateTime): string
    requires t.Valid()
  {
    Padded(t.year, 4) + ("-" + (Padded(t.month, 2) + ("-" + (Padded(t.day, 2) + ("T" + ClockText(t))))))
  }

  lemma TwoAndTwo(h: string, m: string, tail: string)
    requires |h| == 2 && |m| == 2
    ensures var s := h + (":" + (m + (":" + tail)));
            && |s| == 6 + |tail|
            && s[..2] == h && s[2] == ':' && s[3..5] == m && s[5] == ':' && s[6..] == tail
  {
  }

  lemma ClockShape(t: DateTime)
    requires t.Valid()
    ensures var s := ClockText(t);
            && |s| == (if t.micro == 0 then 14 else 21)
            && s[..2] == Padded(t.hour, 2) && s[2] == ':'
            && s[3..5] == Padded(t.minute, 2) && s[5] == ':' && s[6..] == TimeTail(t)
  {
    TailShape(t);
    TwoAndTwo(Padded(t.hour, 2), Padded(t.minute, 2), TimeTail(t));
  }

  /** Where the fields stand in the text; the microseconds are there only when there are any. */
  lemma IsoShape(t: DateTime)
    requires t.Valid()
    ensures var s := IsoFormat(t);
            && |s| == (if t.micro == 0 then 25 else 32)
            && s[..4] == Padded(t.year, 4) && s[4] == '-' && s[5..7] == Padded(t.month, 2) && s[7] == '-'
            && s[8..10] == Padded(t.day, 2) && s[10] == 'T' && s[11..] == ClockText(t)
  {
    ClockShape(t);
    DateShape(Padded(t.year, 4), Padded(t.month, 2), Padded(t.day, 2), ClockText(t));
  }

  lemma DateShape(y: string, m: string, d: string, clock: string)
    requires |y| == 4 && |m| == 2 && |d| == 2
    ensures var s := y + ("-" + (m + ("-" + (d + ("T" + clock)))));
            && |s| == 11 + |clock|
            && s[..4] == y && s[4] == '-' && s[5..7] == m && s[7] == '-' && s[8..10] == d && s[10] == 'T'
            && s[11..] == clock
  {
  }

  lemma TailShape(t: DateTime)
    requires t.Valid()
    ensures var s := TimeTail(t);
            && |s| == (if t.micro == 0 then 8 else 15)
            && s[..2] == Padded(t.second, 2) && s[|s| - 6..] == "+00:00"
            && (t.micro != 0 ==> s[2] == '.' && s[3..9] == Padded(t.micro, 6))
  {
  }

  lemma FractionOrder(a: int, b: int)
    requires 0 <= a < 1_000_000 && 0 <= b < 1_000_000
    ensures TextLess(Fraction(a) + "+00:00", Fraction(b) + "+00:00") <==> a < b
  {
    var z := "+00:00";
    if a > 0 && b > 0 {
      assert Fraction(a) + z == "." + (Padded(a, 6) + z);
      assert Fraction(b) + z == "." + (Padded(b, 6) + z);
      SkipCommon(".", Padded(a, 6) + z, Padded(b, 6) + z);
      PaddedOrder(a, b, 6, z, z);
      Irreflexive(z);
    } else if a == 0 && b == 0 {
      assert Fraction(a) + z == z;
      Irreflexive(z);
    } else if a == 0 {
      assert (Fraction(a) + z)[0] == '+' && (Fraction(b) + z)[0] == '.';
    } else {
      assert (Fraction(a) + z)[0] == '.' && (Fraction(b) + z)[0] == '+';
    }
  }

  predicate ClockBefore(a: DateTime, b: DateTime) {
    || a.hour < b.hour
    || (a.hour == b.hour && a.minute < b.minute)
    || (a.hour == b.hour && a.minute == b.minute && a.second < b.second)
    || (a.hour == b.hour && a.minute == b.minute && a.second == b.second && a.micro < b.micro)
  }

  lemma ClockTextOrder(a: DateTime, b: DateTime)
    requires a.Valid() && b.Valid()
    ensures TextLess(ClockText(a), ClockText(b)) <==> ClockBefore(a, b)
  {
    var z := "+00:00";
    var (fa, fb) := (Fraction(a.micro) + z, Fraction(b.micro) + z);
    FractionOrder(a.micro, b.micro);
    PaddedOrder(a.second, b.second, 2, fa, fb);
    SkipCommon(":", TimeTail(a), TimeTail(b));
    var (ma, mb) := (":" + TimeTail(a), ":" + TimeTail(b));
    PaddedOrder(a.minute, b.minute, 2, ma, mb);
    var (na, nb) := (Padded(a.minute, 2) + ma, Padded(b.minute, 2) + mb);
    SkipCommon(":", na, nb);
    PaddedOrder(a.hour, b.hour, 2, ":" + na, ":" + nb);
  }

  lemma IsoTextOrder(a: DateTime, b: DateTime)
    requires a.Valid() && b.Valid()
    ensures TextLess(IsoFormat(a), IsoFormat(b)) <==>
            DateBefore(a, b) || (a.year == b.year && a.month == b.month && a.day == b.day && ClockBefore(a, b))
  {
    ClockTextOrder(a, b);
    var (ta, tb) := ("T" + ClockText(a), "T" + ClockText(b));
    SkipCommon("T", ClockText(a), ClockText(b));
    PaddedOrder(a.day, b.day, 2, ta, tb);
    var (da, db) := (Padded(a.day, 2) + ta, Padded(b.day, 2) + tb);
    SkipCommon("-", da, db);
    PaddedOrder(a.month, b.month, 2, "-" + da, "-" + db);
    var (ma, mb) := (Padded(a.month, 2) + ("-" + da), Padded(b.month, 2) + ("-" + db));
    SkipCommon("-", ma, mb);
    PaddedOrder(a.year, b.year, 4, "-" + ma, "-" + mb);
  }

  /** Text order is time order, for texts with and without the microsecond part. */
  lemma TextOrderIsTimeOrder(a: DateTime, b: DateTime)
    requires a.Valid() && b.Valid()
    ensures TextLess(IsoFormat(a), IsoFormat(b)) <==> Instant(a) < Instant(b)
  {
    IsoTextOrder(a, b);
    if DateBefore(a, b) { DateOrder(a, b); }
    if DateBefore(b, a) { DateOrder(b, a); }
  }

  /** Equal texts name equal instants and equal datetimes: the text is a key. */
  lemma IsoFormatIsInjective(a: DateTime, b: DateTime)
    requires a.Valid() && b.Valid()
    ensures IsoFormat(a) == IsoFormat(b) <==> a == b
    ensures a == b <==> Instant(a) == Instant(b)
  {
    IsoTextOrder(a, b);
    IsoTextOrder(b, a);
    TextOrderIsTimeOrder(a, b);
    TextOrderIsTimeOrder(b, a);
    if IsoFormat(a) == IsoFormat(b) {
      Irreflexive(IsoFormat(a));
    }
  }
}
