/** Proleptic Gregorian dates as Python's `datetime` sees them: validity,
    the day ordinal `toordinal()` returns, and the two textual forms the
    screener reads and writes, `%Y%m%d` (raw file names) and `%Y-%m-%d`
    (canonical file names). */
module Dates {
  import opened Base

  datatype Date = Date(year: int, month: int, day: int)

  predicate IsLeap(y: int) {
    y % 4 == 0 && (y % 100 != 0 || y % 400 == 0)
  }

  function DaysInMonth(y: int, m: int): int
    requires 1 <= m <= 12
  {
    if m == 2 then (if IsLeap(y) then 29 else 28)
    else if m == 4 || m == 6 || m == 9 || m == 11 then 30
    else 31
  }

  /** The dates `datetime` can represent: years 1 to 9999. */
  predicate Valid(d: Date) {
    1 <= d.year <= 9999 && 1 <= d.month <= 12 && 1 <= d.day <= DaysInMonth(d.year, d.month)
  }

  function DaysInYear(y: int): int {
    if IsLeap(y) then 366 else 365
  }

  /** Days in the years before `y`, counting from year 1. */
  function DaysBeforeYear(y: int): int
    requires y >= 1
  {
    var p := y - 1;
    365 * p + p / 4 - p / 100 + p / 400
  }

  /** Days in the months of year `y` before month `m`. */
  function DaysBeforeMonth(y: int, m: int): int
    requires 1 <= m <= 12
  {
    var leap := if m > 2 && IsLeap(y) then 1 else 0;
    leap + (
      if m == 1 then 0 else if m == 2 then 31 else if m == 3 then 59
      else if m == 4 then 90 else if m == 5 then 120 else if m == 6 then 151
      else if m == 7 then 181 else if m == 8 then 212 else if m == 9 then 243
      else if m == 10 then 273 else if m == 11 then 304 else 334)
  }

  /** `date.toordinal()`: 0001-01-01 is day 1. */
  function Ordinal(d: Date): (n: int)
    requires Valid(d)
    ensures n >= 1
  {
    DaysBeforeYear(d.year) + DaysBeforeMonth(d.year, d.month) + d.day
  }

  /** Calendar order: `a` is strictly earlier than `b`. */
  predicate Earlier(a: Date, b: Date) {
    a.year < b.year
    || (a.year == b.year && (a.month < b.month || (a.month == b.month && a.day < b.day)))
  }

  lemma DaysBeforeYearStep(y: int)
    requires y >= 1
    ensures DaysBeforeYear(y + 1) == DaysBeforeYear(y) + DaysInYear(y)
  {
    var p := y - 1;
    assert y / 4 == p / 4 + (if y % 4 == 0 then 1 else 0);
    assert y / 100 == p / 100 + (if y % 100 == 0 then 1 else 0);
    assert y / 400 == p / 400 + (if y % 400 == 0 then 1 else 0);
  }

  lemma {:induction false} DaysBeforeYearGrows(a: int, b: int)
    requires 1 <= a <= b
    ensures DaysBeforeYear(a) + 365 * (b - a) <= DaysBeforeYear(b)
    decreases b - a
  {
    if a < b {
      DaysBeforeYearGrows(a, b - 1);
      DaysBeforeYearStep(b - 1);
    }
  }

  /** A valid date's day-of-year offset stays within its year. */
  lemma DayOfYearBound(d: Date)
    requires Valid(d)
    ensures DaysBeforeMonth(d.year, d.month) + d.day <= DaysInYear(d.year)
  {
  }

  lemma DaysBeforeMonthStep(y: int, m: int)
    requires 1 <= m < 12
    ensures DaysBeforeMonth(y, m) + DaysInMonth(y, m) == DaysBeforeMonth(y, m + 1)
  {
  }

  /** Ordinals follow the calendar: a date is earlier than another exactly
      when its ordinal is smaller, so comparing instants derived from
      ordinals is comparing `datetime` values. */
  lemma OrdinalOrder(a: Date, b: Date)
    requires Valid(a) && Valid(b)
    ensures Earlier(a, b) <==> Ordinal(a) < Ordinal(b)
    ensures a == b <==> Ordinal(a) == Ordinal(b)
  {
    if Earlier(a, b) {
      OrdinalEarlier(a, b);
    } else if Earlier(b, a) {
      OrdinalEarlier(b, a);
    }
  }

  lemma OrdinalEarlier(a: Date, b: Date)
    requires Valid(a) && Valid(b) && Earlier(a, b)
    ensures Ordinal(a) < Ordinal(b)
  {
    if a.year < b.year {
      DayOfYearBound(a);
      DaysBeforeYearStep(a.year);
      DaysBeforeYearGrows(a.year + 1, b.year);
    } else if a.month < b.month {
      MonthsGrow(a.year, a.month, b.month);
    }
  }

  lemma {:induction false} MonthsGrow(y: int, m: int, n: int)
    requires 1 <= m < n <= 12
    ensures DaysBeforeMonth(y, m) + DaysInMonth(y, m) <= DaysBeforeMonth(y, n)
    decreases n - m
  {
    DaysBeforeMonthStep(y, m);
    if m + 1 < n {
      MonthsGrow(y, m + 1, n);
    }
  }

  /* ---- Digits ---- */

  predicate IsDigit(c: char) {
    '0' <= c <= '9'
  }

  predicate AllDigits(s: string) {
    forall i :: 0 <= i < |s| ==> IsDigit(s[i])
  }

  function DigitValue(c: char): (v: int)
    requires IsDigit(c)
    ensures 0 <= v <= 9
  {
    c as int - '0' as int
  }

  function DigitChar(v: int): (c: char)
    requires 0 <= v <= 9
    ensures IsDigit(c) && DigitValue(c) == v
  {
    ('0' as int + v) as char
  }

  lemma DigitRoundTrip(c: char)
    requires IsDigit(c)
    ensures DigitChar(DigitValue(c)) == c
  {
  }

  /** The number written by two decimal digits. */
  function Value2(s: string): (v: int)
    requires |s| == 2 && AllDigits(s)
    ensures 0 <= v <= 99
  {
    10 * DigitValue(s[0]) + DigitValue(s[1])
  }

  /** The number written by four decimal digits. */
  function Value4(s: string): (v: int)
    requires |s| == 4 && AllDigits(s)
    ensures 0 <= v <= 9999
  {
    100 * Value2(s[..2]) + Value2(s[2..])
  }

  /** `%02d`. */
  function Pad2(n: int): (s: string)
    requires 0 <= n <= 99
    ensures |s| == 2 && AllDigits(s)
  {
    [DigitChar(n / 10), DigitChar(n % 10)]
  }

  /** `%04d`. */
  function Pad4(n: int): (s: string)
    requires 0 <= n <= 9999
    ensures |s| == 4 && AllDigits(s)
  {
    Pad2(n / 100) + Pad2(n % 100)
  }

  lemma Pad2RoundTrip(n: int)
    requires 0 <= n <= 99
    ensures Value2(Pad2(n)) == n
  {
  }

  lemma Pad4RoundTrip(n: int)
    requires 0 <= n <= 9999
    ensures Value4(Pad4(n)) == n
  {
    var s := Pad4(n);
    assert s[..2] == Pad2(n / 100) && s[2..] == Pad2(n % 100);
    Pad2RoundTrip(n / 100);
    Pad2RoundTrip(n % 100);
  }

  lemma Value2RoundTrip(s: string)
    requires |s| == 2 && AllDigits(s)
    ensures Pad2(Value2(s)) == s
  {
    DigitRoundTrip(s[0]);
    DigitRoundTrip(s[1]);
  }

  lemma Value4RoundTrip(s: string)
    requires |s| == 4 && AllDigits(s)
    ensures Pad4(Value4(s)) == s
  {
    var a, b := s[..2], s[2..];
    assert AllDigits(a) && AllDigits(b);
    Value2RoundTrip(a);
    Value2RoundTrip(b);
    assert s == a + b;
  }

  /* ---- The two date formats ---- */

  /** `strftime("%Y%m%d")`. */
  function FormatCompact(d: Date): (s: string)
    requires Valid(d)
    ensures |s| == 8 && AllDigits(s)
  {
    Pad4(d.year) + Pad2(d.month) + Pad2(d.day)
  }

  /** `strftime("%Y-%m-%d")`. */
  function FormatDashed(d: Date): (s: string)
    requires Valid(d)
    ensures |s| == 10
  {
    Pad4(d.year) + "-" + Pad2(d.month) + "-" + Pad2(d.day)
  }

  /** `datetime.strptime(s, "%Y%m%d")` for eight ASCII digits naming a real
      date; anything else is a `ValueError`, here `None`. */
  function ParseCompact(s: string): (r: Option<Date>)
    ensures r.Some? ==> Valid(r.value)
  {
    if |s| == 8 && AllDigits(s) then
      var d := Date(Value4(s[..4]), Value2(s[4..6]), Value2(s[6..]));
      if Valid(d) then Some(d) else None
    else None
  }

  /** `datetime.strptime(s, "%Y-%m-%d")` for four, two and two ASCII
      digits separated by dashes and naming a real date. */
  function ParseDashed(s: string): (r: Option<Date>)
    ensures r.Some? ==> Valid(r.value)
  {
    if |s| == 10 && s[4] == '-' && s[7] == '-'
       && AllDigits(s[..4]) && AllDigits(s[5..7]) && AllDigits(s[8..]) then
      var d := Date(Value4(s[..4]), Value2(s[5..7]), Value2(s[8..]));
      if Valid(d) then Some(d) else None
    else None
  }

  /** `%Y%m%d` reads back exactly the eight-digit renderings of valid
      dates, and nothing else. */
  lemma ParseCompactExact(s: string, d: Date)
    ensures ParseCompact(s) == Some(d) <==> Valid(d) && s == FormatCompact(d)
  {
    if Valid(d) && s == FormatCompact(d) {
      assert s[..4] == Pad4(d.year);
      assert s[4..6] == Pad2(d.month);
      assert s[6..] == Pad2(d.day);
      Pad4RoundTrip(d.year);
      Pad2RoundTrip(d.month);
      Pad2RoundTrip(d.day);
    }
    if ParseCompact(s) == Some(d) {
      assert AllDigits(s[..4]) && AllDigits(s[4..6]) && AllDigits(s[6..]);
      Value4RoundTrip(s[..4]);
      Value2RoundTrip(s[4..6]);
      Value2RoundTrip(s[6..]);
      assert s == s[..4] + s[4..6] + s[6..];
    }
  }

  /** `%Y-%m-%d` reads back exactly the dashed renderings of valid dates,
      and nothing else. */
  lemma ParseDashedExact(s: string, d: Date)
    ensures ParseDashed(s) == Some(d) <==> Valid(d) && s == FormatDashed(d)
  {
    if Valid(d) && s == FormatDashed(d) {
      assert s[..4] == Pad4(d.year);
      assert s[5..7] == Pad2(d.month);
      assert s[8..] == Pad2(d.day);
      Pad4RoundTrip(d.year);
      Pad2RoundTrip(d.month);
      Pad2RoundTrip(d.day);
    }
    if ParseDashed(s) == Some(d) {
      Value4RoundTrip(s[..4]);
      Value2RoundTrip(s[5..7]);
      Value2RoundTrip(s[8..]);
      assert s == s[..4] + "-" + s[5..7] + "-" + s[8..];
    }
  }

  /** Neither rendering of a date contains an underscore, and the compact
      one contains no dash. */
  lemma FormatsAvoidSeparators(d: Date)
    requires Valid(d)
    ensures '_' !in FormatCompact(d) && '-' !in FormatCompact(d)
    ensures '_' !in FormatDashed(d)
  {
    var s := FormatCompact(d);
    assert forall c :: c in s ==> IsDigit(c);
    var t := FormatDashed(d);
    assert forall i :: 0 <= i < |t| ==> IsDigit(t[i]) || t[i] == '-';
  }

  /** The dashed rendering is three dash-free fields joined by dashes. */
  lemma DashedFields(d: Date)
    requires Valid(d)
    ensures FormatDashed(d) == Pad4(d.year) + ['-'] + Pad2(d.month) + ['-'] + Pad2(d.day)
    ensures '-' !in Pad4(d.year) && '-' !in Pad2(d.month) && '-' !in Pad2(d.day)
  {
    var y, m, dd := Pad4(d.year), Pad2(d.month), Pad2(d.day);
    assert forall c :: c in y ==> IsDigit(c);
    assert forall c :: c in m ==> IsDigit(c);
    assert forall c :: c in dd ==> IsDigit(c);
  }

  /** Python's own value for 1970-01-01: 719163. */
  lemma EpochOrdinal()
    ensures Ordinal(Date(1970, 1, 1)) == 719163
  {
  }
}
