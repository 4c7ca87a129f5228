/** The proleptic Gregorian calendar in day numbers, as section 21.4.1 of ECMA-262 defines it.
    Day 0 is 1 January 1970. */
module Calendar {

  datatype Date = Date(year: int, month: int, day: int)

  predicate Leap(y: int) { y % 4 == 0 && (y % 100 != 0 || y % 400 == 0) }

  function YearLength(y: int): int { if Leap(y) then 366 else 365 }

  /** The number of the first day of a year. */
  function DayFromYear(y: int): int {
    365 * (y - 1970) + (y - 1969) / 4 - (y - 1901) / 100 + (y - 1601) / 400
  }

  function MonthLength(y: int, m: int): int
    requires 1 <= m <= 12
  {
    if m == 2 then (if Leap(y) then 29 else 28)
    else if m == 4 || m == 6 || m == 9 || m == 11 then 30 else 31
  }

  function DaysBeforeMonth(y: int, m: int): int
    requires 1 <= m <= 13
  {
    if m == 1 then 0
    else if m == 2 then 31
    else
      (if Leap(y) then 1 else 0) +
      if m == 3 then 59 else if m == 4 then 90 else if m == 5 then 120 else if m == 6 then 151
      else if m == 7 then 181 else if m == 8 then 212 else if m == 9 then 243 else if m == 10 then 273
      else if m == 11 then 304 else if m == 12 then 334 else 365
  }

  predicate ValidDate(d: Date) { 1 <= d.month <= 12 && 1 <= d.day <= MonthLength(d.year, d.month) }

  function DayNumber(d: Date): int
    requires 1 <= d.month <= 12
  {
    DayFromYear(d.year) + DaysBeforeMonth(d.year, d.month) + d.day - 1
  }

  function Weekday(n: int): int { (n + 4) % 7 }

  lemma YearStep(y: int)
    ensures DayFromYear(y + 1) == DayFromYear(y) + YearLength(y)
  {
    QuotientStep(y - 1969, 4);
    QuotientStep(y - 1901, 100);
    QuotientStep(y - 1601, 400);
  }

  lemma QuotientStep(a: int, d: int)
    requires d > 0
    ensures (a + 1) / d == a / d + (if (a + 1) % d == 0 then 1 else 0)
  {
    var q, r := a / d, a % d;
    assert a == q * d + r;
    if r == d - 1 {
      assert a + 1 == (q + 1) * d;
      DivisionUnique(a + 1, d, q + 1, 0);
    } else {
      DivisionUnique(a + 1, d, q, r + 1);
    }
  }

  lemma DivisionUnique(a: int, d: int, q: int, r: int)
    requires d > 0 && 0 <= r < d && a == q * d + r
    ensures a / d == q && a % d == r
  {
    var x := a / d - q;
    assert x * d == r - a % d;
    assert x >= 1 ==> x * d >= d;
    assert x <= -1 ==> x * d <= -d;
  }

  lemma {:induction false} YearsApart(y: int, k: nat)
    ensures 365 * k <= DayFromYear(y + k) - DayFromYear(y) <= 366 * k
  {
    if k > 0 {
      YearsApart(y, k - 1);
      YearStep(y + k - 1);
      hide DayFromYear, Leap;
    }
  }

  lemma {:induction false} MonthsApart(y: int, a: int, b: int)
    requires 1 <= a <= b <= 13
    ensures DaysBeforeMonth(y, b) >= DaysBeforeMonth(y, a) + 28 * (b - a)
    decreases b
  {
  }

  // ---------- from a day number to its date ----------

  /** The year of day `n`, searched upwards from `y`. */
  function YearFrom(n: int, y: int): (r: int)
    requires DayFromYear(y) <= n
    ensures DayFromYear(r) <= n < DayFromYear(r + 1)
    decreases n - DayFromYear(y)
  {
    YearStep(y);
    if n < DayFromYear(y + 1) then y else YearFrom(n, y + 1)
  }

  function YearOf(n: int): (r: int)
    ensures DayFromYear(r) <= n < DayFromYear(r + 1)
  {
    YearFrom(n, 1970 + (if n >= 0 then n / 366 else n / 365))
  }

  function MonthFrom(y: int, dayInYear: int, m: int): (r: int)
    requires 1 <= m <= 12 && DaysBeforeMonth(y, m) <= dayInYear < DaysBeforeMonth(y, 13)
    ensures m <= r <= 12 && DaysBeforeMonth(y, r) <= dayInYear < DaysBeforeMonth(y, r + 1)
    decreases 12 - m
  {
    if dayInYear < DaysBeforeMonth(y, m + 1) then m else MonthFrom(y, dayInYear, m + 1)
  }

  lemma MonthStep(y: int, m: int)
    requires 1 <= m <= 12
    ensures DaysBeforeMonth(y, m + 1) == DaysBeforeMonth(y, m) + MonthLength(y, m)
  {
  }

  lemma WithinYear(n: int, y: int)
    requires DayFromYear(y) <= n < DayFromYear(y + 1)
    ensures DaysBeforeMonth(y, 1) <= n - DayFromYear(y) < DaysBeforeMonth(y, 13)
  {
    YearStep(y);
    hide DayFromYear;
  }

  function DateOf(n: int): (d: Date)
    ensures ValidDate(d) && DayNumber(d) == n
  {
    hide DayFromYear, DaysBeforeMonth, MonthLength, Leap;
    var y := YearOf(n);
    WithinYear(n, y);
    var m := MonthFrom(y, n - DayFromYear(y), 1);
    MonthStep(y, m);
    Date(y, m, n - DayFromYear(y) - DaysBeforeMonth(y, m) + 1)
  }

  lemma DayInYear(d: Date)
    requires ValidDate(d)
    ensures DayFromYear(d.year) <= DayNumber(d) < DayFromYear(d.year + 1)
    ensures DayNumber(d) < DayFromYear(d.year) + DaysBeforeMonth(d.year, d.month + 1)
  {
    YearStep(d.year);
    MonthsApart(d.year, d.month + 1, 13);
    MonthsApart(d.year, 1, d.month);
  }

  lemma SameYear(n: int, y: int, z: int)
    requires DayFromYear(y) <= n < DayFromYear(y + 1) && DayFromYear(z) <= n < DayFromYear(z + 1)
    ensures y == z
  {
    hide DayFromYear;
    if y < z { YearsApart(y + 1, z - y - 1); }
    if z < y { YearsApart(z + 1, y - z - 1); }
  }

  /** A day number has one valid date. */
  lemma DateUnique(d: Date)
    requires ValidDate(d)
    ensures DateOf(DayNumber(d)) == d
  {
    hide DayFromYear, DaysBeforeMonth, MonthLength;
    var e := DateOf(DayNumber(d));
    DayInYear(d);
    DayInYear(e);
    SameYear(DayNumber(d), d.year, e.year);
    if d.month < e.month { MonthsApart(d.year, d.month + 1, e.month); }
    if e.month < d.month { MonthsApart(d.year, e.month + 1, d.month); }
  }

  // ---------- how far ahead a date can be ----------

  /** A date of the next year is between one day and two years ahead. */
  lemma NextYearAhead(n: int, m: int, d: int)
    requires 1 <= m <= 12 && 1 <= d <= MonthLength(YearOf(n) + 1, m)
    ensures 1 <= DayNumber(Date(YearOf(n) + 1, m, d)) - n <= 2 * 366
  {
    var y := YearOf(n);
    DayInYear(Date(y + 1, m, d));
    YearStep(y);
    YearStep(y + 1);
  }

  /** Of eight consecutive years one is a leap year: two are multiples of four, and centuries are
      a hundred years apart. */
  lemma LeapWithinEight(y: int) returns (k: int)
    ensures 1 <= k <= 8 && Leap(y + k)
  {
    k := 4 - y % 4;
    DivisionUnique(y + k, 4, y / 4 + 1, 0);
    if !Leap(y + k) {
      DivisionUnique(y + k + 4, 4, y / 4 + 2, 0);
      DivisionUnique(y + k + 4, 100, (y + k) / 100, 4);
      k := k + 4;
    }
  }

  /** The next 29 February of a later year is at most nine years ahead. */
  lemma LeapDayAhead(n: int) returns (y: int)
    ensures Leap(y) && 1 <= DayNumber(Date(y, 2, 29)) - n <= 9 * 366
  {
    var base := YearOf(n);
    var k := LeapWithinEight(base);
    y := base + k;
    DayInYear(Date(y, 2, 29));
    YearsApart(base, k + 1);
    YearsApart(base + 1, k - 1);
  }

  /** Every weekday occurs in the first seven days of a month. */
  lemma WeekdayInWeek(first: int, w: int) returns (k: int)
    requires 0 <= w <= 6
    ensures 0 <= k <= 6 && Weekday(first + k) == w
  {
    k := (w - Weekday(first)) % 7;
  }
}
