/** The proleptic Gregorian calendar in UTC, with days numbered from 1 January of year 0. */
module Calendar {

  datatype Date = Date(year: int, month: int, day: int)

  predicate Leap(y: int) {
    y % 4 == 0 && (y % 100 != 0 || y % 400 == 0)
  }

  function YearDays(y: int): int {
    if Leap(y) then 366 else 365
  }

  function MonthDays(y: int, m: int): int {
    if m == 2 then (if Leap(y) then 29 else 28)
    else if m == 4 || m == 6 || m == 9 || m == 11 then 30
    else 31
  }

  predicate ValidDate(d: Date) {
    1 <= d.month <= 12 && 1 <= d.day <= MonthDays(d.year, d.month)
  }

  function DaysBeforeYear(y: int): int {
    365 * y + (y + 3) / 4 - (y + 99) / 100 + (y + 399) / 400
  }

  function DaysBeforeMonth(y: int, m: int): int
    requires 1 <= m <= 13
    decreases m
  {
    if m == 1 then 0 else DaysBeforeMonth(y, m - 1) + MonthDays(y, m - 1)
  }

  function DayNumber(d: Date): int
    requires ValidDate(d)
  {
    DaysBeforeYear(d.year) + DaysBeforeMonth(d.year, d.month) + d.day - 1
  }

  /** 0 is Sunday; 1 January of year 0 was a Saturday. */
  function Weekday(n: int): int {
    (n + 6) % 7
  }

  /** Weekdays follow each other, and 1 January 1970 was a Thursday and 1 January 2024 a Monday. */
  lemma WeekdaysAreRight(n: int)
    ensures 0 <= Weekday(n) < 7 && Weekday(n + 1) == (if Weekday(n) == 6 then 0 else Weekday(n) + 1)
    ensures Weekday(DayNumber(Date(1970, 1, 1))) == 4 && Weekday(DayNumber(Date(2024, 1, 1))) == 1
  {
    assert DaysBeforeMonth(1970, 1) == DaysBeforeMonth(2024, 1) == 0;
  }

  lemma YearStep(y: int)
    ensures DaysBeforeYear(y + 1) == DaysBeforeYear(y) + YearDays(y)
  {
    FourYearStep(y);
    HundredYearStep(y);
    EraStep(y);
    LeapYears(y);
  }

  lemma FourYearStep(y: int)
    ensures (y + 4) / 4 == (y + 3) / 4 + if y % 4 == 0 then 1 else 0
  {
  }

  lemma HundredYearStep(y: int)
    ensures (y + 100) / 100 == (y + 99) / 100 + if y % 100 == 0 then 1 else 0
  {
  }

  lemma EraStep(y: int)
    ensures (y + 400) / 400 == (y + 399) / 400 + if y % 400 == 0 then 1 else 0
  {
  }

  lemma LeapYears(y: int)
    ensures (y % 400 == 0 ==> y % 100 == 0) && (y % 100 == 0 ==> y % 4 == 0)
  {
  }

  lemma YearLength(y: int)
    ensures DaysBeforeMonth(y, 13) == YearDays(y)
  {
    assert DaysBeforeMonth(y, 4) == MonthDays(y, 2) + 62;
    assert DaysBeforeMonth(y, 7) == MonthDays(y, 2) + 153;
    assert DaysBeforeMonth(y, 10) == MonthDays(y, 2) + 245;
    assert DaysBeforeMonth(y, 13) == MonthDays(y, 2) + 337;
  }

  lemma {:induction false} MonthsGrow(y: int, m: int, n: int)
    requires 1 <= m <= n <= 13
    ensures DaysBeforeMonth(y, m) <= DaysBeforeMonth(y, n)
    ensures m < n ==> DaysBeforeMonth(y, m) + MonthDays(y, m) <= DaysBeforeMonth(y, n)
    decreases n
  {
    if m < n {
      MonthsGrow(y, m, n - 1);
    }
  }

  lemma {:induction false} YearsGrow(y: int, z: int)
    requires y <= z
    ensures DaysBeforeYear(y) <= DaysBeforeYear(z)
    decreases z - y
  {
    if y < z {
      YearsGrow(y, z - 1);
      YearStep(z - 1);
    }
  }

  predicate Before(a: Date, b: Date) {
    a.year < b.year || (a.year == b.year && (a.month < b.month || (a.month == b.month && a.day < b.day)))
  }

  /** A date lies within its year. */
  lemma WithinYear(d: Date)
    requires ValidDate(d)
    ensures DaysBeforeYear(d.year) <= DayNumber(d) < DaysBeforeYear(d.year + 1)
  {
    MonthsGrow(d.year, 1, d.month);
    MonthsGrow(d.year, d.month, 13);
    YearLength(d.year);
    YearStep(d.year);
  }

  lemma EarlierDateSmallerNumber(a: Date, b: Date)
    requires ValidDate(a) && ValidDate(b) && Before(a, b)
    ensures DayNumber(a) < DayNumber(b)
  {
    if a.year < b.year {
      WithinYear(a);
      WithinYear(b);
      YearsGrow(a.year + 1, b.year);
    } else if a.month < b.month {
      MonthsGrow(a.year, a.month, b.month);
    }
  }

  // ---- From day numbers back to dates ----

  /** The year of day `r` of a 400-year cycle, searched upwards from year `y` of the cycle. */
  function YearFrom(r: int, y: int): (z: int)
    requires 0 <= y < 400 && DaysBeforeYear(y) <= r < 146097
    ensures y <= z < 400 && DaysBeforeYear(z) <= r < DaysBeforeYear(z + 1)
    decreases 400 - y
  {
    YearStep(y);
    if r < DaysBeforeYear(y + 1) then y
    else
      assert DaysBeforeYear(400) == 146097;
      YearFrom(r, y + 1)
  }

  function YearOf(n: int): (y: int)
    ensures DaysBeforeYear(y) <= n < DaysBeforeYear(y + 1)
  {
    var era, r := n / 146097, n % 146097;
    EraShift(era, YearFrom(r, 0));
    EraShift(era, YearFrom(r, 0) + 1);
    400 * era + YearFrom(r, 0)
  }

  lemma EraShift(era: int, y: int)
    ensures DaysBeforeYear(400 * era + y) == 146097 * era + DaysBeforeYear(y)
  {
    assert (400 * era + y + 3) / 4 == 100 * era + (y + 3) / 4;
    assert (400 * era + y + 99) / 100 == 4 * era + (y + 99) / 100;
    assert (400 * era + y + 399) / 400 == era + (y + 399) / 400;
  }

  function MonthFrom(y: int, r: int, m: int): (k: int)
    requires 1 <= m <= 12 && DaysBeforeMonth(y, m) <= r < DaysBeforeMonth(y, 13)
    ensures m <= k <= 12 && DaysBeforeMonth(y, k) <= r < DaysBeforeMonth(y, k + 1)
    decreases 13 - m
  {
    if r < DaysBeforeMonth(y, m + 1) then m else MonthFrom(y, r, m + 1)
  }

  /** The date of day number `n`: the one valid date that has this number. */
  function DateOf(n: int): (d: Date)
    ensures ValidDate(d) && DayNumber(d) == n
  {
    var y := YearOf(n);
    var r := n - DaysBeforeYear(y);
    YearStep(y);
    YearLength(y);
    var m := MonthFrom(y, r, 1);
    Date(y, m, r - DaysBeforeMonth(y, m) + 1)
  }

  lemma DateOfUnique(d: Date)
    requires ValidDate(d)
    ensures DateOf(DayNumber(d)) == d
  {
    var e := DateOf(DayNumber(d));
    if Before(d, e) {
      EarlierDateSmallerNumber(d, e);
    } else if Before(e, d) {
      EarlierDateSmallerNumber(e, d);
    }
  }

  /** Later days have later dates. */
  lemma DateOfMonotone(m: int, n: int)
    requires m < n
    ensures Before(DateOf(m), DateOf(n))
  {
    if !Before(DateOf(m), DateOf(n)) && DateOf(m) != DateOf(n) {
      EarlierDateSmallerNumber(DateOf(n), DateOf(m));
    }
  }
}
