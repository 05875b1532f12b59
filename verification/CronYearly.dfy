/**
  How far the search of modules/scheduler/cron.go:141-150 reaches: for schedules of one date a year,
  exactly when it always finds the next match.
 */
module CronYearly {
  import opened Calendar
  import opened Cron
  import opened Int64

  const DAY_MINUTES: int := 1440

  /** Any day of the week on day `d` of month `mo`, at the given minutes and hours. */
  function OneDate(minutes: seq<int>, hours: seq<int>, mo: int, d: int): Schedule {
    Schedule(minutes, hours, [d], [mo], [0, 1, 2, 3, 4, 5, 6])
  }

  /** Minute `x` of the day is one of the times. */
  predicate IsTime(minutes: seq<int>, hours: seq<int>, x: int) {
    0 <= x < DAY_MINUTES && x % 60 in minutes && x / 60 in hours
  }

  ghost predicate FirstTime(minutes: seq<int>, hours: seq<int>, first: int) {
    IsTime(minutes, hours, first) && forall x :: IsTime(minutes, hours, x) ==> first <= x
  }

  ghost predicate LastTime(minutes: seq<int>, hours: seq<int>, last: int) {
    IsTime(minutes, hours, last) && forall x :: IsTime(minutes, hours, x) ==> x <= last
  }

  /** The search finds a match from every time. */
  ghost predicate AlwaysFinds(s: Schedule) {
    forall from: int :: SomeIn(s, FirstMinute(from), FirstMinute(from) + HORIZON)
  }

  lemma ClockOfDay(n: int)
    ensures n == n / DAY_MINUTES * DAY_MINUTES + n % DAY_MINUTES && n % DAY_MINUTES % 60 == n % 60 && n % DAY_MINUTES / 60 == n / 60 % 24
  {
    var q, r := n / DAY_MINUTES, n % DAY_MINUTES;
    assert n == (24 * q) * 60 + r;
    assert n / 60 == 24 * q + r / 60;
  }

  lemma MatchesOneDate(minutes: seq<int>, hours: seq<int>, mo: int, d: int, n: int)
    ensures Matches(OneDate(minutes, hours, mo, d), n) <==>
      DateOf(n / DAY_MINUTES).month == mo && DateOf(n / DAY_MINUTES).day == d && IsTime(minutes, hours, n % DAY_MINUTES)
  {
    ClockOfDay(n);
    var weekday := Weekday(n / DAY_MINUTES);
    assert weekday in [0, 1, 2, 3, 4, 5, 6];
  }

  // ---- One date through the years ----

  /** The days of a month in a year that is not a leap year. */
  function CommonDays(mo: int): int {
    if mo == 2 then 28 else MonthDays(1, mo)
  }

  /** A date that every year has. */
  predicate EveryYear(mo: int, d: int) {
    1 <= mo <= 12 && 1 <= d <= CommonDays(mo)
  }

  lemma EveryYearIsValid(y: int, mo: int, d: int)
    requires EveryYear(mo, d)
    ensures ValidDate(Date(y, mo, d))
  {
  }

  ghost function DayIn(y: int, mo: int, d: int): int
    requires EveryYear(mo, d)
  {
    EveryYearIsValid(y, mo, d);
    DayNumber(Date(y, mo, d))
  }

  /** The leap day between a date and the same date a year later. */
  lemma {:induction false} LeapDayBetween(y: int, m: int)
    requires 1 <= m <= 12
    ensures DaysBeforeMonth(y + 1, m) - DaysBeforeMonth(y, m) == if m <= 2 then 0 else YearDays(y + 1) - YearDays(y)
    decreases m
  {
    if m > 1 {
      LeapDayBetween(y, m - 1);
    }
  }

  lemma YearApart(y: int, mo: int, d: int)
    requires EveryYear(mo, d)
    ensures DayIn(y + 1, mo, d) - DayIn(y, mo, d) == if mo <= 2 then YearDays(y) else YearDays(y + 1)
  {
    LeapDayBetween(y, mo);
    YearStep(y);
  }

  lemma DateGrows(y: int, z: int, mo: int, d: int)
    requires EveryYear(mo, d) && y < z
    ensures DayIn(y, mo, d) < DayIn(z, mo, d)
  {
    EveryYearIsValid(y, mo, d);
    EveryYearIsValid(z, mo, d);
    EarlierDateSmallerNumber(Date(y, mo, d), Date(z, mo, d));
  }

  lemma NotBetweenDates(y: int, mo: int, d: int, date: Date)
    requires EveryYear(mo, d) && ValidDate(date) && DayIn(y, mo, d) < DayNumber(date) < DayIn(y + 1, mo, d)
    ensures !(date.month == mo && date.day == d)
  {
    if date.month == mo && date.day == d {
      assert DayIn(date.year, mo, d) == DayNumber(date);
      if date.year < y {
        DateGrows(date.year, y, mo, d);
      } else if date.year > y + 1 {
        DateGrows(y + 1, date.year, mo, d);
      }
    }
  }

  /** Strictly between two of its days the date does not occur. */
  lemma NotBetween(y: int, mo: int, d: int, q: int)
    requires EveryYear(mo, d) && DayIn(y, mo, d) < q < DayIn(y + 1, mo, d)
    ensures !(DateOf(q).month == mo && DateOf(q).day == d)
  {
    NotBetweenDates(y, mo, d, DateOf(q));
  }

  lemma DateIsThere(y: int, mo: int, d: int)
    requires EveryYear(mo, d)
    ensures DateOf(DayIn(y, mo, d)).month == mo && DateOf(DayIn(y, mo, d)).day == d
  {
    EveryYearIsValid(y, mo, d);
    DateOfUnique(Date(y, mo, d));
  }

  // ---- When the search finds the date ----

  lemma OnTheDay(minutes: seq<int>, hours: seq<int>, y: int, mo: int, d: int, x: int)
    requires EveryYear(mo, d) && IsTime(minutes, hours, x)
    ensures Matches(OneDate(minutes, hours, mo, d), DayIn(y, mo, d) * DAY_MINUTES + x)
  {
    var n := DayIn(y, mo, d) * DAY_MINUTES + x;
    assert n / DAY_MINUTES == DayIn(y, mo, d) && n % DAY_MINUTES == x;
    DateIsThere(y, mo, d);
    MatchesOneDate(minutes, hours, mo, d, n);
  }

  lemma FoundOnTheDay(minutes: seq<int>, hours: seq<int>, y: int, mo: int, d: int, x: int, f: int)
    requires EveryYear(mo, d) && IsTime(minutes, hours, x) && f <= DayIn(y, mo, d) * DAY_MINUTES + x < f + HORIZON
    ensures SomeIn(OneDate(minutes, hours, mo, d), f, f + HORIZON)
  {
    OnTheDay(minutes, hours, y, mo, d, x);
  }

  /** Two days of the same year are at most 365 apart, and next year's are later. */
  lemma SameYear(date: Date, mo: int, d: int)
    requires EveryYear(mo, d) && ValidDate(date)
    ensures DayIn(date.year, mo, d) - DayNumber(date) <= 365 && DayIn(date.year + 1, mo, d) > DayNumber(date)
  {
    EveryYearIsValid(date.year, mo, d);
    WithinYear(date);
    WithinYear(Date(date.year, mo, d));
    EveryYearIsValid(date.year + 1, mo, d);
    WithinYear(Date(date.year + 1, mo, d));
    YearStep(date.year);
  }

  /** This year's day is `today` and next year's `next`: the match is at the first time of this year's
      day, at its last time, or at the first time of next year's day. */
  lemma WhichTime(f: int, q: int, today: int, next: int, first: int, last: int) returns (m: int)
    requires q * DAY_MINUTES <= f < (q + 1) * DAY_MINUTES && today - q <= 365 && next - today <= 366
    requires 0 <= first && last < DAY_MINUTES && last - first >= 1080 && next > q
    ensures m == today * DAY_MINUTES + first || m == today * DAY_MINUTES + last || m == next * DAY_MINUTES + first
    ensures f <= m < f + HORIZON
  {
    m := if f <= today * DAY_MINUTES + first then today * DAY_MINUTES + first
         else if f <= today * DAY_MINUTES + last then today * DAY_MINUTES + last
         else next * DAY_MINUTES + first;
  }

  lemma FoundInYear(minutes: seq<int>, hours: seq<int>, mo: int, d: int, first: int, last: int, f: int, date: Date)
    requires EveryYear(mo, d) && IsTime(minutes, hours, first) && IsTime(minutes, hours, last) && last - first >= 1080
    requires ValidDate(date) && DayNumber(date) * DAY_MINUTES <= f < (DayNumber(date) + 1) * DAY_MINUTES
    ensures SomeIn(OneDate(minutes, hours, mo, d), f, f + HORIZON)
  {
    var y := date.year;
    SameYear(date, mo, d);
    YearApart(y, mo, d);
    var m := WhichTime(f, DayNumber(date), DayIn(y, mo, d), DayIn(y + 1, mo, d), first, last);
    if m == DayIn(y, mo, d) * DAY_MINUTES + first {
      FoundOnTheDay(minutes, hours, y, mo, d, first, f);
    } else if m == DayIn(y, mo, d) * DAY_MINUTES + last {
      FoundOnTheDay(minutes, hours, y, mo, d, last, f);
    } else {
      FoundOnTheDay(minutes, hours, y + 1, mo, d, first, f);
    }
  }

  lemma FoundFrom(minutes: seq<int>, hours: seq<int>, mo: int, d: int, first: int, last: int, f: int)
    requires EveryYear(mo, d) && IsTime(minutes, hours, first) && IsTime(minutes, hours, last) && last - first >= 1080
    ensures SomeIn(OneDate(minutes, hours, mo, d), f, f + HORIZON)
  {
    ClockOfDay(f);
    FoundInYear(minutes, hours, mo, d, first, last, f, DateOf(f / DAY_MINUTES));
  }

  // ---- When it does not ----

  /** After the last time of a day, if the next day is 366 days off. */
  lemma MissedAfterLast(minutes: seq<int>, hours: seq<int>, y: int, mo: int, d: int, first: int, last: int)
    requires EveryYear(mo, d) && FirstTime(minutes, hours, first) && LastTime(minutes, hours, last) && last - first < 1080
    requires DayIn(y + 1, mo, d) == DayIn(y, mo, d) + 366
    ensures var f := DayIn(y, mo, d) * DAY_MINUTES + last + 1; NoneIn(OneDate(minutes, hours, mo, d), f, f + HORIZON)
  {
    var f := DayIn(y, mo, d) * DAY_MINUTES + last + 1;
    forall n | f <= n < f + HORIZON ensures !Matches(OneDate(minutes, hours, mo, d), n) {
      MissedAt(minutes, hours, y, mo, d, first, last, n);
    }
  }

  lemma MissedAt(minutes: seq<int>, hours: seq<int>, y: int, mo: int, d: int, first: int, last: int, n: int)
    requires EveryYear(mo, d) && FirstTime(minutes, hours, first) && LastTime(minutes, hours, last) && last - first < 1080
    requires DayIn(y + 1, mo, d) == DayIn(y, mo, d) + 366
    requires DayIn(y, mo, d) * DAY_MINUTES + last < n <= DayIn(y, mo, d) * DAY_MINUTES + last + HORIZON
    ensures !Matches(OneDate(minutes, hours, mo, d), n)
  {
    var day, q := DayIn(y, mo, d), n / DAY_MINUTES;
    ClockOfDay(n);
    MatchesOneDate(minutes, hours, mo, d, n);
    if day < q < day + 366 {
      NotBetween(y, mo, d, q);
    }
  }

  /** In a year that does not have the date, from its first minute on. */
  lemma MissedAllYear(minutes: seq<int>, hours: seq<int>, y: int, mo: int, d: int)
    requires !Leap(y) && 1 <= mo <= 12 && d > CommonDays(mo)
    ensures var f := DaysBeforeYear(y) * DAY_MINUTES; NoneIn(OneDate(minutes, hours, mo, d), f, f + HORIZON)
  {
    var f := DaysBeforeYear(y) * DAY_MINUTES;
    forall n | f <= n < f + HORIZON ensures !Matches(OneDate(minutes, hours, mo, d), n) {
      ClockOfDay(n);
      NoSuchDate(y, mo, d, DateOf(n / DAY_MINUTES));
      MatchesOneDate(minutes, hours, mo, d, n);
    }
  }

  lemma InYear(y: int, date: Date)
    requires ValidDate(date) && DaysBeforeYear(y) <= DayNumber(date) < DaysBeforeYear(y + 1)
    ensures date.year == y
  {
    WithinYear(date);
    if date.year < y {
      YearsGrow(date.year + 1, y);
    } else if date.year > y {
      YearsGrow(y + 1, date.year);
    }
  }

  /** A common year does not have the date, and neither is it the 1 January that follows. */
  lemma NoSuchDate(y: int, mo: int, d: int, date: Date)
    requires !Leap(y) && 1 <= mo <= 12 && d > CommonDays(mo) && ValidDate(date)
    requires DaysBeforeYear(y) <= DayNumber(date) <= DaysBeforeYear(y) + 365
    ensures !(date.month == mo && date.day == d)
  {
    YearStep(y);
    YearStep(y + 1);
    if DayNumber(date) < DaysBeforeYear(y + 1) {
      InYear(y, date);
    } else {
      InYear(y + 1, date);
      MonthsGrow(y + 1, 1, date.month);
    }
  }

  /** Every minute is the first one after some time. */
  lemma EveryMinuteIsFirst(f: int)
    ensures FirstMinute((f - 1) * MINUTE) == f
  {
  }

  lemma NotFoundFrom(s: Schedule, f: int)
    requires NoneIn(s, f, f + HORIZON)
    ensures !AlwaysFinds(s)
  {
    EveryMinuteIsFirst(f);
    assert !SomeIn(s, f, f + HORIZON);
  }

  /** For one date a year the search always finds the next match exactly when every year has the date
      and its last time of the day is at least 1,080 minutes after its first. */
  lemma OneDateFoundExactly(minutes: seq<int>, hours: seq<int>, mo: int, d: int, first: int, last: int)
    requires 1 <= mo <= 12 && d >= 1 && FirstTime(minutes, hours, first) && LastTime(minutes, hours, last)
    ensures AlwaysFinds(OneDate(minutes, hours, mo, d)) <==> d <= CommonDays(mo) && last - first >= 1080
  {
    if d > CommonDays(mo) {
      MissedAllYear(minutes, hours, 1, mo, d);
      NotFoundFrom(OneDate(minutes, hours, mo, d), DaysBeforeYear(1) * DAY_MINUTES);
    } else if last - first < 1080 {
      var y := if mo <= 2 then 4 else 3;
      YearApart(y, mo, d);
      MissedAfterLast(minutes, hours, y, mo, d, first, last);
      NotFoundFrom(OneDate(minutes, hours, mo, d), DayIn(y, mo, d) * DAY_MINUTES + last + 1);
    } else {
      forall from: int ensures SomeIn(OneDate(minutes, hours, mo, d), FirstMinute(from), FirstMinute(from) + HORIZON) {
        FoundFrom(minutes, hours, mo, d, first, last, FirstMinute(from));
      }
    }
  }

  lemma OnlyMidnight(minutes: seq<int>, hours: seq<int>)
    requires minutes == [0] && hours == [0]
    ensures FirstTime(minutes, hours, 0) && LastTime(minutes, hours, 0)
  {
    assert IsTime(minutes, hours, 0);
  }

  /** Once a year at midnight, as "0 0 31 12 *": after the date before a leap day the search gives up,
      although the next date is there, 366 days on. */
  lemma YearlyMidnightMissed(y: int, mo: int, d: int)
    requires EveryYear(mo, d) && Leap(if mo <= 2 then y else y + 1)
    ensures var n := DayIn(y, mo, d) * DAY_MINUTES; NoneIn(OneDate([0], [0], mo, d), n + 1, n + 1 + HORIZON)
    ensures Matches(OneDate([0], [0], mo, d), DayIn(y, mo, d) * DAY_MINUTES + 366 * DAY_MINUTES)
  {
    var zero := [0];
    OnlyMidnight(zero, zero);
    YearApart(y, mo, d);
    MissedAfterLast(zero, zero, y, mo, d, 0, 0);
    OnTheDay(zero, zero, y + 1, mo, d, 0);
    assert DayIn(y + 1, mo, d) * DAY_MINUTES + 0 == DayIn(y, mo, d) * DAY_MINUTES + 366 * DAY_MINUTES;
  }
}
