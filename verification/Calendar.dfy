/**
 The proleptic Gregorian calendar in UTC. Days are counted from 1 January of
 year 1, which is day 0, and seconds from that day's midnight.
 */
module Calendar {

  /** A second, in the nanoseconds times are counted in. */
  const NANOS: int := 1_000_000_000

  /** t rounded down to a multiple of d, counted from the start of year 1. */
  function Truncate(t: int, d: int): int
    requires d > 0
  {
    t - t % d
  }

  predicate IsLeap(y: int) {
    y % 4 == 0 && (y % 100 != 0 || y % 400 == 0)
  }

  function DaysInYear(y: int): int {
    if IsLeap(y) then 366 else 365
  }

  function DaysBeforeYear(y: int): int {
    365 * (y - 1) + (y - 1) / 4 - (y - 1) / 100 + (y - 1) / 400
  }

  function DaysInMonth(y: int, m: int): (n: int)
    ensures 28 <= n <= 31
  {
    if m == 2 then (if IsLeap(y) then 29 else 28)
    else if m == 4 || m == 6 || m == 9 || m == 11 then 30
    else 31
  }

  function DaysBeforeMonth(y: int, m: int): (n: int)
    requires 1 <= m <= 13
    ensures n >= 0
    decreases m
  {
    if m == 1 then 0 else DaysBeforeMonth(y, m - 1) + DaysInMonth(y, m - 1)
  }

  function DayNumber(y: int, m: int, d: int): int
    requires 1 <= m <= 12
  {
    DaysBeforeYear(y) + DaysBeforeMonth(y, m) + d - 1
  }

  lemma EveryFourth(y: int)
    ensures y / 4 == (y - 1) / 4 + if y % 4 == 0 then 1 else 0
  {
  }

  lemma EveryHundredth(y: int)
    ensures y / 100 == (y - 1) / 100 + if y % 100 == 0 then 1 else 0
    ensures y % 100 == 0 ==> y % 4 == 0
  {
  }

  lemma EveryFourHundredth(y: int)
    ensures y / 400 == (y - 1) / 400 + if y % 400 == 0 then 1 else 0
    ensures y % 400 == 0 ==> y % 100 == 0
  {
  }

  // The leap-year rule is the one the count of days before a year follows.
  lemma YearLength(y: int)
    ensures DaysBeforeYear(y + 1) == DaysBeforeYear(y) + DaysInYear(y)
  {
    EveryFourth(y);
    EveryHundredth(y);
    EveryFourHundredth(y);
  }

  lemma MonthsFillYear(y: int)
    ensures DaysBeforeMonth(y, 13) == DaysInYear(y)
  {
    assert DaysBeforeMonth(y, 4) == DaysInMonth(y, 1) + DaysInMonth(y, 2) + DaysInMonth(y, 3);
    assert DaysBeforeMonth(y, 7) == DaysBeforeMonth(y, 4) + 91;
    assert DaysBeforeMonth(y, 10) == DaysBeforeMonth(y, 7) + 92;
    assert DaysBeforeMonth(y, 13) == DaysBeforeMonth(y, 10) + 92;
  }

  lemma {:induction false} YearsIncrease(a: int, b: int)
    requires a <= b
    ensures DaysBeforeYear(a) <= DaysBeforeYear(b)
    ensures a < b ==> DaysBeforeYear(a + 1) <= DaysBeforeYear(b)
    decreases b - a
  {
    if a >= b {
    } else {
      YearLength(a);
      YearsIncrease(a + 1, b);
    }
  }

  lemma {:induction false} MonthsIncrease(y: int, a: int, b: int)
    requires 1 <= a <= b <= 13
    ensures DaysBeforeMonth(y, a) <= DaysBeforeMonth(y, b)
    ensures a < b ==> DaysBeforeMonth(y, a + 1) <= DaysBeforeMonth(y, b)
    decreases b - a
  {
    if a >= b {
    } else {
      MonthsIncrease(y, a, b - 1);
    }
  }

  /** The first year, from y on, that the day falls in. */
  function YearFrom(day: int, y: int): (r: int)
    requires DaysBeforeYear(y) <= day
    ensures DaysBeforeYear(r) <= day < DaysBeforeYear(r + 1)
    decreases day - DaysBeforeYear(y)
  {
    YearLength(y);
    if day < DaysBeforeYear(y + 1) then y else YearFrom(day, y + 1)
  }

  function YearOf(day: int): (y: int)
    ensures DaysBeforeYear(y) <= day < DaysBeforeYear(y + 1)
  {
    if day >= 0 then YearFrom(day, day / 366 + 1) else YearFrom(day, day / 365)
  }

  function MonthFrom(y: int, n: int, m: int): (r: int)
    requires 1 <= m <= 12 && DaysBeforeMonth(y, m) <= n < DaysBeforeMonth(y, 13)
    ensures 1 <= r <= 12 && DaysBeforeMonth(y, r) <= n < DaysBeforeMonth(y, r + 1)
    decreases 13 - m
  {
    if n < DaysBeforeMonth(y, m + 1) then m else MonthFrom(y, n, m + 1)
  }

  function MonthOf(day: int): (m: int)
    ensures 1 <= m <= 12
    ensures var n := day - DaysBeforeYear(YearOf(day));
            DaysBeforeMonth(YearOf(day), m) <= n < DaysBeforeMonth(YearOf(day), m + 1)
  {
    var y := YearOf(day);
    YearLength(y);
    MonthsFillYear(y);
    MonthFrom(y, day - DaysBeforeYear(y), 1)
  }

  /** The day of the month, from 1. */
  function DomOf(day: int): (d: int)
    ensures 1 <= d <= DaysInMonth(YearOf(day), MonthOf(day))
    ensures DayNumber(YearOf(day), MonthOf(day), d) == day
  {
    day - DaysBeforeYear(YearOf(day)) - DaysBeforeMonth(YearOf(day), MonthOf(day)) + 1
  }

  /** The day of the week, from Sunday as 0. Day 0 is a Monday. */
  function WeekdayOf(day: int): (w: int)
    ensures 0 <= w <= 6
  {
    (day + 1) % 7
  }

  // Weekdays follow one another, and 1 January 1970 is a Thursday.
  lemma WeekdayIsCounted(day: int)
    ensures WeekdayOf(day + 1) == (WeekdayOf(day) + 1) % 7
    ensures WeekdayOf(day) == (4 + day - DayNumber(1970, 1, 1)) % 7
  {
    DaysAreCountedFromYearOne();
    WholeWeeks(day + 1, 102737);
  }

  lemma WholeWeeks(x: int, k: int)
    ensures (x - 7 * k) % 7 == x % 7
  {
    var w := x / 7;
    assert x == 7 * w + x % 7;
    assert x - 7 * k == 7 * (w - k) + x % 7;
  }

  // The months of a common year begin on these days of it, and those after February a day later in a leap year.
  lemma MonthsBegin(y: int, m: int)
    requires 1 <= m <= 12
    ensures DaysBeforeMonth(y, m) == [0, 31, 59, 90, 120, 151, 181, 212, 243, 273, 304, 334][m - 1] + if m > 2 && IsLeap(y) then 1 else 0
  {
    if m > 1 { MonthsBegin(y, m - 1); }
  }

  // Day 0 is 1 January of year 1, and 1 January 1970 the 719162nd day after it.
  lemma DaysAreCountedFromYearOne()
    ensures DayNumber(1, 1, 1) == 0 && DayNumber(1970, 1, 1) == 719162
  {
  }

  // A date names one day, and the day has that date alone.
  lemma DateIsUnique(day: int, y: int, m: int, d: int)
    requires 1 <= m <= 12 && 1 <= d <= DaysInMonth(y, m)
    requires DayNumber(y, m, d) == day
    ensures YearOf(day) == y && MonthOf(day) == m && DomOf(day) == d
  {
    YearLength(y);
    MonthsFillYear(y);
    MonthsIncrease(y, m + 1, 13);
    var y' := YearOf(day);
    if y' < y { YearsIncrease(y', y); }
    if y < y' { YearsIncrease(y, y'); }
    var m' := MonthOf(day);
    if m' < m { MonthsIncrease(y, m', m); }
    if m < m' { MonthsIncrease(y, m, m'); }
  }

  function MonthStart(day: int): int {
    day - (DomOf(day) - 1)
  }

  function NextMonthStart(day: int): int {
    MonthStart(day) + DaysInMonth(YearOf(day), MonthOf(day))
  }

  // Every day of a month has its month and year, and the day after it starts the next.
  lemma MonthIsContiguous(day: int, x: int)
    requires MonthStart(day) <= x < NextMonthStart(day)
    ensures YearOf(x) == YearOf(day) && MonthOf(x) == MonthOf(day)
  {
    DateIsUnique(x, YearOf(day), MonthOf(day), x - MonthStart(day) + 1);
  }

  lemma MonthStartNumber(day: int)
    ensures MonthStart(day) == DayNumber(YearOf(day), MonthOf(day), 1)
  {
  }

  lemma MonthLength(y: int, m: int)
    requires 1 <= m <= 12
    ensures DayNumber(y, m, 1) + DaysInMonth(y, m) == if m == 12 then DayNumber(y + 1, 1, 1) else DayNumber(y, m + 1, 1)
  {
    YearLength(y);
    MonthsFillYear(y);
    assert DaysBeforeMonth(y, m + 1) == DaysBeforeMonth(y, m) + DaysInMonth(y, m);
  }

  lemma NextMonthNumber(day: int)
    ensures var y, m := YearOf(day), MonthOf(day);
            NextMonthStart(day) == if m == 12 then DayNumber(y + 1, 1, 1) else DayNumber(y, m + 1, 1)
  {
    MonthStartNumber(day);
    MonthLength(YearOf(day), MonthOf(day));
  }

  lemma FirstOf(first: int, y: int, m: int)
    requires 1 <= m <= 12 && first == DayNumber(y, m, 1)
    ensures YearOf(first) == y && MonthOf(first) == m && DomOf(first) == 1
  {
    DateIsUnique(first, y, m, 1);
  }

  lemma MonthAfter(next: int, y: int, m: int)
    requires 1 <= m <= 12 && next == if m == 12 then DayNumber(y + 1, 1, 1) else DayNumber(y, m + 1, 1)
    ensures DomOf(next) == 1 && YearOf(next) == (if m == 12 then y + 1 else y) && MonthOf(next) == if m == 12 then 1 else m + 1
  {
    if m == 12 { FirstOf(next, y + 1, 1); } else { FirstOf(next, y, m + 1); }
  }

  lemma NextMonthFollows(day: int)
    ensures var next := NextMonthStart(day);
            && DomOf(next) == 1
            && YearOf(next) == (if MonthOf(day) == 12 then YearOf(day) + 1 else YearOf(day))
            && MonthOf(next) == if MonthOf(day) == 12 then 1 else MonthOf(day) + 1
  {
    NextMonthNumber(day);
    MonthAfter(NextMonthStart(day), YearOf(day), MonthOf(day));
  }

  lemma DayWithin(next: int, y: int, m: int, d: int)
    requires 1 <= m <= 12 && 1 <= d < DaysInMonth(y, m) && next == DayNumber(y, m, d) + 1
    ensures DomOf(next) == d + 1 && YearOf(next) == y && MonthOf(next) == m
  {
    DateIsUnique(next, y, m, d + 1);
  }

  lemma DateAfter(next: int, y: int, m: int, d: int)
    requires 1 <= m <= 12 && 1 <= d <= DaysInMonth(y, m) && next == DayNumber(y, m, d) + 1
    ensures if d < DaysInMonth(y, m) then DomOf(next) == d + 1 && YearOf(next) == y && MonthOf(next) == m else DomOf(next) == 1
  {
    if d < DaysInMonth(y, m) {
      DayWithin(next, y, m, d);
    } else {
      MonthLength(y, m);
      MonthAfter(next, y, m);
    }
  }

  // The next day is in the same month, or is the first of the next one.
  lemma NextDayFollows(day: int)
    ensures DomOf(day + 1) == 1 || (DomOf(day + 1) == DomOf(day) + 1 && YearOf(day + 1) == YearOf(day) && MonthOf(day + 1) == MonthOf(day))
    ensures DomOf(day) < DaysInMonth(YearOf(day), MonthOf(day)) <==> DomOf(day + 1) != 1
  {
    DateAfter(day + 1, YearOf(day), MonthOf(day), DomOf(day));
  }

  lemma LaterDayLaterYear(a: int, b: int)
    requires a <= b
    ensures YearOf(a) <= YearOf(b)
  {
    if YearOf(b) < YearOf(a) { YearsIncrease(YearOf(b), YearOf(a)); }
  }
}
