/** The two schedules a periodic job can be stored with, and how far each tells its slots right. */
module Schedules {
  import opened Basics
  import opened Calendar
  import opened Slots
  import Cron

  // ---------------------------------------------------------------- every interval

  function IntervalNext(t: int, d: int): Option<int>
    requires d > 0
  {
    Some(Truncate(t, d) + d)
  }

  function Multiple(k: int, d: int): int { k * d }

  ghost predicate IsMultiple(x: int, d: int) {
    exists k :: x == Multiple(k, d)
  }

  lemma MultiplesAreApart(j: int, k: int, d: int)
    requires d > 0 && j < k
    ensures Multiple(j, d) + d <= Multiple(k, d)
  {
    assert (k - j - 1) * d >= 0;
  }

  lemma TruncateIsMultiple(t: int, d: int)
    requires d > 0
    ensures Truncate(t, d) == Multiple(t / d, d) && Truncate(t, d) <= t < Truncate(t, d) + d
  {
    assert t == (t / d) * d + t % d;
  }

  // Every slot of an interval schedule is a multiple of the interval, and Next skips none, at any time.
  lemma IntervalIsLawful(d: int)
    requires d > 0
    ensures Lawful(t => IntervalNext(t, d), x => IsMultiple(x, d))
  {
    var next, isSlot := t => IntervalNext(t, d), x => IsMultiple(x, d);
    forall t, through ensures LeastAfter(next, isSlot, t, through) {
      TruncateIsMultiple(t, d);
      var q := t / d;
      assert Truncate(t, d) + d == Multiple(q + 1, d);
      forall x | t < x <= Truncate(t, d) + d - 1 ensures !isSlot(x) {
        forall k ensures x != Multiple(k, d) {
          if k <= q {
            if k < q { MultiplesAreApart(k, q, d); }
          } else if q + 1 < k {
            MultiplesAreApart(q + 1, k, d);
          }
        }
      }
    }
  }

  // ---------------------------------------------------------------- cron

  /** The slots of an expression are the whole seconds it matches. */
  predicate IsCronSlot(s: Cron.Schedule, x: int) {
    x % NANOS == 0 && Cron.Matches(s, x / NANOS)
  }

  function CronFn(s: Cron.Schedule): NextFn {
    t => Cron.CronNext(s, t)
  }

  function CronSlots(s: Cron.Schedule): int -> bool {
    x => IsCronSlot(s, x)
  }

  lemma CronNextIsSlot(s: Cron.Schedule, t: int)
    ensures var r := Cron.CronNext(s, t);
            r.Some? ==> t < r.value && IsCronSlot(s, r.value)
  {
    var first := Cron.SecondAfter(t);
    var found := Cron.Scan(s, first, Cron.EndOfYear(Cron.YearLimit(first)));
    if found.Some? {
      Cron.ScanHolds(s, first, found.value);
      Cron.WholeSecondsAfter(t, found.value);
      assert found.value * NANOS / NANOS == found.value;
    }
  }

  lemma CronProgresses(s: Cron.Schedule)
    ensures Progresses(CronFn(s))
    ensures forall t :: CronFn(s)(t).Some? ==> CronSlots(s)(CronFn(s)(t).value)
  {
    forall t ensures CronFn(s)(t).Some? ==> t < CronFn(s)(t).value && CronSlots(s)(CronFn(s)(t).value) {
      CronNextIsSlot(s, t);
    }
  }

  lemma CronSkipsNone(s: Cron.Schedule, t: int, x: int)
    requires t < x && IsCronSlot(s, x)
    requires Cron.YearAt(x / NANOS) <= Cron.YearLimit(Cron.SecondAfter(t))
    ensures Cron.CronNext(s, t).Some? && Cron.CronNext(s, t).value <= x
  {
    var first := Cron.SecondAfter(t);
    var end := Cron.EndOfYear(Cron.YearLimit(first));
    var second := x / NANOS;
    assert x == second * NANOS;
    Cron.WholeSecondsAfter(t, second);
    Cron.WithinYear(second, Cron.YearLimit(first));
    Cron.ScanFindsLeast(s, first, end);
  }

  /** The first slot after each time is no further than the search for it looks. */
  ghost predicate GapsWithinHorizon(s: Cron.Schedule, lo: int, hi: int) {
    forall t, x :: lo <= t < x <= hi && IsCronSlot(s, x) && NoSlotIn(CronSlots(s), t, x - 1) ==>
      Cron.YearAt(x / NANOS) <= Cron.YearLimit(Cron.SecondAfter(t))
  }

  // Within the horizon the search finds the first slot after t.
  lemma FirstSlotIsFound(s: Cron.Schedule, t: int, hi: int)
    requires t <= hi && GapsWithinHorizon(s, t, hi)
    ensures LeastAfter(CronFn(s), CronSlots(s), t, hi)
  {
    CronNextIsSlot(s, t);
    if NoSlotIn(CronSlots(s), t, hi) {
      NoneFoundWhereNone(s, t, hi);
    } else {
      FirstSlotOrNone(s, t, hi);
      var x :| t < x <= hi && IsCronSlot(s, x) && NoSlotIn(CronSlots(s), t, x - 1);
      CronSkipsNone(s, t, x);
      FoundIsLeast(CronFn(s), CronSlots(s), t, x, hi);
    }
  }

  lemma NoneFoundWhereNone(s: Cron.Schedule, t: int, hi: int)
    requires t <= hi && NoSlotIn(CronSlots(s), t, hi)
    ensures LeastAfter(CronFn(s), CronSlots(s), t, hi)
  {
    CronNextIsSlot(s, t);
  }

  lemma {:induction false} FirstSlotOrNone(s: Cron.Schedule, t: int, hi: int)
    requires t <= hi
    ensures NoSlotIn(CronSlots(s), t, hi) || exists x :: t < x <= hi && IsCronSlot(s, x) && NoSlotIn(CronSlots(s), t, x - 1)
    decreases hi - t
  {
    if t >= hi {
    } else {
      FirstSlotOrNone(s, t, hi - 1);
      if NoSlotIn(CronSlots(s), t, hi - 1) && IsCronSlot(s, hi) {
        assert t < hi <= hi && IsCronSlot(s, hi) && NoSlotIn(CronSlots(s), t, hi - 1);
      }
    }
  }

  // The search finds no slot past its year limit.
  lemma FoundIsWithinHorizon(s: Cron.Schedule, t: int, x: int)
    requires Cron.CronNext(s, t) == Some(x)
    ensures Cron.YearAt(x / NANOS) <= Cron.YearLimit(Cron.SecondAfter(t))
  {
    var first := Cron.SecondAfter(t);
    var found := Cron.Scan(s, first, Cron.EndOfYear(Cron.YearLimit(first)));
    Cron.ScanHolds(s, first, found.value);
    assert found.value * NANOS / NANOS == found.value;
  }

  lemma GapsWithinPart(s: Cron.Schedule, lo: int, t: int, hi: int)
    requires GapsWithinHorizon(s, lo, hi) && lo <= t
    ensures GapsWithinHorizon(s, t, hi)
  {
  }

  // A cron expression tells its slots right over a stretch if and only if, from
  // every time in it, the first slot after is within the five years searched.
  lemma CronLawfulIffGapsWithin(s: Cron.Schedule, lo: int, hi: int)
    ensures LawfulWithin(CronFn(s), CronSlots(s), lo, hi) <==> GapsWithinHorizon(s, lo, hi)
  {
    if GapsWithinHorizon(s, lo, hi) {
      forall t | lo <= t <= hi ensures LeastAfter(CronFn(s), CronSlots(s), t, hi) {
        GapsWithinPart(s, lo, t, hi);
        FirstSlotIsFound(s, t, hi);
      }
    }
    if LawfulWithin(CronFn(s), CronSlots(s), lo, hi) {
      forall t, x | lo <= t < x <= hi && IsCronSlot(s, x) && NoSlotIn(CronSlots(s), t, x - 1)
        ensures Cron.YearAt(x / NANOS) <= Cron.YearLimit(Cron.SecondAfter(t))
      {
        LeastIsFirst(CronFn(s), CronSlots(s), t, x, hi);
        FoundIsWithinHorizon(s, t, x);
      }
    }
  }

  // The search for recent slots of a cron expression from lo is exact, for every
  // count, if and only if from every time between lo and now the first slot
  // after is within the five years Next looks.
  lemma CronRecentExactIff(s: Cron.Schedule, lo: int, now: int)
    ensures ExactFrom(CronFn(s), CronSlots(s), lo, now) <==> GapsWithinHorizon(s, lo, now)
  {
    CronProgresses(s);
    if GapsWithinHorizon(s, lo, now) {
      CronLawfulIffGapsWithin(s, lo, now);
      forall n: nat | n >= 1 ensures Recent(CronFn(s), lo, now, n) == LatestSlots(CronSlots(s), lo, now, n) {
        RecentIsLatest(CronFn(s), CronSlots(s), lo, now, n);
      }
    }
    if ExactFrom(CronFn(s), CronSlots(s), lo, now) {
      forall t, x | lo <= t < x <= now && IsCronSlot(s, x) && NoSlotIn(CronSlots(s), t, x - 1)
        ensures Cron.YearAt(x / NANOS) <= Cron.YearLimit(Cron.SecondAfter(t))
      {
        var u := ExactFindsFirst(CronFn(s), CronSlots(s), lo, now, t, x);
        FoundIsWithinHorizon(s, u, x);
        LaterLooksFurther(u, t);
      }
    }
  }

  lemma LaterLooksFurther(u: int, t: int)
    requires u <= t
    ensures Cron.YearLimit(Cron.SecondAfter(u)) <= Cron.YearLimit(Cron.SecondAfter(t))
  {
    LaterDayLaterYear(Cron.DayOf(Cron.SecondAfter(u)), Cron.DayOf(Cron.SecondAfter(t)));
  }

  // A cron expression tells its slots right over any stretch whose end is within the search's horizon of its start.
  lemma CronIsLawfulWithinHorizon(s: Cron.Schedule, lo: int, hi: int)
    requires Cron.YearAt(hi / NANOS) <= Cron.YearLimit(Cron.SecondAfter(lo))
    ensures LawfulWithin(CronFn(s), CronSlots(s), lo, hi)
  {
    forall t, x | lo <= t < x <= hi ensures Cron.YearAt(x / NANOS) <= Cron.YearLimit(Cron.SecondAfter(t)) {
      LaterDayLaterYear(Cron.DayOf(x / NANOS), Cron.DayOf(hi / NANOS));
      LaterLooksFurther(lo, t);
    }
    CronLawfulIffGapsWithin(s, lo, hi);
  }

  // ---------------------------------------------------------------- past the horizon

  /** Midnight on every 29 February. */
  const LEAP_DAY := Cron.Schedule({0}, {0}, {0}, {29}, {2}, {0, 1, 2, 3, 4, 5, 6}, false, true)

  /** Midnight on 29 February of a year, in nanoseconds. */
  function LeapMidnight(y: int): int { DayNumber(y, 2, 29) * 86400 * NANOS }

  lemma LeapDaySlotIsMidnight(x: int)
    requires Cron.Matches(LEAP_DAY, x)
    ensures IsLeap(Cron.YearAt(x)) && x == DayNumber(Cron.YearAt(x), 2, 29) * 86400
  {
    var day := Cron.DayOf(x);
    assert DomOf(day) == 29 && MonthOf(day) == 2;
    Midnight(x);
    LeapYearHas29(day);
  }

  lemma LeapYearHas29(day: int)
    requires DomOf(day) == 29 && MonthOf(day) == 2
    ensures IsLeap(YearOf(day)) && day == DayNumber(YearOf(day), 2, 29)
  {
    assert DaysInMonth(YearOf(day), MonthOf(day)) >= 29;
  }

  lemma LeapMidnightIsSlot(y: int)
    requires IsLeap(y)
    ensures IsCronSlot(LEAP_DAY, LeapMidnight(y)) && Cron.YearAt(LeapMidnight(y) / NANOS) == y
  {
    var day := DayNumber(y, 2, 29);
    DateIsUnique(day, y, 2, 29);
    var x := day * 86400;
    assert Cron.DayOf(x) == day;
    Midnight(x);
    assert LeapMidnight(y) / NANOS == x;
    LeapDayMatches(day);
  }

  lemma LeapDayMatches(day: int)
    requires MonthOf(day) == 2 && DomOf(day) == 29
    ensures MonthOf(day) in LEAP_DAY.month && Cron.DayMatches(LEAP_DAY, day)
  {
    AnyWeekday(WeekdayOf(day));
    assert DomOf(day) in LEAP_DAY.dom;
  }

  lemma AnyWeekday(w: int)
    requires 0 <= w <= 6
    ensures w in LEAP_DAY.dow
  {
  }

  lemma Midnight(x: int)
    ensures Cron.HourOf(x) == 0 && Cron.MinuteOf(x) == 0 && Cron.SecondOf(x) == 0 <==> x % 86400 == 0
  {
    HoursOfDay(x);
    MinutesOfHour(x);
  }

  lemma HoursOfDay(x: int)
    ensures x % 86400 == x / 3600 % 24 * 3600 + x % 3600
  {
    var hours := x / 3600;
    assert hours == hours / 24 * 24 + hours % 24;
    assert x == hours * 3600 + x % 3600;
    RestOfDay(x, hours / 24, hours % 24, x % 3600);
  }

  lemma RestOfDay(x: int, days: int, h: int, rest: int)
    requires x == (days * 24 + h) * 3600 + rest && 0 <= h < 24 && 0 <= rest < 3600
    ensures x % 86400 == h * 3600 + rest
  {
    assert x == days * 86400 + (h * 3600 + rest);
  }

  lemma MinutesOfHour(x: int)
    ensures x % 3600 == x / 60 % 60 * 60 + x % 60
  {
    var minutes := x / 60;
    assert minutes == minutes / 60 * 60 + minutes % 60;
    assert x == minutes * 60 + x % 60;
    RestOfHour(x, minutes / 60, minutes % 60, x % 60);
  }

  lemma RestOfHour(x: int, hours: int, m: int, rest: int)
    requires x == (hours * 60 + m) * 60 + rest && 0 <= m < 60 && 0 <= rest < 60
    ensures x % 3600 == m * 60 + rest
  {
    assert x == hours * 3600 + (m * 60 + rest);
  }

  /** No leap year lies strictly between y and z. */
  predicate ConsecutiveLeapYears(y: int, z: int) {
    IsLeap(y) && IsLeap(z) && y < z && forall i :: y < i < z ==> !IsLeap(i)
  }

  lemma SecondAfterMidnight(day: int)
    ensures Cron.SecondAfter(day * 86400 * NANOS) == day * 86400 + 1 && Cron.DayOf(day * 86400 + 1) == day
  {
  }

  lemma LaterLeapDay(y: int, z: int, x: int)
    requires ConsecutiveLeapYears(y, z) && DayNumber(y, 2, 29) * 86400 < x && y <= Cron.YearAt(x) && Cron.Matches(LEAP_DAY, x)
    ensures z <= Cron.YearAt(x)
  {
    LeapDaySlotIsMidnight(x);
  }

  lemma NoLeapDayBetween(y: int, z: int, x: int)
    requires ConsecutiveLeapYears(y, z) && DayNumber(y, 2, 29) * 86400 < x && y <= Cron.YearAt(x) < z
    ensures !Cron.Matches(LEAP_DAY, x)
  {
    if Cron.Matches(LEAP_DAY, x) { LaterLeapDay(y, z, x); }
  }

  // Next finds nothing from a leap day that the next one follows after more than the five years it looks ahead.
  lemma LeapDayNextIsNone(y: int, z: int)
    requires ConsecutiveLeapYears(y, z) && z > y + 5
    ensures Cron.CronNext(LEAP_DAY, LeapMidnight(y)) == None
  {
    var t, day := LeapMidnight(y), DayNumber(y, 2, 29);
    var first := Cron.SecondAfter(t);
    SecondAfterMidnight(day);
    DateIsUnique(day, y, 2, 29);
    forall x | first <= x && Cron.YearAt(x) <= Cron.YearLimit(first) ensures !Cron.Matches(LEAP_DAY, x) {
      LaterDayLaterYear(day, Cron.DayOf(x));
      NoLeapDayBetween(y, z, x);
    }
    Cron.NextIsNone(LEAP_DAY, t);
  }

  // Between consecutive leap days there is no other slot.
  lemma OneLeapSlot(y: int, z: int, x: int)
    requires ConsecutiveLeapYears(y, z)
    requires LeapMidnight(y) < x <= LeapMidnight(z) && IsCronSlot(LEAP_DAY, x)
    ensures x == LeapMidnight(z)
  {
    var second := x / NANOS;
    LeapDaySlotIsMidnight(second);
    var d := DayNumber(Cron.YearAt(second), 2, 29);
    assert x == d * 86400 * NANOS && Cron.DayOf(second) == d;
    OneLeapDay(y, z, d);
  }

  lemma OneLeapDay(y: int, z: int, d: int)
    requires ConsecutiveLeapYears(y, z) && DayNumber(y, 2, 29) < d <= DayNumber(z, 2, 29)
    requires IsLeap(YearOf(d)) && d == DayNumber(YearOf(d), 2, 29)
    ensures d == DayNumber(z, 2, 29)
  {
    DateIsUnique(DayNumber(y, 2, 29), y, 2, 29);
    DateIsUnique(DayNumber(z, 2, 29), z, 2, 29);
    LaterDayLaterYear(DayNumber(y, 2, 29), d);
    LaterDayLaterYear(d, DayNumber(z, 2, 29));
  }

  lemma CenturyGap()
    ensures ConsecutiveLeapYears(2096, 2104)
  {
  }

  // So a client away from the slot of 2096 to that of 2104, which catches up on
  // two slots or more, is given none, although one is due: 2100 is not a leap year.
  lemma RecentSlotsMissesLeapDay(n: nat)
    requires n >= 2
    ensures Recent(CronFn(LEAP_DAY), LeapMidnight(2096), LeapMidnight(2104), n) == []
    ensures LatestSlots(CronSlots(LEAP_DAY), LeapMidnight(2096), LeapMidnight(2104), n) == [LeapMidnight(2104)]
  {
    CenturyGap();
    SearchMissesLeapDay(2096, 2104, n);
  }

  lemma SearchMissesLeapDay(y: int, z: int, n: nat)
    requires ConsecutiveLeapYears(y, z) && z > y + 5 && n >= 2
    ensures Recent(CronFn(LEAP_DAY), LeapMidnight(y), LeapMidnight(z), n) == []
    ensures LatestSlots(CronSlots(LEAP_DAY), LeapMidnight(y), LeapMidnight(z), n) == [LeapMidnight(z)]
  {
    var lo, hi := LeapMidnight(y), LeapMidnight(z);
    var from := SearchStopsAtWindow(CronFn(LEAP_DAY), lo, hi, n, Min(MILLISECOND, Sub(hi, lo)));
    var found := Recent(CronFn(LEAP_DAY), lo, hi, n);
    MissesLeapDay(y, z, n, found, from);
  }

  lemma MissesLeapDay(y: int, z: int, n: nat, slots: seq<int>, from: int)
    requires ConsecutiveLeapYears(y, z) && z > y + 5 && n >= 2
    requires FromWindow(CronFn(LEAP_DAY), LeapMidnight(y), LeapMidnight(z), n, slots, from)
    ensures slots == []
    ensures LatestSlots(CronSlots(LEAP_DAY), LeapMidnight(y), LeapMidnight(z), n) == [LeapMidnight(z)]
  {
    var lo, hi := LeapMidnight(y), LeapMidnight(z);
    CronProgresses(LEAP_DAY);
    LeapMidnightIsSlot(z);
    LeapDayNextIsNone(y, z);
    LeapDaysIncrease(y, z);
    forall x | lo < x <= hi && CronSlots(LEAP_DAY)(x) ensures x == hi {
      OneLeapSlot(y, z, x);
    }
    SearchMissesSlot(CronFn(LEAP_DAY), CronSlots(LEAP_DAY), lo, hi, n, slots, from);
  }

  lemma LeapDaysIncrease(y: int, z: int)
    requires y < z
    ensures LeapMidnight(y) < LeapMidnight(z)
  {
    YearsIncrease(y, z);
    YearLength(y);
    MonthsFillYear(y);
    assert DaysBeforeMonth(y, 2) == 31 && DaysBeforeMonth(z, 2) == 31;
  }
}
