/**
 What a cron expression means, stated apart from the code that reads it and the
 search that follows it: the values of a part, the days its two day fields name,
 the seconds it fires at, and the second Next finds.
 */
module CronMeaning {
  import opened Basics
  import opened Calendar
  import opened Cron

  // ---------------------------------------------------------------- the values of a field

  /** v is lo, or some steps after it, and not past hi. */
  predicate Stepped(v: int, lo: int, hi: int, step: int)
    requires step > 0
  {
    lo <= v <= hi && (v - lo) % step == 0
  }

  lemma ProductAtLeast(d: int, n: int)
    requires d >= 1 && n > 0
    ensures d * n >= n
  {
    assert d * n == (d - 1) * n + n && (d - 1) * n >= 0;
  }

  // Quotient and remainder are what they add up to.
  lemma DivisionIsUnique(x: int, q: int, n: int, r: int)
    requires n > 0 && 0 <= r < n && x == q * n + r
    ensures x / n == q && x % n == r
  {
    var k := x / n;
    assert x == k * n + x % n;
    assert (q - k) * n == x % n - r;
    if q > k {
      ProductAtLeast(q - k, n);
    } else if q < k {
      assert (k - q) * n == r - x % n;
      ProductAtLeast(k - q, n);
    }
  }

  lemma SteppedIsNth(v: int, lo: int, step: int)
    requires step > 0
    ensures (exists n: nat :: v == Nth(lo, step, n)) <==> lo <= v && (v - lo) % step == 0
  {
    if lo <= v && (v - lo) % step == 0 {
      var n := (v - lo) / step;
      assert v - lo == n * step + (v - lo) % step;
      assert n >= 0 && v == Nth(lo, step, n);
    }
    if n: nat :| v == Nth(lo, step, n) {
      assert n * step >= 0;
      DivisionIsUnique(v - lo, n, step, 0);
    }
  }

  // A part denotes its value, its range, or the steps from its start through
  // its end, which is the field's own without one.
  lemma PartMeans(p: Part, lo: int, hi: int, v: int)
    requires PartStep(p) > 0
    ensures PartDenotes(p, lo, hi, v) <==>
              match (p.span, p.step)
              case (Any, None) => lo <= v <= hi
              case (Any, Some(n)) => Stepped(v, lo, hi, n)
              case (Single(x), None) => v == x
              case (Single(x), Some(n)) => Stepped(v, x, hi, n)
              case (Range(a, b), None) => a <= v <= b
              case (Range(a, b), Some(n)) => Stepped(v, a, b, n)
  {
    SteppedIsNth(v, PartStart(p, lo), PartStep(p));
  }

  // A part is taken exactly when its step is positive and its values run upwards within the field's.
  lemma PartValidIff(p: Part, lo: int, hi: int)
    ensures PartValid(p, lo, hi) <==>
              && (p.step.Some? ==> p.step.value > 0)
              && match p.span
                 case Any => lo <= hi
                 case Single(x) => lo <= x <= hi
                 case Range(a, b) => lo <= a <= b <= hi
  {
  }

  // An unrestricted field denotes every value it can hold.
  lemma StarDenotesAll(parts: seq<Option<Part>>, lo: int, hi: int, v: int)
    requires FieldStar(parts) && lo <= v <= hi
    ensures FieldDenotes(parts, lo, hi, v)
  {
    var i :| 0 <= i < |parts| && parts[i] == Some(Part(Any, None));
    PartMeans(Part(Any, None), lo, hi, v);
  }

  // ---------------------------------------------------------------- the days and seconds it fires at

  /** The expression names the day of the week, 7 being Sunday too. */
  ghost predicate NamesWeekday(f: seq<seq<Option<Part>>>, w: int)
    requires |f| == 6
  {
    FieldDenotes(f[5], 0, 7, w) || (w == 0 && FieldDenotes(f[5], 0, 7, 7))
  }

  /** Of the two day fields, one that is unrestricted leaves the day to the other; with neither, either will do. */
  ghost predicate NamesDay(f: seq<seq<Option<Part>>>, dom: int, weekday: int)
    requires |f| == 6
  {
    if FieldStar(f[3]) then NamesWeekday(f, weekday)
    else if FieldStar(f[5]) then FieldDenotes(f[3], 1, 31, dom)
    else FieldDenotes(f[3], 1, 31, dom) || NamesWeekday(f, weekday)
  }

  lemma DayMatchesIff(s: Schedule, f: seq<seq<Option<Part>>>, day: int)
    requires |f| == 6 && MeansFields(s, f)
    ensures DayMatches(s, day) <==> NamesDay(f, DomOf(day), WeekdayOf(day))
  {
    if FieldStar(f[3]) { StarDenotesAll(f[3], 1, 31, DomOf(day)); }
    if FieldStar(f[5]) { StarDenotesAll(f[5], 0, 7, WeekdayOf(day)); }
  }

  /** A moment of the calendar, to the second. */
  datatype Moment = Moment(year: int, month: int, dom: int, hour: int, minute: int, second: int)

  predicate IsMoment(m: Moment) {
    && 1 <= m.month <= 12 && 1 <= m.dom <= DaysInMonth(m.year, m.month)
    && 0 <= m.hour < 24 && 0 <= m.minute < 60 && 0 <= m.second < 60
  }

  /** The second the moment is. */
  function SecondsAt(m: Moment): int
    requires IsMoment(m)
  {
    DayNumber(m.year, m.month, m.dom) * 86400 + m.hour * 3600 + m.minute * 60 + m.second
  }

  lemma HourOfDay(t: int, day: int, h: int, rest: int)
    requires 0 <= h < 24 && 0 <= rest < 3600 && t == (day * 24 + h) * 3600 + rest
    ensures t / 3600 % 24 == h
  {
    DivisionIsUnique(t, day * 24 + h, 3600, rest);
    DivisionIsUnique(day * 24 + h, day, 24, h);
  }

  lemma MinuteOfHour(t: int, hours: int, m: int, rest: int)
    requires 0 <= m < 60 && 0 <= rest < 60 && t == (hours * 60 + m) * 60 + rest
    ensures t / 60 % 60 == m && t % 60 == rest
  {
    DivisionIsUnique(t, hours * 60 + m, 60, rest);
    DivisionIsUnique(hours * 60 + m, hours, 60, m);
  }

  lemma ClockOf(t: int, day: int, h: int, m: int, rest: int)
    requires 0 <= h < 24 && 0 <= m < 60 && 0 <= rest < 60 && t == day * 86400 + h * 3600 + m * 60 + rest
    ensures DayOf(t) == day && HourOf(t) == h && MinuteOf(t) == m && SecondOf(t) == rest
  {
    DivisionIsUnique(t, day, 86400, h * 3600 + m * 60 + rest);
    HourOfDay(t, day, h, m * 60 + rest);
    MinuteOfHour(t, day * 24 + h, m, rest);
  }

  // The fields of a second are those of its moment.
  lemma FieldsOfMoment(m: Moment)
    requires IsMoment(m)
    ensures var t := SecondsAt(m);
            && YearAt(t) == m.year && MonthOf(DayOf(t)) == m.month && DomOf(DayOf(t)) == m.dom
            && HourOf(t) == m.hour && MinuteOf(t) == m.minute && SecondOf(t) == m.second
            && DayOf(t) == DayNumber(m.year, m.month, m.dom)
  {
    var day := DayNumber(m.year, m.month, m.dom);
    DateIsUnique(day, m.year, m.month, m.dom);
    ClockOf(SecondsAt(m), day, m.hour, m.minute, m.second);
  }

  /** What the expression says of a moment that falls on a weekday. */
  ghost predicate FiresAt(f: seq<seq<Option<Part>>>, m: Moment, weekday: int)
    requires |f| == 6
  {
    && FieldDenotes(f[0], 0, 59, m.second) && FieldDenotes(f[1], 0, 59, m.minute) && FieldDenotes(f[2], 0, 23, m.hour)
    && FieldDenotes(f[4], 1, 12, m.month) && NamesDay(f, m.dom, weekday)
  }

  // A parsed expression matches exactly the seconds of the moments it fires at,
  // weekdays counted from 1 January 1970, a Thursday.
  lemma MatchesIff(s: Schedule, f: seq<seq<Option<Part>>>, m: Moment)
    requires |f| == 6 && MeansFields(s, f) && IsMoment(m)
    ensures var weekday := (4 + DayNumber(m.year, m.month, m.dom) - DayNumber(1970, 1, 1)) % 7;
            Matches(s, SecondsAt(m)) <==> FiresAt(f, m, weekday)
  {
    var day := DayNumber(m.year, m.month, m.dom);
    FieldsOfMoment(m);
    DayMatchesIff(s, f, day);
    WeekdayIsCounted(day);
  }

  // Without a field of their own the seconds are 0, and the other fields are as they are given.
  lemma FiveFieldsFireOnTheMinute(fields: seq<seq<Option<Part>>>, v: int)
    requires |fields| == 5
    ensures FieldDenotes(SixFields(fields)[0], 0, 59, v) <==> v == 0
    ensures SixFields(fields)[1..] == fields && FieldValid(SixFields(fields)[0], 0, 59)
  {
    var parts := SixFields(fields)[0];
    PartMeans(Part(Single(0), None), 0, 59, v);
    if v == 0 { assert parts[0].Some? && PartDenotes(parts[0].value, 0, 59, v); }
  }
}
