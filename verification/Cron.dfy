/**
 Cron expressions in UTC: the set of values a field denotes, and the search for
 the next matching second. A field's set is what the source packs in the bits of
 a uint64; every value is below 64.
 */
module Cron {
  import opened Basics
  import opened Calendar

  // ---------------------------------------------------------------- fields

  datatype Span = Any | Single(value: int) | Range(low: int, high: int)

  /** One comma-separated part of a field, its texts read as numbers. */
  datatype Part = Part(span: Span, step: Option<int>)

  function PartStart(p: Part, lo: int): int {
    match p.span
    case Any => lo
    case Single(v) => v
    case Range(low, _) => low
  }

  function PartEnd(p: Part, hi: int): int {
    match p.span
    case Any => hi
    case Single(v) => if p.step.Some? then hi else v
    case Range(_, high) => high
  }

  function PartStep(p: Part): int {
    if p.step.Some? then p.step.value else 1
  }

  predicate PartValid(p: Part, lo: int, hi: int) {
    PartStep(p) > 0 && lo <= PartStart(p, lo) <= PartEnd(p, hi) <= hi
  }

  /** The value a part reaches after n steps. */
  function Nth(start: int, step: int, n: nat): int { start + n * step }

  /** v is one of the values the part steps through. */
  ghost predicate PartDenotes(p: Part, lo: int, hi: int, v: int) {
    v <= PartEnd(p, hi) && exists n: nat :: v == Nth(PartStart(p, lo), PartStep(p), n)
  }

  /** A field: the values it matches, and whether it is unrestricted. */
  datatype Field = Field(values: set<int>, star: bool)

  lemma NthIncreases(start: int, step: int, a: nat, b: nat)
    requires step > 0 && a <= b
    ensures Nth(start, step, a) <= Nth(start, step, b)
  {
    assert (b - a) * step >= 0;
  }

  /** The values start, start + step and so on through end. */
  method Steps(start: int, end: int, step: int) returns (values: set<int>)
    requires step > 0
    ensures forall v :: v in values <==> v <= end && exists n: nat :: v == Nth(start, step, n)
  {
    values := {};
    var i := start;
    ghost var k: nat := 0;
    while i <= end
      invariant i == Nth(start, step, k)
      invariant forall v :: v in values <==> v <= end && exists n: nat :: n < k && v == Nth(start, step, n)
      decreases end - i
    {
      values := values + {i};
      i := i + step;
      k := k + 1;
    }
    forall n: nat | Nth(start, step, n) <= end ensures n < k {
      if k <= n { NthIncreases(start, step, k, n); }
    }
  }

  /** Every part of the field reads as one, with its values in range. */
  predicate FieldValid(parts: seq<Option<Part>>, lo: int, hi: int) {
    parts != [] && forall i :: 0 <= i < |parts| ==> parts[i].Some? && PartValid(parts[i].value, lo, hi)
  }

  ghost predicate FieldDenotes(parts: seq<Option<Part>>, lo: int, hi: int, v: int) {
    exists i :: 0 <= i < |parts| && parts[i].Some? && PartDenotes(parts[i].value, lo, hi, v)
  }

  predicate FieldStar(parts: seq<Option<Part>>) {
    Some(Part(Any, None)) in parts
  }

  /**
   Parses a field whose texts have been read; None stands for a part that does
   not read as one. The result is None exactly for an invalid field, and
   otherwise holds exactly the values its parts denote.
   */
  method ParseField(parts: seq<Option<Part>>, lo: int, hi: int) returns (field: Option<Field>)
    ensures field.Some? <==> FieldValid(parts, lo, hi)
    ensures field.Some? ==> forall v :: v in field.value.values <==> FieldDenotes(parts, lo, hi, v)
    ensures field.Some? ==> (field.value.star <==> FieldStar(parts))
  {
    if parts == [] {
      return None;
    }
    var values, star := {}, false;
    for k := 0 to |parts|
      invariant forall i :: 0 <= i < k ==> parts[i].Some? && PartValid(parts[i].value, lo, hi)
      invariant forall v :: v in values <==> FieldDenotes(parts[..k], lo, hi, v)
      invariant star <==> FieldStar(parts[..k])
    {
      if parts[k].None? {
        return None;
      }
      var p := parts[k].value;
      if p.span.Any? && p.step.None? {
        star := true;
      }
      if !PartValid(p, lo, hi) {
        return None;
      }
      var more := Steps(PartStart(p, lo), PartEnd(p, hi), PartStep(p));
      forall v ensures v in values + more <==> FieldDenotes(parts[..k + 1], lo, hi, v) {
        DenotesOneMore(parts, k, lo, hi, v);
        assert v in more <==> PartDenotes(p, lo, hi, v);
      }
      assert parts[..k + 1] == parts[..k] + [parts[k]];
      values := values + more;
    }
    assert parts[..|parts|] == parts;
    field := Some(Field(values, star));
  }

  lemma DenotesOneMore(parts: seq<Option<Part>>, k: nat, lo: int, hi: int, v: int)
    requires k < |parts| && parts[k].Some?
    ensures FieldDenotes(parts[..k + 1], lo, hi, v) <==>
              FieldDenotes(parts[..k], lo, hi, v) || PartDenotes(parts[k].value, lo, hi, v)
  {
    var short, long := parts[..k], parts[..k + 1];
    if FieldDenotes(short, lo, hi, v) {
      var i :| 0 <= i < |short| && short[i].Some? && PartDenotes(short[i].value, lo, hi, v);
      assert long[i] == short[i];
    }
    if FieldDenotes(long, lo, hi, v) {
      var i :| 0 <= i < |long| && long[i].Some? && PartDenotes(long[i].value, lo, hi, v);
      if i < k { assert short[i] == long[i]; }
    }
    assert long[k] == parts[k];
  }

  /** 7 means Sunday too. */
  function FoldSunday(dow: set<int>): (folded: set<int>)
    ensures forall v :: v in folded <==> v != 7 && (v in dow || (v == 0 && 7 in dow))
  {
    if 7 in dow then dow + {0} - {7} else dow
  }

  /** A parsed expression. */
  datatype Schedule = Schedule(
    second: set<int>,
    minute: set<int>,
    hour: set<int>,
    dom: set<int>,
    month: set<int>,
    dow: set<int>,
    domStar: bool,
    dowStar: bool)

  /** The six fields, of an expression of five or six: seconds are 0 without a field of their own. */
  function SixFields(fields: seq<seq<Option<Part>>>): seq<seq<Option<Part>>> {
    if |fields| == 5 then [[Some(Part(Single(0), None))]] + fields else fields
  }

  predicate ExpressionValid(fields: seq<seq<Option<Part>>>) {
    var f := SixFields(fields);
    && |f| == 6
    && FieldValid(f[0], 0, 59) && FieldValid(f[1], 0, 59) && FieldValid(f[2], 0, 23)
    && FieldValid(f[3], 1, 31) && FieldValid(f[4], 1, 12) && FieldValid(f[5], 0, 7)
  }

  /** The schedule's sets are exactly what the fields denote, with 7 read as Sunday. */
  ghost predicate MeansFields(s: Schedule, f: seq<seq<Option<Part>>>)
    requires |f| == 6
  {
    && (forall v :: v in s.second <==> FieldDenotes(f[0], 0, 59, v))
    && (forall v :: v in s.minute <==> FieldDenotes(f[1], 0, 59, v))
    && (forall v :: v in s.hour <==> FieldDenotes(f[2], 0, 23, v))
    && (forall v :: v in s.dom <==> FieldDenotes(f[3], 1, 31, v))
    && (forall v :: v in s.month <==> FieldDenotes(f[4], 1, 12, v))
    && (forall v :: v in s.dow <==> v != 7 && (FieldDenotes(f[5], 0, 7, v) || (v == 0 && FieldDenotes(f[5], 0, 7, 7))))
    && (s.domStar <==> FieldStar(f[3]))
    && (s.dowStar <==> FieldStar(f[5]))
  }

  /** Parses the fields of an expression. */
  method ParseExpression(fields: seq<seq<Option<Part>>>) returns (s: Option<Schedule>)
    ensures s.Some? <==> ExpressionValid(fields)
    ensures s.Some? ==> MeansFields(s.value, SixFields(fields))
  {
    var f := SixFields(fields);
    if |f| != 6 {
      return None;
    }
    var second := ParseField(f[0], 0, 59);
    var minute := ParseField(f[1], 0, 59);
    var hour := ParseField(f[2], 0, 23);
    var dom := ParseField(f[3], 1, 31);
    var month := ParseField(f[4], 1, 12);
    var dow := ParseField(f[5], 0, 7);
    if second.None? || minute.None? || hour.None? || dom.None? || month.None? || dow.None? {
      return None;
    }
    s := Some(Schedule(second.value.values, minute.value.values, hour.value.values, dom.value.values,
                       month.value.values, FoldSunday(dow.value.values), dom.value.star, dow.value.star));
  }

  // ---------------------------------------------------------------- what a schedule matches

  function DayOf(t: int): int { t / 86400 }

  function HourOf(t: int): int { t / 3600 % 24 }

  function MinuteOf(t: int): int { t / 60 % 60 }

  function SecondOf(t: int): int { t % 60 }

  predicate DayMatches(s: Schedule, day: int) {
    var dom := DomOf(day) in s.dom;
    var dow := WeekdayOf(day) in s.dow;
    if s.domStar || s.dowStar then dom && dow else dom || dow
  }

  /** The second t matches every field. */
  predicate Matches(s: Schedule, t: int) {
    && MonthOf(DayOf(t)) in s.month
    && DayMatches(s, DayOf(t))
    && HourOf(t) in s.hour
    && MinuteOf(t) in s.minute
    && SecondOf(t) in s.second
  }

  ghost predicate NoneIn(s: Schedule, from: int, limit: int) {
    forall t :: from <= t < limit ==> !Matches(s, t)
  }

  // ---------------------------------------------------------------- the search, level by level

  /** The first second of the month, and of the month after it. */
  function MonthFloor(t: int): int { MonthStart(DayOf(t)) * 86400 }

  function MonthCeiling(t: int): int { NextMonthStart(DayOf(t)) * 86400 }

  lemma Join(s: Schedule, a: int, b: int, c: int)
    requires NoneIn(s, a, b) && NoneIn(s, b, c)
    ensures NoneIn(s, a, c)
  {
  }

  lemma MonthIsSkipped(s: Schedule, t: int)
    requires MonthOf(DayOf(t)) !in s.month
    ensures NoneIn(s, t, MonthCeiling(t))
  {
    forall x | t <= x < MonthCeiling(t) ensures !Matches(s, x) {
      MonthIsContiguous(DayOf(t), DayOf(x));
    }
  }

  // The start of the next month, from anywhere in the month and from its start.
  lemma MonthSteps(t: int)
    ensures MonthCeiling(MonthFloor(t)) == MonthCeiling(t)
    ensures t < MonthCeiling(t) && MonthCeiling(t) % 86400 == 0
    ensures MonthOf(DayOf(MonthCeiling(t))) != 1 ==>
              && YearOf(DayOf(MonthCeiling(t))) == YearOf(DayOf(t))
              && MonthOf(DayOf(MonthCeiling(t))) == MonthOf(DayOf(t)) + 1
  {
    var day := DayOf(t);
    NextMonthFollows(day);
    assert DayOf(MonthCeiling(t)) == NextMonthStart(day);
    assert DayOf(MonthFloor(t)) == MonthStart(day);
    DateIsUnique(MonthStart(day), YearOf(day), MonthOf(day), 1);
  }

  /**
   Moves to the first month, from t's, that the schedule names. `wrapped` says
   the search passed the end of the year, and `reset` that it moved at all.
   */
  method SeekMonth(s: Schedule, start: int) returns (t: int, reset: bool, wrapped: bool)
    ensures start <= t && NoneIn(s, start, t)
    ensures (reset <==> t != start) && (wrapped ==> reset)
    ensures reset ==> t % 86400 == 0
    ensures !wrapped ==> MonthOf(DayOf(t)) in s.month && YearOf(DayOf(t)) == YearOf(DayOf(start))
  {
    t, reset, wrapped := start, false, false;
    while MonthOf(DayOf(t)) !in s.month
      invariant start <= t && NoneIn(s, start, t)
      invariant (reset <==> t != start) && (reset ==> t % 86400 == 0)
      invariant YearOf(DayOf(t)) == YearOf(DayOf(start))
      decreases 12 - MonthOf(DayOf(t))
    {
      MonthIsSkipped(s, t);
      MonthSteps(t);
      Join(s, start, t, MonthCeiling(t));
      if !reset {
        reset := true;
        t := MonthFloor(t);
      }
      t := MonthCeiling(t);
      if MonthOf(DayOf(t)) == 1 {
        wrapped := true;
        return;
      }
    }
  }

  lemma DayIsSkipped(s: Schedule, t: int)
    requires !DayMatches(s, DayOf(t))
    ensures NoneIn(s, t, (DayOf(t) + 1) * 86400)
  {
    forall x | t <= x < (DayOf(t) + 1) * 86400 ensures !Matches(s, x) {
      assert DayOf(x) == DayOf(t);
    }
  }

  function DayFloor(t: int): int { t - t % 86400 }

  predicate SameMonth(a: int, b: int) {
    YearOf(DayOf(a)) == YearOf(DayOf(b)) && MonthOf(DayOf(a)) == MonthOf(DayOf(b))
  }

  function DaysLeft(t: int): int { 31 - DomOf(DayOf(t)) }

  predicate FirstOfMonth(t: int) { DomOf(DayOf(t)) == 1 }

  // The day after: in the same month, with one day fewer left, or the first of the next.
  lemma DaySteps(t: int, next: int)
    requires next == DayFloor(t) + 86400
    ensures t < next && next % 86400 == 0 && next == (DayOf(t) + 1) * 86400
    ensures !FirstOfMonth(next) ==> SameMonth(next, t) && DaysLeft(next) < DaysLeft(t)
    ensures 0 <= DaysLeft(t)
  {
    MidnightAfter(t, next);
    FollowingDay(DayOf(t), DayOf(next));
  }

  lemma FollowingDay(day: int, next: int)
    requires next == day + 1
    ensures DomOf(next) != 1 ==> YearOf(next) == YearOf(day) && MonthOf(next) == MonthOf(day) && DomOf(day) < DomOf(next)
    ensures DomOf(day) <= 31
  {
    NextDayFollows(day);
  }

  lemma MidnightAfter(t: int, next: int)
    requires next == DayFloor(t) + 86400
    ensures t < next && next % 86400 == 0 && next == (DayOf(t) + 1) * 86400 && DayOf(next) == DayOf(t) + 1
  {
  }

  /** Truncates to the day, unless an earlier move already has, and adds one. */
  method ToNextDay(t: int, reset: bool) returns (next: int)
    requires reset ==> t % 86400 == 0
    ensures next == DayFloor(t) + 86400
  {
    next := t;
    if !reset {
      next := DayFloor(t);
    }
    next := next + 86400;
  }

  /** Moves to the first day that matches, within the month. */
  method SeekDay(s: Schedule, start: int, moved: bool) returns (t: int, reset: bool, wrapped: bool)
    requires moved ==> start % 86400 == 0
    ensures start <= t && NoneIn(s, start, t)
    ensures (moved ==> reset) && (!reset ==> t == start) && (wrapped ==> start < t)
    ensures reset ==> t % 86400 == 0
    ensures !wrapped ==> DayMatches(s, DayOf(t)) && SameMonth(t, start)
  {
    t, reset, wrapped := start, moved, false;
    while !DayMatches(s, DayOf(t))
      invariant start <= t && NoneIn(s, start, t)
      invariant (moved ==> reset) && (!reset ==> t == start) && (reset ==> t % 86400 == 0)
      invariant SameMonth(t, start)
      decreases DaysLeft(t)
    {
      DayIsSkipped(s, t);
      var next := ToNextDay(t, reset);
      DaySteps(t, next);
      Join(s, start, t, next);
      t, reset := next, true;
      if FirstOfMonth(t) {
        wrapped := true;
        return;
      }
    }
  }

  /** The units below the day. */
  datatype Unit = Hours | Minutes | Seconds

  function Length(u: Unit): (n: int)
    ensures n > 0
  {
    match u
    case Hours => 3600
    case Minutes => 60
    case Seconds => 1
  }

  /** The length of the unit above, at whose end the field is zero again. */
  function Above(u: Unit): (n: int)
    ensures n > 0
  {
    match u
    case Hours => 86400
    case Minutes => 3600
    case Seconds => 60
  }

  function ValueOf(u: Unit, t: int): int {
    match u
    case Hours => HourOf(t)
    case Minutes => MinuteOf(t)
    case Seconds => SecondOf(t)
  }

  function ValuesOf(s: Schedule, u: Unit): set<int> {
    match u
    case Hours => s.hour
    case Minutes => s.minute
    case Seconds => s.second
  }

  function Floor(u: Unit, t: int): int { t - t % Length(u) }

  // Truncating to the unit and adding one leaves the unit, and leaves the one
  // above only as the field wraps to zero.
  lemma UnitSteps(u: Unit, t: int)
    ensures var next := Floor(u, t) + Length(u);
            && t < next && next % Length(u) == 0
            && (ValueOf(u, next) != 0 ==> next / Above(u) == t / Above(u))
            && (ValueOf(u, next) != 0 ==> ValueOf(u, next) == ValueOf(u, t) + 1)
  {
    match u
    case Hours => HourSteps(t);
    case Minutes => MinuteSteps(t);
    case Seconds => SecondSteps(t);
  }

  lemma HourSteps(t: int)
    ensures var next := t - t % 3600 + 3600;
            && next / 3600 == t / 3600 + 1 && next % 3600 == 0
            && (HourOf(next) != 0 ==> next / 86400 == t / 86400 && HourOf(next) == HourOf(t) + 1)
  {
    assert t / 3600 / 24 == t / 86400;
  }

  lemma MinuteSteps(t: int)
    ensures var next := t - t % 60 + 60;
            && next / 60 == t / 60 + 1 && next % 60 == 0
            && (MinuteOf(next) != 0 ==> next / 3600 == t / 3600 && MinuteOf(next) == MinuteOf(t) + 1)
  {
    assert t / 60 / 60 == t / 3600;
  }

  lemma SecondSteps(t: int)
    ensures SecondOf(t + 1) != 0 ==> (t + 1) / 60 == t / 60 && SecondOf(t + 1) == SecondOf(t) + 1
  {
  }

  lemma SameUnit(u: Unit, t: int, x: int)
    requires t <= x < Floor(u, t) + Length(u)
    ensures ValueOf(u, x) == ValueOf(u, t)
  {
    match u
    case Hours => assert x / 3600 == t / 3600;
    case Minutes => assert x / 60 == t / 60;
    case Seconds =>
  }

  lemma UnitIsSkipped(s: Schedule, u: Unit, t: int)
    requires ValueOf(u, t) !in ValuesOf(s, u)
    ensures NoneIn(s, t, Floor(u, t) + Length(u))
  {
    forall x | t <= x < Floor(u, t) + Length(u) ensures !Matches(s, x) {
      SameUnit(u, t, x);
    }
  }

  lemma UnitIsBounded(u: Unit, t: int)
    ensures 0 <= ValueOf(u, t) < 60
  {
  }

  /** Moves to the first value of the unit the schedule names, within the unit above. */
  method SeekUnit(s: Schedule, u: Unit, start: int, moved: bool) returns (t: int, reset: bool, wrapped: bool)
    requires moved ==> start % Length(u) == 0
    ensures start <= t && NoneIn(s, start, t)
    ensures (moved ==> reset) && (!reset ==> t == start) && (wrapped ==> start < t)
    ensures reset ==> t % Length(u) == 0
    ensures !wrapped ==> ValueOf(u, t) in ValuesOf(s, u) && t / Above(u) == start / Above(u)
  {
    t, reset, wrapped := start, moved, false;
    while ValueOf(u, t) !in ValuesOf(s, u)
      invariant start <= t && NoneIn(s, start, t)
      invariant (moved ==> reset) && (!reset ==> t == start) && (reset ==> t % Length(u) == 0)
      invariant t / Above(u) == start / Above(u)
      decreases 60 - ValueOf(u, t)
    {
      UnitIsSkipped(s, u, t);
      UnitSteps(u, t);
      UnitIsBounded(u, t);
      Join(s, start, t, Floor(u, t) + Length(u));
      if !reset {
        reset := true;
        t := Floor(u, t);
      }
      t := t + Length(u);
      if ValueOf(u, t) == 0 {
        wrapped := true;
        return;
      }
    }
  }

  // ---------------------------------------------------------------- the whole search

  /** The first whole second strictly after a time in nanoseconds. */
  function SecondAfter(t: int): int { t / NANOS + 1 }

  lemma WholeSecondsAfter(t: int, x: int)
    ensures t < x * NANOS <==> SecondAfter(t) <= x
  {
  }

  function YearAt(t: int): int { YearOf(DayOf(t)) }

  /** The search gives up past the end of this year. */
  function YearLimit(first: int): int { YearAt(first) + 5 }

  /** The second after the last one of a year. */
  function EndOfYear(y: int): int { DaysBeforeYear(y + 1) * 86400 }

  lemma WithinYear(t: int, y: int)
    ensures YearAt(t) <= y <==> t < EndOfYear(y)
  {
    var day := DayOf(t);
    assert day < DaysBeforeYear(y + 1) <==> t < EndOfYear(y);
    if YearOf(day) <= y {
      YearsIncrease(YearOf(day) + 1, y + 1);
    } else {
      YearsIncrease(y + 1, YearOf(day));
    }
  }

  /** The least matching second in [from, limit), by trying each in turn. */
  function Scan(s: Schedule, from: int, limit: int): Option<int>
    decreases limit - from
  {
    if from >= limit then None
    else if Matches(s, from) then Some(from)
    else Scan(s, from + 1, limit)
  }

  lemma Extend(s: Schedule, from: int, limit: int)
    requires !Matches(s, from) && NoneIn(s, from + 1, limit)
    ensures NoneIn(s, from, limit)
  {
  }

  /** r is the least match in [from, limit), or there is none. */
  ghost predicate IsLeast(s: Schedule, from: int, limit: int, r: Option<int>) {
    match r
    case Some(x) => from <= x < limit && Matches(s, x) && NoneIn(s, from, x)
    case None => NoneIn(s, from, limit)
  }

  lemma LeastFromBefore(s: Schedule, from: int, limit: int, r: Option<int>)
    requires from < limit && !Matches(s, from) && IsLeast(s, from + 1, limit, r)
    ensures IsLeast(s, from, limit, r)
  {
    Extend(s, from, if r.Some? then r.value else limit);
  }

  lemma {:induction false} ScanFindsLeast(s: Schedule, from: int, limit: int)
    ensures IsLeast(s, from, limit, Scan(s, from, limit))
    decreases limit - from
  {
    if from >= limit {
    } else if Matches(s, from) {
    } else {
      ScanFindsLeast(s, from + 1, limit);
      LeastFromBefore(s, from, limit, Scan(s, from + 1, limit));
    }
  }

  /** What Next is meant to return: the least match after t through the year limit, in nanoseconds. */
  function CronNext(s: Schedule, t: int): Option<int> {
    var first := SecondAfter(t);
    var found := Scan(s, first, EndOfYear(YearLimit(first)));
    if found.Some? then Some(found.value * NANOS) else None
  }

  lemma OneIsLeast(s: Schedule, from: int, x: int, y: int)
    requires from <= x && from <= y && Matches(s, x) && Matches(s, y) && NoneIn(s, from, x) && NoneIn(s, from, y)
    ensures x == y
  {
  }

  lemma LeastIsScanned(s: Schedule, from: int, limit: int, x: int)
    requires from <= x < limit && Matches(s, x) && NoneIn(s, from, x)
    ensures Scan(s, from, limit) == Some(x)
  {
    ScanFindsLeast(s, from, limit);
    var r := Scan(s, from, limit);
    assert r.Some?;
    OneIsLeast(s, from, r.value, x);
  }

  // The two outcomes a search can establish each fix what the scan finds.
  lemma LeastMatchIsScanned(s: Schedule, t: int, x: int)
    requires SecondAfter(t) <= x && Matches(s, x) && NoneIn(s, SecondAfter(t), x)
    requires YearAt(x) <= YearLimit(SecondAfter(t))
    ensures CronNext(s, t) == Some(x * NANOS)
  {
    WithinYear(x, YearLimit(SecondAfter(t)));
    LeastIsScanned(s, SecondAfter(t), EndOfYear(YearLimit(SecondAfter(t))), x);
  }

  lemma NoMatchIsScanned(s: Schedule, t: int, x: int)
    requires NoneIn(s, SecondAfter(t), x) && YearAt(x) > YearLimit(SecondAfter(t))
    ensures CronNext(s, t) == None
  {
    WithinYear(x, YearLimit(SecondAfter(t)));
    ScanFindsLeast(s, SecondAfter(t), EndOfYear(YearLimit(SecondAfter(t))));
  }

  lemma SameHourKeeps(a: int, b: int)
    requires a / 3600 == b / 3600
    ensures DayOf(a) == DayOf(b) && HourOf(a) == HourOf(b)
  {
    assert a / 86400 == a / 3600 / 24 && b / 86400 == b / 3600 / 24;
  }

  lemma SameMinuteKeeps(a: int, b: int)
    requires a / 60 == b / 60
    ensures DayOf(a) == DayOf(b) && HourOf(a) == HourOf(b) && MinuteOf(a) == MinuteOf(b)
  {
    assert a / 3600 == a / 60 / 60 && b / 3600 == b / 60 / 60;
    SameHourKeeps(a, b);
  }

  lemma AlignedBelow(t: int)
    ensures t % 86400 == 0 ==> t % 3600 == 0
    ensures t % 3600 == 0 ==> t % 60 == 0
  {
  }

  /** The part of a pass below the day. */
  method SeekClock(s: Schedule, start: int, moved: bool) returns (t: int, wrapped: bool)
    requires moved ==> start % 86400 == 0
    ensures start <= t && NoneIn(s, start, t) && (wrapped ==> start < t)
    ensures !wrapped ==>
              && DayOf(t) == DayOf(start)
              && HourOf(t) in s.hour && MinuteOf(t) in s.minute && SecondOf(t) in s.second
  {
    var reset;
    AlignedBelow(start);
    t, reset, wrapped := SeekUnit(s, Hours, start, moved);
    if wrapped { return; }
    AlignedBelow(t);
    var byHour := t;
    t, reset, wrapped := SeekUnit(s, Minutes, byHour, reset);
    Join(s, start, byHour, t);
    if wrapped { return; }
    SameHourKeeps(t, byHour);
    var byMinute := t;
    t, reset, wrapped := SeekUnit(s, Seconds, byMinute, reset);
    Join(s, start, byMinute, t);
    if wrapped { return; }
    SameMinuteKeeps(t, byMinute);
  }

  /** One pass from months down to seconds, which ends at a match or past a wrap. */
  method Pass(s: Schedule, start: int) returns (t: int, wrapped: bool)
    ensures start <= t && NoneIn(s, start, t) && (wrapped ==> start < t)
    ensures !wrapped ==> Matches(s, t) && YearAt(t) == YearAt(start)
  {
    var reset;
    t, reset, wrapped := SeekMonth(s, start);
    if wrapped { return; }
    var byMonth := t;
    t, reset, wrapped := SeekDay(s, byMonth, reset);
    Join(s, start, byMonth, t);
    if wrapped { return; }
    var byDay := t;
    t, wrapped := SeekClock(s, byDay, reset);
    Join(s, start, byDay, t);
  }

  /**
   The first matching second strictly after t, or None if there is none
   through the end of the fifth year after. Each pass that wraps leaves t
   later than it began, although the pass may truncate it on the way.
   */
  method Next(s: Schedule, t: int) returns (r: Option<int>)
    ensures r == CronNext(s, t)
    ensures IsAnswer(s, t, r)
  {
    AnswerIsScanned(s, t);
    var at := SecondAfter(t);
    var yearLimit := YearAt(at) + 5;
    while YearAt(at) <= yearLimit
      invariant SecondAfter(t) <= at && NoneIn(s, SecondAfter(t), at)
      decreases EndOfYear(yearLimit) - at
    {
      WithinYear(at, yearLimit);
      var next, wrapped := Pass(s, at);
      Join(s, SecondAfter(t), at, next);
      if !wrapped {
        LeastMatchIsScanned(s, t, next);
        return Some(next * NANOS);
      }
      at := next;
    }
    NoMatchIsScanned(s, t, at);
    r := None;
  }

  /** x is the least match of the search. */
  ghost predicate IsFirst(s: Schedule, t: int, x: int) {
    SecondAfter(t) <= x && YearAt(x) <= YearLimit(SecondAfter(t)) && Matches(s, x) && NoneIn(s, SecondAfter(t), x)
  }

  lemma ScannedIs(s: Schedule, t: int, x: int)
    requires CronNext(s, t) == Some(x * NANOS)
    ensures Scan(s, SecondAfter(t), EndOfYear(YearLimit(SecondAfter(t)))) == Some(x)
  {
    var found := Scan(s, SecondAfter(t), EndOfYear(YearLimit(SecondAfter(t))));
    assert found.Some?;
    SameProduct(found.value, x);
  }

  lemma SameProduct(x: int, y: int)
    requires x * NANOS == y * NANOS
    ensures x == y
  {
  }

  lemma FoundIsFirst(s: Schedule, t: int, x: int)
    requires CronNext(s, t) == Some(x * NANOS)
    ensures IsFirst(s, t, x)
  {
    ScannedIs(s, t, x);
    ScanHolds(s, SecondAfter(t), x);
  }

  lemma FoundIff(s: Schedule, t: int, x: int)
    ensures CronNext(s, t) == Some(x * NANOS) <==> IsFirst(s, t, x)
  {
    if CronNext(s, t) == Some(x * NANOS) {
      FoundIsFirst(s, t, x);
    } else if IsFirst(s, t, x) {
      LeastMatchIsScanned(s, t, x);
    }
  }

  /** No second after t and before x matches. */
  ghost predicate NoneBetween(s: Schedule, t: int, x: int) {
    forall y :: t < y * NANOS && y < x ==> !Matches(s, y)
  }

  // What the scan means: it returns x exactly when x is the least matching
  // second after t, in the year of the first one or the five years after it.
  lemma NextIsLeastMatch(s: Schedule, t: int, x: int)
    ensures CronNext(s, t) == Some(x * NANOS) <==>
              t < x * NANOS && YearAt(x) <= YearAt(t / NANOS + 1) + 5 && Matches(s, x) && NoneBetween(s, t, x)
  {
    FoundIff(s, t, x);
    WholeSecondsAfter(t, x);
    AfterIsFrom(s, t, x);
  }

  lemma AfterIsFrom(s: Schedule, t: int, x: int)
    ensures NoneIn(s, SecondAfter(t), x) <==> NoneBetween(s, t, x)
  {
    if NoneIn(s, SecondAfter(t), x) {
      forall y | t < y * NANOS && y < x ensures !Matches(s, y) { WholeSecondsAfter(t, y); }
    }
    if NoneBetween(s, t, x) {
      forall y | SecondAfter(t) <= y < x ensures !Matches(s, y) { WholeSecondsAfter(t, y); }
    }
  }

  lemma ScanHolds(s: Schedule, first: int, x: int)
    requires Scan(s, first, EndOfYear(YearLimit(first))) == Some(x)
    ensures first <= x && YearAt(x) <= YearLimit(first) && Matches(s, x) && NoneIn(s, first, x)
  {
    WithinYear(x, YearLimit(first));
    ScanFindsLeast(s, first, EndOfYear(YearLimit(first)));
  }

  // And it returns nothing exactly when no second after t through the year limit matches.
  lemma NextIsNone(s: Schedule, t: int)
    ensures CronNext(s, t).None? <==>
              forall x :: SecondAfter(t) <= x && YearAt(x) <= YearLimit(SecondAfter(t)) ==> !Matches(s, x)
  {
    var end := EndOfYear(YearLimit(SecondAfter(t)));
    ScanFindsLeast(s, SecondAfter(t), end);
    var r := Scan(s, SecondAfter(t), end);
    if r.Some? {
      WithinYear(r.value, YearLimit(SecondAfter(t)));
    } else {
      forall x | SecondAfter(t) <= x && YearAt(x) <= YearLimit(SecondAfter(t)) ensures !Matches(s, x) {
        WithinYear(x, YearLimit(SecondAfter(t)));
      }
    }
  }

  /** The second x is after t, in the year of the first one after it or the five years after that. */
  predicate IsInReach(t: int, x: int) {
    t < x * NANOS && YearAt(x) <= YearAt(t / NANOS + 1) + 5
  }

  /** The answer is the least matching second after t, or none where none within reach matches. */
  ghost predicate IsAnswer(s: Schedule, t: int, r: Option<int>) {
    match r
    case Some(next) => var x := next / NANOS; next == x * NANOS && IsInReach(t, x) && Matches(s, x) && NoneBetween(s, t, x)
    case None => forall x :: IsInReach(t, x) ==> !Matches(s, x)
  }

  lemma AnswerIsScanned(s: Schedule, t: int)
    ensures IsAnswer(s, t, CronNext(s, t))
  {
    var r := CronNext(s, t);
    if r.Some? {
      var x := WholeSecond(s, t);
      NextIsLeastMatch(s, t, x);
    } else {
      NextIsNone(s, t);
      forall x | IsInReach(t, x) ensures !Matches(s, x) { WholeSecondsAfter(t, x); }
    }
  }

  lemma WholeSecond(s: Schedule, t: int) returns (x: int)
    requires CronNext(s, t).Some?
    ensures CronNext(s, t) == Some(x * NANOS) && CronNext(s, t).value / NANOS == x
  {
    x := Scan(s, SecondAfter(t), EndOfYear(YearLimit(SecondAfter(t)))).value;
    WholeIsWhole(x);
  }

  lemma WholeIsWhole(x: int)
    ensures x * NANOS / NANOS == x
  {
  }
}
