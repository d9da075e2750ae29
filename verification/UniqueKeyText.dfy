/**
 What a unique key tells: its text part by part, the times in it, and that two
 inserts share a key exactly when they agree in every part their options name.
 */
module UniqueKeyText {
  import opened Basics
  import opened Calendar
  import Cron
  import opened CronMeaning
  import opened UniqueKey

  // ---------------------------------------------------------------- times

  /** The number a decimal text reads as. */
  function Reads(s: string): int {
    if s == "" then 0 else Reads(s[..|s| - 1]) * 10 + (s[|s| - 1] as int - '0' as int)
  }

  // A number's decimal text reads as the number, whatever it is padded to.
  lemma {:induction false} DecimalReads(n: nat, width: nat)
    ensures Reads(Decimal(n, width)) == n
    decreases n + width
  {
    var s := Decimal(n, width);
    if n < 10 && width <= 1 {
      assert s[..0] == "" && s == [Digit(n)];
    } else {
      var rest := Decimal(n / 10, if width == 0 then 0 else width - 1);
      assert s == rest + [Digit(n % 10)] && s[..|s| - 1] == rest;
      DecimalReads(n / 10, if width == 0 then 0 else width - 1);
    }
  }

  // The text of a moment is its year in four digits or more, then its month,
  // day, hour, minute and second in two each, as RFC 3339 sets them.
  lemma StampOfMoment(m: Moment)
    requires IsMoment(m) && m.year >= 1
    ensures SecondsAt(m) >= 0
    ensures Stamp(SecondsAt(m)) ==
              Decimal(m.year, 4) + ("-" + Decimal(m.month, 2) + "-" + Decimal(m.dom, 2) + "T" + Decimal(m.hour, 2) + ":"
                                    + Decimal(m.minute, 2) + ":" + Decimal(m.second, 2) + "Z")
  {
    FieldsOfMoment(m);
    DayIsFromYearOne(m);
    StampFields(SecondsAt(m), DayNumber(m.year, m.month, m.dom));
  }

  lemma DayIsFromYearOne(m: Moment)
    requires IsMoment(m) && m.year >= 1
    ensures DayNumber(m.year, m.month, m.dom) >= 0
  {
    YearsIncrease(1, m.year);
  }

  lemma StampFields(second: nat, day: nat)
    requires second / 86400 == day
    ensures Stamp(second) == Decimal(Year(day), 4) + Frame(Decimal(MonthOf(day), 2), Decimal(DomOf(day), 2), Decimal(Cron.HourOf(second), 2),
                                                           Decimal(Cron.MinuteOf(second), 2), Decimal(Cron.SecondOf(second), 2))
  {
  }

  // ---------------------------------------------------------------- the text of a key

  // The parts present, tagged, one to a line in this order; a star where there is none.
  lemma KeyTextIs(p: Parts)
    ensures KeyText(p) ==
              match (p.args, p.queue, p.period)
              case (None, None, None) => "*"
              case (Some(a), None, None) => "a=" + a
              case (None, Some(q), None) => "q=" + q
              case (None, None, Some(r)) => "p=" + r
              case (Some(a), Some(q), None) => "a=" + a + "\n" + ("q=" + q)
              case (Some(a), None, Some(r)) => "a=" + a + "\n" + ("p=" + r)
              case (None, Some(q), Some(r)) => "q=" + q + "\n" + ("p=" + r)
              case (Some(a), Some(q), Some(r)) => "a=" + a + "\n" + ("q=" + q + "\n" + ("p=" + r))
  {
    var lines := Lines(p);
    if |lines| == 2 {
      JoinTwo(lines[0], lines[1]);
      assert lines == [lines[0], lines[1]];
    } else if |lines| == 3 {
      JoinThree(lines[0], lines[1], lines[2]);
      assert lines == [lines[0], lines[1], lines[2]];
    }
  }

  lemma JoinTwo(a: string, b: string)
    ensures Join([a, b]) == a + "\n" + b
  {
    assert [a, b][1..] == [b];
  }

  lemma JoinThree(a: string, b: string, c: string)
    ensures Join([a, b, c]) == a + "\n" + (b + "\n" + c)
  {
    assert [a, b, c][1..] == [b, c];
    JoinTwo(b, c);
  }

  // ---------------------------------------------------------------- when two inserts share a key

  predicate Plain(s: Option<string>) {
    s.Some? ==> '\n' !in s.value
  }

  /** The inserts agree in what both options name: the args, the queue, and the second their periods start in. */
  predicate Agree(o: Opts, t: nat, p: Opts, u: nat) {
    && o.args == p.args && o.queue == p.queue && (o.byPeriod > 0 <==> p.byPeriod > 0)
    && (o.byPeriod > 0 && p.byPeriod > 0 ==> PeriodSecond(t, o.byPeriod) == PeriodSecond(u, p.byPeriod))
  }

  // Two inserts have one key text if and only if they agree.
  lemma SameTextIff(o: Opts, t: nat, p: Opts, u: nat)
    requires Plain(o.args) && Plain(o.queue) && Plain(p.args) && Plain(p.queue)
    ensures KeyText(PartsAt(o, t)) == KeyText(PartsAt(p, u)) <==> Agree(o, t, p, u)
  {
    if Agree(o, t, p, u) { assert PartsAt(o, t) == PartsAt(p, u); }
    if KeyText(PartsAt(o, t)) == KeyText(PartsAt(p, u)) {
      KeyInjective(PartsAt(o, t), PartsAt(p, u));
      if o.byPeriod > 0 && p.byPeriod > 0 { StampInjective(PeriodSecond(t, o.byPeriod), PeriodSecond(u, p.byPeriod)); }
    }
  }

  // An insert is refused exactly for a key past the bound; of two that are not, one duplicates the other exactly when they agree.
  lemma SameKeyIff(o: Opts, t: nat, p: Opts, u: nat)
    requires Plain(o.args) && Plain(o.queue) && Plain(p.args) && Plain(p.queue)
    ensures KeyAt(o, t).TooLong? <==> |KeyText(PartsAt(o, t))| > 1024
    ensures !KeyAt(o, t).TooLong? ==> (KeyAt(o, t) == KeyAt(p, u) <==> Agree(o, t, p, u))
  {
    SameTextIff(o, t, p, u);
  }
}
