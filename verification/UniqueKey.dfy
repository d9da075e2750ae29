/**
 Unique keys: the text that says which jobs are duplicates, built from the
 args, the queue and the period of an insert. A periodic job's key is stored
 without its period, which the leader adds from each slot. Text is bytes.
 */
module UniqueKey {
  import opened Basics
  import opened Calendar

  const MAX_KEY: nat := 1024

  // ---------------------------------------------------------------- times as text

  function Digit(n: int): char
    requires 0 <= n < 10
  {
    '0' + n as char
  }

  /** n in decimal, padded with zeros to the width. */
  function Decimal(n: nat, width: nat): (s: string)
    ensures |s| >= 1 && (n >= 10 ==> |s| >= 2) && |s| >= width
    ensures '\n' !in s
    decreases n + width
  {
    if n < 10 && width <= 1 then [Digit(n)] else Decimal(n / 10, if width == 0 then 0 else width - 1) + [Digit(n % 10)]
  }

  lemma {:induction false} DecimalTwo(n: nat)
    requires n < 100
    ensures |Decimal(n, 2)| == 2
  {
    assert Decimal(n / 10, 1) == [Digit(n / 10)];
  }

  lemma {:induction false} DecimalInjective(n: nat, m: nat, width: nat)
    requires Decimal(n, width) == Decimal(m, width)
    ensures n == m
    decreases n + width
  {
    var a, b := Decimal(n, width), Decimal(m, width);
    assert a[|a| - 1] == Digit(n % 10) && b[|b| - 1] == Digit(m % 10);
    var shorter := if width == 0 then 0 else width - 1;
    if !(n < 10 && width <= 1) && !(m < 10 && width <= 1) {
      assert a[..|a| - 1] == Decimal(n / 10, shorter) && b[..|b| - 1] == Decimal(m / 10, shorter);
      DecimalInjective(n / 10, m / 10, shorter);
    }
  }

  /** The year of a day from year 1 on. */
  function Year(day: nat): nat {
    YearFromOne(day);
    YearOf(day)
  }

  lemma YearFromOne(day: nat)
    ensures YearOf(day) >= 1
  {
    if YearOf(day) < 1 { YearsIncrease(YearOf(day) + 1, 1); }
  }

  /** Month, day, hour, minute and second, two characters each, as RFC 3339 sets them. */
  function Frame(month: string, day: string, hour: string, minute: string, second: string): string {
    "-" + month + "-" + day + "T" + hour + ":" + minute + ":" + second + "Z"
  }

  lemma FrameTells(month: string, day: string, hour: string, minute: string, second: string)
    requires |month| == |day| == |hour| == |minute| == |second| == 2
    ensures var s := Frame(month, day, hour, minute, second);
            && |s| == 16 && s[1..3] == month && s[4..6] == day && s[7..9] == hour && s[10..12] == minute && s[13..15] == second
  {
  }

  /** The text of a time, all but its year: its last 16 characters. */
  function Tail(second: nat): (s: string)
    ensures |s| == 16 && '\n' !in s
  {
    var day := second / 86400;
    DecimalTwo(MonthOf(day));
    DecimalTwo(DomOf(day));
    DecimalTwo(second / 3600 % 24);
    DecimalTwo(second / 60 % 60);
    DecimalTwo(second % 60);
    Frame(Decimal(MonthOf(day), 2), Decimal(DomOf(day), 2), Decimal(second / 3600 % 24, 2), Decimal(second / 60 % 60, 2),
          Decimal(second % 60, 2))
  }

  /** A second as RFC 3339 text in UTC. */
  function Stamp(second: nat): string {
    Decimal(Year(second / 86400), 4) + Tail(second)
  }

  lemma FieldsOf(second: nat)
    ensures var day, s := second / 86400, Tail(second);
            && s[1..3] == Decimal(MonthOf(day), 2) && s[4..6] == Decimal(DomOf(day), 2)
            && s[7..9] == Decimal(second / 3600 % 24, 2) && s[10..12] == Decimal(second / 60 % 60, 2)
            && s[13..15] == Decimal(second % 60, 2)
  {
    var day := second / 86400;
    DecimalTwo(MonthOf(day));
    DecimalTwo(DomOf(day));
    DecimalTwo(second / 3600 % 24);
    DecimalTwo(second / 60 % 60);
    DecimalTwo(second % 60);
    FrameTells(Decimal(MonthOf(day), 2), Decimal(DomOf(day), 2), Decimal(second / 3600 % 24, 2), Decimal(second / 60 % 60, 2),
               Decimal(second % 60, 2));
  }

  lemma SecondFromFields(x: nat)
    ensures x == (x / 86400) * 86400 + (x / 3600 % 24) * 3600 + (x / 60 % 60) * 60 + x % 60
  {
    assert x / 3600 == x / 60 / 60 && x / 86400 == x / 3600 / 24;
  }

  // Different seconds have different texts.
  lemma StampInjective(x: nat, y: nat)
    requires Stamp(x) == Stamp(y)
    ensures x == y
  {
    var a, b := Stamp(x), Stamp(y);
    assert a[|a| - 16..] == Tail(x) && b[|b| - 16..] == Tail(y);
    assert a[..|a| - 16] == Decimal(Year(x / 86400), 4) && b[..|b| - 16] == Decimal(Year(y / 86400), 4);
    DecimalInjective(Year(x / 86400), Year(y / 86400), 4);
    FieldsOf(x);
    FieldsOf(y);
    DecimalInjective(MonthOf(x / 86400), MonthOf(y / 86400), 2);
    DecimalInjective(DomOf(x / 86400), DomOf(y / 86400), 2);
    DecimalInjective(x / 3600 % 24, y / 3600 % 24, 2);
    DecimalInjective(x / 60 % 60, y / 60 % 60, 2);
    DecimalInjective(x % 60, y % 60, 2);
    SecondFromFields(x);
    SecondFromFields(y);
  }

  // ---------------------------------------------------------------- periods

  /** The second the period t is in starts in. */
  function PeriodSecond(t: nat, period: int): nat
    requires period > 0
  {
    Truncate(t, period) / NANOS
  }

  function PeriodText(t: nat, period: int): string
    requires period > 0
  {
    Stamp(PeriodSecond(t, period))
  }

  // The text of a period tells it from every other if and only if periods are
  // at least a second long: the text drops the fraction of a second.
  lemma PeriodTextTellsIff(period: int)
    requires period > 0
    ensures (forall t: nat, u: nat :: Truncate(t, period) != Truncate(u, period) ==> PeriodText(t, period) != PeriodText(u, period))
            <==> period >= NANOS
  {
    if period >= NANOS {
      forall t: nat, u: nat | Truncate(t, period) != Truncate(u, period) ensures PeriodText(t, period) != PeriodText(u, period) {
        LongPeriodsTell(t, u, period);
      }
    } else {
      ShortPeriodsCollapse(period);
    }
  }

  lemma LongPeriodsTell(t: nat, u: nat, period: int)
    requires period >= NANOS && Truncate(t, period) != Truncate(u, period)
    ensures PeriodText(t, period) != PeriodText(u, period)
  {
    PeriodsApart(t, u, period);
    if PeriodText(t, period) == PeriodText(u, period) {
      StampInjective(PeriodSecond(t, period), PeriodSecond(u, period));
    }
  }

  // The zero time and the period after it have one text.
  lemma ShortPeriodsCollapse(period: int)
    requires 0 < period < NANOS
    ensures Truncate(0, period) != Truncate(period, period) && PeriodText(0, period) == PeriodText(period, period)
  {
    assert Truncate(0, period) == 0 && Truncate(period, period) == period;
    assert 0 / NANOS == period / NANOS;
  }

  lemma PeriodsApart(t: nat, u: nat, period: int)
    requires period >= NANOS && Truncate(t, period) != Truncate(u, period)
    ensures PeriodSecond(t, period) != PeriodSecond(u, period)
  {
    var a, b := t / period, u / period;
    assert Truncate(t, period) == period * a && Truncate(u, period) == period * b;
    if a < b { MultiplesApart(a, b, period); } else { MultiplesApart(b, a, period); }
  }

  lemma MultiplesApart(a: int, b: int, period: int)
    requires a < b && period >= NANOS
    ensures period * a + NANOS <= period * b
  {
    Monotone(period, a + 1, b);
  }

  lemma Monotone(period: int, a: int, b: int)
    requires a <= b && period >= 0
    ensures period * (a - 1) + period <= period * b
  {
    assert period * (b - a) >= 0;
    assert period * b == period * a + period * (b - a);
  }

  // ---------------------------------------------------------------- keys

  /** The parts of a key, each possibly absent. */
  datatype Parts = Parts(args: Option<string>, queue: Option<string>, period: Option<string>)

  predicate NewlineFree(p: Parts) {
    && (p.args.Some? ==> '\n' !in p.args.value) && (p.queue.Some? ==> '\n' !in p.queue.value)
    && (p.period.Some? ==> '\n' !in p.period.value)
  }

  function Tagged(tag: string, part: Option<string>): seq<string> {
    if part.Some? then [tag + part.value] else []
  }

  function Lines(p: Parts): seq<string> {
    Tagged("a=", p.args) + Tagged("q=", p.queue) + Tagged("p=", p.period)
  }

  function Join(lines: seq<string>): string
    requires lines != []
  {
    if |lines| == 1 then lines[0] else lines[0] + "\n" + Join(lines[1..])
  }

  function KeyText(p: Parts): string {
    if Lines(p) == [] then "*" else Join(Lines(p))
  }

  function FirstLine(s: string): string {
    if s == "" || s[0] == '\n' then "" else [s[0]] + FirstLine(s[1..])
  }

  lemma {:induction false} FirstLineOf(x: string, r: string)
    requires '\n' !in x && (r == "" || r[0] == '\n')
    ensures FirstLine(x + r) == x
    decreases |x|
  {
    if x == "" {
      assert x + r == r;
    } else {
      assert (x + r)[1..] == x[1..] + r;
      FirstLineOf(x[1..], r);
    }
  }

  // What comes before the first newline is the same.
  lemma SameFirst(x: string, r: string, y: string, s: string)
    requires '\n' !in x && '\n' !in y && x + r == y + s
    requires (r == "" || r[0] == '\n') && (s == "" || s[0] == '\n')
    ensures x == y && r == s
  {
    FirstLineOf(x, r);
    FirstLineOf(y, s);
    assert (x + r)[|x|..] == r && (y + s)[|y|..] == s;
  }

  predicate AllNewlineFree(lines: seq<string>) {
    forall i :: 0 <= i < |lines| ==> '\n' !in lines[i]
  }

  function AfterFirst(lines: seq<string>): string
    requires lines != []
  {
    if |lines| == 1 then "" else "\n" + Join(lines[1..])
  }

  lemma RestOf(a: seq<string>, b: seq<string>)
    requires |a| > 1 && |b| > 1 && AfterFirst(a) == AfterFirst(b)
    ensures Join(a[1..]) == Join(b[1..])
  {
    assert AfterFirst(a)[1..] == Join(a[1..]) && AfterFirst(b)[1..] == Join(b[1..]);
  }

  lemma SplitsAtFirst(lines: seq<string>)
    requires lines != []
    ensures Join(lines) == lines[0] + AfterFirst(lines)
  {
  }

  // Equal joins begin with the same line and go on alike.
  lemma SameHead(a: seq<string>, b: seq<string>)
    requires a != [] && b != [] && AllNewlineFree(a) && AllNewlineFree(b) && Join(a) == Join(b)
    ensures a[0] == b[0] && AfterFirst(a) == AfterFirst(b)
  {
    SplitsAtFirst(a);
    SplitsAtFirst(b);
    SameFirst(a[0], AfterFirst(a), b[0], AfterFirst(b));
  }

  lemma SameHeadAndTail<T>(a: seq<T>, b: seq<T>)
    requires a != [] && b != [] && a[0] == b[0] && a[1..] == b[1..]
    ensures a == b
  {
    assert a == [a[0]] + a[1..] && b == [b[0]] + b[1..];
  }

  lemma {:induction false} JoinInjective(a: seq<string>, b: seq<string>)
    requires a != [] && b != [] && AllNewlineFree(a) && AllNewlineFree(b) && Join(a) == Join(b)
    ensures a == b
    decreases |a|
  {
    SameHead(a, b);
    if |a| == 1 {
      assert |b| == 1;
    } else {
      assert |b| > 1;
      RestOf(a, b);
      JoinInjective(a[1..], b[1..]);
      SameHeadAndTail(a, b);
    }
  }

  lemma LinesAreFree(p: Parts)
    requires NewlineFree(p)
    ensures AllNewlineFree(Lines(p))
  {
  }

  lemma LineStarts(p: Parts)
    ensures forall i :: 0 <= i < |Lines(p)| ==> |Lines(p)[i]| >= 2 && Lines(p)[i][0] in "aqp"
    ensures Lines(p) != [] ==> Join(Lines(p))[..1] == Lines(p)[0][..1]
  {
  }

  /** The line with the tag, without it. */
  function Untagged(lines: seq<string>, tag: char): Option<string> {
    if lines == [] then None
    else if |lines[0]| >= 2 && lines[0][0] == tag then Some(lines[0][2..])
    else Untagged(lines[1..], tag)
  }

  // The lines tell the parts.
  lemma LinesTell(p: Parts)
    ensures p == Parts(Untagged(Lines(p), 'a'), Untagged(Lines(p), 'q'), Untagged(Lines(p), 'p'))
  {
    var a, q, r := Tagged("a=", p.args), Tagged("q=", p.queue), Tagged("p=", p.period);
    UntaggedSkips(a, q + r, 'q');
    UntaggedSkips(a, q + r, 'p');
    UntaggedSkips(q, r, 'p');
    assert a + q + r == a + (q + r);
    if p.args.Some? { assert ("a=" + p.args.value)[2..] == p.args.value; }
    if p.queue.Some? { assert ("q=" + p.queue.value)[2..] == p.queue.value; }
    if p.period.Some? { assert ("p=" + p.period.value)[2..] == p.period.value; }
    if p.args.None? { assert a + (q + r) == q + r; UntaggedSkips(q, r, 'a'); }
    if p.queue.None? { assert q + r == r; }
  }

  lemma UntaggedSkips(a: seq<string>, rest: seq<string>, tag: char)
    requires |a| <= 1 && (a != [] ==> a[0] != "" && a[0][0] != tag)
    ensures Untagged(a + rest, tag) == Untagged(rest, tag)
  {
    if a == [] { assert a + rest == rest; } else { assert (a + rest)[1..] == rest; }
  }

  // Keys of newline-free parts are equal only if every part is, absent ones included.
  lemma KeyInjective(p: Parts, q: Parts)
    requires NewlineFree(p) && NewlineFree(q) && KeyText(p) == KeyText(q)
    ensures p == q
  {
    LinesAreFree(p);
    LinesAreFree(q);
    LineStarts(p);
    LineStarts(q);
    if Lines(p) != [] && Lines(q) != [] {
      JoinInjective(Lines(p), Lines(q));
    } else {
      StarIsNoJoin(p);
      StarIsNoJoin(q);
    }
    LinesTell(p);
    LinesTell(q);
  }

  lemma StarIsNoJoin(p: Parts)
    ensures KeyText(p) == "*" <==> Lines(p) == []
  {
    LineStarts(p);
    if Lines(p) != [] { assert KeyText(p)[..1] != "*"; }
  }

  // ---------------------------------------------------------------- options and slots

  /** What an insert's unique options say; args is the args' contribution to the key. */
  datatype Opts = Opts(args: Option<string>, queue: Option<string>, byPeriod: int)

  datatype KeyResult = TooLong | Key(text: string)

  function PartsAt(o: Opts, now: nat): Parts {
    Parts(o.args, o.queue, if o.byPeriod > 0 then Some(PeriodText(now, o.byPeriod)) else None)
  }

  function Checked(text: string): KeyResult {
    if |text| > MAX_KEY then TooLong else Key(text)
  }

  /** The key of an insert at the time. */
  function KeyAt(o: Opts, now: nat): KeyResult {
    Checked(KeyText(PartsAt(o, now)))
  }

  /** The key a definition stores, with the period left out. */
  function StoredKey(o: Opts): KeyResult {
    KeyAt(o.(byPeriod := 0), 0)
  }

  /** The key a leader rebuilds from a stored one for a slot. */
  function Rebuilt(stored: string, byPeriod: int, slot: nat): KeyResult {
    if byPeriod > 0 then
      var period := "p=" + PeriodText(slot, byPeriod);
      Checked(if stored == "*" then period else stored + "\n" + period)
    else Checked(stored)
  }

  lemma {:induction false} JoinSnoc(lines: seq<string>, last: string)
    requires lines != []
    ensures Join(lines + [last]) == Join(lines) + "\n" + last
    decreases |lines|
  {
    assert (lines + [last])[1..] == lines[1..] + [last];
    if |lines| <= 1 {
    } else {
      JoinSnoc(lines[1..], last);
      assert lines[0] + "\n" + (Join(lines[1..]) + "\n" + last) == lines[0] + "\n" + Join(lines[1..]) + "\n" + last;
    }
  }

  // A key the leader rebuilds for a slot is the one an insert at that slot
  // builds, its refusal for length included; and where the stored key was
  // refused, so is every insert's.
  lemma RebuiltIsDirect(o: Opts, slot: nat)
    ensures KeyAt(o, slot) == if StoredKey(o).TooLong? then TooLong else Rebuilt(StoredKey(o).text, o.byPeriod, slot)
  {
    var base := PartsAt(o.(byPeriod := 0), 0);
    StarIsNoJoin(base);
    if o.byPeriod > 0 {
      var period := "p=" + PeriodText(slot, o.byPeriod);
      assert Lines(PartsAt(o, slot)) == Lines(base) + [period];
      if Lines(base) != [] { JoinSnoc(Lines(base), period); }
    } else {
      assert PartsAt(o, slot) == base;
    }
  }
}
