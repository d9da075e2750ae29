/**
 One periodic job across the passes of a leader's term: the slots each pass
 hands to the insert, and where it leaves the job's next slot. A schedule is
 trusted from lo through hi, as far as hi; the database's outcomes are arbitrary.
 */
module PeriodicJob {
  import opened Basics
  import opened Slots

  const MAX_CATCH_UP: nat := 10000

  /** What a job is scheduled by. catchUp is 0 for a job without options. */
  datatype Definition = Definition(next: NextFn, catchUp: int, runOnStart: bool)

  ghost predicate Trusted(d: Definition, isSlot: int -> bool, lo: int, hi: int) {
    Progresses(d.next) && LawfulWithin(d.next, isSlot, lo, hi)
  }

  /** n is the first slot after t, as far as hi. */
  ghost predicate FirstAfter(isSlot: int -> bool, t: int, hi: int, n: Option<int>) {
    match n
    case Some(x) => t < x && (x <= hi ==> isSlot(x)) && NoSlotIn(isSlot, t, Min(x - 1, hi))
    case None => NoSlotIn(isSlot, t, hi)
  }

  // ---------------------------------------------------------------- missed slots

  /** How many missed slots are inserted: those of the last lease TTL, or as many as CatchUp allows if that is more. */
  ghost function MissedCount(isSlot: int -> bool, last: int, now: int, ttl: int, catchUp: int): nat {
    var window := Min(MAX_CATCH_UP, |SlotsIn(isSlot, Max(last, now - ttl), now)|);
    if catchUp <= window then window else Min(catchUp, MAX_CATCH_UP)
  }

  /** The slots a job that was held up inserts: the latest of those it missed, up to the count. */
  ghost function Missed(isSlot: int -> bool, last: int, now: int, ttl: int, catchUp: int): seq<int> {
    LatestSlots(isSlot, last, now, MissedCount(isSlot, last, now, ttl, catchUp))
  }

  // The slots of a suffix of the interval are the latest of the whole.
  lemma WindowIsLatest(isSlot: int -> bool, last: int, from: int, now: int, n: nat)
    requires last <= from
    ensures LatestSlots(isSlot, from, now, n) ==
              LatestSlots(isSlot, last, now, Min(n, |SlotsIn(isSlot, from, now)|))
  {
    if from <= now {
      SlotsInSplits(isSlot, last, from, now);
      var tail := SlotsIn(isSlot, from, now);
      LastNOfTail(SlotsIn(isSlot, last, from), tail, Min(n, |tail|));
    }
  }

  method MissedSlots(d: Definition, ghost isSlot: int -> bool, last: int, now: int, ttl: int) returns (slots: seq<int>)
    requires Progresses(d.next) && LawfulWithin(d.next, isSlot, last, now)
    ensures slots == Missed(isSlot, last, now, ttl, d.catchUp)
  {
    var start := Max(last, now - ttl);
    slots := RecentSlots(d.next, isSlot, start, now, MAX_CATCH_UP);
    WindowIsLatest(isSlot, last, start, now, MAX_CATCH_UP);
    if d.catchUp <= |slots| {
      return;
    }
    slots := RecentSlots(d.next, isSlot, last, now, Min(d.catchUp, MAX_CATCH_UP));
  }

  // ---------------------------------------------------------------- handing slots to the insert

  /** The slots handed over: all that are due, or those through the first the database does not take. */
  function Handed(due: seq<int>, accepts: int -> bool): seq<int> {
    if due == [] then []
    else if accepts(due[0]) then [due[0]] + Handed(due[1..], accepts)
    else [due[0]]
  }

  predicate AllAccepted(due: seq<int>, accepts: int -> bool) {
    forall i :: 0 <= i < |due| ==> accepts(due[i])
  }

  /** The slots a pass owes a job whose next slot is n: the missed ones for a job held up too long, else every one since. */
  ghost function Due(isSlot: int -> bool, n: Option<int>, behind: bool, now: int, ttl: int, catchUp: int): seq<int> {
    if n.None? then []
    else if behind && n.value < now - ttl then Missed(isSlot, n.value - 1, now, ttl, catchUp)
    else SlotsIn(isSlot, n.value - 1, now)
  }

  lemma {:induction false} HandedAppends(a: seq<int>, x: int, b: seq<int>, accepts: int -> bool)
    requires AllAccepted(a, accepts)
    ensures accepts(x) ==> AllAccepted(a + [x], accepts)
    ensures !accepts(x) ==> Handed(a + [x] + b, accepts) == a + [x] && !AllAccepted(a + [x] + b, accepts)
    decreases |a|
  {
    if a == [] {
      assert a + [x] + b == [x] + b;
    } else {
      HandedAppends(a[1..], x, b, accepts);
      assert (a + [x] + b)[1..] == a[1..] + [x] + b;
      if !accepts(x) { assert (a + [x] + b)[|a|] == x; }
    }
  }

  lemma {:induction false} HandedAll(due: seq<int>, accepts: int -> bool)
    requires AllAccepted(due, accepts)
    ensures Handed(due, accepts) == due
    decreases |due|
  {
    if due != [] { HandedAll(due[1..], accepts); }
  }

  /** The slots from n on, through now. */
  ghost function Rest(isSlot: int -> bool, n: Option<int>, now: int): seq<int> {
    if n.None? then [] else SlotsIn(isSlot, n.value - 1, now)
  }

  lemma RestAfter(d: Definition, isSlot: int -> bool, x: int, now: int)
    requires Progresses(d.next) && LeastAfter(d.next, isSlot, x, now)
    ensures SlotsIn(isSlot, x, now) == Rest(isSlot, d.next(x), now)
  {
    FirstSlot(d.next, isSlot, x, now);
    var n := d.next(x);
    if n.Some? && n.value <= now {
      RestStarts(isSlot, n.value, now);
    }
  }

  lemma RestStarts(isSlot: int -> bool, x: int, now: int)
    requires isSlot(x) && x <= now
    ensures SlotsIn(isSlot, x - 1, now) == [x] + SlotsIn(isSlot, x, now)
  {
    SlotsInSplits(isSlot, x - 1, x, now);
    assert SlotsIn(isSlot, x - 1, x) == [x];
  }

  lemma NextIsFirstAfter(d: Definition, isSlot: int -> bool, lo: int, hi: int, x: int, now: int)
    requires Trusted(d, isSlot, lo, hi) && lo <= x <= hi && x <= now
    requires SlotsIn(isSlot, x, now) == [] && now <= hi
    ensures FirstAfter(isSlot, now, hi, d.next(x))
  {
    SlotsInAreSlots(isSlot, x, now);
    assert LeastAfter(d.next, isSlot, x, hi);
  }

  // One more slot handed over: the last there is if the database does not take it.
  lemma HandStep(d: Definition, isSlot: int -> bool, lo: int, hi: int, now: int,
                 handed: seq<int>, x: int, due: seq<int>, accepts: int -> bool)
    requires Trusted(d, isSlot, lo, hi) && lo < x <= now <= hi && isSlot(x)
    requires handed + Rest(isSlot, Some(x), now) == due && AllAccepted(handed, accepts)
    ensures !accepts(x) ==> handed + [x] == Handed(due, accepts) && !AllAccepted(due, accepts)
    ensures accepts(x) ==> AllAccepted(handed + [x], accepts)
    ensures handed + [x] + Rest(isSlot, d.next(x), now) == due && SlotsIn(isSlot, x, now) == Rest(isSlot, d.next(x), now)
    ensures d.next(x).Some? ==> x < d.next(x).value && (d.next(x).value <= hi ==> isSlot(d.next(x).value))
  {
    RestStarts(isSlot, x, now);
    assert LeastAfter(d.next, isSlot, x, hi);
    LeastAfterSooner(d.next, isSlot, x, now, hi);
    RestAfter(d, isSlot, x, now);
    var rest := SlotsIn(isSlot, x, now);
    assert handed + ([x] + rest) == handed + [x] + rest;
    HandedAppends(handed, x, rest, accepts);
  }

  /**
   Hands over the slots from n through now, one Next after another. It stops at
   the first the database does not take, which is then the job's next slot.
   */
  method HandDue(d: Definition, ghost isSlot: int -> bool, ghost lo: int, ghost hi: int,
                 n: Option<int>, now: int, accepts: int -> bool)
    returns (after: Option<int>, inserted: bool, handed: seq<int>)
    requires Trusted(d, isSlot, lo, hi) && now <= hi
    requires n.Some? ==> lo < n.value && (n.value <= hi ==> isSlot(n.value))
    ensures handed == Handed(Rest(isSlot, n, now), accepts)
    ensures inserted <==> AllAccepted(Rest(isSlot, n, now), accepts)
    ensures inserted ==> if n.Some? && n.value <= now then FirstAfter(isSlot, now, hi, after) else after == n
    ensures !inserted ==> handed != [] && after == Some(handed[|handed| - 1])
  {
    after, inserted, handed := n, true, [];
    ghost var due := Rest(isSlot, n, now);
    ghost var at := if n.Some? then n.value - 1 else lo;
    assert handed + due == due;
    while after.Some? && after.value <= now
      invariant handed + Rest(isSlot, after, now) == due && AllAccepted(handed, accepts)
      invariant after.Some? ==> lo < after.value && (after.value <= hi ==> isSlot(after.value))
      invariant handed == [] ==> after == n
      invariant handed != [] ==> lo <= at <= now && after == d.next(at) && SlotsIn(isSlot, at, now) == Rest(isSlot, after, now)
      invariant after.Some? ==> at < after.value
      decreases now - at
    {
      var x := after.value;
      HandStep(d, isSlot, lo, hi, now, handed, x, due, accepts);
      handed := handed + [x];
      if !accepts(x) {
        return after, false, handed;
      }
      at := x;
      after := d.next(x);
    }
    RestIsEmpty(isSlot, after, now);
    assert handed == due;
    HandedAll(due, accepts);
    if n.Some? && n.value <= now {
      assert handed != [] by { RestStarts(isSlot, n.value, now); }
      NextIsFirstAfter(d, isSlot, lo, hi, at, now);
    }
  }

  lemma LeastAfterSooner(next: NextFn, isSlot: int -> bool, t: int, now: int, hi: int)
    requires LeastAfter(next, isSlot, t, hi) && now <= hi
    ensures LeastAfter(next, isSlot, t, now)
  {
  }

  lemma RestIsEmpty(isSlot: int -> bool, n: Option<int>, now: int)
    requires n.None? || now < n.value
    ensures Rest(isSlot, n, now) == []
  {
  }

  // ---------------------------------------------------------------- a pass over one job

  // The missed slots are slots since the job's next one, in order.
  lemma MissedAreSlots(isSlot: int -> bool, x: int, now: int, ttl: int, catchUp: int)
    ensures var missed := Missed(isSlot, x - 1, now, ttl, catchUp);
            Increasing(missed) && forall i :: 0 <= i < |missed| ==> x <= missed[i] <= now && isSlot(missed[i])
  {
    var all, missed := SlotsIn(isSlot, x - 1, now), Missed(isSlot, x - 1, now, ttl, catchUp);
    SlotsInAreSlots(isSlot, x - 1, now);
    assert forall i :: 0 <= i < |missed| ==> missed[i] == all[|all| - |missed| + i] && missed[i] in all;
  }

  // The last missed slot is the latest slot there is, and there is none after the lease TTL began if none was missed.
  lemma MissedReachNow(isSlot: int -> bool, x: int, now: int, ttl: int, catchUp: int)
    requires isSlot(x) && x < now - ttl && ttl >= 0
    ensures var missed := Missed(isSlot, x - 1, now, ttl, catchUp);
            && (missed != [] ==> SlotsIn(isSlot, missed[|missed| - 1], now) == [])
            && (missed == [] ==> SlotsIn(isSlot, now - ttl, now) == [])
  {
    var all, missed := SlotsIn(isSlot, x - 1, now), Missed(isSlot, x - 1, now, ttl, catchUp);
    SlotsInAreSlots(isSlot, x - 1, now);
    assert x in all;
    if missed != [] {
      assert missed[|missed| - 1] == all[|all| - 1];
      NoneAfterLast(isSlot, x - 1, now);
    }
  }

  // No slot follows the last one through now.
  lemma NoneAfterLast(isSlot: int -> bool, from: int, now: int)
    requires SlotsIn(isSlot, from, now) != []
    ensures var all := SlotsIn(isSlot, from, now); SlotsIn(isSlot, all[|all| - 1], now) == []
  {
    var all := SlotsIn(isSlot, from, now);
    var end := all[|all| - 1];
    SlotsInAreSlots(isSlot, from, now);
    assert end in all && forall i :: 0 <= i < |all| ==> all[i] <= end;
    SlotsInAreSlots(isSlot, end, now);
    assert forall y :: y in SlotsIn(isSlot, end, now) ==> y in all && end < y;
    EmptyIfNoMember(SlotsIn(isSlot, end, now));
  }

  lemma EmptyIfNoMember(s: seq<int>)
    ensures (forall y :: y !in s) ==> s == []
  {
    if s != [] {
      var y := s[0];
      assert y in s;
    }
  }

  lemma SplitsAt<T>(s: seq<T>, i: nat)
    requires i < |s|
    ensures s == s[..i] + [s[i]] + s[i + 1..] && s[..i + 1] == s[..i] + [s[i]]
  {
  }

  /** Hands over the missed slots, oldest first. */
  method HandMissed(d: Definition, ghost isSlot: int -> bool, ghost lo: int, ghost hi: int,
                    x: int, now: int, ttl: int, accepts: int -> bool)
    returns (after: Option<int>, inserted: bool, handed: seq<int>)
    requires Trusted(d, isSlot, lo, hi) && now <= hi && ttl >= 0
    requires lo < x < now - ttl && isSlot(x)
    ensures handed == Handed(Missed(isSlot, x - 1, now, ttl, d.catchUp), accepts)
    ensures inserted <==> AllAccepted(Missed(isSlot, x - 1, now, ttl, d.catchUp), accepts)
    ensures inserted ==> FirstAfter(isSlot, now, hi, after)
    ensures !inserted ==> handed != [] && after == Some(handed[|handed| - 1])
  {
    LawfulSooner(d.next, isSlot, lo, hi, x - 1, now);
    var missed := MissedSlots(d, isSlot, x - 1, now, ttl);
    MissedAreSlots(isSlot, x, now, ttl, d.catchUp);
    MissedReachNow(isSlot, x, now, ttl, d.catchUp);
    handed := [];
    inserted := true;
    after := d.next(now - ttl);
    for i := 0 to |missed|
      invariant handed == missed[..i] && AllAccepted(handed, accepts)
      invariant after == d.next(if i == 0 then now - ttl else missed[i - 1])
    {
      SplitsAt(missed, i);
      HandedAppends(handed, missed[i], missed[i + 1..], accepts);
      handed := handed + [missed[i]];
      if !accepts(missed[i]) {
        return Some(missed[i]), false, handed;
      }
      after := d.next(missed[i]);
    }
    assert missed[..|missed|] == missed;
    HandedAll(missed, accepts);
    NextIsFirstAfter(d, isSlot, lo, hi, if missed == [] then now - ttl else missed[|missed| - 1], now);
  }

  lemma LawfulSooner(next: NextFn, isSlot: int -> bool, lo: int, hi: int, from: int, now: int)
    requires LawfulWithin(next, isSlot, lo, hi) && lo <= from && now <= hi
    ensures LawfulWithin(next, isSlot, from, now)
  {
    forall t | from <= t <= now ensures LeastAfter(next, isSlot, t, now) {
      LeastAfterSooner(next, isSlot, t, now, hi);
    }
  }

  /** What a pass meets: the database time, whether the job was held up, and which slots the database takes. */
  datatype Pass = Pass(now: int, behind: bool, accepts: int -> bool)

  /** What a pass does to a job whose next slot is n. */
  ghost predicate PassOf(d: Definition, isSlot: int -> bool, hi: int, ttl: int, p: Pass,
                         n: Option<int>, after: Option<int>, handed: seq<int>)
  {
    var due := Due(isSlot, n, p.behind, p.now, ttl, d.catchUp);
    && handed == Handed(due, p.accepts)
    && (AllAccepted(due, p.accepts) ==>
          if n.Some? && n.value <= p.now then FirstAfter(isSlot, p.now, hi, after) else after == n)
    && (!AllAccepted(due, p.accepts) ==> handed != [] && after == Some(handed[|handed| - 1]))
  }

  /** One pass over a job already started. */
  method PassJob(d: Definition, ghost isSlot: int -> bool, ghost lo: int, ghost hi: int, ttl: int, p: Pass, n: Option<int>)
    returns (after: Option<int>, inserted: bool, handed: seq<int>)
    requires Trusted(d, isSlot, lo, hi) && p.now <= hi && ttl >= 0
    requires n.Some? ==> lo < n.value && (n.value <= hi ==> isSlot(n.value))
    ensures PassOf(d, isSlot, hi, ttl, p, n, after, handed)
    ensures inserted <==> AllAccepted(Due(isSlot, n, p.behind, p.now, ttl, d.catchUp), p.accepts)
  {
    if p.behind && n.Some? && n.value < p.now - ttl {
      after, inserted, handed := HandMissed(d, isSlot, lo, hi, n.value, p.now, ttl, p.accepts);
      if inserted {
        var more;
        after, inserted, more := HandDue(d, isSlot, lo, hi, after, p.now, p.accepts);
        assert more == [];
        handed := handed + more;
      }
    } else {
      after, inserted, handed := HandDue(d, isSlot, lo, hi, n, p.now, p.accepts);
    }
  }

  /** The slots a starting job owes: the missed ones since its last recorded slot, if it has one, and then its RunOnStart. */
  ghost function StartDue(d: Definition, isSlot: int -> bool, last: Option<int>, now: int, ttl: int): seq<int> {
    (if last.Some? then Missed(isSlot, last.value, now, ttl, d.catchUp) else []) + (if d.runOnStart then [now] else [])
  }

  /** Starts scheduling a job: back-fills, runs on start, and leaves the first slot after now. */
  method StartJob(d: Definition, ghost isSlot: int -> bool, ghost lo: int, ghost hi: int, ttl: int,
                  now: int, last: Option<int>, accepts: int -> bool)
    returns (after: Option<int>, started: bool, handed: seq<int>)
    requires Trusted(d, isSlot, lo, hi) && lo <= now <= hi
    requires last.Some? ==> lo <= last.value
    ensures handed == Handed(StartDue(d, isSlot, last, now, ttl), accepts)
    ensures started <==> AllAccepted(StartDue(d, isSlot, last, now, ttl), accepts)
    ensures started ==> after == d.next(now) && FirstAfter(isSlot, now, hi, after)
  {
    handed, started, after := [], true, None;
    ghost var missed: seq<int> := [];
    ghost var tail := if d.runOnStart then [now] else [];
    if last.Some? {
      LawfulSooner(d.next, isSlot, lo, hi, last.value, now);
      var slots := MissedSlots(d, isSlot, last.value, now, ttl);
      missed := slots;
      handed, started := HandAll(slots, accepts);
    }
    assert StartDue(d, isSlot, last, now, ttl) == missed + tail;
    HandedJoin(missed, tail, accepts);
    if started {
      HandedAll(missed, accepts);
      HandedAlone(now, accepts);
      if d.runOnStart { handed, started := handed + [now], accepts(now); }
    }
    if started {
      assert LeastAfter(d.next, isSlot, now, hi);
      after := d.next(now);
    }
  }

  /** Hands over slots in order, up to the first not taken. */
  method HandAll(due: seq<int>, accepts: int -> bool) returns (handed: seq<int>, taken: bool)
    ensures handed == Handed(due, accepts) && (taken <==> AllAccepted(due, accepts))
  {
    handed, taken := [], true;
    for i := 0 to |due|
      invariant handed == due[..i] && AllAccepted(handed, accepts)
    {
      ghost var rest := due[i + 1..];
      assert due == handed + [due[i]] + rest;
      HandedAppends(handed, due[i], rest, accepts);
      handed := handed + [due[i]];
      if !accepts(due[i]) {
        return handed, false;
      }
    }
    assert handed == due;
    HandedAll(due, accepts);
  }

  lemma {:induction false} HandedGoesOn(a: seq<int>, b: seq<int>, accepts: int -> bool)
    requires AllAccepted(a, accepts)
    ensures Handed(a + b, accepts) == a + Handed(b, accepts)
    decreases |a|
  {
    if a == [] {
      assert a + b == b;
    } else {
      assert (a + b)[1..] == a[1..] + b && (a + b)[0] == a[0];
      HandedGoesOn(a[1..], b, accepts);
      assert a == [a[0]] + a[1..];
    }
  }

  lemma {:induction false} HandedStops(a: seq<int>, b: seq<int>, accepts: int -> bool)
    requires !AllAccepted(a, accepts)
    ensures Handed(a + b, accepts) == Handed(a, accepts)
    decreases |a|
  {
    assert (a + b)[1..] == a[1..] + b && (a + b)[0] == a[0];
    if accepts(a[0]) {
      assert !AllAccepted(a[1..], accepts) by {
        var i :| 0 <= i < |a| && !accepts(a[i]);
        assert a[1..][i - 1] == a[i];
      }
      HandedStops(a[1..], b, accepts);
    }
  }

  lemma AcceptedJoin(a: seq<int>, b: seq<int>, accepts: int -> bool)
    ensures AllAccepted(a + b, accepts) <==> AllAccepted(a, accepts) && AllAccepted(b, accepts)
  {
    assert forall i :: 0 <= i < |a| ==> (a + b)[i] == a[i];
    assert forall i :: 0 <= i < |b| ==> (a + b)[|a| + i] == b[i];
  }

  lemma HandedAlone(x: int, accepts: int -> bool)
    ensures Handed([x], accepts) == [x] && (AllAccepted([x], accepts) <==> accepts(x))
  {
    assert [x][1..] == [];
  }

  // Slots are handed over until one is not taken.
  lemma HandedJoin(a: seq<int>, b: seq<int>, accepts: int -> bool)
    ensures Handed(a + b, accepts) == if AllAccepted(a, accepts) then a + Handed(b, accepts) else Handed(a, accepts)
    ensures AllAccepted(a + b, accepts) <==> AllAccepted(a, accepts) && AllAccepted(b, accepts)
  {
    AcceptedJoin(a, b, accepts);
    if AllAccepted(a, accepts) { HandedGoesOn(a, b, accepts); } else { HandedStops(a, b, accepts); }
  }

  // ---------------------------------------------------------------- runs of passes

  /** A run of passes: the job's next slot before each and after the last, and what each handed over. */
  ghost predicate Run(d: Definition, isSlot: int -> bool, hi: int, ttl: int,
                      passes: seq<Pass>, ns: seq<Option<int>>, handed: seq<seq<int>>)
  {
    && |ns| == |passes| + 1 && |handed| == |passes|
    && forall i :: 0 <= i < |passes| ==> PassOf(d, isSlot, hi, ttl, passes[i], ns[i], ns[i + 1], handed[i])
  }

  function Concat(s: seq<seq<int>>): seq<int> {
    if s == [] then [] else Concat(s[..|s| - 1]) + s[|s| - 1]
  }

  /** The latest time any of the passes, or the start, read. */
  function Latest(start: int, passes: seq<Pass>): int {
    if passes == [] then start else Max(Latest(start, passes[..|passes| - 1]), passes[|passes| - 1].now)
  }

  /** No failure reached the job: no pass found it held up, and every slot handed over was taken. */
  ghost predicate FailureFree(passes: seq<Pass>, handed: seq<seq<int>>) {
    && |handed| == |passes|
    && forall i :: 0 <= i < |passes| ==> !passes[i].behind && AllAccepted(handed[i], passes[i].accepts)
  }

  lemma {:induction false} HandedAcceptedIsAll(due: seq<int>, accepts: int -> bool)
    requires AllAccepted(Handed(due, accepts), accepts)
    ensures AllAccepted(due, accepts) && Handed(due, accepts) == due
    decreases |due|
  {
    if due == [] {
    } else {
      assert accepts(due[0]) by { assert Handed(due, accepts)[0] == due[0]; }
      var rest := Handed(due[1..], accepts);
      assert forall i :: 0 <= i < |rest| ==> rest[i] == Handed(due, accepts)[i + 1];
      HandedAcceptedIsAll(due[1..], accepts);
    }
  }

  // One failure-free pass carries "every slot through mark was handed over" on to its own time.
  lemma PassExtends(d: Definition, isSlot: int -> bool, hi: int, ttl: int, p: Pass,
                    n: Option<int>, after: Option<int>, handed: seq<int>, start: int, mark: int, sofar: seq<int>)
    requires PassOf(d, isSlot, hi, ttl, p, n, after, handed)
    requires !p.behind && AllAccepted(handed, p.accepts) && p.now <= hi
    requires start <= mark <= hi && FirstAfter(isSlot, mark, hi, n) && sofar == SlotsIn(isSlot, start, mark)
    ensures FirstAfter(isSlot, Max(mark, p.now), hi, after)
    ensures sofar + handed == SlotsIn(isSlot, start, Max(mark, p.now))
  {
    HandedAcceptedIsAll(Due(isSlot, n, p.behind, p.now, ttl, d.catchUp), p.accepts);
    if mark < p.now {
      SlotsInSplits(isSlot, start, mark, p.now);
      if n.Some? && n.value <= p.now {
        SlotsInSplits(isSlot, mark, n.value - 1, p.now);
        NoSlotsIn(isSlot, mark, n.value - 1);
        assert handed == SlotsIn(isSlot, mark, p.now);
      } else {
        NoSlotsIn(isSlot, mark, p.now);
        assert handed == [];
      }
    } else {
      assert handed == [];
    }
  }

  // Over any number of failure-free passes of a term, the slots handed over are
  // exactly the schedule's since the job started, in order, none skipped and
  // none repeated, and the job's next slot is the first after the latest pass.
  lemma {:induction false} FailureFreePassesHandEverySlot(
      d: Definition, isSlot: int -> bool, hi: int, ttl: int, start: int,
      passes: seq<Pass>, ns: seq<Option<int>>, handed: seq<seq<int>>)
    requires Run(d, isSlot, hi, ttl, passes, ns, handed) && FailureFree(passes, handed)
    requires start <= hi && FirstAfter(isSlot, start, hi, ns[0])
    requires forall i :: 0 <= i < |passes| ==> passes[i].now <= hi
    ensures start <= Latest(start, passes) <= hi
    ensures Concat(handed) == SlotsIn(isSlot, start, Latest(start, passes))
    ensures FirstAfter(isSlot, Latest(start, passes), hi, ns[|passes|])
    decreases |passes|
  {
    if passes == [] {
    } else {
      var k := |passes| - 1;
      FailureFreePassesHandEverySlot(d, isSlot, hi, ttl, start, passes[..k], ns[..k + 1], handed[..k]);
      PassExtends(d, isSlot, hi, ttl, passes[k], ns[k], ns[k + 1], handed[k], start, Latest(start, passes[..k]), Concat(handed[..k]));
    }
  }

  /** The slots of a pass that the database took. */
  function Taken(handed: seq<int>, accepts: int -> bool): seq<int> {
    if handed != [] && !accepts(handed[|handed| - 1]) then handed[..|handed| - 1] else handed
  }

  function AllTaken(passes: seq<Pass>, handed: seq<seq<int>>): seq<int>
    requires |passes| == |handed|
  {
    if passes == [] then []
    else AllTaken(passes[..|passes| - 1], handed[..|passes| - 1]) + Taken(handed[|passes| - 1], passes[|passes| - 1].accepts)
  }

  lemma {:induction false} HandedIsPrefix(due: seq<int>, accepts: int -> bool)
    ensures Handed(due, accepts) <= due
    ensures !AllAccepted(due, accepts) ==>
              Handed(due, accepts) != [] && !accepts(Handed(due, accepts)[|Handed(due, accepts)| - 1])
    decreases |due|
  {
    if due == [] {
    } else {
      HandedIsPrefix(due[1..], accepts);
      assert Handed(due, accepts) == [due[0]] + (if accepts(due[0]) then Handed(due[1..], accepts) else []);
      if accepts(due[0]) && !AllAccepted(due, accepts) {
        var i :| 0 <= i < |due| && !accepts(due[i]);
        assert due[1..][i - 1] == due[i];
      }
    }
  }

  lemma DueFromNext(isSlot: int -> bool, n: Option<int>, behind: bool, now: int, ttl: int, catchUp: int, hi: int)
    requires ttl >= 0 && now <= hi && (n.Some? && n.value <= hi ==> isSlot(n.value))
    ensures var due := Due(isSlot, n, behind, now, ttl, catchUp);
            && Increasing(due)
            && forall i :: 0 <= i < |due| ==> n.Some? && n.value <= due[i] <= now && isSlot(due[i])
  {
    if n.Some? {
      if behind && n.value < now - ttl {
        MissedAreSlots(isSlot, n.value, now, ttl, catchUp);
      } else {
        SlotsInAreSlots(isSlot, n.value - 1, now);
        var due := SlotsIn(isSlot, n.value - 1, now);
        assert forall i :: 0 <= i < |due| ==> due[i] in due;
      }
    }
  }

  /** The job's next slot is a slot, as far as the schedule is trusted. */
  ghost predicate NextIsSlot(isSlot: int -> bool, hi: int, n: Option<int>) {
    n.Some? && n.value <= hi ==> isSlot(n.value)
  }

  /** Every slot in s is before n. */
  ghost predicate Before(s: seq<int>, n: Option<int>) {
    n.Some? ==> forall i :: 0 <= i < |s| ==> s[i] < n.value
  }

  lemma PassTakesLater(d: Definition, isSlot: int -> bool, hi: int, ttl: int, p: Pass,
                       n: Option<int>, after: Option<int>, handed: seq<int>, before: seq<int>)
    requires PassOf(d, isSlot, hi, ttl, p, n, after, handed) && ttl >= 0 && p.now <= hi
    requires NextIsSlot(isSlot, hi, n)
    requires Increasing(before) && Before(before, n)
    ensures NextIsSlot(isSlot, hi, after)
    ensures Increasing(before + Taken(handed, p.accepts))
    ensures Before(before + Taken(handed, p.accepts), after)
  {
    var due := Due(isSlot, n, p.behind, p.now, ttl, d.catchUp);
    DueFromNext(isSlot, n, p.behind, p.now, ttl, d.catchUp, hi);
    TakenIsPrefix(due, p.accepts);
    PrefixIncreases(before, n, due, Taken(handed, p.accepts));
    if AllAccepted(due, p.accepts) {
      TakenBeforeNext(isSlot, n, p.now, hi, after, before, Taken(handed, p.accepts));
    } else {
      TakenBeforeLast(n, due, handed, Taken(handed, p.accepts), before);
    }
  }

  lemma TakenIsPrefix(due: seq<int>, accepts: int -> bool)
    ensures Handed(due, accepts) <= due && Taken(Handed(due, accepts), accepts) <= due
    ensures !AllAccepted(due, accepts) ==> Handed(due, accepts) != []
                                           && Taken(Handed(due, accepts), accepts) == Handed(due, accepts)[..|Handed(due, accepts)| - 1]
  {
    HandedIsPrefix(due, accepts);
  }

  lemma PrefixIncreases(before: seq<int>, n: Option<int>, due: seq<int>, taken: seq<int>)
    requires Increasing(before) && Before(before, n) && Increasing(due) && taken <= due
    requires forall i :: 0 <= i < |due| ==> n.Some? && n.value <= due[i]
    ensures Increasing(before + taken)
  {
    assert forall i :: 0 <= i < |taken| ==> taken[i] == due[i];
  }

  lemma TakenBeforeNext(isSlot: int -> bool, n: Option<int>, now: int, hi: int, after: Option<int>, before: seq<int>, taken: seq<int>)
    requires Before(before, n) && (if n.Some? && n.value <= now then FirstAfter(isSlot, now, hi, after) else after == n)
    requires forall i :: 0 <= i < |taken| ==> n.Some? && n.value <= taken[i] <= now
    ensures Before(before + taken, after)
  {
    if taken != [] { assert taken[0] <= now && n.Some?; }
  }

  lemma TakenBeforeLast(n: Option<int>, due: seq<int>, handed: seq<int>, taken: seq<int>, before: seq<int>)
    requires Before(before, n) && Increasing(due) && handed != [] && handed <= due && taken == handed[..|handed| - 1]
    requires forall i :: 0 <= i < |due| ==> n.Some? && n.value <= due[i]
    ensures Before(before + taken, Some(handed[|handed| - 1]))
  {
    assert handed[|handed| - 1] == due[|handed| - 1];
    assert forall i :: 0 <= i < |taken| ==> taken[i] == due[i];
  }

  // Over any run at all, failures and stale stretches included, the slots the
  // database took for a job strictly increase: none is taken twice, or late.
  lemma {:induction false} TakenSlotsIncrease(
      d: Definition, isSlot: int -> bool, hi: int, ttl: int,
      passes: seq<Pass>, ns: seq<Option<int>>, handed: seq<seq<int>>)
    requires Run(d, isSlot, hi, ttl, passes, ns, handed) && ttl >= 0
    requires NextIsSlot(isSlot, hi, ns[0]) && forall i :: 0 <= i < |passes| ==> passes[i].now <= hi
    ensures Increasing(AllTaken(passes, handed)) && NextIsSlot(isSlot, hi, ns[|passes|])
    ensures Before(AllTaken(passes, handed), ns[|passes|])
    decreases |passes|
  {
    if passes == [] {
    } else {
      var k := |passes| - 1;
      TakenSlotsIncrease(d, isSlot, hi, ttl, passes[..k], ns[..k + 1], handed[..k]);
      assert ns[..k + 1][|passes[..k]|] == ns[k];
      var before := AllTaken(passes[..k], handed[..k]);
      PassTakesLater(d, isSlot, hi, ttl, passes[k], ns[k], ns[k + 1], handed[k], before);
    }
  }
}
