/**
 Schedules and their slots. A schedule is its Next function; its slots are a set
 of times, and the two agree when Next gives the least slot after a time. Times
 and durations are in nanoseconds.
 */
module Slots {
  import opened Basics

  type NextFn = int -> Option<int>

  ghost predicate NoSlotIn(isSlot: int -> bool, after: int, through: int) {
    forall x :: after < x <= through ==> !isSlot(x)
  }

  /** Next is strictly after the time it is asked of. */
  ghost predicate Progresses(next: NextFn) {
    forall t :: next(t).Some? ==> t < next(t).value
  }

  /** As far as `through`, next(t) is the least slot after t, if there is one. */
  ghost predicate LeastAfter(next: NextFn, isSlot: int -> bool, t: int, through: int) {
    match next(t)
    case Some(x) => t < x && (x <= through ==> isSlot(x)) && NoSlotIn(isSlot, t, Min(x - 1, through))
    case None => NoSlotIn(isSlot, t, through)
  }

  /** The schedule tells its slots right at every time from lo to hi, as far as hi. */
  ghost predicate LawfulWithin(next: NextFn, isSlot: int -> bool, lo: int, hi: int) {
    forall t :: lo <= t <= hi ==> LeastAfter(next, isSlot, t, hi)
  }

  /** The schedule tells its slots right at every time. */
  ghost predicate Lawful(next: NextFn, isSlot: int -> bool) {
    forall t, through :: LeastAfter(next, isSlot, t, through)
  }

  /** The slots after lo and not after hi, oldest first, by a full scan. */
  ghost function SlotsIn(isSlot: int -> bool, lo: int, hi: int): seq<int>
    decreases hi - lo
  {
    if hi <= lo then []
    else if isSlot(hi) then SlotsIn(isSlot, lo, hi - 1) + [hi]
    else SlotsIn(isSlot, lo, hi - 1)
  }

  /** The times Next gives, one from another, not after now. */
  function Chain(next: NextFn, from: int, now: int): seq<int>
    decreases now - from
  {
    if next(from).Some? && from < next(from).value <= now then
      [next(from).value] + Chain(next, next(from).value, now)
    else []
  }

  /** The last n elements, or all if there are fewer. */
  function LastN<T>(s: seq<T>, n: nat): seq<T> {
    s[|s| - Min(n, |s|)..]
  }

  // ---------------------------------------------------------------- the full scan

  lemma {:induction false} SlotsInSplits(isSlot: int -> bool, lo: int, mid: int, hi: int)
    requires lo <= mid <= hi
    ensures SlotsIn(isSlot, lo, hi) == SlotsIn(isSlot, lo, mid) + SlotsIn(isSlot, mid, hi)
    decreases hi - mid
  {
    if mid >= hi {
    } else {
      SlotsInSplits(isSlot, lo, mid, hi - 1);
    }
  }

  lemma {:induction false} NoSlotsIn(isSlot: int -> bool, lo: int, hi: int)
    requires NoSlotIn(isSlot, lo, hi)
    ensures SlotsIn(isSlot, lo, hi) == []
    decreases hi - lo
  {
    if lo < hi { NoSlotsIn(isSlot, lo, hi - 1); }
  }

  // The scan holds exactly the slots of the interval, in order, each once.
  lemma {:induction false} SlotsInAreSlots(isSlot: int -> bool, lo: int, hi: int)
    ensures Increasing(SlotsIn(isSlot, lo, hi))
    ensures forall x :: x in SlotsIn(isSlot, lo, hi) <==> lo < x <= hi && isSlot(x)
    decreases hi - lo
  {
    if lo >= hi {
    } else {
      SlotsInAreSlots(isSlot, lo, hi - 1);
      var before := SlotsIn(isSlot, lo, hi - 1);
      assert forall i :: 0 <= i < |before| ==> before[i] in before;
    }
  }

  // From a time to its next slot there is that slot alone.
  lemma FirstSlot(next: NextFn, isSlot: int -> bool, t: int, hi: int)
    requires LeastAfter(next, isSlot, t, hi)
    ensures next(t).Some? && next(t).value <= hi ==>
              SlotsIn(isSlot, t, hi) == [next(t).value] + SlotsIn(isSlot, next(t).value, hi)
    ensures next(t).None? || hi < next(t).value ==> SlotsIn(isSlot, t, hi) == []
  {
    if next(t).Some? && next(t).value <= hi {
      var x := next(t).value;
      SlotsInSplits(isSlot, t, x, hi);
      NoSlotsIn(isSlot, t, x - 1);
      assert SlotsIn(isSlot, t, x) == [x];
    } else {
      NoSlotsIn(isSlot, t, hi);
    }
  }

  // Where the schedule tells its slots right, following Next is the full scan.
  lemma {:induction false} ChainIsScan(next: NextFn, isSlot: int -> bool, from: int, now: int)
    requires LawfulWithin(next, isSlot, from, now)
    ensures Chain(next, from, now) == SlotsIn(isSlot, from, now)
    decreases now - from
  {
    if from <= now {
      FirstSlot(next, isSlot, from, now);
      if next(from).Some? && next(from).value <= now {
        ChainIsScan(next, isSlot, next(from).value, now);
      }
    }
  }

  ghost predicate AllSlots(isSlot: int -> bool, lo: int, hi: int, s: seq<int>) {
    forall i :: 0 <= i < |s| ==> lo < s[i] <= hi && isSlot(s[i])
  }

  // Where Next gives only slots, a chain of it holds slots, in order.
  lemma {:induction false} ChainHoldsSlots(next: NextFn, isSlot: int -> bool, from: int, now: int)
    requires Progresses(next) && forall t :: next(t).Some? ==> isSlot(next(t).value)
    ensures AllSlots(isSlot, from, now, Chain(next, from, now)) && Increasing(Chain(next, from, now))
    decreases now - from
  {
    var r := next(from);
    if r.Some? && r.value <= now {
      ChainHoldsSlots(next, isSlot, r.value, now);
      var chain, rest := Chain(next, from, now), Chain(next, r.value, now);
      assert chain == [r.value] + rest;
      forall i | 0 <= i < |chain| ensures from < chain[i] <= now && isSlot(chain[i]) {
        if i > 0 { assert chain[i] == rest[i - 1]; }
      }
      forall i, j | 0 <= i < j < |chain| ensures chain[i] < chain[j] {
        assert chain[j] == rest[j - 1];
        if i > 0 { assert chain[i] == rest[i - 1]; }
      }
    }
  }

  // Each time of a chain is Next of its start, or of a time of the chain before it.
  lemma {:induction false} ChainLink(next: NextFn, from: int, now: int, x: int) returns (u: int)
    requires x in Chain(next, from, now)
    ensures from <= u < x && next(u) == Some(x) && (u == from || u in Chain(next, from, now))
    decreases now - from
  {
    var first := next(from).value;
    var rest := Chain(next, first, now);
    assert Chain(next, from, now) == [first] + rest;
    if x == first {
      u := from;
    } else {
      u := ChainLink(next, first, now, x);
    }
  }

  // ---------------------------------------------------------------- recent slots

  // A longer sequence with the same tail has the same last n, once the tail holds n.
  lemma LastNOfTail<T>(head: seq<T>, tail: seq<T>, n: nat)
    requires n <= |tail|
    ensures LastN(head + tail, n) == LastN(tail, n)
  {
  }

  const MILLISECOND: int := 1_000_000
  const MAX_DURATION: int := 0x7fff_ffff_ffff_ffff

  /** The difference of two times as a duration, which saturates. */
  function Sub(a: int, b: int): int {
    Max(-MAX_DURATION - 1, Min(a - b, MAX_DURATION))
  }

  /** `slots` holds the latest of what was found: all of it, or between n and 2n. */
  ghost predicate Buffers(slots: seq<int>, found: seq<int>, n: nat) {
    |slots| <= |found| && slots == found[|found| - |slots|..] && Min(n, |found|) <= |slots| <= 2 * n
  }

  lemma NothingBuffered(n: nat)
    ensures Buffers([], [], n)
  {
  }

  /** Adds the slot just found, trimming a full buffer to its latest n first. */
  method Push(slots: seq<int>, n: nat, x: int, ghost found: seq<int>) returns (pushed: seq<int>)
    requires n >= 1 && Buffers(slots, found, n)
    ensures Buffers(pushed, found + [x], n)
  {
    pushed := slots;
    ghost var k := |found| - |slots|;
    if |pushed| == 2 * n {
      pushed := pushed[n..];
      k := k + n;
    }
    assert pushed == found[k..];
    PushOntoTail(found, k, x);
    pushed := pushed + [x];
  }

  lemma PushOntoTail<T>(s: seq<T>, k: nat, x: T)
    requires k <= |s|
    ensures (s + [x])[k..] == s[k..] + [x]
  {
  }

  lemma LinkFound(next: NextFn, at: int, now: int, found: seq<int>, all: seq<int>)
    requires Progresses(next) && found + Chain(next, at, now) == all
    ensures next(at).Some? && next(at).value <= now ==>
              (found + [next(at).value]) + Chain(next, next(at).value, now) == all
    ensures next(at).None? || next(at).value > now ==> found == all
  {
    if next(at).Some? && next(at).value <= now {
      var rest := Chain(next, next(at).value, now);
      assert found + ([next(at).value] + rest) == (found + [next(at).value]) + rest;
    }
  }

  /** Follows a schedule from `from` through now, keeping between n and 2n of the latest times. */
  method WindowSlots(next: NextFn, from: int, now: int, n: nat) returns (slots: seq<int>)
    requires n >= 1 && Progresses(next)
    ensures Buffers(slots, Chain(next, from, now), n)
  {
    slots := [];
    var slot := next(from);
    ghost var at: int, found: seq<int> := from, [];
    ghost var all := Chain(next, from, now);
    assert found + all == all;
    NothingBuffered(n);
    while slot.Some? && slot.value <= now
      invariant slot == next(at)
      invariant found + Chain(next, at, now) == all
      invariant Buffers(slots, found, n)
      decreases now - at
    {
      LinkFound(next, at, now, found, all);
      slots := Push(slots, n, slot.value, found);
      found, at := found + [slot.value], slot.value;
      slot := next(slot.value);
    }
    LinkFound(next, at, now, found, all);
  }

  /** The result comes from one window: it is full, or the window reaches back to last. */
  ghost predicate FromWindow(next: NextFn, last: int, now: int, n: nat, slots: seq<int>, from: int) {
    && last <= from
    && slots == LastN(Chain(next, from, now), n)
    && (from == last || (|slots| == n && from <= now))
  }

  /** What RecentSlots is meant to return. */
  ghost function LatestSlots(isSlot: int -> bool, last: int, now: int, n: nat): seq<int> {
    LastN(SlotsIn(isSlot, last, now), n)
  }

  // Where the schedule tells its slots right between last and now, every window
  // the search can stop at gives the last n of a full scan, or all if fewer.
  lemma RecentSlotsAreLatest(next: NextFn, isSlot: int -> bool, last: int, now: int, n: nat, slots: seq<int>, from: int)
    requires Progresses(next) && LawfulWithin(next, isSlot, last, now)
    requires FromWindow(next, last, now, n, slots, from)
    ensures slots == LatestSlots(isSlot, last, now, n)
  {
    ChainIsScan(next, isSlot, from, now);
    if from > last {
      SlotsInSplits(isSlot, last, from, now);
      LastNOfTail(SlotsIn(isSlot, last, from), SlotsIn(isSlot, from, now), n);
    }
  }

  /** The span of the window after one of w that was not enough. */
  function Widened(w: int, span: int): int {
    if w > span / 2 then span else w * 2
  }

  function WindowStart(last: int, now: int, w: int): int {
    if w >= Sub(now, last) then last else now - w
  }

  /** A window the search can be at: it has not passed the span, and is not empty if the span is not. */
  predicate IsWindow(last: int, now: int, w: int) {
    w <= Sub(now, last) && (w > 0 || w == Sub(now, last))
  }

  /** What the search finds from a window of w on, each the last widened, until one holds n slots or reaches last. */
  function Search(next: NextFn, last: int, now: int, n: nat, w: int): seq<int>
    requires IsWindow(last, now, w)
    decreases Sub(now, last) - w
  {
    var chain := Chain(next, WindowStart(last, now, w), now);
    if |chain| >= n || WindowStart(last, now, w) <= last then LastN(chain, n)
    else Search(next, last, now, n, Widened(w, Sub(now, last)))
  }

  /** What the search finds, from its first window. */
  function Recent(next: NextFn, last: int, now: int, n: nat): seq<int> {
    Search(next, last, now, n, Min(MILLISECOND, Sub(now, last)))
  }

  lemma {:induction false} SearchStopsAtWindow(next: NextFn, last: int, now: int, n: nat, w: int) returns (from: int)
    requires n >= 1 && IsWindow(last, now, w)
    ensures FromWindow(next, last, now, n, Search(next, last, now, n, w), from)
    decreases Sub(now, last) - w
  {
    from := WindowStart(last, now, w);
    if |Chain(next, from, now)| < n && from > last {
      from := SearchStopsAtWindow(next, last, now, n, Widened(w, Sub(now, last)));
    }
  }

  // The buffer a window leaves tells whether the search goes on, and what it finds.
  lemma BufferTells(chain: seq<int>, buffer: seq<int>, n: nat)
    requires n >= 1 && Buffers(buffer, chain, n)
    ensures |buffer| >= n <==> |chain| >= n
    ensures buffer[Max(0, |buffer| - n)..] == LastN(chain, n)
  {
  }

  /**
   The up to n most recent slots after last and not after now, oldest first. It
   looks back over a window that doubles until it holds n slots or reaches last.
   */
  method RecentSlots(next: NextFn, ghost isSlot: int -> bool, last: int, now: int, n: nat) returns (slots: seq<int>)
    requires n >= 1 && Progresses(next)
    ensures slots == Recent(next, last, now, n)
    ensures LawfulWithin(next, isSlot, last, now) ==> slots == LatestSlots(isSlot, last, now, n)
  {
    if LawfulWithin(next, isSlot, last, now) { RecentIsLatest(next, isSlot, last, now, n); }
    var span := Sub(now, last);
    var w := Min(MILLISECOND, span);
    while true
      invariant IsWindow(last, now, w) && Search(next, last, now, n, w) == Recent(next, last, now, n)
      decreases span - w
    {
      var start := if w >= span then last else now - w;
      slots := WindowSlots(next, start, now, n);
      BufferTells(Chain(next, start, now), slots, n);
      if |slots| >= n || start <= last {
        return slots[Max(0, |slots| - n)..];
      }
      w := if w > span / 2 then span else w * 2;
    }
  }

  // What the search finds is the latest slots where the schedule tells its slots right.
  lemma RecentIsLatest(next: NextFn, isSlot: int -> bool, last: int, now: int, n: nat)
    requires n >= 1 && Progresses(next) && LawfulWithin(next, isSlot, last, now)
    ensures Recent(next, last, now, n) == LatestSlots(isSlot, last, now, n)
  {
    var from := SearchStopsAtWindow(next, last, now, n, Min(MILLISECOND, Sub(now, last)));
    RecentSlotsAreLatest(next, isSlot, last, now, n, Recent(next, last, now, n), from);
  }

  /** The search from `last` finds the latest slots, however many are asked for. */
  ghost predicate ExactFrom(next: NextFn, isSlot: int -> bool, last: int, now: int) {
    forall n: nat :: n >= 1 ==> Recent(next, last, now, n) == LatestSlots(isSlot, last, now, n)
  }

  // Exactly then: the search is right from every time between lo and now, for
  // every n, if and only if Next tells the slots right at each of those times.
  lemma ExactIffLawful(next: NextFn, isSlot: int -> bool, lo: int, now: int)
    requires Progresses(next)
    ensures LawfulWithin(next, isSlot, lo, now) <==>
              forall last :: lo <= last <= now ==> ExactFrom(next, isSlot, last, now)
  {
    if LawfulWithin(next, isSlot, lo, now) {
      forall last, n: nat | lo <= last <= now && n >= 1
        ensures Recent(next, last, now, n) == LatestSlots(isSlot, last, now, n)
      {
        RecentIsLatest(next, isSlot, last, now, n);
      }
    } else {
      var t :| lo <= t <= now && !LeastAfter(next, isSlot, t, now);
      if ExactFrom(next, isSlot, t, now) {
        ExactTellsLeast(next, isSlot, t, now);
      }
    }
  }

  // A slot no later than the first one is the first one.
  lemma FoundIsLeast(next: NextFn, isSlot: int -> bool, t: int, x: int, hi: int)
    requires t < x <= hi && isSlot(x) && NoSlotIn(isSlot, t, x - 1)
    requires next(t).Some? && t < next(t).value <= x && isSlot(next(t).value)
    ensures LeastAfter(next, isSlot, t, hi)
  {
  }

  lemma LeastIsFirst(next: NextFn, isSlot: int -> bool, t: int, x: int, hi: int)
    requires LeastAfter(next, isSlot, t, hi) && t < x <= hi && isSlot(x) && NoSlotIn(isSlot, t, x - 1)
    ensures next(t) == Some(x)
  {
  }

  // A search for more slots than there are reaches back to its start.
  lemma ExactIsChain(next: NextFn, isSlot: int -> bool, t: int, now: int)
    requires ExactFrom(next, isSlot, t, now)
    ensures Chain(next, t, now) == SlotsIn(isSlot, t, now)
  {
    var chain, scan := Chain(next, t, now), SlotsIn(isSlot, t, now);
    var n := |chain| + |scan| + 1;
    assert Recent(next, t, now, n) == LatestSlots(isSlot, t, now, n) == scan;
    var from := SearchStopsAtWindow(next, t, now, n, Min(MILLISECOND, Sub(now, t)));
    assert from == t && LastN(chain, n) == chain;
  }

  // Where the search from lo is exact, the first slot after any later time is Next of a time no later than that.
  lemma ExactFindsFirst(next: NextFn, isSlot: int -> bool, lo: int, now: int, t: int, x: int) returns (u: int)
    requires ExactFrom(next, isSlot, lo, now) && lo <= t < x <= now && isSlot(x) && NoSlotIn(isSlot, t, x - 1)
    ensures lo <= u <= t && next(u) == Some(x)
  {
    ExactIsChain(next, isSlot, lo, now);
    SlotsInAreSlots(isSlot, lo, now);
    u := ChainLink(next, lo, now, x);
    assert u == lo || isSlot(u);
  }

  lemma ExactTellsLeast(next: NextFn, isSlot: int -> bool, t: int, now: int)
    requires Progresses(next) && t <= now && ExactFrom(next, isSlot, t, now)
    ensures LeastAfter(next, isSlot, t, now)
  {
    var scan := SlotsIn(isSlot, t, now);
    ExactIsChain(next, isSlot, t, now);
    SlotsInAreSlots(isSlot, t, now);
    if next(t).Some? && next(t).value <= now {
      assert scan[0] == next(t).value && scan[0] in scan;
      assert forall y :: y in scan ==> scan[0] <= y;
    } else {
      assert scan == [];
    }
    assert forall y :: t < y <= now && isSlot(y) ==> y in scan;
  }

  lemma FirstTwoDiffer(s: seq<int>)
    requires Increasing(s)
    ensures |s| >= 2 ==> s[0] < s[1]
  {
  }

  // When (lo, hi] holds one slot and Next, asked at lo, finds none, a search
  // for two or more from lo comes back empty.
  lemma SearchMissesSlot(next: NextFn, isSlot: int -> bool, lo: int, hi: int, n: nat, slots: seq<int>, from: int)
    requires Progresses(next) && forall t :: next(t).Some? ==> isSlot(next(t).value)
    requires lo < hi && isSlot(hi) && next(lo).None?
    requires forall x :: lo < x <= hi && isSlot(x) ==> x == hi
    requires n >= 2 && FromWindow(next, lo, hi, n, slots, from)
    ensures slots == [] && LatestSlots(isSlot, lo, hi, n) == [hi]
  {
    if from != lo {
      ChainHoldsSlots(next, isSlot, from, hi);
      FirstTwoDiffer(Chain(next, from, hi));
      assert false;
    }
    NoSlotsIn(isSlot, lo, hi - 1);
    assert SlotsIn(isSlot, lo, hi) == [hi];
  }
}
