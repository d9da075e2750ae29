/**
 The settle retrier: batches whose settle gave up on a held row, each tried
 again on a delay of its own. An attempt takes the batches due, settles them
 without the lock and then lets each go or keeps it; batches are added meanwhile.
 */
module SettleRetry {
  import opened Basics

  const MAX_HELD: nat := 10000

  /** In nanoseconds, as every delay and time here. */
  const MILLISECOND: int := 1_000_000

  datatype Held = Held(delay: int, due: int, again: bool)

  /** delay is first doubled some number of times. */
  ghost predicate IsDoubled(first: int, delay: int) {
    exists k: nat :: delay == first * Pow2(k)
  }

  function Pow2(k: nat): int {
    if k == 0 then 1 else 2 * Pow2(k - 1)
  }

  lemma DoubledAgain(first: int, delay: int)
    requires IsDoubled(first, delay)
    ensures IsDoubled(first, delay * 2)
  {
    var k: nat :| delay == first * Pow2(k);
    assert delay * 2 == first * Pow2(k + 1);
  }

  lemma NotDoubled(first: int)
    ensures IsDoubled(first, first)
  {
    assert first == first * Pow2(0);
  }

  // ---------------------------------------------------------------- a batch whose row stays held

  /** What an attempt that finds the row still held leaves of a batch not added since. */
  function StillHeld(h: Held, maxDelay: int, now: int): Option<Held> {
    if h.delay * 2 <= maxDelay then Some(Held(h.delay * 2, now + h.delay * 2, false)) else None
  }

  /** How many attempts a batch whose row stays held is given. */
  function Tries(delay: int, maxDelay: int): nat
    requires delay >= 1
    decreases maxDelay - delay
  {
    if delay * 2 <= maxDelay then 1 + Tries(delay * 2, maxDelay) else 1
  }

  /** The batch after attempts at the given times that all found its row held. */
  function AfterTries(h: Option<Held>, maxDelay: int, times: seq<int>): Option<Held>
    decreases |times|
  {
    if times == [] || h.None? then h else AfterTries(StillHeld(h.value, maxDelay, times[0]), maxDelay, times[1..])
  }

  // A batch whose row stays held leaves after exactly that many attempts.
  lemma {:induction false} LeavesAfterTries(h: Held, maxDelay: int, times: seq<int>)
    requires h.delay >= 1
    ensures AfterTries(Some(h), maxDelay, times).None? <==> |times| >= Tries(h.delay, maxDelay)
    decreases |times|
  {
    if times == [] {
    } else {
      var next := StillHeld(h, maxDelay, times[0]);
      if next.Some? { LeavesAfterTries(next.value, maxDelay, times[1..]); }
    }
  }

  // Those attempts are one more than the doublings that stay within the longest delay.
  lemma {:induction false} TriesCountDoublings(delay: int, maxDelay: int)
    requires delay >= 1
    ensures var n := Tries(delay, maxDelay);
            maxDelay < delay * Pow2(n) && (n > 1 ==> delay * Pow2(n - 1) <= maxDelay)
    decreases maxDelay - delay
  {
    if delay * 2 <= maxDelay {
      TriesCountDoublings(delay * 2, maxDelay);
      var n := Tries(delay * 2, maxDelay);
      assert delay * 2 * Pow2(n) == delay * Pow2(n + 1);
      assert n > 1 ==> delay * 2 * Pow2(n - 1) == delay * Pow2(n);
    }
  }

  /**
   What an attempt leaves of a batch: None once it lets it go. again is whether
   the batch was added since the attempt began, still whether its row was held.
   A batch added since is never let go but by the last attempt, and starts its
   delay over; one kept otherwise has it doubled, unless the stop cut the attempt short.
   */
  function EndsAs(h: Held, again: bool, still: bool, stopped: bool, final: bool, first: int, maxDelay: int, now: int): (r: Option<Held>)
    ensures r.None? <==> final || (!again && (!still || (!stopped && h.delay * 2 > maxDelay)))
    ensures r.Some? && still && stopped ==> r.value == h
    ensures r.Some? && !(still && stopped) ==>
              r.value.delay == (if again then first else h.delay * 2) && r.value.due == now + r.value.delay && !r.value.again
  {
    if final then None
    else if still && stopped then Some(h)
    else if again then Some(Held(first, now + first, false))
    else if still then StillHeld(h, maxDelay, now)
    else None
  }

  function Entry(held: map<int, Held>, id: int): Option<Held> {
    if id in held then Some(held[id]) else None
  }

  /** What the end of an attempt goes by: the rows still held, how it came, the delays, the time, and when it began and batches were added. */
  datatype EndTime = EndTime(still: set<int>, stopped: bool, final: bool, first: int, maxDelay: int, now: int, added: map<int, nat>, began: nat)

  function EndOf(h: Held, id: int, at: EndTime): Option<Held> {
    EndsAs(h, id in at.added && at.added[id] > at.began, id in at.still, at.stopped, at.final, at.first, at.maxDelay, at.now)
  }

  /** The attempt's batches but those of rest have ended, and every other is as it was. */
  ghost predicate EndedBut(before: map<int, Held>, after: map<int, Held>, tries: set<int>, rest: set<int>, at: EndTime) {
    && (forall id :: id !in tries || id in rest ==> Entry(after, id) == Entry(before, id))
    && (forall id :: id in tries && id !in rest ==> id in before && Entry(after, id) == EndOf(before[id], id, at))
  }

  lemma EndedOneMore(before: map<int, Held>, mid: map<int, Held>, after: map<int, Held>, tries: set<int>, rest: set<int>, id: int, at: EndTime)
    requires EndedBut(before, mid, tries, rest, at) && id in rest && id in tries && id in before
    requires Entry(after, id) == EndOf(before[id], id, at) && forall x :: x != id ==> Entry(after, x) == Entry(mid, x)
    ensures EndedBut(before, after, tries, rest - {id}, at)
  {
  }

  // A batch an attempt let go was one of its own, and not added since the attempt began unless it is the last.
  lemma LetGoOnlyOf(before: map<int, Held>, after: map<int, Held>, tries: set<int>, at: EndTime)
    requires EndedBut(before, after, tries, {}, at) && forall id :: id in tries ==> id in at.added
    ensures forall id :: id in before && id !in after ==> id in tries && (at.final || at.added[id] <= at.began)
  {
    forall id | id in before && id !in after ensures id in tries && (at.final || at.added[id] <= at.began) {
      assert Entry(after, id) == None && Entry(before, id) != None;
    }
  }

  /** When a batch added for the time due is tried: then, or as soon as it already was to be. */
  function DueWith(before: map<int, Held>, id: int, due: int): int {
    if id in before && before[id].due < due then before[id].due else due
  }

  /** From before to after the batch was added for the time due if it is one of ids, and else stayed as it was. */
  predicate AddedAs(before: map<int, Held>, after: map<int, Held>, ids: seq<int>, id: int, first: int, due: int) {
    if id in ids then id in after ==> after[id].delay == first && after[id].due == DueWith(before, id, due)
    else Entry(after, id) == Entry(before, id)
  }

  /** The batches ids were added, and no batch was let go. */
  ghost predicate AllAdded(before: map<int, Held>, after: map<int, Held>, ids: seq<int>, first: int, due: int) {
    (forall x :: AddedAs(before, after, ids, x, first, due)) && forall x :: x in before ==> x in after
  }

  lemma AddsOneMore(before: map<int, Held>, mid: map<int, Held>, after: map<int, Held>, ids: seq<int>, id: int, first: int, due: int)
    requires AllAdded(before, mid, ids, first, due) && forall x :: x in mid ==> x in after
    requires id in after ==> after[id].delay == first && after[id].due == DueWith(mid, id, due)
    requires forall x :: x != id ==> Entry(after, x) == Entry(mid, x)
    ensures AllAdded(before, after, ids + [id], first, due)
  {
    forall x ensures AddedAs(before, after, ids + [id], x, first, due) {
      assert AddedAs(before, mid, ids, x, first, due);
      assert x in ids + [id] <==> x in ids || x == id;
      assert x != id ==> Entry(after, x) == Entry(mid, x);
    }
  }

  // ---------------------------------------------------------------- the retrier

  class Retrier {
    const first: int
    const maxDelay: int
    var held: map<int, Held>
    /** When, counting adds and attempts, each batch was last added, the attempt under way began, and now. */
    ghost var added: map<int, nat>
    ghost var began: nat
    ghost var clock: nat
    /** The batches of the attempt under way. */
    ghost var trying: set<int>

    ghost predicate Valid()
      reads this
    {
      && first >= MILLISECOND && |held| <= MAX_HELD && began <= clock
      && (forall id :: id in held ==> IsDoubled(first, held[id].delay) && held[id].delay >= 1)
      && (forall id :: id in held ==> id in added && added[id] <= clock)
      && (forall id :: id in trying ==> id in held && (held[id].again <==> added[id] > began))
    }

    constructor (interval: int, longest: int)
      ensures Valid() && held == map[] && trying == {} && first == Max(interval, MILLISECOND) && maxDelay == longest
    {
      first, maxDelay := Max(interval, MILLISECOND), longest;
      held, added, began, clock, trying := map[], map[], 0, 0, {};
    }

    /** Keeps a batch to settle again, unless too many are kept. */
    method AddOne(id: int, due: int) returns (full: bool)
      requires Valid()
      modifies this
      ensures Valid() && trying == old(trying) && began == old(began) && clock >= old(clock)
      ensures full <==> id !in old(held) && |old(held)| == MAX_HELD
      ensures full ==> held == old(held) && added == old(added)
      ensures !full ==> id in held && held[id].delay == first && added == old(added)[id := clock] && clock > old(clock)
      ensures forall x :: x != id ==> (x in held <==> x in old(held)) && (x in held ==> held[x] == old(held)[x])
      ensures !full ==> held[id] == Held(first, DueWith(old(held), id, due), id in old(held))
    {
      full := false;
      NotDoubled(first);
      if id in held {
        var h := held[id];
        held := held[id := Held(first, if h.due > due then due else h.due, true)];
      } else if |held| == MAX_HELD {
        full := true;
        return;
      } else {
        held := held[id := Held(first, due, false)];
      }
      clock := clock + 1;
      added := added[id := clock];
    }

    /** The batch, if it is held, was added since, and starts its delay over from now. */
    ghost predicate Restarted(id: int, now: int, since: nat)
      reads this
    {
      id in held ==> held[id].delay == first && held[id].due <= now + first && id in added && added[id] > since
    }

    /** Keeps one more batch, after those of before. */
    method AddNext(id: int, now: int, ghost before: seq<int>, ghost since: nat, ghost was: map<int, Held>) returns (full: bool)
      requires Valid() && since <= clock && forall j :: 0 <= j < |before| ==> Restarted(before[j], now, since)
      requires AllAdded(was, held, before, first, now + first)
      modifies this
      ensures AllAdded(was, held, before + [id], first, now + first)
      ensures Valid() && trying == old(trying) && began == old(began) && clock >= old(clock)
      ensures forall x :: x in old(held) ==> x in held
      ensures Restarted(id, now, since) && forall j :: 0 <= j < |before| ==> Restarted(before[j], now, since)
      ensures (id in held <==> !full) && |old(held)| <= |held| && (full ==> |held| == MAX_HELD)
    {
      label Before:
      full := AddOne(id, now + first);
      GrowsOnly(old(held), held);
      forall j | 0 <= j < |before| ensures Restarted(before[j], now, since) {
        assert old@Before(Restarted(before[j], now, since));
      }
      AddsOneMore(was, old(held), held, before, id, first, now + first);
    }

    /** Keeps batches to settle again, each first after the flush interval, or when it was to be tried anyway. full counts those left to the leader. */
    method Add(batches: seq<int>, now: int) returns (full: nat)
      requires Valid()
      modifies this
      ensures Valid() && trying == old(trying) && began == old(began)
      ensures forall x :: x in old(held) ==> x in held
      ensures forall i :: 0 <= i < |batches| ==> Restarted(batches[i], now, old(clock))
      ensures AllAdded(old(held), held, batches, first, now + first)
      ensures full == 0 ==> forall i :: 0 <= i < |batches| ==> batches[i] in held
      ensures full > 0 ==> |held| == MAX_HELD
    {
      full := 0;
      ghost var since := clock;
      for i := 0 to |batches|
        invariant Valid() && trying == old(trying) && began == old(began) && clock >= old(clock)
        invariant forall x :: x in old(held) ==> x in held
        invariant forall j :: 0 <= j < i ==> Restarted(batches[j], now, since)
        invariant AllAdded(old(held), held, batches[..i], first, now + first)
        invariant full == 0 ==> forall j :: 0 <= j < i ==> batches[j] in held
        invariant full > 0 ==> |held| == MAX_HELD
      {
        assert batches[..i + 1] == batches[..i] + [batches[i]];
        var left := AddNext(batches[i], now, batches[..i], since, old(held));
        if left { full := full + 1; }
      }
      assert batches[..|batches|] == batches;
    }

    /** An attempt begins: it takes the batches due, or all of them when it is the last. */
    method Begin(now: int, final: bool) returns (tries: set<int>)
      requires Valid() && trying == {}
      modifies this
      ensures Valid() && trying == tries && began == clock > old(clock) && added == old(added)
      ensures tries == (set id | id in old(held) && (final || old(held)[id].due <= now))
      ensures held == map id | id in old(held) :: if id in tries then old(held)[id].(again := false) else old(held)[id]
    {
      tries := set id | id in held && (final || held[id].due <= now);
      var was := held;
      held := map id | id in was :: if id in tries then was[id].(again := false) else was[id];
      assert held.Keys == was.Keys;
      clock := clock + 1;
      began, trying := clock, tries;
    }

    method LetGo(id: int)
      requires Valid() && id in trying
      modifies `held, `trying
      ensures Valid() && held == old(held) - {id} && trying == old(trying) - {id}
    {
      held, trying := held - {id}, trying - {id};
      SubsetCard(held.Keys, old(held).Keys);
    }

    method TryLater(id: int, h: Held)
      requires Valid() && id in trying && IsDoubled(first, h.delay) && h.delay >= 1
      modifies `held, `trying
      ensures Valid() && held == old(held)[id := h] && trying == old(trying) - {id}
    {
      held, trying := held[id := h], trying - {id};
      assert held.Keys == old(held).Keys;
    }

    /** One batch of the attempt, settled or still held: kept to try again, or let go. */
    method EndOne(id: int, still: bool, stopped: bool, final: bool, now: int)
      requires Valid() && id in trying
      modifies `held, `trying
      ensures Valid() && trying == old(trying) - {id}
      ensures forall x :: x != id ==> Entry(held, x) == Entry(old(held), x)
      ensures Entry(held, id) == EndsAs(old(held)[id], added[id] > began, still, stopped, final, first, maxDelay, now)
    {
      var h := held[id];
      if final {
        LetGo(id);
      } else if still && stopped {
        trying := trying - {id};
      } else if h.again {
        NotDoubled(first);
        TryLater(id, Held(first, now + first, false));
      } else if still && h.delay * 2 <= maxDelay {
        DoubledAgain(first, h.delay);
        TryLater(id, h.(delay := h.delay * 2, due := now + h.delay * 2));
      } else {
        LetGo(id);
      }
    }

    /**
     The attempt ends. No batch is let go on the strength of an attempt begun
     before its latest add, but by the last attempt.
     */
    method End(tries: set<int>, still: set<int>, stopped: bool, final: bool, now: int)
      requires Valid() && trying == tries
      modifies `held, `trying
      ensures Valid() && trying == {} && added == old(added)
      ensures forall id :: id in old(held) && id !in held ==> id in tries && (final || added[id] <= began)
      ensures forall id :: id !in tries ==> Entry(held, id) == Entry(old(held), id)
      ensures forall id :: id in tries ==>
                Entry(held, id) == EndsAs(old(held)[id], added[id] > began, id in still, stopped, final, first, maxDelay, now)
    {
      var rest := tries;
      ghost var at := EndTime(still, stopped, final, first, maxDelay, now, added, began);
      while rest != {}
        invariant Valid() && trying == rest <= tries
        invariant EndedBut(old(held), held, tries, rest, at)
        decreases |rest|
      {
        ghost var some := Member(rest);
        var id :| id in rest;
        ghost var before := held;
        assert Entry(held, id) == Entry(old(held), id);
        EndOne(id, id in still, stopped, final, now);
        EndedOneMore(old(held), before, held, tries, rest, id, at);
        rest := rest - {id};
      }
      LetGoOnlyOf(old(held), held, tries, at);
    }

    /** The earliest time an attempt is due. */
    method NextDue() returns (next: Option<int>)
      ensures next.None? <==> held == map[]
      ensures next.Some? ==> (exists id :: id in held && held[id].due == next.value) && forall id :: id in held ==> next.value <= held[id].due
    {
      next := None;
      var rest := held.Keys;
      while rest != {}
        invariant rest <= held.Keys
        invariant next.None? <==> rest == held.Keys
        invariant next.Some? ==> exists id :: id in held && held[id].due == next.value
        invariant next.Some? ==> forall id :: id in held && id !in rest ==> next.value <= held[id].due
        decreases |rest|
      {
        ghost var some := Member(rest);
        var id :| id in rest;
        if next.None? || held[id].due < next.value { next := Some(held[id].due); }
        rest := rest - {id};
      }
    }
  }

  lemma GrowsOnly(before: map<int, Held>, after: map<int, Held>)
    requires forall x :: x in before ==> x in after
    ensures |before| <= |after|
  {
    assert forall x :: x in before.Keys ==> x in after.Keys;
    SubsetCard(before.Keys, after.Keys);
  }

}
