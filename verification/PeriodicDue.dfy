/**
 What the passes of a term owe a job when not all goes well: how many slots a
 job that was held up is given, when a pass counts as late, and when a job that
 failed is tried again.
 */
module PeriodicDue {
  import opened Basics
  import opened Slots
  import opened PeriodicJob
  import opened PeriodicLoop
  import opened PeriodicTerm

  // ---------------------------------------------------------------- how many

  /** Of the slots missed since last: the latest, all of the last lease TTL, or as many as CatchUp asks for if that is more, to 10000. */
  ghost predicate Owed(due: seq<int>, isSlot: int -> bool, last: int, now: int, ttl: int, catchUp: int) {
    var all := SlotsIn(isSlot, last, now);
    var window := |SlotsIn(isSlot, Max(last, now - ttl), now)|;
    |due| == Min(|all|, Min(10000, Max(catchUp, window))) && due == all[|all| - |due|..]
  }

  lemma WindowIsPart(isSlot: int -> bool, last: int, from: int, now: int)
    requires last <= from
    ensures |SlotsIn(isSlot, from, now)| <= |SlotsIn(isSlot, last, now)|
  {
    if from <= now { SlotsInSplits(isSlot, last, from, now); }
  }

  lemma MissedAreOwed(isSlot: int -> bool, last: int, now: int, ttl: int, catchUp: int)
    ensures Owed(Missed(isSlot, last, now, ttl, catchUp), isSlot, last, now, ttl, catchUp)
  {
    WindowIsPart(isSlot, last, Max(last, now - ttl), now);
  }

  // A job whose next slot is n is owed every slot from n through now, unless it
  // was held up and n is more than a lease TTL ago: then it is owed what a job
  // that starts is.
  lemma DueIs(isSlot: int -> bool, n: int, behind: bool, now: int, ttl: int, catchUp: int)
    ensures var due := Due(isSlot, Some(n), behind, now, ttl, catchUp);
            if behind && n < now - ttl then Owed(due, isSlot, n - 1, now, ttl, catchUp)
            else Increasing(due) && forall x :: x in due <==> n <= x <= now && isSlot(x)
  {
    MissedAreOwed(isSlot, n - 1, now, ttl, catchUp);
    SlotsInAreSlots(isSlot, n - 1, now);
  }

  // A job that starts is owed the slots missed since the last one recorded, if
  // there is one, and then one at the time itself, if it runs on start.
  lemma StartDueIs(d: Definition, isSlot: int -> bool, last: Option<int>, now: int, ttl: int)
    ensures var due := StartDue(d, isSlot, last, now, ttl);
            var missed := if d.runOnStart && due != [] then due[..|due| - 1] else due;
            && (d.runOnStart ==> due != [] && due[|due| - 1] == now)
            && (if last.Some? then Owed(missed, isSlot, last.value, now, ttl, d.catchUp) else missed == [])
  {
    var missed := if last.Some? then Missed(isSlot, last.value, now, ttl, d.catchUp) else [];
    if last.Some? { MissedAreOwed(isSlot, last.value, now, ttl, d.catchUp); }
    assert d.runOnStart ==> (missed + [now])[..|missed|] == missed;
    assert missed + [] == missed;
  }

  // ---------------------------------------------------------------- when a pass is late

  /** The pass schedules the job. */
  predicate Schedules(t: Turn, r: Reg) {
    r in t.regs && r !in t.removed
  }

  // A pass hands over what a started job that does not wait is owed.
  lemma PassHands(b: Book, g: Tuning, s: Moment, t: Turn, s': Moment, r: Reg)
    requires PassTo(b, g, s, t, s') && Schedules(t, r) && r in s.jobs.next && !Waiting(s.jobs, r, t.w.readAt)
    ensures r in t.handed
    ensures t.handed[r] == Handed(Due(b.slots(r), s.jobs.next[r], Stale(g, s, t.w.now) || r in s.jobs.retryAt, t.w.now, g.ttl,
                                      b.defs(r).catchUp), t.w.accepts(r))
  {
    var a := Forgotten(s.jobs, t.regs, t.removed);
    assert r in a.next && a.next[r] == s.jobs.next[r] && (r in a.retryAt <==> r in s.jobs.retryAt) && !Waiting(a, r, t.w.readAt);
    assert Passed(b, g, t.w, Stale(g, s, t.w.now), a, s'.jobs, r, t.handed[r]);
  }

  /** The job's next slot is more than a lease TTL before the pass, which has its slots taken. */
  predicate Behind(g: Tuning, s: Moment, t: Turn, r: Reg) {
    && r in s.jobs.next && s.jobs.next[r].Some? && s.jobs.next[r].value < t.w.now - g.ttl && Schedules(t, r)
    && (r in t.handed ==> AllAccepted(t.handed[r], t.w.accepts(r)))
  }

  ghost predicate GivenOwed(b: Book, g: Tuning, s: Moment, t: Turn, r: Reg)
    requires r in s.jobs.next && s.jobs.next[r].Some?
  {
    r in t.handed && Owed(t.handed[r], b.slots(r), s.jobs.next[r].value - 1, t.w.now, g.ttl, b.defs(r).catchUp)
  }

  lemma HeldUpIsGiven(b: Book, g: Tuning, s: Moment, t: Turn, s': Moment, r: Reg)
    requires PassTo(b, g, s, t, s') && Behind(g, s, t, r) && !Waiting(s.jobs, r, t.w.readAt)
    requires Stale(g, s, t.w.now) || r in s.jobs.retryAt
    ensures GivenOwed(b, g, s, t, r)
  {
    PassHands(b, g, s, t, s', r);
    HandedIsGiven(b, g, s, t, r);
  }

  lemma HandedIsGiven(b: Book, g: Tuning, s: Moment, t: Turn, r: Reg)
    requires Behind(g, s, t, r) && r in t.handed
    requires t.handed[r] == Handed(Due(b.slots(r), s.jobs.next[r], true, t.w.now, g.ttl, b.defs(r).catchUp), t.w.accepts(r))
    ensures GivenOwed(b, g, s, t, r)
  {
    var n := s.jobs.next[r].value;
    assert s.jobs.next[r] == Some(n);
    HeldUpIsOwed(b, g, t.w, n, true, t.handed[r], r);
  }

  // A pass that comes more than a lease TTL after the sleep of the one before
  // it ended gives a job whose next slot is more than a TTL ago what a job that
  // starts is owed, not every slot.
  lemma LatePassSkips(b: Book, g: Tuning, s: Moment, t: Turn, s': Moment, t': Turn, s'': Moment, r: Reg)
    requires PassTo(b, g, s, t, s') && PassTo(b, g, s', t', s'') && Behind(g, s', t', r) && r !in s'.jobs.retryAt
    requires t.sleep < FOREVER && t'.w.now > t.w.now + (t.w.endAt - t.w.readAt) + Max(t.sleep, 0) + g.ttl
    ensures GivenOwed(b, g, s', t', r)
  {
    LateIsStale(b, g, s, t, s', t'.w.now);
    HeldUpIsGiven(b, g, s', t', s'', r);
  }

  lemma LateIsStale(b: Book, g: Tuning, s: Moment, t: Turn, s': Moment, now: int)
    requires PassTo(b, g, s, t, s') && t.sleep < FOREVER && now > t.w.now + (t.w.endAt - t.w.readAt) + Max(t.sleep, 0) + g.ttl
    ensures Stale(g, s', now)
  {
  }

  // So does one that follows a pass that could not read the clock.
  lemma UnreadClockSkips(b: Book, g: Tuning, s: Moment, regs: seq<Reg>, removed: set<Reg>, s': Moment, t': Turn, s'': Moment, r: Reg)
    requires PassFails(s, regs, removed, s') && PassTo(b, g, s', t', s'') && Behind(g, s', t', r) && r !in s'.jobs.retryAt
    ensures GivenOwed(b, g, s', t', r)
  {
    HeldUpIsGiven(b, g, s', t', s'', r);
  }

  // And one that takes a job up again that failed.
  lemma FailedJobSkips(b: Book, g: Tuning, s: Moment, t: Turn, s': Moment, r: Reg)
    requires PassTo(b, g, s, t, s') && Behind(g, s, t, r) && r in s.jobs.retryAt && t.w.readAt >= s.jobs.retryAt[r]
    ensures GivenOwed(b, g, s, t, r)
  {
    HeldUpIsGiven(b, g, s, t, s', r);
  }

  lemma HeldUpIsOwed(b: Book, g: Tuning, w: World, n: int, behind: bool, handed: seq<int>, r: Reg)
    requires behind && n < w.now - g.ttl && AllAccepted(handed, w.accepts(r))
    requires handed == Handed(Due(b.slots(r), Some(n), behind, w.now, g.ttl, b.defs(r).catchUp), w.accepts(r))
    ensures Owed(handed, b.slots(r), n - 1, w.now, g.ttl, b.defs(r).catchUp)
  {
    var due := Due(b.slots(r), Some(n), behind, w.now, g.ttl, b.defs(r).catchUp);
    HandedAcceptedIsAll(due, w.accepts(r));
    HandedAll(due, w.accepts(r));
    DueIs(b.slots(r), n, behind, w.now, g.ttl, b.defs(r).catchUp);
  }

  // ---------------------------------------------------------------- when a job is tried again

  // A started job of which a slot was refused is taken up again by exactly the
  // passes that read the clock, locally, a leader interval after it failed or
  // later, at the slot refused.
  lemma RefusedJobIsTriedAgain(b: Book, g: Tuning, s: Moment, t: Turn, s': Moment, t': Turn, s'': Moment, r: Reg)
    requires PassTo(b, g, s, t, s') && PassTo(b, g, s', t', s'') && Schedules(t, r) && Schedules(t', r)
    requires r in s.jobs.next && r in t.handed && r !in t.w.ownerRemoved && !AllAccepted(t.handed[r], t.w.accepts(r))
    ensures r in t'.handed <==> t'.w.readAt >= t.w.failedAt(r) + g.interval
    ensures t.handed[r] != [] && r in s'.jobs.next && s'.jobs.next[r] == Some(t.handed[r][|t.handed[r]| - 1])
  {
    var a := Forgotten(s.jobs, t.regs, t.removed);
    assert r in a.next;
    assert Passed(b, g, t.w, Stale(g, s, t.w.now), a, s'.jobs, r, t.handed[r]);
    var p := Pass(t.w.now, Stale(g, s, t.w.now) || r in a.retryAt, t.w.accepts(r));
    AllAcceptedIff(Due(b.slots(r), a.next[r], p.behind, p.now, g.ttl, b.defs(r).catchUp), p.accepts);
    assert r in Forgotten(s'.jobs, t'.regs, t'.removed).next;
  }

  // A job that was not started is tried again after the same wait, and a
  // job whose owner was removed in the pass at the next one.
  lemma UnstartedJobIsTriedAgain(b: Book, g: Tuning, s: Moment, t: Turn, s': Moment, t': Turn, s'': Moment, r: Reg)
    requires PassTo(b, g, s, t, s') && PassTo(b, g, s', t', s'') && Schedules(t, r) && Schedules(t', r)
    requires r !in s.jobs.next && r !in s.jobs.retryAt && r !in s'.jobs.next && t'.w.lastSlots.Some?
    ensures r in t.w.ownerRemoved || t'.w.readAt >= t.w.failedAt(r) + g.interval ==>
              r in t'.started && t'.started[r] == Handed(StartDue(b.defs(r), b.slots(r),
                                                                  if r in t'.w.lastSlots.value then Some(t'.w.lastSlots.value[r]) else None,
                                                                  t'.w.now, g.ttl), t'.w.accepts(r))
    ensures r !in t.w.ownerRemoved && t'.w.readAt < t.w.failedAt(r) + g.interval ==> r !in s''.jobs.next
  {
    var a, a' := Forgotten(s.jobs, t.regs, t.removed), Forgotten(s'.jobs, t'.regs, t'.removed);
    assert r !in a.next && r !in a.retryAt && !Waiting(a, r, t.w.readAt);
    assert r !in a'.next;
    if !Waiting(a', r, t'.w.readAt) { assert Started(b, g, t'.w, t'.w.lastSlots.value, a', s''.jobs, r, t'.started[r]); }
  }
}
