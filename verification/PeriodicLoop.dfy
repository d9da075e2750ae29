/**
 The leader's periodic loop, pass by pass, over all its jobs: which of them a
 pass takes up, what it does to each, and how long it sleeps. The clocks' times
 and the database's answers are arbitrary.
 */
module PeriodicLoop {
  import opened Basics
  import opened Slots
  import opened PeriodicJob

  type Reg = nat

  /** The longest sleep there is. */
  const FOREVER: int := 9_223_372_036_854_775_807

  /** What a job's schedule is, what its slots are, and over which times it tells them right. */
  datatype Book = Book(defs: Reg -> Definition, slots: Reg -> int -> bool, lo: int, hi: int)

  ghost predicate Reliable(b: Book, r: Reg) {
    Trusted(b.defs(r), b.slots(r), b.lo, b.hi)
  }

  /**
   What a pass meets: the database time and the local time it was read at, the
   local time at the end, the slots the database takes of each job, when by
   local time a job failed, the jobs whose owners were removed meanwhile, and
   the last recorded slots, if they could be read.
   */
  datatype World = World(now: int, readAt: int, endAt: int, accepts: Reg -> int -> bool, failedAt: Reg -> int,
                         ownerRemoved: set<Reg>, lastSlots: Option<map<Reg, int>>)

  /** A job's next slot is one of its slots, as far as they are told right. */
  ghost predicate NextOk(b: Book, r: Reg, n: Option<int>) {
    n.Some? ==> b.lo < n.value && (n.value <= b.hi ==> b.slots(r)(n.value))
  }

  lemma PassKeepsNextOk(b: Book, r: Reg, ttl: int, p: Pass, n: Option<int>, after: Option<int>, handed: seq<int>)
    requires PassOf(b.defs(r), b.slots(r), b.hi, ttl, p, n, after, handed) && NextOk(b, r, n)
    requires ttl >= 0 && p.now <= b.hi && b.lo <= p.now
    ensures NextOk(b, r, after)
  {
    var due := Due(b.slots(r), n, p.behind, p.now, ttl, b.defs(r).catchUp);
    DueFromNext(b.slots(r), n, p.behind, p.now, ttl, b.defs(r).catchUp, b.hi);
    HandedIsPrefix(due, p.accepts);
  }

  /** The state of the jobs: the next slot of each that is started, and when each that failed is tried again. */
  datatype Jobs = Jobs(next: map<Reg, Option<int>>, retryAt: map<Reg, int>)

  /** The loop's tuning: the lease TTL and the leader interval. */
  datatype Tuning = Tuning(ttl: int, interval: int)

  ghost predicate JobsOk(b: Book, j: Jobs) {
    forall r :: r in j.next ==> NextOk(b, r, j.next[r])
  }

  predicate Waiting(j: Jobs, r: Reg, readAt: int) {
    r in j.retryAt && readAt < j.retryAt[r]
  }

  predicate SameRetry(a: Jobs, z: Jobs, r: Reg) {
    (r in z.retryAt <==> r in a.retryAt) && (r in z.retryAt ==> z.retryAt[r] == a.retryAt[r])
  }

  predicate SameJob(a: Jobs, z: Jobs, r: Reg) {
    (r in z.next <==> r in a.next) && (r in z.next ==> z.next[r] == a.next[r]) && SameRetry(a, z, r)
  }

  /** Where a pass leaves a job it took up: one that failed is tried again, unless its owner was removed. */
  predicate Left(g: Tuning, w: World, a: Jobs, z: Jobs, r: Reg, inserted: bool) {
    if inserted then r !in z.retryAt
    else if r in w.ownerRemoved then SameRetry(a, z, r)
    else r in z.retryAt && z.retryAt[r] == w.failedAt(r) + g.interval
  }

  /** The jobs once a pass has taken up a started one, whose next slot is after. */
  function Settled(g: Tuning, w: World, a: Jobs, r: Reg, after: Option<int>, inserted: bool): Jobs {
    Jobs(a.next[r := after],
         if inserted then a.retryAt - {r}
         else if r in w.ownerRemoved then a.retryAt
         else a.retryAt[r := w.failedAt(r) + g.interval])
  }

  lemma SettledIsLeft(g: Tuning, w: World, a: Jobs, r: Reg, after: Option<int>, inserted: bool)
    ensures Left(g, w, a, Settled(g, w, a, r, after, inserted), r, inserted)
    ensures forall x :: x != r ==> SameJob(a, Settled(g, w, a, r, after, inserted), x)
  {
  }

  /** What a pass does to a started job it takes up. */
  ghost predicate Passed(b: Book, g: Tuning, w: World, stale: bool, a: Jobs, z: Jobs, r: Reg, handed: seq<int>) {
    && r in a.next && r in z.next
    && PassOf(b.defs(r), b.slots(r), b.hi, g.ttl, Pass(w.now, stale || r in a.retryAt, w.accepts(r)), a.next[r], z.next[r], handed)
    && Left(g, w, a, z, r, AllAccepted(handed, w.accepts(r)))
  }

  /** What a pass does to a job it starts, or tries to: it back-fills since the last recorded slot. */
  ghost predicate Started(b: Book, g: Tuning, w: World, last: map<Reg, int>, a: Jobs, z: Jobs, r: Reg, handed: seq<int>) {
    var since := if r in last then Some(last[r]) else None;
    var started := AllAccepted(handed, w.accepts(r));
    && handed == Handed(StartDue(b.defs(r), b.slots(r), since, w.now, g.ttl), w.accepts(r))
    && r !in a.next && (r in z.next <==> started)
    && (started ==> FirstAfter(b.slots(r), w.now, b.hi, z.next[r])) && Left(g, w, a, z, r, started)
  }

  /** Sleeping until soonest, or until the job is tried again, does not oversleep it. */
  predicate Covered(j: Jobs, r: Reg, w: World, soonest: Option<int>) {
    r in j.next && j.next[r].Some? ==>
      r in j.retryAt || r in w.ownerRemoved || (soonest.Some? && soonest.value <= j.next[r].value)
  }

  predicate Later(a: Option<int>, z: Option<int>) {
    a.Some? ==> z.Some? && z.value <= a.value
  }

  lemma CoveredStays(j: Jobs, j': Jobs, r: Reg, w: World, a: Option<int>, z: Option<int>)
    requires Covered(j, r, w, a) && SameJob(j, j', r) && Later(a, z)
    ensures Covered(j', r, w, z)
  {
  }

  lemma PassedStays(b: Book, g: Tuning, w: World, stale: bool, a: Jobs, z: Jobs, z': Jobs, r: Reg, handed: seq<int>)
    requires Passed(b, g, w, stale, a, z, r, handed) && SameJob(z, z', r)
    ensures Passed(b, g, w, stale, a, z', r, handed)
  {
  }

  lemma StartedStays(b: Book, g: Tuning, w: World, last: map<Reg, int>, a: Jobs, z: Jobs, z': Jobs, r: Reg, handed: seq<int>)
    requires Started(b, g, w, last, a, z, r, handed) && SameJob(z, z', r)
    ensures Started(b, g, w, last, a, z', r, handed)
  {
  }

  // A pass that found the job as it was at first does the same to it.
  lemma PassedSince(b: Book, g: Tuning, w: World, stale: bool, a: Jobs, m: Jobs, z: Jobs, r: Reg, handed: seq<int>)
    requires Passed(b, g, w, stale, m, z, r, handed) && SameJob(a, m, r)
    ensures Passed(b, g, w, stale, a, z, r, handed)
  {
  }

  lemma StartedSince(b: Book, g: Tuning, w: World, last: map<Reg, int>, a: Jobs, m: Jobs, z: Jobs, r: Reg, handed: seq<int>)
    requires Started(b, g, w, last, m, z, r, handed) && SameJob(a, m, r)
    ensures Started(b, g, w, last, a, z, r, handed)
  {
  }

  /** The jobs but for those removed, or no longer scheduled. */
  function Forgotten(j: Jobs, regs: seq<Reg>, removed: set<Reg>): Jobs {
    Jobs(map r | r in j.next && r in regs && r !in removed :: j.next[r],
         map r | r in j.retryAt && r in regs && r !in removed :: j.retryAt[r])
  }

  /** The jobs of regs not started, in order. */
  function AddedOf(j: Jobs, regs: seq<Reg>): seq<Reg> {
    if regs == [] then []
    else AddedOf(j, regs[..|regs| - 1]) + (if regs[|regs| - 1] in j.next then [] else [regs[|regs| - 1]])
  }

  lemma {:induction false} AddedMembers(j: Jobs, regs: seq<Reg>)
    ensures forall r :: r in AddedOf(j, regs) <==> r in regs && r !in j.next
    decreases |regs|
  {
    if regs == [] {
    } else {
      AddedMembers(j, regs[..|regs| - 1]);
      assert regs == regs[..|regs| - 1] + [regs[|regs| - 1]];
    }
  }

  lemma {:induction false} AddedIsDistinct(j: Jobs, regs: seq<Reg>)
    requires Distinct(regs)
    ensures Distinct(AddedOf(j, regs))
    decreases |regs|
  {
    if regs == [] {
    } else {
      var rest, last := regs[..|regs| - 1], regs[|regs| - 1];
      AddedIsDistinct(j, rest);
      AddedMembers(j, rest);
      assert last !in rest;
      assert last !in AddedOf(j, rest);
    }
  }

  /** A fact about where a job was left, and what it handed over. */
  type Fact = (Jobs, Reg, seq<int>) -> bool

  ghost predicate Stable(f: Fact) {
    forall z, z', r, handed :: f(z, r, handed) && SameJob(z, z', r) ==> f(z', r, handed)
  }

  ghost function PassedFact(b: Book, g: Tuning, w: World, stale: bool, a: Jobs): (f: Fact)
    ensures Stable(f)
  {
    assert forall z, z', r, handed :: Passed(b, g, w, stale, a, z, r, handed) && SameJob(z, z', r) ==>
        Passed(b, g, w, stale, a, z', r, handed) by {
      forall z, z', r, handed | Passed(b, g, w, stale, a, z, r, handed) && SameJob(z, z', r)
        ensures Passed(b, g, w, stale, a, z', r, handed)
      {
        PassedStays(b, g, w, stale, a, z, z', r, handed);
      }
    }
    (z: Jobs, r: Reg, handed: seq<int>) => Passed(b, g, w, stale, a, z, r, handed)
  }

  ghost function StartedFact(b: Book, g: Tuning, w: World, last: map<Reg, int>, a: Jobs): (f: Fact)
    ensures Stable(f)
  {
    assert forall z, z', r, handed :: Started(b, g, w, last, a, z, r, handed) && SameJob(z, z', r) ==>
        Started(b, g, w, last, a, z', r, handed) by {
      forall z, z', r, handed | Started(b, g, w, last, a, z, r, handed) && SameJob(z, z', r)
        ensures Started(b, g, w, last, a, z', r, handed)
      {
        StartedStays(b, g, w, last, a, z, z', r, handed);
      }
    }
    (z: Jobs, r: Reg, handed: seq<int>) => Started(b, g, w, last, a, z, r, handed)
  }

  /** The fact holds of the jobs taken up, which are covered, and every other job is as it was. */
  ghost predicate All(f: Fact, w: World, a: Jobs, z: Jobs, handed: map<Reg, seq<int>>, soonest: Option<int>) {
    && (forall r :: r in handed ==> f(z, r, handed[r]) && Covered(z, r, w, soonest))
    && (forall r :: r !in handed ==> SameJob(a, z, r))
  }

  lemma AllAdds(f: Fact, w: World, a: Jobs, m: Jobs, z: Jobs, handed: map<Reg, seq<int>>,
                soonest: Option<int>, soonest': Option<int>, r: Reg, slots: seq<int>)
    requires Stable(f) && All(f, w, a, m, handed, soonest) && r !in handed && Later(soonest, soonest')
    requires f(z, r, slots) && Covered(z, r, w, soonest') && forall x :: x != r ==> SameJob(m, z, x)
    ensures All(f, w, a, z, handed[r := slots], soonest')
  {
    forall x | x in handed ensures f(z, x, handed[x]) && Covered(z, x, w, soonest') {
      assert f(m, x, handed[x]) && SameJob(m, z, x);
      CoveredStays(m, z, x, w, soonest, soonest');
    }
    assert forall x :: x !in handed[r := slots] ==> SameJob(a, m, x) && SameJob(m, z, x);
  }

  /** The sooner of the two slots, of those after now. */
  function Sooner(soonest: Option<int>, n: Option<int>, now: int): Option<int> {
    if n.Some? && n.value > now && (soonest.None? || n.value < soonest.value) then n else soonest
  }

  /** soonest, if there is one, is the next slot of one of the jobs taken up. */
  ghost predicate SoonestOf(j: Jobs, handed: map<Reg, seq<int>>, soonest: Option<int>) {
    soonest.Some? ==> exists x :: x in handed && x in j.next && j.next[x] == soonest
  }

  lemma SoonestGoesOn(m: Jobs, z: Jobs, handed: map<Reg, seq<int>>, soonest: Option<int>, soonest': Option<int>, r: Reg, slots: seq<int>)
    requires (forall x :: x != r ==> SameJob(m, z, x)) && r !in handed && (soonest' == soonest || (r in z.next && soonest' == z.next[r]))
    ensures SoonestOf(m, handed, soonest) || soonest' != soonest ==> SoonestOf(z, handed[r := slots], soonest')
  {
    if soonest'.Some? {
      if soonest' == soonest && SoonestOf(m, handed, soonest) {
        var x :| x in handed && x in m.next && m.next[x] == soonest;
        assert SameJob(m, z, x) && x in handed[r := slots];
      } else if soonest' != soonest {
        assert r in handed[r := slots] && z.next[r] == soonest';
      }
    }
  }

  /** The sleep ends with a job's next slot, or when one is tried again, unless it is for ever. */
  ghost predicate WakesFor(w: World, z: Jobs, sleep: int) {
    || sleep == FOREVER
    || (exists r :: r in z.next && z.next[r].Some? && z.next[r].value > w.now && sleep == z.next[r].value - w.now - (w.endAt - w.readAt))
    || (exists r :: r in z.retryAt && sleep == z.retryAt[r] - w.endAt)
  }

  lemma SoonestStays(m: Jobs, z: Jobs, handed: map<Reg, seq<int>>, soonest: Option<int>, added: seq<Reg>)
    requires SoonestOf(m, handed, soonest) && (forall r :: r !in added ==> SameJob(m, z, r)) && forall r :: r in handed ==> r !in added
    ensures SoonestOf(z, handed, soonest)
  {
    if soonest.Some? {
      var x :| x in handed && x in m.next && m.next[x] == soonest;
      assert SameJob(m, z, x);
    }
  }

  lemma SleepWakes(w: World, m: Jobs, z: Jobs, handed: map<Reg, seq<int>>, soonest: Option<int>, added: seq<Reg>,
                   started: map<Reg, seq<int>>, soonest': Option<int>, sleep: int)
    requires SoonestOf(m, handed, soonest) && (forall r :: r !in added ==> SameJob(m, z, r)) && (forall r :: r in handed ==> r !in added)
    requires (soonest' == soonest || SoonestOf(z, started, soonest')) && (soonest'.Some? ==> soonest'.value > w.now)
    requires sleep == FOREVER || (soonest'.Some? && sleep == soonest'.value - w.now - (w.endAt - w.readAt))
             || exists r :: r in z.retryAt && sleep == z.retryAt[r] - w.endAt
    ensures WakesFor(w, z, sleep)
  {
    if soonest'.Some? && sleep == soonest'.value - w.now - (w.endAt - w.readAt) {
      if soonest' == soonest { SoonestStays(m, z, handed, soonest, added); }
      var x :| x in z.next && z.next[x] == soonest';
    }
  }

  lemma AllAcceptedIff(due: seq<int>, accepts: int -> bool)
    ensures AllAccepted(due, accepts) <==> AllAccepted(Handed(due, accepts), accepts)
  {
    HandedIsPrefix(due, accepts);
    if AllAccepted(due, accepts) { HandedAll(due, accepts); }
    if AllAccepted(Handed(due, accepts), accepts) { HandedAcceptedIsAll(due, accepts); }
  }

  // A pass whose every slot was taken leaves the next one after now; either way the next one is a slot.
  lemma PassMeans(b: Book, r: Reg, ttl: int, p: Pass, n: Option<int>, after: Option<int>, handed: seq<int>, inserted: bool)
    requires PassOf(b.defs(r), b.slots(r), b.hi, ttl, p, n, after, handed) && NextOk(b, r, n)
    requires ttl >= 0 && b.lo <= p.now <= b.hi
    requires inserted <==> AllAccepted(Due(b.slots(r), n, p.behind, p.now, ttl, b.defs(r).catchUp), p.accepts)
    ensures NextOk(b, r, after) && (inserted <==> AllAccepted(handed, p.accepts))
    ensures inserted && after.Some? ==> after.value > p.now
  {
    PassKeepsNextOk(b, r, ttl, p, n, after, handed);
    AllAcceptedIff(Due(b.slots(r), n, p.behind, p.now, ttl, b.defs(r).catchUp), p.accepts);
  }

  /** What a pass leaves, of the jobs as it found them, a once it has forgotten some, and z at its end. */
  ghost predicate PassEnds(b: Book, g: Tuning, w: World, stale: bool, regs: seq<Reg>, was: Jobs, a: Jobs, z: Jobs,
                           handed: map<Reg, seq<int>>, started: map<Reg, seq<int>>, sleep: int)
  {
    && (forall r :: r in a.next && !Waiting(a, r, w.readAt) ==> r in handed && Passed(b, g, w, stale, a, z, r, handed[r]))
    && (forall r :: r in a.next && Waiting(a, r, w.readAt) ==> r !in handed && SameJob(a, z, r))
    && (forall r :: r in regs && r !in was.next ==>
          if Waiting(a, r, w.readAt) then SameJob(a, z, r)
          else if w.lastSlots.Some? then r in started && Started(b, g, w, w.lastSlots.value, a, z, r, started[r])
          else r !in z.next && Left(g, w, a, z, r, false))
    && (forall r :: r !in a.next && (r !in regs || r in was.next) ==> SameJob(a, z, r))
    && (forall r :: r in z.next && z.next[r].Some? ==> NotOverslept(w, z, r, sleep))
  }

  predicate NotOverslept(w: World, z: Jobs, r: Reg, sleep: int)
    requires r in z.next && z.next[r].Some?
  {
    || sleep <= z.next[r].value - w.now - (w.endAt - w.readAt)
    || (r in z.retryAt && sleep <= z.retryAt[r] - w.endAt)
    || r in w.ownerRemoved
  }

  /** What the loop keeps between passes. */
  datatype Moment = Moment(jobs: Jobs, clockFailed: bool, wakeAt: Option<int>)

  /** A pass that read the clock: what it met, the jobs to schedule and those removed, what it handed over, and its sleep. */
  datatype Turn = Turn(w: World, regs: seq<Reg>, removed: set<Reg>, handed: map<Reg, seq<int>>, started: map<Reg, seq<int>>, sleep: int)

  /** The pass comes too late for what the last one expected, or that one could not read the clock. */
  predicate Stale(g: Tuning, s: Moment, now: int) {
    s.clockFailed || (s.wakeAt.Some? && now - s.wakeAt.value > g.ttl)
  }

  /** When, on the database clock, the pass expects the next one. */
  function Expected(w: World, sleep: int): Option<int> {
    if sleep < FOREVER then Some(w.now + (w.endAt - w.readAt) + Max(sleep, 0)) else None
  }

  /** What a pass that read the clock makes of the loop. */
  ghost predicate PassTo(b: Book, g: Tuning, s: Moment, t: Turn, s': Moment) {
    && PassEnds(b, g, t.w, Stale(g, s, t.w.now), t.regs, s.jobs, Forgotten(s.jobs, t.regs, t.removed), s'.jobs, t.handed, t.started, t.sleep)
    && !s'.clockFailed && s'.wakeAt == Expected(t.w, t.sleep) && WakesFor(t.w, s'.jobs, t.sleep)
  }

  /** What a pass that could not read the clock makes of the loop. */
  predicate PassFails(s: Moment, regs: seq<Reg>, removed: set<Reg>, s': Moment) {
    s' == Moment(Forgotten(s.jobs, regs, removed), true, s.wakeAt)
  }

  lemma PassEnded(b: Book, g: Tuning, w: World, stale: bool, regs: seq<Reg>, added: seq<Reg>, was: Jobs, a: Jobs, m: Jobs, z: Jobs,
                  handed: map<Reg, seq<int>>, started: map<Reg, seq<int>>, soonest: Option<int>, soonest': Option<int>, sleep: int)
    requires forall r :: r in added <==> r in regs && r !in was.next
    requires forall r :: r in a.next ==> r in was.next && r in regs
    requires forall r :: r in handed <==> r in regs && r in a.next && !Waiting(a, r, w.readAt)
    requires m.next.Keys == a.next.Keys && All(PassedFact(b, g, w, stale, a), w, a, m, handed, soonest)
    requires w.lastSlots.Some? ==> (forall r :: r in started <==> r in added && !Waiting(m, r, w.readAt))
                                   && All(StartedFact(b, g, w, w.lastSlots.value, m), w, m, z, started, soonest')
    requires w.lastSlots.None? ==> z.next == m.next && forall r :: r in added && !Waiting(m, r, w.readAt) ==> Left(g, w, m, z, r, false)
    requires forall r :: r !in added || Waiting(m, r, w.readAt) ==> SameJob(m, z, r)
    requires Later(soonest, soonest') && (soonest'.Some? ==> sleep <= soonest'.value - w.now - (w.endAt - w.readAt))
    requires forall r :: r in z.retryAt ==> sleep <= z.retryAt[r] - w.endAt
    ensures PassEnds(b, g, w, stale, regs, was, a, z, handed, started, sleep)
  {
    forall r | r in a.next
      ensures if Waiting(a, r, w.readAt) then r !in handed && SameJob(a, z, r) else r in handed && Passed(b, g, w, stale, a, z, r, handed[r])
    {
      assert r !in added && SameJob(m, z, r);
      if r in handed { PassedStays(b, g, w, stale, a, m, z, r, handed[r]); } else { assert SameJob(a, m, r); }
    }
    forall r | r in regs && r !in was.next
      ensures if Waiting(a, r, w.readAt) then SameJob(a, z, r)
              else if w.lastSlots.Some? then r in started && Started(b, g, w, w.lastSlots.value, a, z, r, started[r])
              else r !in z.next && Left(g, w, a, z, r, false)
    {
      assert r in added && r !in handed && SameJob(a, m, r);
      if !Waiting(a, r, w.readAt) && w.lastSlots.Some? { StartedSince(b, g, w, w.lastSlots.value, a, m, z, r, started[r]); }
    }
    forall r | r !in a.next && (r !in regs || r in was.next) ensures SameJob(a, z, r) {
      assert SameJob(a, m, r) && SameJob(m, z, r);
    }
    forall r | r in z.next && z.next[r].Some? ensures NotOverslept(w, z, r, sleep) {
      CoveredAtEnd(b, g, w, stale, added, a, m, z, handed, started, soonest, soonest', r);
    }
  }

  lemma CoveredAtEnd(b: Book, g: Tuning, w: World, stale: bool, added: seq<Reg>, a: Jobs, m: Jobs, z: Jobs,
                     handed: map<Reg, seq<int>>, started: map<Reg, seq<int>>, soonest: Option<int>, soonest': Option<int>, r: Reg)
    requires m.next.Keys == a.next.Keys && All(PassedFact(b, g, w, stale, a), w, a, m, handed, soonest) && r in z.next
    requires r in a.next ==> r !in added && (r in handed || Waiting(a, r, w.readAt))
    requires w.lastSlots.Some? ==> (forall r :: r in started <==> r in added && !Waiting(m, r, w.readAt))
                                   && All(StartedFact(b, g, w, w.lastSlots.value, m), w, m, z, started, soonest')
    requires w.lastSlots.None? ==> z.next == m.next
    requires r !in added || Waiting(m, r, w.readAt) ==> SameJob(m, z, r)
    requires Later(soonest, soonest')
    ensures Covered(z, r, w, soonest')
  {
    if r in a.next {
      if r in handed { CoveredStays(m, z, r, w, soonest, soonest'); } else { assert SameJob(a, m, r); }
    }
  }

  class Loop {
    const tuning: Tuning
    var next: map<Reg, Option<int>>
    var retryAt: map<Reg, int>
    var clockFailed: bool
    var wakeAt: Option<int>

    constructor (t: Tuning)
      ensures tuning == t && next == map[] && retryAt == map[] && !clockFailed && wakeAt.None?
    {
      tuning, next, retryAt, clockFailed, wakeAt := t, map[], map[], false, None;
    }

    ghost function View(): Jobs
      reads this
    {
      Jobs(next, retryAt)
    }

    ghost function Now(): Moment
      reads this
    {
      Moment(View(), clockFailed, wakeAt)
    }

    /** A job whose owner was removed did not fail; any other is tried again after a leader interval. */
    method Retry(r: Reg, w: World)
      modifies `retryAt
      ensures retryAt == if r in w.ownerRemoved then old(retryAt) else old(retryAt)[r := w.failedAt(r) + tuning.interval]
    {
      if r !in w.ownerRemoved {
        retryAt := retryAt[r := w.failedAt(r) + tuning.interval];
      }
    }

    /** A job already started: it hands over its slots. */
    method RunStarted(b: Book, w: World, stale: bool, r: Reg, soonest: Option<int>) returns (soonest': Option<int>, handed: seq<int>)
      requires JobsOk(b, View()) && Reliable(b, r) && r in next && b.lo <= w.now <= b.hi && tuning.ttl >= 0
      modifies `next, `retryAt
      ensures JobsOk(b, View()) && next.Keys == old(next).Keys
      ensures Passed(b, tuning, w, stale, old(View()), View(), r, handed)
      ensures forall x :: x != r ==> SameJob(old(View()), View(), x)
      ensures Later(soonest, soonest') && Covered(View(), r, w, soonest')
      ensures soonest'.Some? ==> soonest == soonest' || soonest'.value > w.now
      ensures soonest' == soonest || soonest' == next[r]
    {
      var n := next[r];
      var p := Pass(w.now, stale || r in retryAt, w.accepts(r));
      var after, inserted;
      after, inserted, handed := PassJob(b.defs(r), b.slots(r), b.lo, b.hi, tuning.ttl, p, n);
      PassMeans(b, r, tuning.ttl, p, n, after, handed, inserted);
      SettledIsLeft(tuning, w, View(), r, after, inserted);
      next := next[r := after];
      soonest' := soonest;
      if inserted {
        retryAt := retryAt - {r};
        soonest' := Sooner(soonest, after, w.now);
      } else {
        Retry(r, w);
      }
      assert View() == Settled(tuning, w, old(View()), r, after, inserted);
    }

    /** The jobs already started, one after the other. */
    method RunAllStarted(b: Book, w: World, stale: bool, regs: seq<Reg>) returns (soonest: Option<int>, ghost handed: map<Reg, seq<int>>)
      requires JobsOk(b, View()) && Distinct(regs) && b.lo <= w.now <= b.hi && tuning.ttl >= 0
      requires forall i :: 0 <= i < |regs| ==> Reliable(b, regs[i])
      modifies `next, `retryAt
      ensures JobsOk(b, View()) && next.Keys == old(next).Keys && (soonest.Some? ==> soonest.value > w.now)
      ensures forall r :: r in handed <==> r in regs && r in old(next) && !Waiting(old(View()), r, w.readAt)
      ensures All(PassedFact(b, tuning, w, stale, old(View())), w, old(View()), View(), handed, soonest)
      ensures SoonestOf(View(), handed, soonest)
    {
      soonest, handed := None, map[];
      for i := 0 to |regs|
        invariant JobsOk(b, View()) && next.Keys == old(next).Keys && (soonest.Some? ==> soonest.value > w.now)
        invariant forall r :: r in handed <==> r in regs[..i] && r in old(next) && !Waiting(old(View()), r, w.readAt)
        invariant All(PassedFact(b, tuning, w, stale, old(View())), w, old(View()), View(), handed, soonest)
        invariant SoonestOf(View(), handed, soonest)
      {
        var r := regs[i];
        assert r !in regs[..i] && r !in handed && SameJob(old(View()), View(), r);
        if r in next && !(r in retryAt && w.readAt < retryAt[r]) {
          ghost var mid, before := View(), soonest;
          var slots;
          soonest, slots := RunStarted(b, w, stale, r, soonest);
          PassedSince(b, tuning, w, stale, old(View()), mid, View(), r, slots);
          AllAdds(PassedFact(b, tuning, w, stale, old(View())), w, old(View()), mid, View(), handed, before, soonest, r, slots);
          SoonestGoesOn(mid, View(), handed, before, soonest, r, slots);
          handed := handed[r := slots];
        }
      }
      assert regs[..|regs|] == regs;
    }

    /** A job to start: from its last recorded slot, if it has one. */
    method RunAdded(b: Book, w: World, last: map<Reg, int>, r: Reg, soonest: Option<int>) returns (soonest': Option<int>, handed: seq<int>)
      requires JobsOk(b, View()) && Reliable(b, r) && r !in next && b.lo <= w.now <= b.hi && (r in last ==> b.lo <= last[r])
      modifies `next, `retryAt
      ensures JobsOk(b, View()) && Started(b, tuning, w, last, old(View()), View(), r, handed)
      ensures forall x :: x != r ==> SameJob(old(View()), View(), x)
      ensures Later(soonest, soonest') && Covered(View(), r, w, soonest')
      ensures soonest'.Some? ==> soonest == soonest' || soonest'.value > w.now
      ensures soonest' == soonest || (r in next && soonest' == next[r])
    {
      var since := if r in last then Some(last[r]) else None;
      var after, started;
      after, started, handed := StartJob(b.defs(r), b.slots(r), b.lo, b.hi, tuning.ttl, w.now, since, w.accepts(r));
      AllAcceptedIff(StartDue(b.defs(r), b.slots(r), since, w.now, tuning.ttl), w.accepts(r));
      soonest' := soonest;
      if started {
        retryAt := retryAt - {r};
        next := next[r := after];
        soonest' := Sooner(soonest, after, w.now);
      } else {
        Retry(r, w);
      }
    }

    /** The jobs to start, one after the other. */
    method RunAllAdded(b: Book, w: World, last: map<Reg, int>, regs: seq<Reg>, sofar: Option<int>)
      returns (soonest: Option<int>, ghost handed: map<Reg, seq<int>>)
      requires JobsOk(b, View()) && Distinct(regs) && b.lo <= w.now <= b.hi && (sofar.Some? ==> sofar.value > w.now)
      requires forall i :: 0 <= i < |regs| ==> Reliable(b, regs[i]) && regs[i] !in next && (regs[i] in last ==> b.lo <= last[regs[i]])
      modifies `next, `retryAt
      ensures JobsOk(b, View()) && Later(sofar, soonest) && (soonest.Some? ==> soonest.value > w.now)
      ensures forall r :: r in handed <==> r in regs && !Waiting(old(View()), r, w.readAt)
      ensures All(StartedFact(b, tuning, w, last, old(View())), w, old(View()), View(), handed, soonest)
      ensures soonest == sofar || SoonestOf(View(), handed, soonest)
    {
      soonest, handed := sofar, map[];
      for i := 0 to |regs|
        invariant JobsOk(b, View()) && Later(sofar, soonest) && (soonest.Some? ==> soonest.value > w.now)
        invariant forall r :: r in handed <==> r in regs[..i] && !Waiting(old(View()), r, w.readAt)
        invariant All(StartedFact(b, tuning, w, last, old(View())), w, old(View()), View(), handed, soonest)
        invariant soonest == sofar || SoonestOf(View(), handed, soonest)
      {
        var r := regs[i];
        assert r !in regs[..i] && r !in handed && SameJob(old(View()), View(), r);
        if !(r in retryAt && w.readAt < retryAt[r]) {
          ghost var mid, before := View(), soonest;
          var slots;
          soonest, slots := RunAdded(b, w, last, r, soonest);
          StartedSince(b, tuning, w, last, old(View()), mid, View(), r, slots);
          AllAdds(StartedFact(b, tuning, w, last, old(View())), w, old(View()), mid, View(), handed, before, soonest, r, slots);
          SoonestGoesOn(mid, View(), handed, before, soonest, r, slots);
          handed := handed[r := slots];
        }
      }
      assert regs[..|regs|] == regs;
    }

    /** The last slots could not be read: the jobs to start are tried again. */
    method RetryAll(w: World, regs: seq<Reg>)
      requires Distinct(regs)
      modifies `retryAt
      ensures forall r :: r !in regs || Waiting(old(View()), r, w.readAt) ==> SameRetry(old(View()), View(), r)
      ensures forall r :: r in regs && !Waiting(old(View()), r, w.readAt) ==> Left(tuning, w, old(View()), View(), r, false)
    {
      for i := 0 to |regs|
        invariant forall r :: r !in regs[..i] || Waiting(old(View()), r, w.readAt) ==> SameRetry(old(View()), View(), r)
        invariant forall r :: r in regs[..i] && !Waiting(old(View()), r, w.readAt) ==> Left(tuning, w, old(View()), View(), r, false)
      {
        var r := regs[i];
        assert r !in regs[..i] && SameRetry(old(View()), View(), r);
        assert Waiting(View(), r, w.readAt) <==> Waiting(old(View()), r, w.readAt);
        ghost var mid := View();
        if !(r in retryAt && w.readAt < retryAt[r]) {
          Retry(r, w);
        }
        assert regs[..i + 1] == regs[..i] + [r];
        forall x | x !in regs[..i + 1] || Waiting(old(View()), x, w.readAt) ensures SameRetry(old(View()), View(), x) {
          assert SameRetry(old(View()), mid, x) && SameRetry(mid, View(), x);
        }
        forall x | x != r ensures SameRetry(mid, View(), x) {}
        forall x | x in regs[..i + 1] && !Waiting(old(View()), x, w.readAt) ensures Left(tuning, w, old(View()), View(), x, false) {
          if x != r {
            assert x in regs[..i] && SameRetry(mid, View(), x) && Left(tuning, w, old(View()), mid, x, false);
          }
        }
      }
      assert regs[..|regs|] == regs;
    }

    /** Forgets the jobs that were removed, or are no longer scheduled. */
    method Forget(regs: seq<Reg>, removed: set<Reg>)
      modifies `next, `retryAt
      ensures View() == Forgotten(old(View()), regs, removed)
    {
      next := map r | r in next && r in regs && r !in removed :: next[r];
      retryAt := map r | r in retryAt && r in regs && r !in removed :: retryAt[r];
    }

    /** The earliest time, by the local clock, a job is tried again. */
    method SleepUntilRetry(sleep: int, endAt: int) returns (r: int)
      ensures r <= sleep && (forall x :: x in retryAt ==> r <= retryAt[x] - endAt)
      ensures r == sleep || exists x :: x in retryAt && r == retryAt[x] - endAt
    {
      r := sleep;
      var rest := retryAt.Keys;
      while rest != {}
        invariant rest <= retryAt.Keys && r <= sleep && (forall x :: x in retryAt && x !in rest ==> r <= retryAt[x] - endAt)
        invariant r == sleep || exists x :: x in retryAt && r == retryAt[x] - endAt
        decreases |rest|
      {
        ghost var some := Member(rest);
        var x :| x in rest;
        if retryAt[x] - endAt < r { r := retryAt[x] - endAt; }
        rest := rest - {x};
      }
    }

    /** The jobs not started before the pass, in order. */
    method Added(regs: seq<Reg>) returns (added: seq<Reg>)
      ensures added == AddedOf(View(), regs)
    {
      added := [];
      for i := 0 to |regs|
        invariant added == AddedOf(View(), regs[..i])
      {
        assert regs[..i + 1][..i] == regs[..i];
        if regs[i] !in next {
          added := added + [regs[i]];
        }
      }
      assert regs[..|regs|] == regs;
    }

    /** Starts the jobs to start, if their last slots can be read. */
    method StartAdded(b: Book, w: World, regs: seq<Reg>, sofar: Option<int>) returns (soonest: Option<int>, ghost handed: map<Reg, seq<int>>)
      requires JobsOk(b, View()) && Distinct(regs) && b.lo <= w.now <= b.hi && (sofar.Some? ==> sofar.value > w.now)
      requires forall i :: 0 <= i < |regs| ==> Reliable(b, regs[i]) && regs[i] !in next
      requires w.lastSlots.Some? ==> forall r :: r in w.lastSlots.value ==> b.lo <= w.lastSlots.value[r]
      modifies `next, `retryAt
      ensures JobsOk(b, View()) && Later(sofar, soonest) && (soonest.Some? ==> soonest.value > w.now)
      ensures w.lastSlots.Some? ==> (forall r :: r in handed <==> r in regs && !Waiting(old(View()), r, w.readAt))
                                    && All(StartedFact(b, tuning, w, w.lastSlots.value, old(View())), w, old(View()), View(), handed, soonest)
      ensures w.lastSlots.None? ==> handed == map[] && next == old(next) && soonest == sofar
                                    && forall r :: r in regs && !Waiting(old(View()), r, w.readAt) ==> Left(tuning, w, old(View()), View(), r, false)
      ensures forall r :: r !in regs || Waiting(old(View()), r, w.readAt) ==> SameJob(old(View()), View(), r)
      ensures soonest == sofar || SoonestOf(View(), handed, soonest)
    {
      soonest, handed := sofar, map[];
      if w.lastSlots.None? {
        RetryAll(w, regs);
      } else {
        soonest, handed := RunAllAdded(b, w, w.lastSlots.value, regs, sofar);
      }
    }

    /** The sleep that overtakes neither the soonest slot nor a retry. */
    method Sleep(w: World, soonest: Option<int>) returns (sleep: int)
      modifies `wakeAt
      ensures soonest.Some? ==> sleep <= soonest.value - w.now - (w.endAt - w.readAt)
      ensures sleep <= FOREVER && forall r :: r in retryAt ==> sleep <= retryAt[r] - w.endAt
      ensures sleep == FOREVER || (soonest.Some? && sleep == soonest.value - w.now - (w.endAt - w.readAt))
              || exists r :: r in retryAt && sleep == retryAt[r] - w.endAt
      ensures wakeAt == Expected(w, sleep)
    {
      sleep := FOREVER;
      if soonest.Some? {
        sleep := Min(FOREVER, soonest.value - w.now - (w.endAt - w.readAt));
      }
      ghost var unhurried := sleep;
      sleep := SleepUntilRetry(sleep, w.endAt);
      ghost var hurried := sleep != unhurried;
      ghost var x :| hurried ==> x in retryAt && sleep == retryAt[x] - w.endAt;
      wakeAt := if sleep < FOREVER then Some(w.now + (w.endAt - w.readAt) + Max(sleep, 0)) else None;
      assert hurried ==> x in retryAt && sleep == retryAt[x] - w.endAt;
    }

    /** The jobs of a pass that read the clock: those started, then those to start, and the sleep. */
    method RunJobs(b: Book, w: World, stale: bool, regs: seq<Reg>, added: seq<Reg>, ghost was: Jobs)
      returns (sleep: int, ghost handed: map<Reg, seq<int>>, ghost started: map<Reg, seq<int>>)
      requires JobsOk(b, View()) && Distinct(regs) && Distinct(added) && tuning.ttl >= 0 && b.lo <= w.now <= b.hi
      requires forall i :: 0 <= i < |regs| ==> Reliable(b, regs[i])
      requires forall i :: 0 <= i < |added| ==> Reliable(b, added[i]) && added[i] !in next
      requires w.lastSlots.Some? ==> forall r :: r in w.lastSlots.value ==> b.lo <= w.lastSlots.value[r]
      requires forall r :: r in added <==> r in regs && r !in was.next
      requires forall r :: r in next ==> r in was.next && r in regs
      modifies `next, `retryAt, `wakeAt
      ensures JobsOk(b, View()) && wakeAt == Expected(w, sleep) && WakesFor(w, View(), sleep)
      ensures PassEnds(b, tuning, w, stale, regs, was, old(View()), View(), handed, started, sleep)
    {
      var soonest, soonest';
      soonest, handed := RunAllStarted(b, w, stale, regs);
      ghost var m := View();
      soonest', started := StartAdded(b, w, added, soonest);
      sleep := Sleep(w, soonest');
      SleepWakes(w, m, View(), handed, soonest, added, started, soonest', sleep);
      PassEnded(b, tuning, w, stale, regs, added, was, old(View()), m, View(), handed, started, soonest, soonest', sleep);
    }

    /**
     A pass. It forgets the jobs dropped. Each started job it takes up, not
     waiting to be tried again, hands over the slots it owes; each new one is
     started. It never oversleeps: a job's next slot comes no sooner than the
     sleep ends, unless the job waits to be tried again, no sooner than that,
     or its owner was removed, which wakes the loop.
     */
    method RunPass(b: Book, regs: seq<Reg>, removed: set<Reg>, clock: Option<World>)
      returns (sleep: int, ghost handed: map<Reg, seq<int>>, ghost started: map<Reg, seq<int>>)
      requires JobsOk(b, View()) && Distinct(regs) && tuning.ttl >= 0 && forall i :: 0 <= i < |regs| ==> Reliable(b, regs[i])
      requires clock.Some? ==>
                 && b.lo <= clock.value.now <= b.hi
                 && (clock.value.lastSlots.Some? ==> forall r :: r in clock.value.lastSlots.value ==> b.lo <= clock.value.lastSlots.value[r])
      modifies this
      ensures JobsOk(b, View())
      ensures regs == [] ==> sleep == FOREVER && wakeAt.None? && View() == Forgotten(old(View()), regs, removed)
      ensures regs != [] && clock.None? ==> sleep == tuning.interval && PassFails(old(Now()), regs, removed, Now())
      ensures regs != [] && clock.Some? ==>
                PassTo(b, tuning, old(Now()), Turn(clock.value, regs, removed, handed, started, sleep), Now())
    {
      handed, started := map[], map[];
      var added := Added(regs);
      AddedMembers(View(), regs);
      AddedIsDistinct(View(), regs);
      Forget(regs, removed);
      if regs == [] {
        wakeAt := None;
        return FOREVER, handed, started;
      }
      if clock.None? {
        clockFailed := true;
        return tuning.interval, handed, started;
      }
      var w := clock.value;
      var stale := clockFailed || (wakeAt.Some? && w.now - wakeAt.value > tuning.ttl);
      clockFailed := false;
      forall i | 0 <= i < |added| ensures Reliable(b, added[i]) && added[i] !in next {
        assert added[i] in added && added[i] in regs;
        var k :| 0 <= k < |regs| && regs[k] == added[i];
      }
      sleep, handed, started := RunJobs(b, w, stale, regs, added, old(View()));
    }
  }
}
