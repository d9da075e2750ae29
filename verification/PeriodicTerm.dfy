/**
 A leader's term: passes of the periodic loop, one after another, each taking
 the loop up as the last one left it. Over every run of passes that read the
 clock in time and whose slots the database took, a job hands over every slot
 of its schedule since it was started.
 */
module PeriodicTerm {
  import opened Basics
  import opened Slots
  import opened PeriodicJob
  import opened PeriodicLoop

  /** The passes of a term: the loop before each and after the last. */
  ghost predicate Term(b: Book, g: Tuning, turns: seq<Turn>, moments: seq<Moment>) {
    && |moments| == |turns| + 1
    && forall i :: 0 <= i < |turns| ==> PassTo(b, g, moments[i], turns[i], moments[i + 1])
  }

  /** The job is started, and nothing holds it up. */
  predicate Going(s: Moment, r: Reg) {
    r in s.jobs.next && r !in s.jobs.retryAt && !s.clockFailed
  }

  /** The pass schedules the job, comes within a lease TTL of when the last one expected it, and has its slots taken. */
  predicate Smooth(g: Tuning, s: Moment, t: Turn, r: Reg) {
    && r in t.regs && r !in t.removed
    && (s.wakeAt.Some? ==> t.w.now - s.wakeAt.value <= g.ttl)
    && (r in t.handed ==> AllAccepted(t.handed[r], t.w.accepts(r)))
  }

  // A pass that starts a job leaves its next slot the first one after the pass.
  lemma StartsGoing(b: Book, g: Tuning, s: Moment, t: Turn, s': Moment, r: Reg)
    requires PassTo(b, g, s, t, s') && r in t.regs && r !in s.jobs.next && r in s'.jobs.next
    ensures Going(s', r) && FirstAfter(b.slots(r), t.w.now, b.hi, s'.jobs.next[r])
  {
    assert r !in Forgotten(s.jobs, t.regs, t.removed).next;
  }

  /** The job as the pass finds it. */
  function PassFor(t: Turn, r: Reg): Pass {
    Pass(t.w.now, false, t.w.accepts(r))
  }

  function HandedFor(t: Turn, r: Reg): seq<int> {
    if r in t.handed then t.handed[r] else []
  }

  function NextFor(s: Moment, r: Reg): Option<int> {
    if r in s.jobs.next then s.jobs.next[r] else None
  }

  // A smooth pass takes the job up, not held up, and leaves it going.
  lemma GoesOn(b: Book, g: Tuning, s: Moment, t: Turn, s': Moment, r: Reg)
    requires PassTo(b, g, s, t, s') && Going(s, r) && Smooth(g, s, t, r)
    ensures Going(s', r) && r in t.handed
    ensures PassOf(b.defs(r), b.slots(r), b.hi, g.ttl, PassFor(t, r), NextFor(s, r), NextFor(s', r), HandedFor(t, r))
  {
    var a := Forgotten(s.jobs, t.regs, t.removed);
    assert r in a.next && !Waiting(a, r, t.w.readAt) && !Stale(g, s, t.w.now);
    assert Passed(b, g, t.w, false, a, s'.jobs, r, t.handed[r]);
  }

  lemma {:induction false} KeepsGoing(b: Book, g: Tuning, turns: seq<Turn>, moments: seq<Moment>, r: Reg, k: nat)
    requires Term(b, g, turns, moments) && Going(moments[0], r) && k <= |turns|
    requires forall i :: 0 <= i < |turns| ==> Smooth(g, moments[i], turns[i], r)
    ensures Going(moments[k], r)
    decreases k
  {
    if k == 0 {
    } else {
      KeepsGoing(b, g, turns, moments, r, k - 1);
      GoesOn(b, g, moments[k - 1], turns[k - 1], moments[k], r);
    }
  }

  function PassesFor(turns: seq<Turn>, r: Reg): seq<Pass> {
    seq(|turns|, i requires 0 <= i < |turns| => PassFor(turns[i], r))
  }

  function AllHandedFor(turns: seq<Turn>, r: Reg): seq<seq<int>> {
    seq(|turns|, i requires 0 <= i < |turns| => HandedFor(turns[i], r))
  }

  function NextsFor(moments: seq<Moment>, r: Reg): seq<Option<int>> {
    seq(|moments|, i requires 0 <= i < |moments| => NextFor(moments[i], r))
  }

  // To one job, smooth passes of the loop are a failure-free run.
  lemma TermIsRun(b: Book, g: Tuning, turns: seq<Turn>, moments: seq<Moment>, r: Reg)
    requires Term(b, g, turns, moments) && Going(moments[0], r)
    requires forall i :: 0 <= i < |turns| ==> Smooth(g, moments[i], turns[i], r)
    ensures Run(b.defs(r), b.slots(r), b.hi, g.ttl, PassesFor(turns, r), NextsFor(moments, r), AllHandedFor(turns, r))
    ensures FailureFree(PassesFor(turns, r), AllHandedFor(turns, r)) && Going(moments[|turns|], r)
  {
    KeepsGoing(b, g, turns, moments, r, |turns|);
    forall i | 0 <= i < |turns|
      ensures PassOf(b.defs(r), b.slots(r), b.hi, g.ttl, PassesFor(turns, r)[i], NextsFor(moments, r)[i], NextsFor(moments, r)[i + 1],
                     AllHandedFor(turns, r)[i])
      ensures AllAccepted(AllHandedFor(turns, r)[i], PassesFor(turns, r)[i].accepts)
    {
      KeepsGoing(b, g, turns, moments, r, i);
      GoesOn(b, g, moments[i], turns[i], moments[i + 1], r);
    }
  }

  // Once a pass has started a job, the passes after it, however many, hand over
  // exactly its schedule's slots since then, in order, none skipped and none
  // repeated, and leave its next slot the first one after the latest of them,
  // as long as each reads the clock within a lease TTL of when the one before
  // expected it and has its slots taken.
  lemma TermHandsEverySlot(b: Book, g: Tuning, turns: seq<Turn>, moments: seq<Moment>, r: Reg)
    requires Term(b, g, turns, moments) && turns != []
    requires r in turns[0].regs && r !in moments[0].jobs.next && r in moments[1].jobs.next
    requires forall i :: 0 < i < |turns| ==> Smooth(g, moments[i], turns[i], r)
    requires forall i :: 0 <= i < |turns| ==> turns[i].w.now <= b.hi
    ensures var start, later := turns[0].w.now, turns[1..];
            var latest := Latest(start, PassesFor(later, r));
            && Concat(AllHandedFor(later, r)) == SlotsIn(b.slots(r), start, latest)
            && r in moments[|turns|].jobs.next && FirstAfter(b.slots(r), latest, b.hi, moments[|turns|].jobs.next[r])
  {
    var start, later, after := turns[0].w.now, turns[1..], moments[1..];
    StartsGoing(b, g, moments[0], turns[0], moments[1], r);
    forall i | 0 <= i < |later|
      ensures PassTo(b, g, after[i], later[i], after[i + 1]) && Smooth(g, after[i], later[i], r)
    {
      assert later[i] == turns[i + 1] && after[i] == moments[i + 1] && after[i + 1] == moments[i + 2];
      assert PassTo(b, g, moments[i + 1], turns[i + 1], moments[i + 2]);
    }
    TermIsRun(b, g, later, after, r);
    FailureFreePassesHandEverySlot(b.defs(r), b.slots(r), b.hi, g.ttl, start, PassesFor(later, r), NextsFor(after, r), AllHandedFor(later, r));
  }

  // ---------------------------------------------------------------- any passes at all

  /** A pass that read the clock, or could not. */
  datatype Event = Read(turn: Turn) | Unread(regs: seq<Reg>, removed: set<Reg>)

  ghost predicate Moves(b: Book, g: Tuning, s: Moment, e: Event, s': Moment) {
    match e
    case Read(turn) => PassTo(b, g, s, turn, s')
    case Unread(regs, removed) => PassFails(s, regs, removed, s')
  }

  /** The passes of a term, however they go: the loop before each and after the last. */
  ghost predicate AnyTerm(b: Book, g: Tuning, events: seq<Event>, moments: seq<Moment>) {
    && |moments| == |events| + 1
    && forall i :: 0 <= i < |events| ==> Moves(b, g, moments[i], events[i], moments[i + 1])
  }

  /** The pass schedules the job, at a time the schedules are trusted. */
  predicate Schedules(b: Book, e: Event, r: Reg) {
    match e
    case Read(turn) => r in turn.regs && r !in turn.removed && turn.w.now <= b.hi
    case Unread(regs, removed) => r in regs && r !in removed
  }

  /** The slots of the job that the database took in the pass. */
  function TakenFor(e: Event, r: Reg): seq<int> {
    if e.Read? && r in e.turn.handed then Taken(e.turn.handed[r], e.turn.w.accepts(r)) else []
  }

  function AllTakenFor(events: seq<Event>, r: Reg): seq<int> {
    if events == [] then [] else AllTakenFor(events[..|events| - 1], r) + TakenFor(events[|events| - 1], r)
  }

  /** The job is started, its next slot a slot and after every one of before, which increase. */
  ghost predicate Ahead(b: Book, s: Moment, r: Reg, before: seq<int>) {
    r in s.jobs.next && NextIsSlot(b.slots(r), b.hi, s.jobs.next[r]) && Increasing(before) && Before(before, s.jobs.next[r])
  }

  // Whatever a pass meets, it takes only later slots of the job.
  lemma PassKeepsAhead(b: Book, g: Tuning, s: Moment, e: Event, s': Moment, r: Reg, before: seq<int>)
    requires Moves(b, g, s, e, s') && Schedules(b, e, r) && g.ttl >= 0 && Ahead(b, s, r, before)
    ensures Ahead(b, s', r, before + TakenFor(e, r))
  {
    if e.Read? {
      var t := e.turn;
      var a := Forgotten(s.jobs, t.regs, t.removed);
      if Waiting(a, r, t.w.readAt) {
        assert r !in t.handed && before + [] == before;
      } else {
        var stale := Stale(g, s, t.w.now);
        assert Passed(b, g, t.w, stale, a, s'.jobs, r, t.handed[r]);
        PassTakesLater(b.defs(r), b.slots(r), b.hi, g.ttl, Pass(t.w.now, stale || r in a.retryAt, t.w.accepts(r)),
                       a.next[r], s'.jobs.next[r], t.handed[r], before);
      }
    } else {
      assert before + [] == before;
    }
  }

  lemma TakenGrows(events: seq<Event>, k: nat, r: Reg, before: seq<int>)
    requires k < |events|
    ensures (before + AllTakenFor(events[..k], r)) + TakenFor(events[k], r) == before + AllTakenFor(events[..k + 1], r)
  {
    assert events[..k + 1][..k] == events[..k];
  }

  lemma {:induction false} TermKeepsAhead(b: Book, g: Tuning, events: seq<Event>, moments: seq<Moment>, r: Reg, before: seq<int>, k: nat)
    requires AnyTerm(b, g, events, moments) && g.ttl >= 0 && Ahead(b, moments[0], r, before) && k <= |events|
    requires forall i :: 0 <= i < |events| ==> Schedules(b, events[i], r)
    ensures Ahead(b, moments[k], r, before + AllTakenFor(events[..k], r))
    decreases k
  {
    if k == 0 {
      assert before + [] == before;
    } else {
      TermKeepsAhead(b, g, events, moments, r, before, k - 1);
      PassKeepsAhead(b, g, moments[k - 1], events[k - 1], moments[k], r, before + AllTakenFor(events[..k - 1], r));
      TakenGrows(events, k - 1, r, before);
    }
  }

  // Once a pass has started a job, the slots the database takes of it strictly
  // increase from then on, over any number of passes that schedule it, however
  // they go: the clock not read, the loop late, inserts refused and tried again.
  // None is taken twice, or after a later one.
  lemma TermTakesSlotsOnce(b: Book, g: Tuning, events: seq<Event>, moments: seq<Moment>, r: Reg)
    requires AnyTerm(b, g, events, moments) && g.ttl >= 0 && events != [] && events[0].Read?
    requires r in events[0].turn.regs && r !in moments[0].jobs.next && r in moments[1].jobs.next
    requires forall i :: 0 < i < |events| ==> Schedules(b, events[i], r)
    ensures Increasing([events[0].turn.w.now] + AllTakenFor(events[1..], r))
    ensures var last := moments[|events|];
            r in last.jobs.next && Before(AllTakenFor(events[1..], r), last.jobs.next[r])
  {
    var start, later, after := events[0].turn.w.now, events[1..], moments[1..];
    StartsGoing(b, g, moments[0], events[0].turn, moments[1], r);
    forall i | 0 <= i < |later| ensures Moves(b, g, after[i], later[i], after[i + 1]) && Schedules(b, later[i], r) {
      assert later[i] == events[i + 1] && after[i] == moments[i + 1] && after[i + 1] == moments[i + 2];
      assert Moves(b, g, moments[i + 1], events[i + 1], moments[i + 2]);
    }
    TermKeepsAhead(b, g, later, after, r, [start], |later|);
    assert later[..|later|] == later;
    LaterPart([start], AllTakenFor(later, r), moments[|events|].jobs.next[r]);
  }

  lemma LaterPart(a: seq<int>, z: seq<int>, n: Option<int>)
    requires Before(a + z, n)
    ensures Before(z, n)
  {
    assert forall i :: 0 <= i < |z| ==> z[i] == (a + z)[|a| + i];
  }
}
