/**
 The log budget, over every run of the finalizer's submits and run loop: its
 count is the bytes of the results that acquired them and whose flush, or drop,
 has not released them.
 */
module FinalizerBudget {
  import opened Basics
  import opened FinalizerDrain

  /** What a submit holds of the budget. */
  function Share(x: Submit): nat {
    if x.holds then x.bytes else 0
  }

  function Held(subs: seq<Submit>): nat {
    if subs == [] then 0 else Held(subs[..|subs| - 1]) + Share(subs[|subs| - 1])
  }

  /** The result of submit i is between its acquire and the end of its flush; did is what the flush under way has taken. */
  predicate Carried(x: Submit, i: nat, did: seq<nat>) {
    x.phase.Stamping? || x.phase.Sending? || x.place.Queued? || i in did
  }

  predicate ShareOk(x: Submit, i: nat, did: seq<nat>) {
    x.holds <==> x.bytes > 0 && Carried(x, i, did)
  }

  predicate SharesOk(subs: seq<Submit>, did: seq<nat>) {
    forall i :: 0 <= i < |subs| ==> ShareOk(subs[i], i, did)
  }

  predicate OneHolder(subs: seq<Submit>) {
    exists i :: 0 <= i < |subs| && OnlyHolder(subs, i)
  }

  predicate OnlyHolder(subs: seq<Submit>, i: nat) {
    forall j :: 0 <= j < |subs| && subs[j].holds ==> j == i
  }

  ghost predicate BudgetOk(c: Config, s: State) {
    !s.pc.Returned? ==>
      && SharesOk(s.subs, Did(s)) && s.used == Held(s.subs)
      && (!s.draining ==> s.used <= c.maxBytes || OneHolder(s.subs))
  }

  // ---------------------------------------------------------------- sums

  lemma {:induction false} HeldUpdate(subs: seq<Submit>, i: nat, x: Submit)
    requires i < |subs|
    ensures Held(subs[i := x]) == Held(subs) - Share(subs[i]) + Share(x)
    decreases |subs|
  {
    var k := |subs| - 1;
    if i < k {
      HeldUpdate(subs[..k], i, x);
      assert subs[i := x][..k] == subs[..k][i := x];
    } else {
      assert subs[i := x][..k] == subs[..k];
    }
  }

  lemma HeldAppend(subs: seq<Submit>, x: Submit)
    ensures Held(subs + [x]) == Held(subs) + Share(x)
  {
    assert (subs + [x])[..|subs|] == subs;
  }

  lemma {:induction false} HeldChange(subs: seq<Submit>, ids: seq<nat>, f: Submit -> Submit)
    requires Distinct(ids) && forall k :: 0 <= k < |ids| ==> ids[k] < |subs| && subs[ids[k]].holds == (subs[ids[k]].bytes > 0)
    requires forall x :: !f(x).holds
    ensures Held(Change(subs, ids, f)) == Held(subs) - BytesOf(subs, ids)
    decreases |ids|
  {
    if ids == [] {
    } else {
      var rest := ids[1..];
      assert forall k :: 0 <= k < |rest| ==> rest[k] == ids[k + 1] && rest[k] != ids[0];
      HeldChange(subs, rest, f);
      HeldUpdate(Change(subs, rest, f), ids[0], f(subs[ids[0]]));
    }
  }

  lemma {:induction false} NoneHeld(subs: seq<Submit>, i: nat)
    requires Held(subs) == 0 && i < |subs| && subs[i].holds
    ensures subs[i].bytes == 0
    decreases |subs|
  {
    if i < |subs| - 1 { NoneHeld(subs[..|subs| - 1], i); }
  }

  // ---------------------------------------------------------------- every step keeps it

  // The results the flush under way has taken are flushed, so none of them is still to be handed in or queued.
  lemma DidIsFlushed(s: State, i: nat)
    requires QueueOk(s) && i in Did(s)
    ensures WasFlushed(s.subs, i)
  {
    var k :| 0 <= k < |Did(s)| && Did(s)[k] == i;
    assert WasFlushed(s.subs, Did(s)[k]);
  }

  lemma AcquireKeeps(c: Config, s: State, id: nat)
    requires Inv(s) && BudgetOk(c, s) && SubmitEnabled(c, s, Acquire(id))
    ensures BudgetOk(c, AfterSubmit(c, s, Acquire(id)))
  {
    var t := AfterSubmit(c, s, Acquire(id));
    if !s.pc.Returned? {
      assert SubmitOk(s, id);
      if id in Did(s) { DidIsFlushed(s, id); }
      assert ShareOk(s.subs[id], id, Did(s)) && !s.subs[id].holds;
      HeldUpdate(s.subs, id, t.subs[id]);
      assert Did(t) == Did(s);
      if s.used == 0 && !(t.used <= c.maxBytes) {
        forall j | 0 <= j < |t.subs| && t.subs[j].holds ensures j == id {
          if j != id {
            assert ShareOk(s.subs[j], j, Did(s));
            NoneHeld(s.subs, j);
          }
        }
        assert OnlyHolder(t.subs, id);
      } else if s.subs[id].bytes == 0 && OneHolder(s.subs) {
        OneHolderStays(s.subs, t.subs);
      }
    }
  }

  // A submit's step other than the acquire leaves what it holds.
  lemma ShareStays(c: Config, s: State, e: Step)
    requires SubmitsOk(s) && QueueOk(s) && SubmitEnabled(c, s, e) && !e.Begin? && !e.Acquire? && !s.pc.Returned?
    requires ShareOk(s.subs[e.id], e.id, Did(s))
    ensures var t := AfterSubmit(c, s, e);
            && t.subs == s.subs[e.id := t.subs[e.id]] && Did(t) == Did(s) && t.used == s.used && t.draining == s.draining
            && t.subs[e.id].holds == s.subs[e.id].holds && t.subs[e.id].bytes == s.subs[e.id].bytes
            && ShareOk(t.subs[e.id], e.id, Did(s))
  {
    CarriedStays(c, s, e);
  }

  lemma CarriedStays(c: Config, s: State, e: Step)
    requires SubmitsOk(s) && QueueOk(s) && SubmitEnabled(c, s, e) && !e.Begin? && !e.Acquire? && !s.pc.Returned?
    ensures e.id < |s.subs| && (Carried(AfterSubmit(c, s, e).subs[e.id], e.id, Did(s)) <==> Carried(s.subs[e.id], e.id, Did(s)))
  {
    assert SubmitOk(s, e.id);
    if e.id in Did(s) { DidIsFlushed(s, e.id); }
  }

  lemma SubmitKeeps(c: Config, s: State, e: Step)
    requires SubmitsOk(s) && QueueOk(s) && BudgetOk(c, s) && SubmitEnabled(c, s, e) && !e.Acquire? && !e.Begin? && !s.pc.Returned?
    ensures BudgetOk(c, AfterSubmit(c, s, e))
  {
    ShareStays(c, s, e);
    UpdateKeepsShares(s.subs, Did(s), e.id, AfterSubmit(c, s, e).subs[e.id]);
  }

  lemma UpdateKeepsShares(subs: seq<Submit>, did: seq<nat>, id: nat, x: Submit)
    requires SharesOk(subs, did) && id < |subs| && ShareOk(x, id, did)
    requires x.holds == subs[id].holds && x.bytes == subs[id].bytes
    ensures SharesOk(subs[id := x], did) && Held(subs[id := x]) == Held(subs)
    ensures OneHolder(subs) ==> OneHolder(subs[id := x])
  {
    HeldUpdate(subs, id, x);
    if OneHolder(subs) { OneHolderStays(subs, subs[id := x]); }
  }

  lemma BeginKeeps(c: Config, s: State, e: Step)
    requires QueueOk(s) && BudgetOk(c, s) && e.Begin? && !s.pc.Returned?
    ensures BudgetOk(c, AfterSubmit(c, s, e))
  {
    forall i | i in Did(s) ensures i < |s.subs| { DidIsFlushed(s, i); }
    AppendKeepsShares(s.subs, Did(s), NewSubmit(s, e.bytes, e.committed));
  }

  lemma AppendKeepsShares(subs: seq<Submit>, did: seq<nat>, x: Submit)
    requires SharesOk(subs, did) && !x.holds && x.place.Out? && !x.phase.Stamping? && !x.phase.Sending? && |subs| !in did
    ensures SharesOk(subs + [x], did) && Held(subs + [x]) == Held(subs)
    ensures OneHolder(subs) ==> OneHolder(subs + [x])
  {
    HeldAppend(subs, x);
    if OneHolder(subs) { OneHolderStays(subs, subs + [x]); }
  }

  lemma OneHolderStays(subs: seq<Submit>, subs': seq<Submit>)
    requires OneHolder(subs) && |subs| <= |subs'|
    requires forall j :: 0 <= j < |subs'| && subs'[j].holds ==> j < |subs| && subs[j].holds
    ensures OneHolder(subs')
  {
    var i :| 0 <= i < |subs| && OnlyHolder(subs, i);
    assert OnlyHolder(subs', i);
  }

  // The first result of the queue joins those flushed, keeping its bytes until the flush ends; a retry holds none yet.
  lemma FlushOneKeepsShares(subs: seq<Submit>, did: seq<nat>, id: nat, x: Submit, more: seq<Submit>)
    requires SharesOk(subs, did) && id < |subs| && subs[id].place.Queued? && x.holds == subs[id].holds && x.bytes == subs[id].bytes
    requires forall i :: i in did ==> i < |subs|
    requires |more| <= 1 && forall i :: 0 <= i < |more| ==> ShareOk(more[i], |subs|, did + [id]) && !more[i].holds
    ensures SharesOk(subs[id := x] + more, did + [id]) && Held(subs[id := x] + more) == Held(subs)
  {
    var subs' := subs[id := x] + more;
    forall i | 0 <= i < |subs'| ensures ShareOk(subs'[i], i, did + [id]) {
      if i < |subs| { assert ShareOk(subs[i], i, did); }
    }
    HeldUpdate(subs, id, x);
    if more == [] {
      assert subs' == subs[id := x];
    } else {
      assert more == [more[0]];
      HeldAppend(subs[id := x], more[0]);
    }
  }

  lemma FlushOneKeepsBudget(c: Config, s: State, again: bool)
    requires SubmitsOk(s) && QueueOk(s) && BudgetOk(c, s) && RunEnabled(s, FlushOne(again))
    ensures BudgetOk(c, AfterRun(s, FlushOne(again)))
  {
    var t := AfterRun(s, FlushOne(again));
    var id := s.pc.todo[0];
    FirstIsQueued(s);
    forall i | i in Did(s) ensures i < |s.subs| { DidIsFlushed(s, i); }
    var x := s.subs[id].(place := if again then Again(|s.subs|) else Flushed);
    var more := if again then [Retry(s, s.subs[id].bytes)] else [];
    assert t.subs == s.subs[id := x] + more;
    FlushOneKeepsShares(s.subs, s.pc.did, id, x, more);
    if OneHolder(s.subs) { OneHolderStays(s.subs, t.subs); }
  }

  lemma FirstIsQueued(s: State)
    requires QueueOk(s) && s.pc.Flushing? && s.pc.todo != []
    ensures IsQueued(s.subs, s.pc.todo[0])
  {
    assert Queue(s)[0] == s.pc.todo[0];
  }

  // Releasing the bytes of ids leaves the rest held.
  lemma ReleaseKeepsShares(subs: seq<Submit>, did: seq<nat>, ids: seq<nat>, f: Submit -> Submit)
    requires SharesOk(subs, did) && Distinct(ids) && forall x :: !f(x).holds
    requires forall i :: i in ids ==> i < |subs| && Carried(subs[i], i, did) && !Carried(f(subs[i]), i, [])
    requires did == [] || did == ids
    ensures SharesOk(Change(subs, ids, f), []) && Held(Change(subs, ids, f)) == Held(subs) - BytesOf(subs, ids)
  {
    forall k | 0 <= k < |ids| ensures ids[k] < |subs| && subs[ids[k]].holds == (subs[ids[k]].bytes > 0) {
      assert ids[k] in ids && ShareOk(subs[ids[k]], ids[k], did);
    }
    HeldChange(subs, ids, f);
    forall i | 0 <= i < |subs| ensures ShareOk(Change(subs, ids, f)[i], i, []) {
      assert ShareOk(subs[i], i, did);
      if i in ids { Changed(subs, ids, f, i); }
    }
  }

  lemma ReleasedHolds(subs: seq<Submit>, ids: seq<nat>, f: Submit -> Submit)
    requires OneHolder(subs) && forall x :: !f(x).holds
    ensures OneHolder(Change(subs, ids, f))
  {
    forall j | 0 <= j < |subs| && Change(subs, ids, f)[j].holds ensures subs[j].holds {
      if j in ids { Changed(subs, ids, f, j); }
    }
    OneHolderStays(subs, Change(subs, ids, f));
  }

  lemma DidIsCarried(s: State, i: nat)
    requires SubmitsOk(s) && QueueOk(s) && i in Did(s)
    ensures i < |s.subs| && Carried(s.subs[i], i, Did(s)) && !Carried(ReleaseIt(s.subs[i]), i, [])
  {
    DidIsFlushed(s, i);
    assert SubmitOk(s, i);
  }

  lemma EndFlushKeepsBudget(c: Config, s: State)
    requires SubmitsOk(s) && QueueOk(s) && BudgetOk(c, s) && RunEnabled(s, EndFlush)
    ensures BudgetOk(c, AfterRun(s, EndFlush))
  {
    var did := s.pc.did;
    forall i | i in did ensures i < |s.subs| && Carried(s.subs[i], i, did) && !Carried(ReleaseIt(s.subs[i]), i, []) {
      DidIsCarried(s, i);
    }
    ReleaseKeepsShares(s.subs, did, did, ReleaseIt);
    if OneHolder(s.subs) { ReleasedHolds(s.subs, did, ReleaseIt); }
  }

  lemma BatchedIsCarried(s: State, i: nat)
    requires SubmitsOk(s) && QueueOk(s) && s.pc.Collecting? && s.buffer == [] && i in s.batch
    ensures i < |s.subs| && Carried(s.subs[i], i, []) && !Carried(DropIt(s.subs[i]), i, [])
  {
    assert Queue(s) == s.batch;
    var k :| 0 <= k < |s.batch| && s.batch[k] == i;
    assert IsQueued(s.subs, Queue(s)[k]);
    assert SubmitOk(s, i);
  }

  lemma DropLateKeepsBudget(c: Config, s: State)
    requires SubmitsOk(s) && QueueOk(s) && DrainOk(s) && BudgetOk(c, s) && RunEnabled(s, Collected) && s.past
    ensures BudgetOk(c, AfterRun(s, Collected))
  {
    var lates := LateOnes(s, s.batch);
    assert Queue(s) == s.batch;
    LateAndKept(s, s.batch);
    forall i | i in lates ensures i < |s.subs| && Carried(s.subs[i], i, []) && !Carried(DropIt(s.subs[i]), i, []) {
      BatchedIsCarried(s, i);
    }
    ReleaseKeepsShares(s.subs, [], lates, DropIt);
  }

  lemma RunKeeps(c: Config, s: State, e: Step)
    requires Inv(s) && BudgetOk(c, s) && RunEnabled(s, e)
    ensures BudgetOk(c, AfterRun(s, e))
  {
    if e.FlushOne? {
      FlushOneKeepsBudget(c, s, e.again);
    } else if e.EndFlush? {
      EndFlushKeepsBudget(c, s);
    } else if e.Collected? && s.past {
      DropLateKeepsBudget(c, s);
    } else {
      assert AfterRun(s, e).subs == s.subs && Did(AfterRun(s, e)) == Did(s);
    }
  }

  lemma StepKeepsBudget(c: Config, s: State, e: Step)
    requires Inv(s) && BudgetOk(c, s) && Enabled(c, s, e)
    ensures BudgetOk(c, After(c, s, e))
  {
    if SubmitEnabled(c, s, e) {
      if e.Acquire? {
        AcquireKeeps(c, s, e.id);
      } else if !s.pc.Returned? {
        if e.Begin? { BeginKeeps(c, s, e); } else { SubmitKeeps(c, s, e); }
      }
    } else {
      RunKeeps(c, s, e);
    }
  }

  lemma {:induction false} RunKeepsBudget(c: Config, s: State, steps: seq<Step>, t: State)
    requires Inv(s) && BudgetOk(c, s) && Run(c, s, steps, t)
    ensures BudgetOk(c, t)
    decreases |steps|
  {
    if steps == [] {
    } else {
      StepKeepsInv(c, s, steps[0]);
      StepKeepsBudget(c, s, steps[0]);
      RunKeepsBudget(c, After(c, s, steps[0]), steps[1..], t);
    }
  }

  // Until the finalizer is done, the budget's count is the bytes of the results
  // between their acquire and the end of their flush or drop, those tried again
  // included. Before the drain it is within the bound, but for a single holder.
  lemma BudgetIsExact(c: Config, s: State, steps: seq<Step>, t: State)
    requires Init(s) && Run(c, s, steps, t) && !t.pc.Returned?
    ensures t.used == Held(t.subs)
    ensures forall i :: 0 <= i < |t.subs| ==> Share(t.subs[i]) == if Carried(t.subs[i], i, Did(t)) then t.subs[i].bytes else 0
    ensures !t.draining ==> t.used <= c.maxBytes || OneHolder(t.subs)
  {
    InitHolds(s);
    assert BudgetOk(c, s);
    RunKeepsBudget(c, s, steps, t);
  }
}
