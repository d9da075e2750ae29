/**
 What the drain's deadline does: a result that needs a write and is handed in
 past it is never flushed. And what the drain's end leaves submits to do: each
 still ends, by steps of its own, though nobody reads the buffer any more.
 */
module FinalizerLate {
  import opened Basics
  import opened FinalizerDrain
  import opened FinalizerStops
  import opened FinalizerBudget

  // ---------------------------------------------------------------- past the deadline

  /** A result handed in past the deadline waits, or was dropped; only the drain's collecting batches it. */
  ghost predicate LateOk(s: State) {
    && (forall i :: 0 <= i < |s.subs| && s.subs[i].late ==> s.draining && s.past)
    && (forall i :: 0 <= i < |s.subs| && TooLate(s, i) ==> !WasFlushed(s.subs, i))
    && (forall k :: k in Todo(s) ==> !TooLate(s, k))
    && (!s.pc.Collecting? ==> forall k :: k in s.batch ==> !TooLate(s, k))
  }

  /** From s to t one submit changes, its lateness only before it is queued, and no result is flushed. */
  predicate OneMoves(s: State, t: State, id: nat) {
    && id < |s.subs| == |t.subs| && t.subs == s.subs[id := t.subs[id]]
    && t.pc == s.pc && t.batch == s.batch && t.draining == s.draining && t.past == s.past
    && t.subs[id].committed == s.subs[id].committed && (WasFlushed(t.subs, id) ==> WasFlushed(s.subs, id))
    && (t.subs[id].late == s.subs[id].late || (s.subs[id].place.Out? && t.subs[id].late == (s.draining && s.past)))
  }

  lemma SubmitMoves(c: Config, s: State, e: Step)
    requires SubmitsOk(s) && SubmitEnabled(c, s, e) && !e.Begin?
    ensures OneMoves(s, AfterSubmit(c, s, e), e.id)
  {
    assert SubmitOk(s, e.id);
  }

  lemma QueueIsQueued(s: State, id: nat)
    requires QueueOk(s) && id in Queue(s)
    ensures IsQueued(s.subs, id)
  {
    var k :| 0 <= k < |Queue(s)| && Queue(s)[k] == id;
    assert IsQueued(s.subs, Queue(s)[k]);
  }

  // A result still out is in none of the run loop's queues.
  lemma OutIsNotQueued(s: State, id: nat)
    requires QueueOk(s) && id < |s.subs| && s.subs[id].place.Out?
    ensures id !in Todo(s) && id !in s.batch
  {
    if id in Todo(s) || id in s.batch {
      QueueIsQueued(s, id);
    }
  }

  lemma MoveKeepsLate(s: State, t: State, id: nat)
    requires LateOk(s) && QueueOk(s) && OneMoves(s, t, id) && Todo(t) == Todo(s)
    ensures LateOk(t)
  {
    if t.subs[id].late != s.subs[id].late { OutIsNotQueued(s, id); }
    forall k | k in Todo(t) ensures !TooLate(t, k) { assert !TooLate(s, k); }
    if !t.pc.Collecting? { forall k | k in t.batch ensures !TooLate(t, k) { assert !TooLate(s, k); } }
    forall i | 0 <= i < |t.subs| && TooLate(t, i) ensures !WasFlushed(t.subs, i) {
      if i == id && t.subs[id].late != s.subs[id].late { assert !WasFlushed(s.subs, i); } else { assert TooLate(s, i); }
    }
  }

  lemma BeginKeepsLate(c: Config, s: State, e: Step)
    requires LateOk(s) && QueueOk(s) && e.Begin?
    ensures LateOk(AfterSubmit(c, s, e))
  {
    var t := AfterSubmit(c, s, e);
    forall i | 0 <= i < |t.subs| && TooLate(t, i) ensures !WasFlushed(t.subs, i) { assert TooLate(s, i); }
    forall k | k in Queue(s) ensures k < |s.subs| { QueueIsQueued(s, k); }
    forall k | k in Todo(t) ensures !TooLate(t, k) { assert k in Queue(s) && !TooLate(s, k); }
    if !t.pc.Collecting? { forall k | k in t.batch ensures !TooLate(t, k) { assert k in Queue(s) && !TooLate(s, k); } }
  }

  // The first result to flush is not late, and its retry starts afresh.
  lemma FlushOneKeepsLate(s: State, again: bool)
    requires LateOk(s) && QueueOk(s) && RunEnabled(s, FlushOne(again))
    ensures LateOk(AfterRun(s, FlushOne(again)))
  {
    var t, id := AfterRun(s, FlushOne(again)), s.pc.todo[0];
    assert id in Todo(s) && !TooLate(s, id);
    forall k | k in Queue(s) ensures k < |s.subs| { QueueIsQueued(s, k); }
    forall i | 0 <= i < |t.subs| && TooLate(t, i) ensures !WasFlushed(t.subs, i) { assert TooLate(s, i); }
    forall k | k in Todo(t) ensures !TooLate(t, k) { assert k in Todo(s) && k in Queue(s) && !TooLate(s, k); }
    forall k | k in t.batch ensures !TooLate(t, k) { assert k in Queue(s) && !TooLate(s, k); }
  }

  lemma EndFlushKeepsLate(s: State)
    requires LateOk(s) && RunEnabled(s, EndFlush)
    ensures LateOk(AfterRun(s, EndFlush))
  {
    var t := AfterRun(s, EndFlush);
    forall i | 0 <= i < |t.subs| ensures t.subs[i] == s.subs[i] || t.subs[i] == s.subs[i].(holds := false) {
      if i in s.pc.did { Changed(s.subs, s.pc.did, ReleaseIt, i); }
    }
    forall k: nat ensures TooLate(t, k) <==> TooLate(s, k) {}
  }

  // A round that has collected everything drops the late results, or there is none.
  lemma CollectedKeepsLate(s: State)
    requires LateOk(s) && RunEnabled(s, Collected)
    ensures LateOk(AfterRun(s, Collected))
  {
    var t := AfterRun(s, Collected);
    if s.past {
      LateAndKept(s, s.batch);
      forall i | 0 <= i < |t.subs| ensures t.subs[i] == s.subs[i] || t.subs[i] == DropIt(s.subs[i]) { DropLateAt(s, i); }
      forall k: nat ensures TooLate(t, k) <==> TooLate(s, k) {}
    } else {
      forall k: nat ensures !TooLate(t, k) {}
    }
  }

  lemma StartFlushKeepsLate(s: State, size: nat)
    requires LateOk(s) && DrainOk(s) && RunEnabled(s, StartFlush(size))
    ensures LateOk(AfterRun(s, StartFlush(size)))
  {
    var t := AfterRun(s, StartFlush(size));
    assert forall k :: k in s.batch[..size] || k in s.batch[size..] ==> k in s.batch;
    forall k | k in s.batch ensures !TooLate(s, k) {}
  }

  lemma TakeKeepsLate(s: State)
    requires LateOk(s) && DrainOk(s) && RunEnabled(s, Take)
    ensures LateOk(AfterRun(s, Take))
  {
    if s.pc.Running? { forall k: nat ensures !TooLate(s, k) {} }
  }

  lemma OthersKeepLate(s: State, e: Step)
    requires LateOk(s) && DrainOk(s) && RunEnabled(s, e)
    requires !e.FlushOne? && !e.EndFlush? && !e.Collected? && !e.StartFlush? && !e.Take?
    ensures LateOk(AfterRun(s, e))
  {
    var t := AfterRun(s, e);
    assert t.subs == s.subs && t.batch == s.batch && Todo(t) == Todo(s) && (s.draining ==> t.draining) && (s.past ==> t.past);
    assert s.pc.Collecting? ==> t.pc.Collecting?;
    forall k: nat ensures TooLate(t, k) <==> TooLate(s, k) {}
  }

  lemma StepKeepsLate(c: Config, s: State, e: Step)
    requires Inv(s) && LateOk(s) && Enabled(c, s, e)
    ensures LateOk(After(c, s, e))
  {
    if SubmitEnabled(c, s, e) {
      if e.Begin? {
        BeginKeepsLate(c, s, e);
      } else {
        SubmitMoves(c, s, e);
        MoveKeepsLate(s, AfterSubmit(c, s, e), e.id);
      }
    } else if e.FlushOne? {
      FlushOneKeepsLate(s, e.again);
    } else if e.EndFlush? {
      EndFlushKeepsLate(s);
    } else if e.Collected? {
      CollectedKeepsLate(s);
    } else if e.StartFlush? {
      StartFlushKeepsLate(s, e.size);
    } else if e.Take? {
      TakeKeepsLate(s);
    } else {
      OthersKeepLate(s, e);
    }
  }

  /** The submit stays late and without a commit. */
  predicate StaysLate(s: State, i: nat) {
    i < |s.subs| && s.subs[i].late && !s.subs[i].committed && !s.subs[i].phase.Refused? && !s.subs[i].phase.Acquiring? && !s.subs[i].phase.Stamping?
  }

  lemma SubmitStaysLate(c: Config, s: State, e: Step, i: nat)
    requires SubmitEnabled(c, s, e) && StaysLate(s, i)
    ensures StaysLate(AfterSubmit(c, s, e), i)
  {
  }

  lemma FlushStaysLate(s: State, e: Step, i: nat)
    requires RunEnabled(s, e) && (e.FlushOne? || e.EndFlush?) && StaysLate(s, i)
    ensures StaysLate(AfterRun(s, e), i)
  {
    if e.EndFlush? && i in s.pc.did { Changed(s.subs, s.pc.did, ReleaseIt, i); }
  }

  lemma RunLoopStaysLate(s: State, e: Step, i: nat)
    requires RunEnabled(s, e) && !e.FlushOne? && !e.EndFlush? && StaysLate(s, i)
    ensures StaysLate(AfterRun(s, e), i)
  {
    if e.Collected? && s.past { DropLateAt(s, i); }
  }

  lemma StepStaysLate(c: Config, s: State, e: Step, i: nat)
    requires Enabled(c, s, e) && StaysLate(s, i)
    ensures StaysLate(After(c, s, e), i)
  {
    if SubmitEnabled(c, s, e) {
      SubmitStaysLate(c, s, e, i);
    } else if e.FlushOne? || e.EndFlush? {
      FlushStaysLate(s, e, i);
    } else {
      RunLoopStaysLate(s, e, i);
    }
  }

  lemma {:induction false} RunStaysLate(c: Config, s: State, steps: seq<Step>, t: State, i: nat)
    requires Inv(s) && LateOk(s) && StaysLate(s, i) && Run(c, s, steps, t)
    ensures LateOk(t) && StaysLate(t, i)
    decreases |steps|
  {
    if steps == [] {
    } else {
      StepKeepsInv(c, s, steps[0]);
      StepKeepsLate(c, s, steps[0]);
      StepStaysLate(c, s, steps[0], i);
      RunStaysLate(c, After(c, s, steps[0]), steps[1..], t, i);
    }
  }

  lemma {:induction false} RunKeepsLate(c: Config, s: State, steps: seq<Step>, t: State)
    requires Inv(s) && LateOk(s) && Run(c, s, steps, t)
    ensures LateOk(t)
    decreases |steps|
  {
    if steps == [] {
    } else {
      StepKeepsInv(c, s, steps[0]);
      StepKeepsLate(c, s, steps[0]);
      RunKeepsLate(c, After(c, s, steps[0]), steps[1..], t);
    }
  }

  // In every run, a result that a submit stamps once the drain's deadline has
  // passed, and that was not seen to commit, is never flushed nor tried again.
  lemma LateIsNeverFlushed(c: Config, s: State, steps: seq<Step>, t: State, i: nat, more: seq<Step>, u: State)
    requires Init(s) && Run(c, s, steps, t) && Enabled(c, t, Stamp(i)) && t.draining && t.past && !t.subs[i].committed
    requires Run(c, After(c, t, Stamp(i)), more, u)
    ensures i < |u.subs| && !u.subs[i].place.Flushed? && !u.subs[i].place.Again?
  {
    InitHolds(s);
    RunKeepsInv(c, s, steps, t);
    RunKeepsLate(c, s, steps, t);
    StepKeepsInv(c, t, Stamp(i));
    StepKeepsLate(c, t, Stamp(i));
    RunStaysLate(c, After(c, t, Stamp(i)), more, u, i);
    assert TooLate(u, i) && !WasFlushed(u.subs, i);
  }

  // ---------------------------------------------------------------- the budget's wait

  // Until the finalizer is done, a submit waits for the log budget exactly while
  // its log does not fit beside those of the results on their way, and the
  // drain has not begun; one with no log, and any beside none, never waits.
  lemma AcquiresIff(c: Config, s: State, steps: seq<Step>, t: State, i: nat)
    requires Init(s) && Run(c, s, steps, t) && !t.pc.Returned? && At(t, i, Acquiring)
    ensures Enabled(c, t, Acquire(i)) <==>
              var held, own := Held(t.subs), t.subs[i].bytes;
              own == 0 || held == 0 || held + own <= c.maxBytes || t.draining
  {
    BudgetIsExact(c, s, steps, t);
  }

  // ---------------------------------------------------------------- after the end

  /** The step submit i takes next once the finalizer has returned: a result the buffer has no room for is dropped. */
  function NextAtEnd(c: Config, s: State, i: nat): Step
    requires i < |s.subs|
  {
    if s.subs[i].phase.Sending? && |s.buffer| >= c.capacity then SendDropped(i) else NextOf(s, i)
  }

  lemma EndIsEnabled(c: Config, s: State, i: nat)
    requires s.pc.Returned? && s.draining && i < |s.subs| && !s.subs[i].phase.Finished?
    ensures SubmitEnabled(c, s, NextAtEnd(c, s, i))
  {
  }

  lemma SubmitKeepsEnd(c: Config, s: State, e: Step)
    requires SubmitEnabled(c, s, e) && !e.Begin?
    ensures var t := AfterSubmit(c, s, e); t.pc == s.pc && t.draining == s.draining && |t.subs| == |s.subs|
  {
  }

  lemma EndMoves(c: Config, s: State, e: Step)
    requires SubmitEnabled(c, s, e) && !e.Begin? && !e.GiveUp?
    ensures var t := AfterSubmit(c, s, e);
            e.id < |t.subs| && StepsLeft(t.subs[e.id].phase) == StepsLeft(s.subs[e.id].phase) - 1
  {
  }

  // Once the drain has returned, every submit still under way ends in at most
  // five steps of its own, whether or not its result finds room in the buffer.
  lemma {:induction false} SubmitsEnd(c: Config, s: State, i: nat) returns (steps: seq<Step>, t: State)
    requires s.pc.Returned? && s.draining && i < |s.subs|
    ensures Run(c, s, steps, t) && |steps| == StepsLeft(s.subs[i].phase) <= 5 && i < |t.subs| && t.subs[i].phase.Finished?
    decreases StepsLeft(s.subs[i].phase)
  {
    if s.subs[i].phase.Finished? {
      steps, t := [], s;
    } else {
      var e := NextAtEnd(c, s, i);
      EndIsEnabled(c, s, i);
      SubmitKeepsEnd(c, s, e);
      EndMoves(c, s, e);
      var next := After(c, s, e);
      steps, t := SubmitsEnd(c, next, i);
      RunPrepends(c, s, e, steps, t);
      steps := [e] + steps;
    }
  }
}
