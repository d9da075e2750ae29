/**
 When the test a drain ends with is right about the results: whatever comes
 after, every result of a submit that was not refused is flushed, or dropped
 for being late, exactly when none was still to be handed in.
 */
module FinalizerStops {
  import opened Basics
  import opened FinalizerDrain

  /** Nothing is left in the buffer, and the result of every submit that was not refused is settled. */
  predicate AllSettled(s: State) {
    s.buffer == [] && forall i :: 0 <= i < |s.subs| && !s.subs[i].refused ==> Settled(s, i)
  }

  /** The test takes the finalizer for idle, having found the stop bit set. */
  predicate FoundIdle(s: State) {
    s.pc.Decided? && s.pc.idle && s.pc.bit
  }

  predicate Reaches(c: Config, s: State, steps: seq<Step>, t: State) {
    Run(c, s, steps, t)
  }

  // ---------------------------------------------------------------- what is handed in stays so

  /** The drain ends or has ended, with every result handed in. */
  ghost predicate Closed(s: State) {
    Inv(s) && s.stop && (FoundIdle(s) || s.pc.Returned?) && HandedIn(s) && DroppedLate(s)
  }

  // With every result handed in, only a refused submit, or one past its send, has a step left.
  lemma SubmitIsPastSend(c: Config, s: State, e: Step)
    requires SubmitsOk(s) && HandedIn(s) && SubmitEnabled(c, s, e)
    ensures e.Begin? || e.DropRefused? || e.Count? || e.Signal?
    ensures e.DropRefused? ==> s.subs[e.id].refused
  {
    if !e.Begin? { assert SubmitOk(s, e.id); }
  }

  /** From s to t the submit hands nothing in, and is dropped only if it was refused. */
  predicate HandsNothingIn(x: Submit, y: Submit) {
    && y.refused == x.refused && y.late == x.late && (HandingIn(y.phase) ==> HandingIn(x.phase))
    && (y.place.Dropped? ==> x.place.Dropped? || x.refused)
  }

  lemma SubmitHandsNothingIn(c: Config, s: State, e: Step)
    requires SubmitsOk(s) && HandedIn(s) && SubmitEnabled(c, s, e) && !e.Begin?
    ensures var t := AfterSubmit(c, s, e);
            && e.id < |s.subs| == |t.subs| && t.subs == s.subs[e.id := t.subs[e.id]]
            && t.buffer == s.buffer && t.stop == s.stop && t.pc == s.pc && t.past == s.past
            && HandsNothingIn(s.subs[e.id], t.subs[e.id])
  {
    SubmitIsPastSend(c, s, e);
  }

  lemma SubmitKeepsHandedIn(c: Config, s: State, e: Step)
    requires Closed(s) && SubmitEnabled(c, s, e)
    ensures HandedIn(AfterSubmit(c, s, e)) && DroppedLate(AfterSubmit(c, s, e))
  {
    var t := AfterSubmit(c, s, e);
    if e.Begin? {
      assert t.subs == s.subs + [NewSubmit(s, e.bytes, e.committed)];
      OneMoreRefused(s, t);
    } else {
      SubmitHandsNothingIn(c, s, e);
      OneHandsNothingIn(s, t, e.id);
    }
  }

  lemma OneMoreRefused(s: State, t: State)
    requires HandedIn(s) && DroppedLate(s) && |t.subs| == |s.subs| + 1 && t.subs[..|s.subs|] == s.subs && t.subs[|s.subs|].refused
    requires t.buffer == s.buffer && t.pc == s.pc && t.past == s.past
    ensures HandedIn(t) && DroppedLate(t)
  {
    assert forall i :: 0 <= i < |s.subs| ==> t.subs[i] == t.subs[..|s.subs|][i];
  }

  lemma OneHandsNothingIn(s: State, t: State, id: nat)
    requires HandedIn(s) && DroppedLate(s) && id < |s.subs| == |t.subs| && t.subs == s.subs[id := t.subs[id]]
    requires t.buffer == s.buffer && t.pc == s.pc && t.past == s.past && HandsNothingIn(s.subs[id], t.subs[id])
    ensures HandedIn(t) && DroppedLate(t)
  {
  }

  lemma RunKeepsHandedIn(s: State, e: Step)
    requires Closed(s) && RunEnabled(s, e)
    ensures var t := AfterRun(s, e);
            t.stop && (FoundIdle(t) || t.pc.Returned?) && HandedIn(t) && DroppedLate(t)
  {
    assert e.Conclude? || e.PassDeadline? || e.FireTimer?;
  }

  lemma StepKeepsClosed(c: Config, s: State, e: Step)
    requires Closed(s) && Enabled(c, s, e)
    ensures Closed(After(c, s, e))
  {
    StepKeepsInv(c, s, e);
    if SubmitEnabled(c, s, e) {
      var t := AfterSubmit(c, s, e);
      assert t.stop == s.stop && t.pc == s.pc;
      SubmitKeepsHandedIn(c, s, e);
    } else {
      RunKeepsHandedIn(s, e);
    }
  }

  lemma {:induction false} RunKeepsClosed(c: Config, s: State, steps: seq<Step>, t: State)
    requires Closed(s) && Run(c, s, steps, t)
    ensures Closed(t)
    decreases |steps|
  {
    if steps == [] {
    } else {
      StepKeepsClosed(c, s, steps[0]);
      RunKeepsClosed(c, After(c, s, steps[0]), steps[1..], t);
    }
  }

  lemma ClosedIsSettled(s: State)
    requires Closed(s) && s.pc.Returned?
    ensures AllSettled(s)
  {
    forall i | 0 <= i < |s.subs| && !s.subs[i].refused ensures Settled(s, i) { HandedInIsSettled(s, i); }
  }

  // ---------------------------------------------------------------- exactly when a stop is right

  // A result still to be handed in, or in the buffer, is not settled.
  lemma UnhandedIsUnsettled(s: State)
    requires SubmitsOk(s) && !HandedIn(s)
    ensures !AllSettled(s)
  {
    if s.buffer == [] {
      var i :| 0 <= i < |s.subs| && HandingIn(s.subs[i].phase) && !s.subs[i].refused;
      assert SubmitOk(s, i) && Fate(s.subs, i) == i;
    }
  }

  lemma FoundIdleIsClosed(s: State)
    requires Inv(s) && FoundIdle(s) && HandedIn(s)
    ensures Closed(s)
  {
    OnTimeIsKept(s);
  }

  // A forced test that found the stop bit set and the finalizer idle ends the
  // drain. Every way on from it leaves every result settled if and only if all
  // of them are handed in as it decides, overtaken or not.
  lemma FoundIdleIsRightIff(c: Config, s: State, steps: seq<Step>, t: State)
    requires Init(s) && Run(c, s, steps, t) && FoundIdle(t)
    ensures HandedIn(t) <==> forall more, u :: Reaches(c, t, more, u) && u.pc.Returned? ==> AllSettled(u)
  {
    RunFromInit(c, s, steps, t);
    if HandedIn(t) {
      FoundIdleIsClosed(t);
      forall more, u | Reaches(c, t, more, u) && u.pc.Returned? ensures AllSettled(u) {
        RunKeepsClosed(c, t, more, u);
        ClosedIsSettled(u);
      }
    } else {
      var u := After(c, t, Conclude);
      RunPrepends(c, t, Conclude, [], u);
      assert Reaches(c, t, [Conclude] + [], u);
      assert SubmitsOk(u) by { StepKeepsInv(c, t, Conclude); }
      UnhandedIsUnsettled(u);
    }
  }

  /** The drain has just returned, on what its last test loaded. */
  predicate Ends(c: Config, t: State, u: State) {
    t.pc.Decided? && t.pc.idle && u == AfterRun(t, Conclude) && u.pc.Returned?
  }

  // Whichever way a drain ends, every result is settled then and at any time
  // after if and only if all of them are handed in as it ends. A test that is
  // not overtaken, so any that did not find the stop bit set, finds them so.
  lemma StopSettlesAllIff(c: Config, s: State, steps: seq<Step>, t: State, u: State)
    requires Init(s) && Run(c, s, steps, t) && Ends(c, t, u)
    ensures HandedIn(u) <==> forall more, v :: Reaches(c, u, more, v) ==> AllSettled(v)
    ensures (!t.pc.overtaken ==> HandedIn(u)) && (!t.pc.bit ==> !t.pc.overtaken)
  {
    RunFromInit(c, s, steps, t);
    StepKeepsInv(c, t, Conclude);
    if !u.pc.overtaken { NotOvertakenIsHandedIn(u); }
    if HandedIn(u) {
      EndIsClosed(c, t, u);
      forall more, v | Reaches(c, u, more, v) ensures AllSettled(v) {
        RunKeepsClosed(c, u, more, v);
        assert v.pc.Returned? by { StaysReturned(c, u, more, v); }
        ClosedIsSettled(v);
      }
    } else {
      assert Reaches(c, u, [], u);
      UnhandedIsUnsettled(u);
    }
  }

  lemma EndIsClosed(c: Config, t: State, u: State)
    requires Inv(t) && Inv(u) && Ends(c, t, u) && HandedIn(u)
    ensures Closed(u)
  {
    OnTimeIsKept(t);
    assert u.subs == t.subs && (PastDeadline(t) ==> PastDeadline(u));
  }

  lemma {:induction false} StaysReturned(c: Config, s: State, steps: seq<Step>, t: State)
    requires s.pc.Returned? && Run(c, s, steps, t)
    ensures t.pc.Returned?
    decreases |steps|
  {
    if steps == [] {
    } else {
      StepStaysReturned(c, s, steps[0]);
      StaysReturned(c, After(c, s, steps[0]), steps[1..], t);
    }
  }

  lemma StepStaysReturned(c: Config, s: State, e: Step)
    requires s.pc.Returned? && Enabled(c, s, e)
    ensures After(c, s, e).pc.Returned?
  {
    if SubmitEnabled(c, s, e) {
      assert AfterSubmit(c, s, e).pc == s.pc;
    } else {
      assert e.PassDeadline? || e.FireTimer?;
    }
  }
}
