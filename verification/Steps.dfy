/**
 Resumable steps: a job's worker runs its steps in order, starting after the
 last one its progress records, over attempts that fail or crash at any point.
 A step may record itself finished in a transaction of its own.
 */
module Steps {

  datatype Step = Step(name: string, runnable: bool, storable: bool)

  datatype Progress = NoProgress | Recorded(step: string)

  /** What becomes of a transaction a step recorded itself finished in. */
  datatype OwnRecord = NoRecord | Committed | RolledBack

  datatype Ending = Fails | Crashes | Returns(completesJob: bool)

  /** What becomes of the record after the step: lost is an error or a crash, which the write may have come before. */
  datatype AfterStep = Stored | Lost(written: bool)

  /** How one run of a step goes. */
  datatype Event = Event(own: OwnRecord, ending: Ending, record: AfterStep)

  /** How an attempt ends: with nil, with an error or a crash, or with the job canceled for its steps. */
  datatype Outcome = Succeeded | Failed | Discarded

  // ---------------------------------------------------------------- the steps

  predicate DistinctNames(steps: seq<Step>) {
    forall i, j :: 0 <= i < j < |steps| ==> steps[i].name != steps[j].name
  }

  /** The steps RunSteps takes. */
  predicate WellFormed(steps: seq<Step>) {
    && (forall i :: 0 <= i < |steps| ==> steps[i].name != "" && steps[i].runnable && steps[i].storable)
    && DistinctNames(steps)
  }

  /** Where a step of the name is, or -1. */
  function Index(steps: seq<Step>, name: string): (r: int)
    ensures -1 <= r < |steps|
    ensures r >= 0 ==> steps[r].name == name
    ensures r == -1 <==> forall i :: 0 <= i < |steps| ==> steps[i].name != name
  {
    if steps == [] then -1
    else if steps[|steps| - 1].name == name && Index(steps[..|steps| - 1], name) < 0 then |steps| - 1
    else Index(steps[..|steps| - 1], name)
  }

  lemma IndexOf(steps: seq<Step>, i: nat)
    requires DistinctNames(steps) && i < |steps|
    ensures Index(steps, steps[i].name) == i
  {
    var r := Index(steps, steps[i].name);
    assert r >= 0;
  }

  /** The last step the progress records, or -1 before the first. */
  function Last(steps: seq<Step>, p: Progress): int {
    match p
    case NoProgress => -1
    case Recorded(step) => if step == "" then -1 else Index(steps, step)
  }

  /** The progress names a step there is, if any. */
  predicate Known(steps: seq<Step>, p: Progress) {
    p.Recorded? && p.step != "" ==> Index(steps, p.step) >= 0
  }

  method Check(steps: seq<Step>) returns (ok: bool)
    ensures ok <==> WellFormed(steps)
  {
    for i := 0 to |steps|
      invariant forall j :: 0 <= j < i ==> steps[j].name != "" && steps[j].runnable && steps[j].storable
      invariant forall j, k :: 0 <= j < k < i ==> steps[j].name != steps[k].name
    {
      if steps[i].name == "" || !steps[i].runnable || !steps[i].storable {
        return false;
      }
      for j := 0 to i
        invariant forall k :: 0 <= k < j ==> steps[k].name != steps[i].name
      {
        if steps[j].name == steps[i].name {
          return false;
        }
      }
    }
    return true;
  }

  // ---------------------------------------------------------------- what becomes of the steps

  /** One run of a step: its index, the last step recorded as it began, and the steps done by then. */
  datatype Began = Began(step: nat, recorded: int, done: set<nat>)

  /**
   A job's life: the progress the database holds, every run of a step, the steps
   that have returned nil, and those left behind: they recorded themselves
   finished, then failed or crashed, and had not returned nil before.
   */
  datatype Life = Life(stored: Progress, runs: seq<Began>, returned: set<nat>, left: set<nat>)

  const START := Life(NoProgress, [], {}, {})

  function Done(l: Life): set<nat> { l.returned + l.left }

  /** How a step's run leaves the job, the attempt's own view of its progress, and whether the attempt goes on. */
  datatype After = After(life: Life, local: Progress, completed: bool, goesOn: bool)

  /** A step's run, up to its end. */
  function Ran(steps: seq<Step>, l: Life, i: nat, e: Event): Life
    requires i < |steps|
  {
    var nil := e.ending.Returns?;
    Life(if e.own.Committed? then Recorded(steps[i].name) else l.stored,
         l.runs + [Began(i, Last(steps, l.stored), Done(l))],
         if nil then l.returned + {i} else l.returned,
         if e.own.Committed? && !nil && i !in l.returned then l.left + {i} else if nil then l.left - {i} else l.left)
  }

  /** A step's run and its record, unless the step recorded itself or the job was completed in a transaction. */
  function RunOf(steps: seq<Step>, l: Life, i: nat, local: Progress, completed: bool, e: Event): After
    requires i < |steps|
  {
    var name := Recorded(steps[i].name);
    var ran, seen := Ran(steps, l, i, e), if e.own.NoRecord? then local else name;
    if !e.ending.Returns? then After(ran, seen, completed, false)
    else if completed || e.ending.completesJob then After(ran, seen, true, true)
    else if seen == name then After(ran, seen, false, true)
    else
      var stored := if e.record.Stored? || e.record.written then name else ran.stored;
      After(ran.(stored := stored), if e.record.Stored? then name else seen, false, e.record.Stored?)
  }

  /** The steps from i on. Where the events end, the attempt has crashed. */
  function From(steps: seq<Step>, l: Life, i: nat, local: Progress, completed: bool, events: seq<Event>): (Life, Outcome)
    requires i <= |steps|
    decreases |steps| - i
  {
    if i == |steps| then (l, Succeeded)
    else if events == [] then (l, Failed)
    else
      var a := RunOf(steps, l, i, local, completed, events[0]);
      if a.goesOn then From(steps, a.life, i + 1, a.local, a.completed, events[1..]) else (a.life, Failed)
  }

  /** One attempt. */
  function AttemptOf(steps: seq<Step>, l: Life, events: seq<Event>): (Life, Outcome) {
    if !WellFormed(steps) || !Known(steps, l.stored) then (l, Discarded)
    else From(steps, l, Last(steps, l.stored) + 1, l.stored, false, events)
  }

  /** Attempts one after the other. */
  function AttemptsOf(steps: seq<Step>, l: Life, tries: seq<seq<Event>>): Life
    decreases |tries|
  {
    if tries == [] then l else AttemptsOf(steps, AttemptOf(steps, l, tries[0]).0, tries[1..])
  }

  // ---------------------------------------------------------------- what every attempt keeps

  /** No step at or before the recorded one was run, and none before the ones ahead of it were done. */
  predicate RunsOk(runs: seq<Began>) {
    forall k :: 0 <= k < |runs| ==> runs[k].recorded < runs[k].step && forall j :: 0 <= j < runs[k].step ==> j in runs[k].done
  }

  /** What is recorded is done, and a step left behind is recorded and has not returned nil. */
  predicate LifeOk(steps: seq<Step>, l: Life) {
    && Known(steps, l.stored) && RunsOk(l.runs) && l.returned !! l.left
    && (forall j :: 0 <= j <= Last(steps, l.stored) ==> j in Done(l))
    && (forall j :: j in Done(l) ==> j < |steps|) && (forall j :: j in l.left ==> j <= Last(steps, l.stored))
  }

  /** The job goes on from l to after in a run of step i: nothing recorded or done is undone. */
  predicate Follows(steps: seq<Step>, l: Life, after: Life, i: nat) {
    && LifeOk(steps, after) && Last(steps, l.stored) <= Last(steps, after.stored) <= i
    && Done(l) <= Done(after) && l.returned <= after.returned
  }

  lemma RanKeeps(steps: seq<Step>, l: Life, i: nat, e: Event)
    requires WellFormed(steps) && LifeOk(steps, l) && i < |steps| && Last(steps, l.stored) < i
    requires forall j :: 0 <= j < i ==> j in Done(l)
    ensures Follows(steps, l, Ran(steps, l, i, e), i) && (e.ending.Returns? ==> i in Ran(steps, l, i, e).returned)
  {
    IndexOf(steps, i);
    assert i !in l.left;
  }

  // The record of a step that is done, as are those ahead of it.
  lemma RecordKeeps(steps: seq<Step>, l: Life, i: nat)
    requires WellFormed(steps) && LifeOk(steps, l) && i < |steps| && Last(steps, l.stored) <= i
    requires forall j :: 0 <= j <= i ==> j in Done(l)
    ensures Follows(steps, l, l.(stored := Recorded(steps[i].name)), i)
  {
    var after := l.(stored := Recorded(steps[i].name));
    IndexOf(steps, i);
    assert Last(steps, after.stored) == i && Known(steps, after.stored);
    assert after.returned == l.returned && after.left == l.left && Done(after) == Done(l);
    assert forall j :: j in after.left ==> j <= Last(steps, l.stored) <= i;
  }

  lemma FollowsOn(steps: seq<Step>, a: Life, b: Life, c: Life, i: nat)
    requires Follows(steps, a, b, i) && Follows(steps, b, c, i)
    ensures Follows(steps, a, c, i)
  {
  }

  lemma RunEnds(steps: seq<Step>, l: Life, i: nat, local: Progress, completed: bool, e: Event)
    requires i < |steps|
    ensures var a, ran := RunOf(steps, l, i, local, completed, e), Ran(steps, l, i, e);
            && (a.life == ran || (e.ending.Returns? && a.life == ran.(stored := Recorded(steps[i].name))))
            && (a.goesOn ==> e.ending.Returns?)
  {
  }

  lemma RunKeeps(steps: seq<Step>, l: Life, i: nat, local: Progress, completed: bool, e: Event)
    requires WellFormed(steps) && LifeOk(steps, l) && i < |steps| && Last(steps, l.stored) < i
    requires forall j :: 0 <= j < i ==> j in Done(l)
    ensures var a := RunOf(steps, l, i, local, completed, e);
            Follows(steps, l, a.life, i) && (a.goesOn ==> i in a.life.returned)
  {
    var ran := Ran(steps, l, i, e);
    RunEnds(steps, l, i, local, completed, e);
    RanKeeps(steps, l, i, e);
    if e.ending.Returns? {
      RecordKeeps(steps, ran, i);
      FollowsOn(steps, l, ran, ran.(stored := Recorded(steps[i].name)), i);
    }
  }

  lemma {:induction false} FromKeeps(steps: seq<Step>, l: Life, i: nat, local: Progress, completed: bool, events: seq<Event>)
    requires WellFormed(steps) && LifeOk(steps, l) && i <= |steps| && Last(steps, l.stored) < i
    requires forall j :: 0 <= j < i ==> j in Done(l)
    ensures var (after, r) := From(steps, l, i, local, completed, events);
            && LifeOk(steps, after) && Last(steps, l.stored) <= Last(steps, after.stored)
            && Done(l) <= Done(after) && l.returned <= after.returned
            && (r.Succeeded? ==> forall j :: 0 <= j < |steps| ==> j in Done(after)) && !r.Discarded?
    decreases |steps| - i
  {
    if i < |steps| && events != [] {
      RunKeeps(steps, l, i, local, completed, events[0]);
      var a := RunOf(steps, l, i, local, completed, events[0]);
      if a.goesOn { FromKeeps(steps, a.life, i + 1, a.local, a.completed, events[1..]); }
    }
  }

  // An attempt never runs a step at or before the recorded one, nor one before
  // those ahead of it are done; what is recorded never goes back; and it
  // succeeds only once every step has returned nil or was left behind.
  lemma AttemptKeeps(steps: seq<Step>, l: Life, events: seq<Event>)
    requires WellFormed(steps) && LifeOk(steps, l)
    ensures var (after, r) := AttemptOf(steps, l, events);
            && LifeOk(steps, after) && Last(steps, l.stored) <= Last(steps, after.stored)
            && Done(l) <= Done(after) && l.returned <= after.returned
            && (r.Succeeded? ==> forall j :: 0 <= j < |steps| ==> j in Done(after)) && !r.Discarded?
  {
    FromKeeps(steps, l, Last(steps, l.stored) + 1, l.stored, false, events);
  }

  lemma {:induction false} AttemptsKeep(steps: seq<Step>, l: Life, tries: seq<seq<Event>>)
    requires WellFormed(steps) && LifeOk(steps, l)
    ensures LifeOk(steps, AttemptsOf(steps, l, tries)) && Last(steps, l.stored) <= Last(steps, AttemptsOf(steps, l, tries).stored)
    decreases |tries|
  {
    if tries == [] {
    } else {
      AttemptKeeps(steps, l, tries[0]);
      AttemptsKeep(steps, AttemptOf(steps, l, tries[0]).0, tries[1..]);
    }
  }

  // Over any attempts that fail or crash anywhere, an attempt that succeeds
  // leaves every step returned nil if and only if no step was left behind by a
  // committed record of its own followed by a failure.
  lemma EveryStepReturnedIff(steps: seq<Step>, tries: seq<seq<Event>>, events: seq<Event>)
    requires WellFormed(steps)
    ensures var (after, r) := AttemptOf(steps, AttemptsOf(steps, START, tries), events);
            && RunsOk(after.runs)
            && (r.Succeeded? ==> ((forall j :: 0 <= j < |steps| ==> j in after.returned) <==> after.left == {}))
            && (r.Succeeded? ==> forall j :: 0 <= j < |steps| ==> j in after.returned || j in after.left)
  {
    AttemptsKeep(steps, START, tries);
    AttemptKeeps(steps, AttemptsOf(steps, START, tries), events);
    var after := AttemptOf(steps, AttemptsOf(steps, START, tries), events).0;
    if after.left != {} {
      var j :| j in after.left;
      assert j in Done(after) && j !in after.returned;
    }
  }

  /** No run of the attempts records itself finished and then fails or crashes. */
  predicate NoneRecordsThenFails(events: seq<Event>) {
    forall k :: 0 <= k < |events| ==> !(events[k].own.Committed? && !events[k].ending.Returns?)
  }

  lemma {:induction false} FromLeavesNone(steps: seq<Step>, l: Life, i: nat, local: Progress, completed: bool, events: seq<Event>)
    requires i <= |steps| && l.left == {} && NoneRecordsThenFails(events)
    ensures From(steps, l, i, local, completed, events).0.left == {}
    decreases |steps| - i
  {
    if i < |steps| && events != [] {
      assert !(events[0].own.Committed? && !events[0].ending.Returns?);
      var a := RunOf(steps, l, i, local, completed, events[0]);
      if a.goesOn { FromLeavesNone(steps, a.life, i + 1, a.local, a.completed, events[1..]); }
    }
  }

  // A step is left behind only by a run that recorded itself and then failed.
  lemma {:induction false} LeavesNone(steps: seq<Step>, l: Life, tries: seq<seq<Event>>)
    requires l.left == {} && forall k :: 0 <= k < |tries| ==> NoneRecordsThenFails(tries[k])
    ensures AttemptsOf(steps, l, tries).left == {}
    decreases |tries|
  {
    if tries == [] {
    } else {
      if WellFormed(steps) && Known(steps, l.stored) {
        FromLeavesNone(steps, l, Last(steps, l.stored) + 1, l.stored, false, tries[0]);
      }
      LeavesNone(steps, AttemptOf(steps, l, tries[0]).0, tries[1..]);
    }
  }

  // A step that commits its own record and then fails is never run again: the
  // next attempt succeeds, although the step never returned nil.
  lemma SucceedsPastFailedStep(name: string)
    requires name != ""
    ensures var steps, failed := [Step(name, true, true)], [Event(Committed, Fails, Stored)];
            && WellFormed(steps)
            && var (after, r) := AttemptOf(steps, AttemptsOf(steps, START, [failed]), []);
               r.Succeeded? && after.returned == {} && after.left == {0}
  {
    var steps, failed := [Step(name, true, true)], [Event(Committed, Fails, Stored)];
    IndexOf(steps, 0);
    var l := Ran(steps, START, 0, failed[0]);
    assert AttemptOf(steps, START, failed).0 == l;
    var tries := [failed];
    assert tries[1..] == [] && AttemptsOf(steps, l, []) == l;
    assert AttemptsOf(steps, START, [failed]) == l;
    assert Last(steps, l.stored) == 0;
  }

  // ---------------------------------------------------------------- the job

  class Job {
    /** The progress the database holds. */
    var stored: Progress
    /** The job's life so far. */
    ghost var life: Life

    constructor ()
      ensures stored == NoProgress && life == START
    {
      stored, life := NoProgress, START;
    }

    /**
     Runs one step and records it, as its event goes. The database records the
     step if it did so itself, or if it returned nil with the job left to go on
     and the record was written. The attempt goes on exactly when the step
     returned nil and its record, where it needs one, was stored.
     */
    method RunStep(steps: seq<Step>, i: nat, local: Progress, completed: bool, e: Event)
      returns (local': Progress, completed': bool, goesOn: bool)
      requires i < |steps| && life.stored == stored
      modifies this
      ensures life.stored == stored
      ensures After(life, local', completed', goesOn) == RunOf(steps, old(life), i, local, completed, e)
      ensures completed' <==> completed || (e.ending.Returns? && e.ending.completesJob)
      ensures var needs := e.ending.Returns? && !completed' && e.own.NoRecord? && local != Recorded(steps[i].name);
              && stored == (if e.own.Committed? || (needs && (e.record.Stored? || e.record.written)) then Recorded(steps[i].name)
                            else old(stored))
              && (goesOn <==> e.ending.Returns? && (needs ==> e.record.Stored?))
              && (goesOn && !completed' ==> local' == Recorded(steps[i].name))
    {
      local', completed', goesOn := local, completed, false;
      life := Ran(steps, life, i, e);
      if e.own.Committed? {
        stored := Recorded(steps[i].name);
      }
      if !e.own.NoRecord? {
        local' := Recorded(steps[i].name);
      }
      if !e.ending.Returns? {
        return;
      }
      completed' := completed || e.ending.completesJob;
      if !completed' && local' != Recorded(steps[i].name) {
        if e.record.Stored? || e.record.written {
          stored := Recorded(steps[i].name);
          life := life.(stored := stored);
        }
        if e.record.Lost? {
          return;
        }
        local' := Recorded(steps[i].name);
      }
      goesOn := true;
    }

    /** One attempt: it starts after the last step recorded, and stops at the first that does not return nil. */
    method RunSteps(steps: seq<Step>, events: seq<Event>) returns (r: Outcome)
      requires life.stored == stored
      modifies this
      ensures life.stored == stored && (life, r) == AttemptOf(steps, old(life), events)
    {
      var ok := Check(steps);
      if !ok {
        return Discarded;
      }
      var start := 0;
      if stored.Recorded? && stored.step != "" {
        var done := Index(steps, stored.step);
        if done < 0 {
          return Discarded;
        }
        start := done + 1;
      }
      var local, completed := stored, false;
      ghost var whole := AttemptOf(steps, life, events);
      assert events[0..] == events;
      for i := start to |steps|
        invariant life.stored == stored && i - start <= |events|
        invariant From(steps, life, i, local, completed, events[i - start..]) == whole
      {
        if i - start == |events| {
          return Failed;
        }
        assert events[i - start..][1..] == events[i + 1 - start..];
        var goesOn;
        local, completed, goesOn := RunStep(steps, i, local, completed, events[i - start]);
        if !goesOn {
          return Failed;
        }
      }
      return Succeeded;
    }
  }
}
