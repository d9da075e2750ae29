/**
 That steps are recorded: which records of an attempt reach the database, where
 the next attempt starts, and that a step once recorded is never run again.
 */
module StepRecords {
  import opened Steps

  /** Some event before k completed the job in a transaction. */
  predicate Completed(events: seq<Event>, k: nat) {
    exists j :: 0 <= j < k && j < |events| && events[j].ending.Returns? && events[j].ending.completesJob
  }

  /** The step's record reaches the database: its own, or the one made for it once it returned nil. */
  predicate Saves(e: Event, completed: bool) {
    e.own.Committed? || (e.own.NoRecord? && e.ending.Returns? && !completed && !e.ending.completesJob && e.record.Stored?)
  }

  /** The attempt goes on to the next step: this one returned nil, and no record of it was lost. */
  predicate Passes(e: Event, completed: bool) {
    e.ending.Returns? && (completed || e.ending.completesJob || !e.own.NoRecord? || e.record.Stored?)
  }

  /** The attempt's own view of its progress is of a step before i. */
  predicate LocalOk(steps: seq<Step>, local: Progress, i: nat) {
    local.Recorded? && local.step != "" ==> 0 <= Index(steps, local.step) < i
  }

  lemma NotYetLocal(steps: seq<Step>, local: Progress, i: nat)
    requires WellFormed(steps) && i < |steps| && LocalOk(steps, local, i)
    ensures local != Recorded(steps[i].name)
  {
    IndexOf(steps, i);
  }

  // A step's run passes and saves as its event says, and is the only one it adds.
  lemma RunTells(steps: seq<Step>, l: Life, i: nat, local: Progress, completed: bool, e: Event)
    requires WellFormed(steps) && i < |steps| && LocalOk(steps, local, i)
    ensures var a := RunOf(steps, l, i, local, completed, e);
            && (a.goesOn <==> Passes(e, completed)) && (a.goesOn ==> a.completed == (completed || e.ending.completesJob))
            && (Saves(e, completed) ==> a.life.stored == Recorded(steps[i].name))
            && a.life.runs == l.runs + [Began(i, Last(steps, l.stored), Done(l))] && LocalOk(steps, a.local, i + 1)
  {
    NotYetLocal(steps, local, i);
    IndexOf(steps, i);
  }

  // ---------------------------------------------------------------- one attempt

  /** From step i on, the events of an attempt that has completed its job or not. */
  predicate CompletedBy(events: seq<Event>, k: nat, completed: bool) {
    completed || Completed(events, k)
  }

  lemma CompletedShifts(events: seq<Event>, k: nat, completed: bool)
    requires events != [] && (events[0].ending.Returns? || k == 0)
    ensures var first := events[0].ending.Returns? && events[0].ending.completesJob;
            CompletedBy(events, k + 1, completed) <==> CompletedBy(events[1..], k, completed || first)
  {
    if j :| 0 <= j < k + 1 && j < |events| && events[j].ending.Returns? && events[j].ending.completesJob {
      if j > 0 { assert events[1..][j - 1] == events[j]; }
    }
    if j :| 0 <= j < k && j < |events[1..]| && events[1..][j].ending.Returns? && events[1..][j].ending.completesJob {
      assert events[j + 1] == events[1..][j];
    }
  }

  lemma NoneBeforeFirst(events: seq<Event>, completed: bool)
    ensures CompletedBy(events, 0, completed) <==> completed
  {
  }

  /** What the attempt adds to the runs, from step i on: one run of each step it comes to, in order. */
  ghost predicate InOrder(before: seq<Began>, after: seq<Began>, i: nat) {
    |before| <= |after| && after[..|before|] == before && forall k :: |before| <= k < |after| ==> after[k].step == i + k - |before|
  }

  lemma {:induction false} FromRunsInOrder(steps: seq<Step>, l: Life, i: nat, local: Progress, completed: bool, events: seq<Event>)
    requires WellFormed(steps) && i <= |steps| && LocalOk(steps, local, i)
    ensures InOrder(l.runs, From(steps, l, i, local, completed, events).0.runs, i)
    decreases |steps| - i
  {
    if i == |steps| || events == [] {
    } else {
      var a := RunOf(steps, l, i, local, completed, events[0]);
      RunTells(steps, l, i, local, completed, events[0]);
      if a.goesOn {
        FromRunsInOrder(steps, a.life, i + 1, a.local, a.completed, events[1..]);
        InOrderFromFirst(l.runs, a.life.runs[|l.runs|], From(steps, a.life, i + 1, a.local, a.completed, events[1..]).0.runs, i);
      }
    }
  }

  lemma InOrderFromFirst(before: seq<Began>, first: Began, after: seq<Began>, i: nat)
    requires first.step == i && InOrder(before + [first], after, i + 1)
    ensures InOrder(before, after, i)
  {
    var mid := before + [first];
    assert after[..|before|] == after[..|mid|][..|before|] == before;
    assert after[|before|] == after[..|mid|][|before|] == first;
  }

  /** The attempt has come to step i, those before it done and none of them left to record. */
  ghost predicate Ready(steps: seq<Step>, l: Life, i: nat, local: Progress) {
    && WellFormed(steps) && LifeOk(steps, l) && i <= |steps| && Last(steps, l.stored) < i && LocalOk(steps, local, i)
    && forall j :: 0 <= j < i ==> j in Done(l)
  }

  lemma ReadyGoesOn(steps: seq<Step>, l: Life, i: nat, local: Progress, completed: bool, e: Event)
    requires Ready(steps, l, i, local) && i < |steps|
    ensures var a := RunOf(steps, l, i, local, completed, e);
            && (a.goesOn ==> Ready(steps, a.life, i + 1, a.local)) && |a.life.runs| == |l.runs| + 1
            && (Saves(e, completed) ==> Last(steps, a.life.stored) == i)
  {
    RunTells(steps, l, i, local, completed, e);
    RunKeeps(steps, l, i, local, completed, e);
    IndexOf(steps, i);
  }

  lemma RecordStays(steps: seq<Step>, l: Life, i: nat, local: Progress, completed: bool, events: seq<Event>)
    requires Ready(steps, l, i, local)
    ensures Last(steps, l.stored) <= Last(steps, From(steps, l, i, local, completed, events).0.stored)
  {
    FromKeeps(steps, l, i, local, completed, events);
  }

  lemma {:induction false} FromSaves(steps: seq<Step>, l: Life, i: nat, local: Progress, completed: bool, events: seq<Event>, k: nat)
    requires Ready(steps, l, i, local) && k < |events| && k < |From(steps, l, i, local, completed, events).0.runs| - |l.runs|
    requires Saves(events[k], CompletedBy(events, k, completed))
    ensures Last(steps, From(steps, l, i, local, completed, events).0.stored) >= i + k
    decreases |steps| - i
  {
    if k == 0 {
      NoneBeforeFirst(events, completed);
      FirstIsSaved(steps, l, i, local, completed, events);
    } else {
      var a := RunOf(steps, l, i, local, completed, events[0]);
      SavesLater(steps, l, i, local, completed, events, k);
      FromSaves(steps, a.life, i + 1, a.local, a.completed, events[1..], k - 1);
    }
  }

  lemma SavesLater(steps: seq<Step>, l: Life, i: nat, local: Progress, completed: bool, events: seq<Event>, k: nat)
    requires Ready(steps, l, i, local) && 0 < k < |events| && k < |From(steps, l, i, local, completed, events).0.runs| - |l.runs|
    ensures i < |steps|
    ensures var a := RunOf(steps, l, i, local, completed, events[0]);
            && a.goesOn && Ready(steps, a.life, i + 1, a.local) && (CompletedBy(events, k, completed) <==> CompletedBy(events[1..], k - 1, a.completed))
            && k - 1 < |From(steps, a.life, i + 1, a.local, a.completed, events[1..]).0.runs| - |a.life.runs|
  {
    RunTells(steps, l, i, local, completed, events[0]);
    ReadyGoesOn(steps, l, i, local, completed, events[0]);
    CompletedShifts(events, k - 1, completed);
  }

  lemma FirstIsSaved(steps: seq<Step>, l: Life, i: nat, local: Progress, completed: bool, events: seq<Event>)
    requires Ready(steps, l, i, local) && i < |steps| && events != [] && Saves(events[0], completed)
    ensures Last(steps, From(steps, l, i, local, completed, events).0.stored) >= i
  {
    var a := RunOf(steps, l, i, local, completed, events[0]);
    ReadyGoesOn(steps, l, i, local, completed, events[0]);
    if a.goesOn { RecordStays(steps, a.life, i + 1, a.local, a.completed, events[1..]); }
  }

  lemma {:induction false} FromSucceedsIff(steps: seq<Step>, l: Life, i: nat, local: Progress, completed: bool, events: seq<Event>)
    requires WellFormed(steps) && i <= |steps| && LocalOk(steps, local, i)
    ensures From(steps, l, i, local, completed, events).1.Succeeded? <==>
              |steps| - i <= |events| && forall k :: 0 <= k < |steps| - i ==> Passes(events[k], CompletedBy(events, k, completed))
    decreases |steps| - i
  {
    if i == |steps| || events == [] {
    } else {
      var a := RunOf(steps, l, i, local, completed, events[0]);
      RunTells(steps, l, i, local, completed, events[0]);
      NoneBeforeFirst(events, completed);
      if a.goesOn {
        FromSucceedsIff(steps, a.life, i + 1, a.local, a.completed, events[1..]);
        PassesShift(events, |steps| - i, completed, a.completed);
      }
    }
  }

  lemma PassesShift(events: seq<Event>, n: nat, completed: bool, completed': bool)
    requires events != [] && n > 0 && Passes(events[0], completed) && completed' == (completed || events[0].ending.completesJob)
    ensures (n <= |events| && forall k :: 0 <= k < n ==> Passes(events[k], CompletedBy(events, k, completed))) <==>
              (n - 1 <= |events[1..]| && forall k :: 0 <= k < n - 1 ==> Passes(events[1..][k], CompletedBy(events[1..], k, completed')))
  {
    NoneBeforeFirst(events, completed);
    forall k: nat ensures CompletedBy(events, k + 1, completed) <==> CompletedBy(events[1..], k, completed') {
      CompletedShifts(events, k, completed);
    }
    if n <= |events| {
      assert forall k :: 0 <= k < n - 1 ==> events[1..][k] == events[k + 1];
      forall k | 0 <= k < n - 1
        ensures Passes(events[1..][k], CompletedBy(events[1..], k, completed')) <==> Passes(events[k + 1], CompletedBy(events, k + 1, completed))
      {}
      if forall k :: 0 <= k < n - 1 ==> Passes(events[1..][k], CompletedBy(events[1..], k, completed')) {
        forall k | 0 <= k < n ensures Passes(events[k], CompletedBy(events, k, completed)) {
          if k > 0 { assert Passes(events[1..][k - 1], CompletedBy(events[1..], k - 1, completed')); }
        }
      }
    }
  }

  /** Where an attempt starts: after the step its progress records. */
  function Start(steps: seq<Step>, l: Life): nat
    requires Last(steps, l.stored) >= -1
  {
    Last(steps, l.stored) + 1
  }

  // An attempt runs the steps from the one after the recorded one, each once and in order.
  lemma AttemptRunsInOrder(steps: seq<Step>, l: Life, events: seq<Event>)
    requires WellFormed(steps) && LifeOk(steps, l)
    ensures InOrder(l.runs, AttemptOf(steps, l, events).0.runs, Start(steps, l))
  {
    FromRunsInOrder(steps, l, Start(steps, l), l.stored, false, events);
  }

  // It succeeds exactly when every step left returns nil and is recorded, or
  // recorded itself, or comes once the job was completed in a transaction.
  lemma AttemptSucceedsIff(steps: seq<Step>, l: Life, events: seq<Event>)
    requires WellFormed(steps) && LifeOk(steps, l)
    ensures var left := |steps| - Start(steps, l);
            AttemptOf(steps, l, events).1.Succeeded? <==>
              left <= |events| && forall k :: 0 <= k < left ==> Passes(events[k], Completed(events, k))
  {
    FromSucceedsIff(steps, l, Start(steps, l), l.stored, false, events);
  }

  // A step the attempt came to whose record was saved stays recorded: the next
  // attempt starts after it, whatever became of this one.
  lemma SavedStepIsRecorded(steps: seq<Step>, l: Life, events: seq<Event>, k: nat)
    requires WellFormed(steps) && LifeOk(steps, l)
    requires k < |events| && k < |AttemptOf(steps, l, events).0.runs| - |l.runs| && Saves(events[k], Completed(events, k))
    ensures Last(steps, AttemptOf(steps, l, events).0.stored) >= Start(steps, l) + k
  {
    FromSaves(steps, l, Start(steps, l), l.stored, false, events, k);
  }

  // ---------------------------------------------------------------- attempt after attempt

  /** Every run since has been of a step after j. */
  ghost predicate OnlyAfter(before: seq<Began>, after: seq<Began>, j: int) {
    |before| <= |after| && after[..|before|] == before && forall k :: |before| <= k < |after| ==> after[k].step > j
  }

  // A step recorded is never run again, nor one before it, over any attempts.
  lemma {:induction false} RecordedStepIsNotRunAgain(steps: seq<Step>, l: Life, tries: seq<seq<Event>>, j: int)
    requires WellFormed(steps) && LifeOk(steps, l) && j <= Last(steps, l.stored)
    ensures OnlyAfter(l.runs, AttemptsOf(steps, l, tries).runs, j)
    decreases |tries|
  {
    if tries == [] {
    } else {
      var next := AttemptOf(steps, l, tries[0]).0;
      AttemptRunsInOrder(steps, l, tries[0]);
      AttemptKeeps(steps, l, tries[0]);
      RecordedStepIsNotRunAgain(steps, next, tries[1..], j);
      OnlyAfterGoesOn(l.runs, next.runs, AttemptsOf(steps, next, tries[1..]).runs, j);
    }
  }

  lemma OnlyAfterGoesOn(a: seq<Began>, b: seq<Began>, c: seq<Began>, j: int)
    requires OnlyAfter(a, b, j) && OnlyAfter(b, c, j)
    ensures OnlyAfter(a, c, j)
  {
    assert c[..|a|] == c[..|b|][..|a|] == a;
    forall k | |a| <= k < |c| ensures c[k].step > j {
      if k < |b| { assert c[k] == c[..|b|][k] == b[k]; }
    }
  }

  // So a step whose record an attempt saved is not run again in any attempt after it.
  lemma SavedStepIsNotRunAgain(steps: seq<Step>, l: Life, events: seq<Event>, k: nat, tries: seq<seq<Event>>)
    requires WellFormed(steps) && LifeOk(steps, l)
    requires k < |events| && k < |AttemptOf(steps, l, events).0.runs| - |l.runs| && Saves(events[k], Completed(events, k))
    ensures var after := AttemptOf(steps, l, events).0;
            OnlyAfter(after.runs, AttemptsOf(steps, after, tries).runs, Start(steps, l) + k)
  {
    SavedStepIsRecorded(steps, l, events, k);
    AttemptKeeps(steps, l, events);
    RecordedStepIsNotRunAgain(steps, AttemptOf(steps, l, events).0, tries, Start(steps, l) + k);
  }
}
