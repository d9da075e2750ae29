/**
 What inserting a batch gives each input, in terms of what the database held of
 its key before the batch: the live job, the job the first input new to the key
 created, or the latest in history that counts; else a job of its own.
 */
module InsertMeaning {
  import opened Basics
  import opened InsertRounds

  // The job found in history is the latest in one of the states, and none is found exactly when none is in one.
  lemma {:induction false} LatestIs(done: seq<(Finished, Job)>, states: seq<Finished>) returns (i: nat)
    ensures i <= |done| && (forall j :: 0 <= j < i ==> done[j].0 !in states) && (i < |done| ==> done[i].0 in states)
    ensures Latest(done, states) == if i < |done| then Some(done[i].1) else None
    decreases |done|
  {
    if done == [] || done[0].0 in states {
      i := 0;
    } else {
      i := LatestIs(done[1..], states);
      i := i + 1;
    }
  }

  /** None of the key's jobs in history counts for input i, which has the key. */
  predicate NewTo(done: seq<(Finished, Job)>, inputs: seq<Input>, i: nat, k: Ref) {
    HasRef(inputs, i, k) && forall j :: 0 <= j < |done| ==> done[j].0 !in inputs[i].finished
  }

  lemma NewIff(done: seq<(Finished, Job)>, inputs: seq<Input>, i: nat, k: Ref)
    requires HasRef(inputs, i, k)
    ensures NewTo(done, inputs, i, k) <==> Latest(done, inputs[i].finished).None?
  {
    var j := LatestIs(done, inputs[i].finished);
  }

  /** The first input before n that is new to the key. */
  function FirstNew(done: seq<(Finished, Job)>, inputs: seq<Input>, n: nat, k: Ref): (r: Option<nat>)
    requires n <= |inputs|
    ensures r.Some? ==> r.value < n && NewTo(done, inputs, r.value, k) && forall j :: 0 <= j < r.value ==> !NewTo(done, inputs, j, k)
    ensures r.None? ==> forall j :: 0 <= j < n ==> !NewTo(done, inputs, j, k)
  {
    if n == 0 then None
    else
      var before := FirstNew(done, inputs, n - 1, k);
      if before.None? && NewTo(done, inputs, n - 1, k) then Some(n - 1) else before
  }

  /** The key's live job once the first n inputs were inserted: the one before the batch, or the first new input's. */
  function LiveAt(db: Db, inputs: seq<Input>, n: nat, k: Ref): Option<Job>
    requires n <= |inputs|
  {
    var first := FirstNew(At(db, k).done, inputs, n, k);
    if At(db, k).live.Some? then At(db, k).live else if first.Some? then Some(Created(first.value)) else None
  }

  // A batch leaves a key's history as it is, and its live job is the one before it, or the first new input's.
  lemma {:induction false} EntryAfter(db: Db, inputs: seq<Input>, n: nat, k: Ref)
    requires n <= |inputs|
    ensures var e := At(Before(db, inputs, n), k);
            && e.done == At(db, k).done && e.live == LiveAt(db, inputs, n, k)
            && (e.live.Some? ==> e.running == (At(db, k).live.Some? && At(db, k).running))
    decreases n
  {
    if n == 0 {
    } else {
      EntryAfter(db, inputs, n - 1, k);
      if HasRef(inputs, n - 1, k) { NewIff(At(db, k).done, inputs, n - 1, k); }
    }
  }

  // What one at a time gives an input with a key, and so what a batch does: the
  // job that was live, the one an earlier new input created, or the latest in
  // history in one of its states, as a duplicate; only then a job of its own.
  lemma AloneIs(db: Db, inputs: seq<Input>, i: nat, k: Ref) returns (j: nat)
    requires HasRef(inputs, i, k)
    ensures var e, first := At(db, k), FirstNew(At(db, k).done, inputs, i, k);
            && j <= |e.done| && (forall x :: 0 <= x < j ==> e.done[x].0 !in inputs[i].finished)
            && (j < |e.done| ==> e.done[j].0 in inputs[i].finished)
            && Alone(db, inputs, i) ==
               if e.live.Some? then Result(e.live.value, true)
               else if first.Some? then Result(Created(first.value), true)
               else if j < |e.done| then Result(e.done[j].1, true)
               else Result(Created(i), false)
  {
    EntryAfter(db, inputs, i, k);
    j := LatestIs(At(db, k).done, inputs[i].finished);
  }

  // An input without a key always creates its job.
  lemma KeylessIsCreated(db: Db, inputs: seq<Input>, i: nat)
    requires i < |inputs| && inputs[i].ref.None?
    ensures Alone(db, inputs, i) == Result(Created(i), false)
  {
  }

  // An input writes its key's live job exactly when it creates it, or replaces
  // it: not one that runs, which only a job from before the batch can.
  lemma WritesIff(db: Db, inputs: seq<Input>, i: nat, k: Ref)
    requires HasRef(inputs, i, k)
    ensures Writes(At(Before(db, inputs, i), k), inputs[i]) <==>
              || !Alone(db, inputs, i).duplicate
              || (inputs[i].action.Replace? && LiveAt(db, inputs, i, k).Some? && !(At(db, k).live.Some? && At(db, k).running))
  {
    EntryAfter(db, inputs, i, k);
    NewIff(At(db, k).done, inputs, i, k);
  }

  // Of a key's inputs at most one creates a job: none if one is live, else the first new to the key.
  lemma CreatesIff(db: Db, inputs: seq<Input>, i: nat, k: Ref)
    requires HasRef(inputs, i, k)
    ensures !Alone(db, inputs, i).duplicate <==>
              At(db, k).live.None? && FirstNew(At(db, k).done, inputs, i + 1, k) == Some(i)
  {
    var j := AloneIs(db, inputs, i, k);
  }
}
