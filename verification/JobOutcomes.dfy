/**
 What the database does with an attempt's outcome: the job is discarded,
 canceled, snoozed, given its attempt back or run again just as the outcome has
 it, with its row and its attempts counted to match.
 */
module JobOutcomes {
  import opened Basics
  import opened JobAttempts
  import opened JobLife

  // ---------------------------------------------------------------- the outcome of a return

  // An ordinary failure with attempts left, which the hook leaves to the policy, is tried again after the policy's delay.
  lemma OrdinaryFailureIsRetried(attempt: int, max: int, f: Facts)
    requires Fails(f) && !Decisive(f) && !f.cause.JobCanceled? && !f.stopped && !f.fenced && attempt < max
    requires f.known ==> !f.canceledLate && f.hook == Hook(false, 0, None)
    ensures Outcome(attempt, max, f) == Result(Retryable, f.backoff, false, false)
  {
  }

  // A rescue tries the job again at once, with its attempt used, and discards it on its last.
  lemma RescuedIff(attempt: int, max: int)
    ensures Rescued(attempt, max) == Result(if attempt < max then Retryable else Discarded, 0, false, false)
  {
  }

  // ---------------------------------------------------------------- what the database does with it

  /** The job runs in the claim of attempt i. */
  predicate RunsIn(s: State, i: nat) {
    i < |s.attempts| && s.row.state == Running(s.attempts[i].owner) && s.row.fence == s.attempts[i].fence
  }

  /** The result is filed last, and applied. */
  function Arrives(s: State): State
    requires s.results != []
  {
    After(s, Apply(|s.results| - 1))
  }

  // A claim counts an attempt and a fence, and is told both.
  lemma ClaimCounts(s: State, owner: Owner)
    requires Enabled(s, Claim(owner))
    ensures var t := After(s, Claim(owner));
            && t.row == Row(Running(owner), s.row.attempt + 1, s.row.max, s.row.fence + 1, s.row.cancelRequested)
            && |t.attempts| == |s.attempts| + 1 && RunsIn(t, |s.attempts|)
            && t.attempts[|s.attempts|].attempt == t.row.attempt && t.attempts[|s.attempts|].max == t.row.max
  {
  }

  // A result changes the row exactly while the job runs in the claim it is of.
  lemma AppliesIff(s: State, k: nat)
    requires Enabled(s, Apply(k))
    ensures var f := s.results[k];
            var current := s.row.state == Running(f.owner) && s.row.fence == f.fence;
            && (!current ==> After(s, Apply(k)) == s)
            && (current ==> !After(s, Apply(k)).row.state.Running? && After(s, Apply(k)).ended == s.ended + [f.fence])
  {
  }

  // A worker's return, once it arrives, leaves the job of its claim as the
  // outcome says: finished so, or waiting, its attempt used or given back.
  lemma ReturnEndsAttempt(s: State, i: nat, f: Facts)
    requires Inv(s) && RunsIn(s, i) && Enabled(s, Return(i, f))
    ensures var t, r := Arrives(After(s, Return(i, f))), Outcome(s.attempts[i].attempt, s.attempts[i].max, f);
            && (Terminal(r.state) ==> t.row == s.row.(state := Final(r.state)))
            && (!Terminal(r.state) ==> t.row == s.row.(state := Waiting, attempt := if r.snooze || r.giveBack then s.row.attempt - 1 else s.row.attempt))
  {
    assert AttemptOk(s, i);
  }

  // So a job whose attempt fails in the ordinary way, with attempts left, waits
  // for its next one, and can be claimed for it.
  lemma FailedJobRunsAgain(s: State, i: nat, f: Facts, owner: Owner)
    requires Inv(s) && RunsIn(s, i) && Enabled(s, Return(i, f)) && s.row.attempt < s.row.max
    requires Fails(f) && !Decisive(f) && !f.cause.JobCanceled? && !f.stopped && !f.fenced
    requires f.known ==> !f.canceledLate && f.hook == Hook(false, 0, None)
    ensures var t := Arrives(After(s, Return(i, f)));
            && t.row.state.Waiting? && t.row.attempt == s.row.attempt && Enabled(t, Claim(owner))
            && After(t, Claim(owner)).row.attempt == s.row.attempt + 1
  {
    assert AttemptOk(s, i);
    OrdinaryFailureIsRetried(s.attempts[i].attempt, s.attempts[i].max, f);
    ReturnEndsAttempt(s, i, f);
  }

  // A rescue, once it arrives, leaves the job waiting with its attempt used, or discarded on its last.
  lemma RescueEndsAttempt(s: State)
    requires Enabled(s, Rescue)
    ensures Arrives(After(s, Rescue)).row == s.row.(state := if s.row.attempt < s.row.max then Waiting else Final(Discarded))
  {
  }

  // A lease that expires leaves its job canceled if that was asked for, discarded on its last attempt, and waiting otherwise.
  lemma ExpiryEndsAttempt(s: State)
    requires Enabled(s, ExpireLease)
    ensures After(s, ExpireLease).row ==
              s.row.(state := if s.row.cancelRequested then Final(Canceled) else if s.row.attempt < s.row.max then Waiting else Final(Discarded))
    ensures After(s, ExpireLease).ended == s.ended + [s.row.fence]
  {
  }

  // A claim the client never ran is given back whole.
  lemma UnrunGivesBack(s: State, i: nat)
    requires Inv(s) && RunsIn(s, i) && Enabled(s, Unrun(i))
    ensures Arrives(After(s, Unrun(i))).row == s.row.(state := Waiting, attempt := s.row.attempt - 1)
  {
    assert AttemptOk(s, i);
  }

  // A cancel finishes a waiting job and asks for a running one's; a retry has a
  // finished job wait again, with an attempt to use and no cancel asked for.
  lemma OperatorsDo(s: State)
    ensures Enabled(s, Cancel) && s.row.state.Waiting? ==> After(s, Cancel).row == s.row.(state := Final(Canceled))
    ensures Enabled(s, Cancel) && s.row.state.Running? ==> After(s, Cancel).row == s.row.(cancelRequested := true)
    ensures Enabled(s, Retry) && s.row.state.Final? ==>
              After(s, Retry).row == s.row.(state := Waiting, max := Max(s.row.max, s.row.attempt + 1), cancelRequested := false)
  {
  }
}
