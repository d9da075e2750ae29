/**
 What an attempt's end makes of its job: the outcome of a worker's return, with
 every circumstance that bears on it, and a leader's rescue.
 */
module JobAttempts {
  import opened Basics

  datatype JobState = Scheduled | Retryable | Completed | Canceled | Discarded

  predicate Terminal(s: JobState) {
    s.Completed? || s.Canceled? || s.Discarded?
  }

  /** A result, fenced elsewhere to its claim. */
  datatype Result = Result(state: JobState, delay: int, snooze: bool, giveBack: bool)

  /** An error a worker returned: a snooze, one it canceled its job with, one for too large an output, or any other. */
  datatype Failure = Failure(snooze: Option<int>, byWorker: bool, tooLarge: bool)

  /** What first canceled the attempt's context. */
  datatype Cause = NoCause | JobCanceled | JobFenced | ClientStopped | TimedOut

  /** What Config.OnError answers. retryAt is the wait until the time it asks for. */
  datatype Hook = Hook(discard: bool, snooze: int, retryAt: Option<int>)

  /**
   The circumstances of a return. stopped: the client's stop canceled it before
   the worker returned. fenced: the client's lease generation ended otherwise.
   known: it cannot have succeeded after all. canceledLate: a JobCancel came
   while the hook ran. backoff is the retry policy's delay.
   */
  datatype Facts = Facts(failure: Option<Failure>, cause: Cause, stopped: bool, fenced: bool, known: bool,
                         hook: Hook, canceledLate: bool, backoff: int)

  function Snoozed(d: int): Result {
    Result(Scheduled, d, true, false)
  }

  function Ends(state: JobState): Result {
    Result(state, 0, false, false)
  }

  predicate GivesBack(r: Result) {
    r.snooze || r.giveBack
  }

  /** A result an engine takes: it gives an attempt back only once, and only of a job that goes on. */
  predicate WellFormed(r: Result) {
    !(r.snooze && r.giveBack) && (GivesBack(r) ==> !Terminal(r.state))
  }

  /** Applied to the attempt it is of, the result leaves a job that goes on an attempt to use. */
  predicate LeavesAttempt(r: Result, attempt: int, max: int) {
    Terminal(r.state) || GivesBack(r) || attempt < max
  }

  /** The attempt failed once a later claim of its job on the same client had replaced it. */
  predicate FailedReplaced(f: Facts) {
    f.failure.Some? && f.failure.value.snooze.None? && f.cause.JobFenced?
  }

  /** The worker failed, rather than snooze, and no later claim replaced its attempt. */
  predicate Fails(f: Facts) {
    f.failure.Some? && f.failure.value.snooze.None? && !f.cause.JobFenced?
  }

  /** The error is the worker's last word: it canceled the job, or its output is too large. */
  predicate Decisive(f: Facts) {
    f.failure.Some? && (f.failure.value.byWorker || f.failure.value.tooLarge)
  }

  /** JobCancel reached the attempt before its worker failed with an error of another kind. */
  predicate CanceledFirst(f: Facts) {
    f.cause.JobCanceled? && f.failure.Some? && !f.failure.value.byWorker
  }

  /** Config.OnError is asked: of a failure that counts, in a client that still owns the job. */
  predicate AsksHook(f: Facts) {
    Fails(f) && f.known && !f.fenced && !f.cause.JobCanceled? && (f.stopped ==> Decisive(f))
  }

  /**
   The outcome of a worker's return. Every outcome is one an engine takes. It
   leaves a job that goes on an attempt to use, but for exactly one branch: an
   attempt that was replaced goes on whatever its number.

   A job is canceled exactly when JobCancel reached its attempt, before the
   worker failed or while the hook ran, unless the worker canceled it itself. It
   is discarded exactly when the hook says so, or leaves it so by asking for a
   time past the last attempt, or when the policy decides and the error is
   decisive or the attempt the last. It is snoozed exactly when the worker or
   the hook asks for it, and tried again in every other case, after the hook's
   time, the policy's delay, or at once where the failure is not its own. It
   keeps its attempt exactly when the stop interrupted it, its last one too,
   unless the error is decisive or another cause decides already.
   */
  function Outcome(attempt: int, max: int, f: Facts): (r: Result)
    ensures WellFormed(r) && (r.state.Completed? <==> f.failure.None?)
    ensures LeavesAttempt(r, attempt, max) <==> !(FailedReplaced(f) && attempt >= max)
    ensures r.state.Canceled? <==>
              Fails(f) && !f.failure.value.byWorker && (f.cause.JobCanceled? || (AsksHook(f) && f.canceledLate))
    ensures r.state.Discarded? <==>
              && Fails(f) && !CanceledFirst(f)
              && if AsksHook(f) && f.canceledLate then f.failure.value.byWorker
                 else if AsksHook(f) && (f.hook.discard || f.hook.snooze > 0) then f.hook.discard
                 else if AsksHook(f) && f.hook.retryAt.Some? then attempt >= max
                 else Decisive(f) || (attempt >= max && !f.stopped)
    ensures r.snooze <==> || (f.failure.Some? && f.failure.value.snooze.Some?)
                          || (AsksHook(f) && !f.canceledLate && !f.hook.discard && f.hook.snooze > 0)
    ensures (r.snooze <==> r.state.Scheduled?)
            && (r.snooze ==> r.delay == if f.failure.value.snooze.Some? then f.failure.value.snooze.value else f.hook.snooze)
    ensures r.state.Retryable? ==>
              r.delay == if AsksHook(f) && f.hook.retryAt.Some? then Max(f.hook.retryAt.value, 0)
                         else if f.cause.JobFenced? || f.stopped || f.fenced then 0
                         else f.backoff
    ensures r.giveBack <==> Fails(f) && f.stopped && !Decisive(f) && !f.cause.JobCanceled? && !(f.fenced && attempt < max)
    ensures f.cause.JobCanceled? && !f.stopped && (f.failure.Some? ==> f.failure.value.snooze.None?) ==> Terminal(r.state)
  {
    if f.failure.None? then Ends(Completed)
    else
      var e := f.failure.value;
      if e.snooze.Some? then Snoozed(e.snooze.value)
      else if f.cause.JobFenced? then Ends(Retryable)
      else
        var canceled, giveBack := f.cause.JobCanceled?, f.stopped && !e.byWorker && !e.tooLarge;
        if !e.byWorker && canceled then Ends(Canceled)
        else if !e.byWorker && !e.tooLarge && f.fenced && attempt < max then Ends(Retryable)
        else if f.known && !canceled && !giveBack && !f.fenced then
          if f.canceledLate then Ends(if e.byWorker then Discarded else Canceled)
          else if f.hook.discard then Ends(Discarded)
          else if f.hook.snooze > 0 then Snoozed(f.hook.snooze)
          else if f.hook.retryAt.Some? && attempt < max then Result(Retryable, Max(f.hook.retryAt.value, 0), false, false)
          else Unhooked(attempt, max, e, giveBack, f.backoff)
        else Unhooked(attempt, max, e, giveBack, f.backoff)
  }

  /** The outcome where the hook was not asked, or left it to the job's policy. */
  function Unhooked(attempt: int, max: int, e: Failure, giveBack: bool, backoff: int): Result {
    if giveBack then Result(Retryable, 0, false, true)
    else if e.byWorker || e.tooLarge || attempt >= max then Ends(Discarded)
    else Result(Retryable, backoff, false, false)
  }

  /** The attempt of a claim the client's stop met before it ran. */
  const UNRUN := Result(Scheduled, 0, false, true)

  /** A rescue's result. */
  function Rescued(attempt: int, max: int): Result {
    Ends(if attempt >= max then Discarded else Retryable)
  }
}
