/**
 One job through its claims: clients and leases claim it, attempts end in
 results, leaders rescue it, leases expire, operators cancel and retry it. A
 result is filed when it is decided and may reach the database at any time
 later, more than once or never.
 */
module JobLife {
  import opened Basics
  import opened JobAttempts

  datatype Owner = Client(id: int) | Lease

  datatype RowState = Waiting | Running(owner: Owner) | Final(why: JobState)

  /** The job's row. */
  datatype Row = Row(state: RowState, attempt: int, max: int, fence: int, cancelRequested: bool)

  datatype Phase = Claimed | Tracked | Over

  /** An attempt as its claim returned it. */
  datatype Attempt = Attempt(owner: Owner, fence: int, attempt: int, max: int, cause: Cause, phase: Phase)

  /** A result on its way to the database. */
  datatype Filed = Filed(owner: Owner, fence: int, result: Result)

  /** running holds, by client, the attempt it tracks; ended the fences of the claims a result or an expiry ended. */
  datatype State = State(row: Row, attempts: seq<Attempt>, running: map<int, nat>, results: seq<Filed>, ended: seq<int>)

  datatype Step =
    | Claim(owner: Owner)
    | Track(i: nat)
    | Interrupt(i: nat, cause: Cause)
    | Return(i: nat, facts: Facts)
    | Unrun(i: nat)
    | FinishLeased(i: nat, failure: Option<Failure>, hook: Hook, backoff: int)
    | Rescue
    | Apply(k: nat)
    | ExpireLease
    | Cancel
    | Expire
    | Retry

  predicate Init(s: State) {
    s.row.state.Waiting? && s.row.attempt == 0 && s.row.max >= 1 && s.row.fence == 0
    && s.attempts == [] && s.running == map[] && s.results == [] && s.ended == []
  }

  /** No later claim of the job on the same client is tracked already. */
  predicate InOrder(s: State, i: nat)
    requires i < |s.attempts|
  {
    forall j :: i < j < |s.attempts| && s.attempts[j].owner == s.attempts[i].owner ==> s.attempts[j].phase.Claimed?
  }

  /** Tracking attempt i does not cancel the attempt the job is running, on its last attempt. */
  predicate SparesLast(s: State, i: nat)
    requires i < |s.attempts| && s.attempts[i].owner.Client?
  {
    var id := s.attempts[i].owner.id;
    s.row.state.Running? && id in s.running && s.running[id] < |s.attempts| && s.attempts[s.running[id]].cause.NoCause? ==>
      s.running[id] + 1 < |s.attempts| || s.attempts[s.running[id]].attempt < s.attempts[s.running[id]].max
  }

  predicate Enabled(s: State, e: Step) {
    match e
    case Claim(_) => s.row.state.Waiting?
    case Track(i) => i < |s.attempts| && s.attempts[i].phase.Claimed? && s.attempts[i].owner.Client?
    case Interrupt(i, cause) => i < |s.attempts| && s.attempts[i].phase.Tracked? && !cause.NoCause? && !cause.JobFenced?
    case Return(i, facts) =>
      && i < |s.attempts| && s.attempts[i].phase.Tracked? && facts.cause == s.attempts[i].cause
      && (facts.stopped ==> facts.cause.ClientStopped?)
    case Unrun(i) => i < |s.attempts| && s.attempts[i].phase.Claimed? && s.attempts[i].owner.Client?
    case FinishLeased(i, _, _, _) =>
      && i < |s.attempts| && s.attempts[i].owner.Lease?
      && s.row.state == Running(Lease) && s.row.fence == s.attempts[i].fence
    case Rescue => s.row.state.Running? && s.row.state.owner.Client?
    case Apply(k) => k < |s.results|
    case ExpireLease => s.row.state == Running(Lease)
    case Cancel => !s.row.state.Final?
    case Expire => s.row.state.Waiting?
    case Retry => !s.row.state.Running?
  }

  /** The row once a result of the claim it runs in is applied. */
  function Ended(row: Row, r: Result): Row {
    if Terminal(r.state) then row.(state := Final(r.state))
    else row.(state := Waiting, attempt := if GivesBack(r) then row.attempt - 1 else row.attempt)
  }

  function End(s: State, r: Result): State {
    s.(row := Ended(s.row, r), ended := s.ended + [s.row.fence])
  }

  function File(s: State, owner: Owner, fence: int, r: Result): State {
    s.(results := s.results + [Filed(owner, fence, r)])
  }

  function SetPhase(s: State, i: nat, phase: Phase): State
    requires i < |s.attempts|
  {
    s.(attempts := s.attempts[i := s.attempts[i].(phase := phase)])
  }

  function Interrupted(a: Attempt, cause: Cause): Attempt {
    if a.cause.NoCause? then a.(cause := cause) else a
  }

  /** Tracks attempt i on its client, which cancels the one the client tracked before. */
  function Tracking(s: State, i: nat): State
    requires i < |s.attempts| && s.attempts[i].owner.Client?
  {
    var id := s.attempts[i].owner.id;
    var t := SetPhase(s, i, Tracked).(running := s.running[id := i]);
    if id in s.running && s.running[id] < |s.attempts| then
      t.(attempts := t.attempts[s.running[id] := Interrupted(t.attempts[s.running[id]], JobFenced)])
    else t
  }

  function Untracked(s: State, i: nat): map<int, nat>
    requires i < |s.attempts| && s.attempts[i].owner.Client?
  {
    var id := s.attempts[i].owner.id;
    if id in s.running && s.running[id] == i then s.running - {id} else s.running
  }

  /** A leased attempt's facts: only JobCancel can have canceled it. */
  function LeasedFacts(s: State, failure: Option<Failure>, hook: Hook, backoff: int): Facts {
    Facts(failure, if s.row.cancelRequested then JobCanceled else NoCause, false, false, true, hook, s.row.cancelRequested, backoff)
  }

  function After(s: State, e: Step): State
    requires Enabled(s, e)
  {
    match e
    case Claim(owner) =>
      var row := s.row.(state := Running(owner), attempt := s.row.attempt + 1, fence := s.row.fence + 1);
      s.(row := row, attempts := s.attempts + [Attempt(owner, row.fence, row.attempt, row.max, NoCause, Claimed)])
    case Track(i) => Tracking(s, i)
    case Interrupt(i, cause) => s.(attempts := s.attempts[i := Interrupted(s.attempts[i], cause)])
    case Return(i, facts) =>
      var a := s.attempts[i];
      var t := File(SetPhase(s, i, Over), a.owner, a.fence, Outcome(a.attempt, a.max, facts));
      if a.owner.Client? then t.(running := Untracked(s, i)) else t
    case Unrun(i) => File(SetPhase(s, i, Over), s.attempts[i].owner, s.attempts[i].fence, UNRUN)
    case FinishLeased(i, failure, hook, backoff) =>
      File(s, Lease, s.row.fence, Outcome(s.row.attempt, s.row.max, LeasedFacts(s, failure, hook, backoff)))
    case Rescue => File(s, s.row.state.owner, s.row.fence, Rescued(s.row.attempt, s.row.max))
    case Apply(k) =>
      var f := s.results[k];
      if s.row.state == Running(f.owner) && s.row.fence == f.fence then End(s, f.result) else s
    case ExpireLease =>
      End(s, Ends(if s.row.attempt < s.row.max && !s.row.cancelRequested then Retryable
                  else if s.row.cancelRequested then Canceled else Discarded))
    case Cancel => s.(row := if s.row.state.Waiting? then s.row.(state := Final(Canceled)) else s.row.(cancelRequested := true))
    case Expire => s.(row := s.row.(state := Final(Discarded)))
    case Retry =>
      if s.row.state.Waiting? then s
      else s.(row := s.row.(state := Waiting, max := if s.row.attempt >= s.row.max then s.row.attempt + 1 else s.row.max,
                            cancelRequested := false))
  }

  /** A run in which no tracking of a claim cancels the attempt the job is running, on its last attempt. */
  predicate SparingRun(s: State, steps: seq<Step>, t: State)
    decreases |steps|
  {
    if steps == [] then s == t
    else
      && Enabled(s, steps[0]) && (steps[0].Track? ==> SparesLast(s, steps[0].i))
      && SparingRun(After(s, steps[0]), steps[1..], t)
  }

  /** A run of any steps. */
  predicate Run(s: State, steps: seq<Step>, t: State)
    decreases |steps|
  {
    if steps == [] then s == t
    else Enabled(s, steps[0]) && Run(After(s, steps[0]), steps[1..], t)
  }

  // ---------------------------------------------------------------- the invariant

  predicate RowOk(row: Row) {
    match row.state
    case Waiting => 0 <= row.attempt < row.max
    case Running(_) => 1 <= row.attempt <= row.max
    case Final(_) => 0 <= row.attempt <= row.max
  }

  /** Attempt i is of claim i + 1, and the row's while it runs in that claim. */
  predicate AttemptOk(s: State, i: nat)
    requires i < |s.attempts|
  {
    var a := s.attempts[i];
    && a.fence == i + 1
    && (s.row.state.Running? && s.row.fence == a.fence ==>
          s.row.state.owner == a.owner && s.row.attempt == a.attempt && s.row.max == a.max)
    && (a.cause.JobFenced? && s.row.state.Running? ==> i + 1 < |s.attempts| || a.attempt < a.max)
    && (a.phase.Tracked? ==> a.owner.Client?)
  }

  /** A filed result is of a claim made; if the job still runs in it, the result can be applied to it. */
  predicate FiledOk(s: State, k: nat)
    requires k < |s.results|
  {
    var f := s.results[k];
    && 1 <= f.fence <= s.row.fence && WellFormed(f.result)
    && (s.row.state.Running? && s.row.fence == f.fence ==> LeavesAttempt(f.result, s.row.attempt, s.row.max))
  }

  ghost predicate EndedOk(s: State) {
    && Increasing(s.ended)
    && forall i :: 0 <= i < |s.ended| ==> s.ended[i] <= s.row.fence && (s.row.state.Running? ==> s.ended[i] < s.row.fence)
  }

  ghost predicate Inv(s: State) {
    && RowOk(s.row) && s.row.fence == |s.attempts| && (s.row.state.Running? ==> s.row.fence >= 1) && EndedOk(s)
    && (forall i :: 0 <= i < |s.attempts| ==> AttemptOk(s, i))
    && (forall k :: 0 <= k < |s.results| ==> FiledOk(s, k))
    && (forall id :: id in s.running ==>
          s.running[id] < |s.attempts| && s.attempts[s.running[id]].owner == Client(id) && s.attempts[s.running[id]].phase.Tracked?)
  }

  // ---------------------------------------------------------------- every step keeps it

  lemma ClaimKeepsInv(s: State, owner: Owner)
    requires Inv(s) && Enabled(s, Claim(owner))
    ensures Inv(After(s, Claim(owner)))
  {
    var t := After(s, Claim(owner));
    forall i | 0 <= i < |t.attempts| ensures AttemptOk(t, i) {
      if i < |s.attempts| { assert AttemptOk(s, i); }
    }
    forall k | 0 <= k < |t.results| ensures FiledOk(t, k) { assert FiledOk(s, k); }
  }

  // Steps of the attempts leave the row and what has ended as they were.
  lemma AttemptsKeepInv(s: State, t: State)
    requires Inv(s) && t.row == s.row && t.ended == s.ended && |t.attempts| == |s.attempts| && s.results <= t.results
    requires forall i :: 0 <= i < |s.attempts| ==>
               t.attempts[i] == s.attempts[i].(phase := t.attempts[i].phase, cause := t.attempts[i].cause)
               && (t.attempts[i].cause.JobFenced? && s.row.state.Running? ==>
                     s.attempts[i].cause.JobFenced? || i + 1 < |s.attempts| || s.attempts[i].attempt < s.attempts[i].max)
               && (t.attempts[i].phase.Tracked? ==> s.attempts[i].phase.Tracked? || s.attempts[i].owner.Client?)
    requires forall k :: |s.results| <= k < |t.results| ==> FiledOk(t, k)
    requires forall id :: id in t.running ==>
               t.running[id] < |t.attempts| && t.attempts[t.running[id]].owner == Client(id) && t.attempts[t.running[id]].phase.Tracked?
    ensures Inv(t)
  {
    forall i | 0 <= i < |t.attempts| ensures AttemptOk(t, i) { assert AttemptOk(s, i); }
    forall k | 0 <= k < |t.results| ensures FiledOk(t, k) {
      if k < |s.results| { assert FiledOk(s, k); }
    }
  }

  lemma TrackKeepsInv(s: State, i: nat)
    requires Inv(s) && Enabled(s, Track(i)) && SparesLast(s, i)
    ensures Inv(After(s, Track(i)))
  {
    AttemptsKeepInv(s, After(s, Track(i)));
  }

  // The result of an attempt applies to its claim, or its claim is over.
  lemma ReturnIsFiledOk(s: State, i: nat, facts: Facts)
    requires Inv(s) && Enabled(s, Return(i, facts))
    ensures FiledOk(After(s, Return(i, facts)), |s.results|)
  {
    assert AttemptOk(s, i);
  }

  lemma ReturnKeepsInv(s: State, i: nat, facts: Facts)
    requires Inv(s) && Enabled(s, Return(i, facts))
    ensures Inv(After(s, Return(i, facts)))
  {
    ReturnIsFiledOk(s, i, facts);
    assert AttemptOk(s, i);
    AttemptsKeepInv(s, After(s, Return(i, facts)));
  }

  lemma FileKeepsInv(s: State, e: Step)
    requires Inv(s) && Enabled(s, e) && (e.Unrun? || e.FinishLeased? || e.Rescue?)
    ensures Inv(After(s, e))
  {
    if !e.Rescue? { assert AttemptOk(s, e.i); }
    AttemptsKeepInv(s, After(s, e));
  }

  // Ending the claim the job runs in, by a result that leaves it an attempt, makes every other result of the claim stale.
  lemma EndKeepsInv(s: State, r: Result)
    requires Inv(s) && s.row.state.Running? && WellFormed(r) && LeavesAttempt(r, s.row.attempt, s.row.max)
    ensures Inv(End(s, r))
  {
    var t := End(s, r);
    forall i | 0 <= i < |t.attempts| ensures AttemptOk(t, i) { assert AttemptOk(s, i); }
    forall k | 0 <= k < |t.results| ensures FiledOk(t, k) { assert FiledOk(s, k); }
  }

  lemma ApplyKeepsInv(s: State, k: nat)
    requires Inv(s) && Enabled(s, Apply(k))
    ensures Inv(After(s, Apply(k)))
  {
    var f := s.results[k];
    assert FiledOk(s, k);
    if s.row.state == Running(f.owner) && s.row.fence == f.fence { EndKeepsInv(s, f.result); }
  }

  lemma OperatorKeepsInv(s: State, e: Step)
    requires Inv(s) && Enabled(s, e) && (e.Cancel? || e.Expire? || e.Retry?)
    ensures Inv(After(s, e))
  {
    var t := After(s, e);
    forall i | 0 <= i < |t.attempts| ensures AttemptOk(t, i) { assert AttemptOk(s, i); }
    forall k | 0 <= k < |t.results| ensures FiledOk(t, k) { assert FiledOk(s, k); }
  }

  lemma StepKeepsInv(s: State, e: Step)
    requires Inv(s) && Enabled(s, e) && (e.Track? ==> SparesLast(s, e.i))
    ensures Inv(After(s, e))
  {
    match e
    case Claim(owner) => ClaimKeepsInv(s, owner);
    case Track(i) => TrackKeepsInv(s, i);
    case Interrupt(i, cause) =>
      assert AttemptOk(s, i);
      AttemptsKeepInv(s, After(s, e));
    case Return(i, facts) => ReturnKeepsInv(s, i, facts);
    case Unrun(_) => FileKeepsInv(s, e);
    case FinishLeased(_, _, _, _) => FileKeepsInv(s, e);
    case Rescue => FileKeepsInv(s, e);
    case Apply(k) => ApplyKeepsInv(s, k);
    case ExpireLease =>
      EndKeepsInv(s, Ends(if s.row.attempt < s.row.max && !s.row.cancelRequested then Retryable
                          else if s.row.cancelRequested then Canceled else Discarded));
    case Cancel => OperatorKeepsInv(s, e);
    case Expire => OperatorKeepsInv(s, e);
    case Retry => OperatorKeepsInv(s, e);
  }

  lemma {:induction false} RunKeepsInv(s: State, steps: seq<Step>, t: State)
    requires Inv(s) && SparingRun(s, steps, t)
    ensures Inv(t)
    decreases |steps|
  {
    if steps == [] {
    } else {
      StepKeepsInv(s, steps[0]);
      RunKeepsInv(After(s, steps[0]), steps[1..], t);
    }
  }

  // ---------------------------------------------------------------- what every run promises

  // However claims, results, rescues, expiries and operators interleave, a
  // waiting job has an attempt to use, a running one uses at most its last, the
  // claims' fences count up by one, and each claim is ended at most once, in
  // the order of the claims.
  lemma AttemptsStayWithinMax(s: State, steps: seq<Step>, t: State)
    requires Init(s) && SparingRun(s, steps, t)
    ensures t.row.state.Waiting? ==> 0 <= t.row.attempt < t.row.max
    ensures t.row.state.Running? ==> 1 <= t.row.attempt <= t.row.max
    ensures t.row.fence == |t.attempts| && forall i :: 0 <= i < |t.attempts| ==> t.attempts[i].fence == i + 1
    ensures Increasing(t.ended)
  {
    RunKeepsInv(s, steps, t);
    forall i | 0 <= i < |t.attempts| ensures t.attempts[i].fence == i + 1 { assert AttemptOk(t, i); }
  }

  // A replaced attempt, which asks for a retry even on the last attempt, is
  // harmless: a later claim has raised the fence, the job no longer runs in its
  // claim, or it is not the last attempt.
  lemma ReplacedIsHarmless(s: State, steps: seq<Step>, t: State, i: nat)
    requires Init(s) && SparingRun(s, steps, t) && i < |t.attempts| && t.attempts[i].cause.JobFenced?
    ensures t.attempts[i].fence < t.row.fence || !t.row.state.Running? || t.row.attempt < t.row.max
  {
    RunKeepsInv(s, steps, t);
    assert AttemptOk(t, i);
  }

  // ---------------------------------------------------------------- the latest claim spared

  /** Tracking attempt i does not cancel the attempt of the job's latest claim. */
  predicate SparesLatest(s: State, i: nat)
    requires i < |s.attempts| && s.attempts[i].owner.Client?
  {
    var id := s.attempts[i].owner.id;
    id in s.running && s.running[id] < |s.attempts| && s.attempts[s.running[id]].cause.NoCause? ==> s.running[id] + 1 < |s.attempts|
  }

  /** A run in which no tracking of a claim cancels the attempt of the job's latest. */
  predicate LatestSparingRun(s: State, steps: seq<Step>, t: State)
    decreases |steps|
  {
    if steps == [] then s == t
    else
      && Enabled(s, steps[0]) && (steps[0].Track? ==> SparesLatest(s, steps[0].i))
      && LatestSparingRun(After(s, steps[0]), steps[1..], t)
  }

  // A client that tracks its claims of the job in the order it made them never cancels the latest.
  lemma InOrderSparesLatest(s: State, i: nat)
    requires Inv(s) && Enabled(s, Track(i)) && InOrder(s, i)
    ensures SparesLatest(s, i)
  {
    var id := s.attempts[i].owner.id;
    if id in s.running { assert s.running[id] < i; }
  }

  /** Every replaced attempt is of a claim before the latest. */
  predicate ReplacedAreStale(s: State) {
    forall i :: 0 <= i < |s.attempts| && s.attempts[i].cause.JobFenced? ==> i + 1 < |s.attempts|
  }

  lemma SparingStep(s: State, e: Step)
    requires Inv(s) && Enabled(s, e) && ReplacedAreStale(s) && (e.Track? ==> SparesLatest(s, e.i))
    ensures Inv(After(s, e)) && ReplacedAreStale(After(s, e))
  {
    StepKeepsInv(s, e);
  }

  lemma {:induction false} LatestSparingRunKeeps(s: State, steps: seq<Step>, t: State)
    requires Inv(s) && ReplacedAreStale(s) && LatestSparingRun(s, steps, t)
    ensures Inv(t) && ReplacedAreStale(t)
    decreases |steps|
  {
    if steps == [] {
    } else {
      SparingStep(s, steps[0]);
      LatestSparingRunKeeps(After(s, steps[0]), steps[1..], t);
    }
  }

  // As long as tracking spares the latest claim, the result of an attempt a
  // later claim replaced never applies: the claim after it has raised the fence.
  lemma ReplacedNeverApplies(s: State, steps: seq<Step>, t: State, i: nat)
    requires Init(s) && LatestSparingRun(s, steps, t) && i < |t.attempts| && t.attempts[i].cause.JobFenced?
    ensures t.attempts[i].fence < t.row.fence
  {
    LatestSparingRunKeeps(s, steps, t);
    assert AttemptOk(t, i);
  }

  // ---------------------------------------------------------------- claims tracked out of order

  const LAST := Facts(Some(Failure(None, false, false)), JobFenced, false, false, true, Hook(false, 0, None), false, 0)
  const ME := Client(7)

  lemma {:induction false} RunExtends(s: State, steps: seq<Step>, t: State, e: Step)
    requires Run(s, steps, t) && Enabled(t, e)
    ensures Run(s, steps + [e], After(t, e))
    decreases |steps|
  {
    if steps == [] {
    } else {
      RunExtends(After(s, steps[0]), steps[1..], t, e);
      assert (steps + [e])[1..] == steps[1..] + [e];
    }
  }

  // The tracking of a claim compares no fences. If a claim is rescued before
  // its client tracks it, and a later claim of the job is tracked there first,
  // the earlier one replaces the later when it is tracked. The replaced
  // attempt's fence is then current, and its retry applies on the last attempt.
  lemma TrackedOutOfOrderExceedsMax() returns (s: State, steps: seq<Step>, t: State)
    ensures Init(s) && Run(s, steps, t) && t.row.state.Waiting? && t.row.attempt == t.row.max
  {
    s := State(Row(Waiting, 0, 2, 0, false), [], map[], [], []);
    t, steps := s, [];
    RunExtends(s, steps, t, Claim(ME));
    t, steps := After(t, Claim(ME)), steps + [Claim(ME)];
    RunExtends(s, steps, t, Rescue);
    t, steps := After(t, Rescue), steps + [Rescue];
    RunExtends(s, steps, t, Apply(0));
    t, steps := After(t, Apply(0)), steps + [Apply(0)];
    RunExtends(s, steps, t, Claim(ME));
    t, steps := After(t, Claim(ME)), steps + [Claim(ME)];
    RunExtends(s, steps, t, Track(1));
    t, steps := After(t, Track(1)), steps + [Track(1)];
    RunExtends(s, steps, t, Track(0));
    t, steps := After(t, Track(0)), steps + [Track(0)];
    RunExtends(s, steps, t, Return(1, LAST));
    t, steps := After(t, Return(1, LAST)), steps + [Return(1, LAST)];
    RunExtends(s, steps, t, Apply(1));
    t, steps := After(t, Apply(1)), steps + [Apply(1)];
  }

  /** What is promised of a job's attempts. */
  predicate WithinMax(row: Row) {
    (row.state.Waiting? ==> row.attempt < row.max) && (row.state.Running? ==> row.attempt <= row.max)
  }

  // Canceling the attempt a job is running, on its last attempt, lets the job
  // wait with no attempt left: the worker fails and its result is applied.
  lemma UnsparedExceedsMax(s: State, i: nat) returns (steps: seq<Step>, t: State)
    requires Inv(s) && Enabled(s, Track(i)) && !SparesLast(s, i)
    ensures SparingRun(After(s, Track(i)), steps, t) && !WithinMax(t.row)
  {
    var r, k := s.running[s.attempts[i].owner.id], |s.results|;
    assert AttemptOk(s, r);
    var s1 := After(s, Track(i));
    assert s1.attempts[r] == s.attempts[r].(cause := JobFenced);
    var s2 := After(s1, Return(r, LAST));
    t := After(s2, Apply(k));
    steps := [Return(r, LAST), Apply(k)];
    assert steps[1..] == [Apply(k)] && steps[1..][1..] == [];
    assert SparingRun(s2, steps[1..], t);
  }

  predicate Reaches(s: State, steps: seq<Step>, t: State) {
    SparingRun(s, steps, t)
  }

  // The tracking of a claim is harmless to the bounds, whatever sparing run
  // follows it, if and only if it does not cancel the attempt the job is
  // running, on its last attempt.
  lemma TrackIsHarmlessIff(s: State, i: nat)
    requires Inv(s) && Enabled(s, Track(i))
    ensures SparesLast(s, i) <==> forall steps, t :: Reaches(After(s, Track(i)), steps, t) ==> WithinMax(t.row)
  {
    if SparesLast(s, i) {
      TrackKeepsInv(s, i);
      forall steps, t | Reaches(After(s, Track(i)), steps, t) ensures WithinMax(t.row) {
        RunKeepsInv(After(s, Track(i)), steps, t);
      }
    } else {
      var steps, t := UnsparedExceedsMax(s, i);
      assert Reaches(After(s, Track(i)), steps, t);
    }
  }
}
