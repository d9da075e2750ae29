/**
 Runs of the drain. In one its forced test is overtaken: it takes the
 finalizer for idle while a result handed in on time is still to be sent, and
 the result is left in the buffer, neither flushed nor dropped. In another the
 test is overtaken all the same and nothing is lost, and in the last the drain
 ends unforced, its result flushed.
 */
module FinalizerRuns {
  import opened FinalizerDrain
  import opened FinalizerStops

  lemma {:induction false} RunExtends(c: Config, s: State, steps: seq<Step>, t: State, e: Step)
    requires Run(c, s, steps, t) && Enabled(c, t, e)
    ensures Run(c, s, steps + [e], After(c, t, e))
    decreases |steps|
  {
    if steps == [] {
    } else {
      RunExtends(c, After(c, s, steps[0]), steps[1..], t, e);
      assert (steps + [e])[1..] == steps[1..] + [e];
    }
  }

  lemma {:induction false} RunsJoin(c: Config, s: State, first: seq<Step>, mid: State, second: seq<Step>, t: State)
    requires Run(c, s, first, mid) && Run(c, mid, second, t)
    ensures Run(c, s, first + second, t)
    decreases |first|
  {
    if first == [] {
      assert first + second == second;
    } else {
      RunsJoin(c, After(c, s, first[0]), first[1..], mid, second, t);
      RunPrepends(c, s, first[0], first[1..] + second, t);
      FirstOfJoin(first, second);
    }
  }

  lemma FirstOfJoin<T>(a: seq<T>, b: seq<T>)
    requires a != []
    ensures a + b == [a[0]] + (a[1..] + b)
  {
  }

  const ROOM := Config(1, 0)

  /** A submit without a log, and one the drain refused. */
  function Plain(phase: Phase, place: Place): Submit {
    Submit(0, false, false, false, false, phase, place)
  }

  function Late(phase: Phase, place: Place): Submit {
    Submit(0, false, true, false, false, phase, place)
  }

  const START := State([], false, {}, [], [], false, false, Unset, false, 0, Running)

  // The states of a drain with one submit of its own in flight, x, to which two refused ones come.

  function Unforced(x: Submit): State {
    State([x], false, {}, [], [], true, false, Armed, false, 0, Loading(false))
  }

  function Expired(x: Submit): State {
    State([x], false, {}, [], [], true, false, Received, true, 0, Collecting)
  }

  function Stopped(x: Submit): State {
    State([x], true, {}, [], [], true, false, Received, true, 0, Waiting)
  }

  function Woken(x: Submit): State {
    State([x, Late(Finished, Dropped)], true, {1}, [], [], true, false, Received, true, 0, Collecting)
  }

  function TestLoaded(x: Submit): State {
    Woken(x).(pc := Loaded(true, 2, true))
  }

  function Overtook(x: Submit): State {
    State([x, Late(Finished, Dropped), Late(Signaling, Dropped)], true, {1, 2}, [], [], true, false, Received, true, 0,
          Loaded(true, 2, true))
  }

  function Over(x: Submit): State {
    Overtook(x).(pc := Returned(true, true, true))
  }

  lemma ReachExpired(x: Submit) returns (steps: seq<Step>)
    ensures Run(ROOM, Unforced(x), steps, Expired(x))
  {
    var unforced, blocked := Test(Unforced(x), false);
    steps := Expire(blocked);
    RunsJoin(ROOM, Unforced(x), unforced, blocked, steps, Expired(x));
    steps := unforced + steps;
  }

  lemma Expire(s: State) returns (steps: seq<Step>)
    requires s.pc.Waiting? && s.timer.Armed? && !s.past
    ensures Run(ROOM, s, steps, s.(past := true, timer := Received, pc := Collecting))
  {
    var t := s;
    steps := [];
    RunExtends(ROOM, s, steps, t, PassDeadline);
    t, steps := After(ROOM, t, PassDeadline), steps + [PassDeadline];
    RunExtends(ROOM, s, steps, t, FireTimer);
    t, steps := After(ROOM, t, FireTimer), steps + [FireTimer];
    RunExtends(ROOM, s, steps, t, TakeExpiry);
    t, steps := After(ROOM, t, TakeExpiry), steps + [TakeExpiry];
  }

  // The loads of a test nothing overtakes.
  lemma Loads(s: State, idle: bool) returns (steps: seq<Step>, t: State)
    requires s.pc.Loading? && !Overtaken(s, |s.subs|) && (idle <==> |s.counted| == |s.subs| && s.buffer == [])
    ensures t == s.(pc := Decided(s.pc.force, |s.subs|, s.stop, false, idle)) && Run(ROOM, s, steps, t)
  {
    t, steps := s, [];
    RunExtends(ROOM, s, steps, t, LoadSubmits);
    t, steps := After(ROOM, t, LoadSubmits), steps + [LoadSubmits];
    assert !Overtaken(t, |s.subs|);
    RunExtends(ROOM, s, steps, t, LoadSubmitted);
    t, steps := After(ROOM, t, LoadSubmitted), steps + [LoadSubmitted];
    RunExtends(ROOM, s, steps, t, LoadLength);
    t, steps := After(ROOM, t, LoadLength), steps + [LoadLength];
  }

  // A test that finds the submit in flight; a forced one sets the stop bit all the same.
  lemma Test(s: State, force: bool) returns (steps: seq<Step>, t: State)
    requires s.pc == Loading(force) && |s.subs| == 1 && s.counted == {} && !s.stop
    ensures t == s.(stop := force, pc := Waiting) && Run(ROOM, s, steps, t)
  {
    steps, t := Loads(s, false);
    RunExtends(ROOM, s, steps, t, Conclude);
    t, steps := After(ROOM, t, Conclude), steps + [Conclude];
  }

  // The drain goes round once more, forced now, and stops taking submits.
  lemma ReachStopped(x: Submit) returns (steps: seq<Step>)
    ensures Run(ROOM, Expired(x), steps, Stopped(x))
  {
    steps := Round(Expired(x));
    var s := Expired(x).(pc := Loading(true));
    var forced, t := Test(s, true);
    RunsJoin(ROOM, Expired(x), steps, s, forced, t);
    steps := steps + forced;
  }

  // A round of the drain past its deadline with nothing to flush.
  lemma Round(s: State) returns (steps: seq<Step>)
    requires s.pc.Collecting? && s.past && s.batch == [] && s.buffer == [] && s.timer.Received?
    ensures Run(ROOM, s, steps, s.(pc := Loading(true)))
  {
    steps := [];
    RunExtends(ROOM, s, steps, s, Collected);
    steps := steps + [Collected];
    var t := s.(pc := Writing(true));
    RunExtends(ROOM, s, steps, t, Written);
    steps := steps + [Written];
  }

  // A submit that comes once the stop bit is set is refused and done.
  lemma RefusedRun(s: State) returns (steps: seq<Step>)
    requires s.stop
    ensures Run(ROOM, s, steps, s.(subs := s.subs + [Late(Signaling, Dropped)], counted := s.counted + {|s.subs|}))
  {
    var id, t := |s.subs|, s;
    steps := [];
    RunExtends(ROOM, s, steps, t, Begin(0, false));
    t, steps := After(ROOM, t, Begin(0, false)), steps + [Begin(0, false)];
    RunExtends(ROOM, s, steps, t, DropRefused(id));
    t, steps := After(ROOM, t, DropRefused(id)), steps + [DropRefused(id)];
    RunExtends(ROOM, s, steps, t, Count(id));
    t, steps := After(ROOM, t, Count(id)), steps + [Count(id)];
    assert t.subs == s.subs + [Late(Signaling, Dropped)];
  }

  // Its end wakes the drain.
  lemma ReachWoken(x: Submit) returns (steps: seq<Step>)
    ensures Run(ROOM, Stopped(x), steps, Woken(x))
  {
    steps := RefusedRun(Stopped(x));
    var s := Stopped(x).(subs := [x] + [Late(Signaling, Dropped)], counted := {} + {1});
    RunExtends(ROOM, Stopped(x), steps, s, Signal(1));
    s, steps := After(ROOM, s, Signal(1)), steps + [Signal(1)];
    RunExtends(ROOM, Stopped(x), steps, s, TakeLeft);
    s, steps := After(ROOM, s, TakeLeft), steps + [TakeLeft];
    assert s.subs == Woken(x).subs && s.counted == Woken(x).counted && s == Woken(x);
  }

  // The drain loads the submits counter; a third submit starts and is done before it loads the other.
  lemma ReachLoaded(x: Submit) returns (steps: seq<Step>)
    ensures Run(ROOM, Woken(x), steps, TestLoaded(x))
  {
    steps := Round(Woken(x));
    RunExtends(ROOM, Woken(x), steps, Woken(x).(pc := Loading(true)), LoadSubmits);
    steps := steps + [LoadSubmits];
  }

  lemma ReachOvertook(x: Submit) returns (steps: seq<Step>)
    ensures Run(ROOM, TestLoaded(x), steps, Overtook(x))
  {
    steps := RefusedRun(TestLoaded(x));
    var s := TestLoaded(x);
    assert s.subs + [Late(Signaling, Dropped)] == Overtook(x).subs && s.counted + {2} == Overtook(x).counted;
  }

  // The test finds the counters equal and the finalizer idle.
  lemma ReachOver(x: Submit) returns (steps: seq<Step>)
    ensures Run(ROOM, Overtook(x), steps, Over(x))
  {
    var s := Overtook(x);
    assert 2 in s.counted && Overtaken(s, 2) && |s.counted| == 2;
    steps := OvertakenTest(s);
  }

  lemma OvertakenTest(s: State) returns (steps: seq<Step>)
    requires s.pc == Loaded(true, 2, true) && |s.counted| == 2 && Overtaken(s, 2) && s.buffer == []
    ensures Run(ROOM, s, steps, s.(pc := Returned(true, true, true)))
  {
    var t := s;
    steps := [];
    RunExtends(ROOM, s, steps, t, LoadSubmitted);
    t, steps := After(ROOM, t, LoadSubmitted), steps + [LoadSubmitted];
    RunExtends(ROOM, s, steps, t, LoadLength);
    t, steps := After(ROOM, t, LoadLength), steps + [LoadLength];
    RunExtends(ROOM, s, steps, t, Conclude);
    t, steps := After(ROOM, t, Conclude), steps + [Conclude];
  }

  // However far the submit x is, as long as it is not done, the forced stop is overtaken.
  lemma OvertakenStop(x: Submit) returns (steps: seq<Step>)
    ensures Run(ROOM, Unforced(x), steps, Over(x))
  {
    steps := ReachExpired(x);
    var more := ReachStopped(x);
    RunsJoin(ROOM, Unforced(x), steps, Expired(x), more, Stopped(x));
    steps := steps + more;
    more := ReachWoken(x);
    RunsJoin(ROOM, Unforced(x), steps, Stopped(x), more, Woken(x));
    steps := steps + more;
    more := ReachLoaded(x);
    RunsJoin(ROOM, Unforced(x), steps, Woken(x), more, TestLoaded(x));
    steps := steps + more;
    more := ReachOvertook(x);
    RunsJoin(ROOM, Unforced(x), steps, TestLoaded(x), more, Overtook(x));
    steps := steps + more;
    more := ReachOver(x);
    RunsJoin(ROOM, Unforced(x), steps, Overtook(x), more, Over(x));
    steps := steps + more;
  }

  // The submit stamps its result in time and is held up before it sends it.
  lemma ReachSending() returns (steps: seq<Step>)
    ensures Run(ROOM, START, steps, Unforced(Plain(Sending, Out)))
  {
    var s := START;
    steps := [];
    RunExtends(ROOM, START, steps, s, Begin(0, false));
    s, steps := After(ROOM, s, Begin(0, false)), steps + [Begin(0, false)];
    RunExtends(ROOM, START, steps, s, Acquire(0));
    s, steps := After(ROOM, s, Acquire(0)), steps + [Acquire(0)];
    RunExtends(ROOM, START, steps, s, StopSignal);
    s, steps := After(ROOM, s, StopSignal), steps + [StopSignal];
    RunExtends(ROOM, START, steps, s, Stamp(0));
    s, steps := After(ROOM, s, Stamp(0)), steps + [Stamp(0)];
    assert s == State([Plain(Sending, Out)], false, {}, [], [], true, false, Unset, false, 0, Collecting);
    var more := FirstRound(s);
    RunsJoin(ROOM, START, steps, s, more, Unforced(Plain(Sending, Out)));
    steps := steps + more;
  }

  // The first round of the drain, with nothing to flush.
  lemma FirstRound(s: State) returns (steps: seq<Step>)
    requires s.pc.Collecting? && !s.past && s.batch == [] && s.buffer == [] && s.timer.Unset?
    ensures Run(ROOM, s, steps, s.(timer := Armed, pc := Loading(false)))
  {
    steps := [];
    RunExtends(ROOM, s, steps, s, Collected);
    steps := steps + [Collected];
    var t := s.(pc := Writing(false));
    RunExtends(ROOM, s, steps, t, Written);
    steps := steps + [Written];
  }

  // The overtaken stop loses a result: handed in on time by a submit that was
  // not refused, it sits in the buffer of a finalizer that has returned.
  lemma OvertakenStopLosesResult() returns (steps: seq<Step>, t: State)
    ensures Init(START) && Run(ROOM, START, steps, t)
    ensures t.pc.Returned? && t.buffer == [0] && |t.subs| > 0 && t.subs[0].place.Queued? && !t.subs[0].refused && !t.subs[0].late
  {
    var x := Plain(Sending, Out);
    steps := ReachSending();
    var more := OvertakenStop(x);
    RunsJoin(ROOM, START, steps, Unforced(x), more, Over(x));
    steps := steps + more;
    RunExtends(ROOM, START, steps, Over(x), Send(0));
    steps, t := steps + [Send(0)], After(ROOM, Over(x), Send(0));
  }

  // ---------------------------------------------------------------- a result flushed in time

  const SENT := State([Plain(Ending, Queued)], false, {}, [0], [], false, false, Unset, false, 0, Running)
  const BATCHED := State([Plain(Ending, Queued)], false, {}, [], [0], true, false, Unset, false, 0, Writing(false))

  lemma ReachSent() returns (steps: seq<Step>)
    ensures Run(ROOM, START, steps, SENT)
  {
    var s := START;
    steps := [];
    RunExtends(ROOM, START, steps, s, Begin(0, false));
    s, steps := After(ROOM, s, Begin(0, false)), steps + [Begin(0, false)];
    RunExtends(ROOM, START, steps, s, Acquire(0));
    s, steps := After(ROOM, s, Acquire(0)), steps + [Acquire(0)];
    RunExtends(ROOM, START, steps, s, Stamp(0));
    s, steps := After(ROOM, s, Stamp(0)), steps + [Stamp(0)];
    RunExtends(ROOM, START, steps, s, Send(0));
    s, steps := After(ROOM, s, Send(0)), steps + [Send(0)];
    assert s.subs == SENT.subs && s.buffer == SENT.buffer && s == SENT;
  }

  lemma ReachBatched() returns (steps: seq<Step>)
    ensures Run(ROOM, SENT, steps, BATCHED)
  {
    var s := SENT;
    steps := [];
    RunExtends(ROOM, SENT, steps, s, StopSignal);
    s, steps := After(ROOM, s, StopSignal), steps + [StopSignal];
    RunExtends(ROOM, SENT, steps, s, Take);
    s, steps := After(ROOM, s, Take), steps + [Take];
    RunExtends(ROOM, SENT, steps, s, Collected);
    s, steps := After(ROOM, s, Collected), steps + [Collected];
    assert s.buffer == [] && s.batch == [0] && s == BATCHED;
  }

  // The result is flushed, and its submit is still to count itself done.
  lemma ReachFlushed() returns (steps: seq<Step>)
    ensures Run(ROOM, START, steps, Unforced(Plain(Ending, Flushed)))
  {
    steps := ReachSent();
    var more := ReachBatched();
    RunsJoin(ROOM, START, steps, SENT, more, BATCHED);
    steps := steps + more;
    more := FlushAlone(BATCHED);
    var s := BATCHED.(subs := [Plain(Ending, Flushed)], batch := []);
    RunsJoin(ROOM, START, steps, BATCHED, more, s);
    steps := steps + more;
    RunExtends(ROOM, START, steps, s, Written);
    steps := steps + [Written];
  }

  // The flush of a single result without a log.
  lemma FlushAlone(s: State) returns (steps: seq<Step>)
    requires s.pc == Writing(false) && s.batch == [0] && s.subs == [Plain(Ending, Queued)]
    ensures Run(ROOM, s, steps, s.(subs := [Plain(Ending, Flushed)], batch := []))
  {
    steps := [];
    RunExtends(ROOM, s, steps, s, StartFlush(1));
    steps := steps + [StartFlush(1)];
    var t := s.(batch := [], pc := Flushing([], [0], InDrain(false)));
    assert s.batch[1..] == [] && s.batch[..1] == [0];
    FlushesAlone(t);
    RunExtends(ROOM, s, steps, t, FlushOne(false));
    steps := steps + [FlushOne(false)];
    steps := EndsAlone(s, steps, t.(subs := [Plain(Ending, Flushed)], pc := Flushing([0], [], InDrain(false))));
  }

  lemma EndsAlone(s: State, first: seq<Step>, t: State) returns (steps: seq<Step>)
    requires t.pc == Flushing([0], [], InDrain(false)) && t.subs == [Plain(Ending, Flushed)]
    requires Run(ROOM, s, first, t)
    ensures Run(ROOM, s, steps, t.(pc := Writing(false)))
  {
    ReleasedAlone(t);
    RunExtends(ROOM, s, first, t, EndFlush);
    steps := first + [EndFlush];
  }

  lemma FlushesAlone(s: State)
    requires s.pc == Flushing([], [0], InDrain(false)) && s.subs == [Plain(Ending, Queued)]
    ensures AfterRun(s, FlushOne(false)) == s.(subs := [Plain(Ending, Flushed)], pc := Flushing([0], [], InDrain(false)))
  {
    assert [] + [0] == [0] && s.pc.todo[1..] == [] && s.subs[0 := Plain(Ending, Flushed)] == [Plain(Ending, Flushed)];
  }

  lemma ReleasedAlone(s: State)
    requires s.subs == [Plain(Ending, Flushed)]
    ensures Release(s, [0]) == s
  {
    assert Change(s.subs, [], ReleaseIt) == s.subs;
    assert Change(s.subs, [0], ReleaseIt) == s.subs;
    assert BytesOf(s.subs, [0]) == 0;
  }

  // A stop can be overtaken and lose nothing: the one result was flushed before, and the others were refused.
  lemma OvertakenStopCanSettleAll() returns (steps: seq<Step>, t: State)
    ensures Init(START) && Run(ROOM, START, steps, t)
    ensures t.pc.Returned? && t.pc.overtaken && |t.subs| == 3 && AllSettled(t) && !t.subs[0].refused
  {
    var x := Plain(Ending, Flushed);
    steps := ReachFlushed();
    var more := OvertakenStop(x);
    RunsJoin(ROOM, START, steps, Unforced(x), more, Over(x));
    steps, t := steps + more, Over(x);
    assert Settled(t, 0);
  }

  // A test that finds the only submit done sets the stop bit and ends the drain.
  lemma IdleTest(s: State) returns (steps: seq<Step>, t: State)
    requires s.pc == Loading(false) && |s.subs| == 1 && s.counted == {0} && !s.stop && s.buffer == []
    ensures t == s.(stop := true, pc := Returned(false, false, false)) && Run(ROOM, s, steps, t)
  {
    assert |s.counted| == 1 && !Overtaken(s, 1);
    steps, t := Loads(s, true);
    RunExtends(ROOM, s, steps, t, Conclude);
    t, steps := After(ROOM, t, Conclude), steps + [Conclude];
  }

  lemma ReachCounted() returns (steps: seq<Step>, t: State)
    ensures Run(ROOM, START, steps, t) && t == Unforced(Plain(Finished, Flushed)).(counted := {0}, left := true)
  {
    steps := ReachFlushed();
    t := Unforced(Plain(Ending, Flushed));
    RunExtends(ROOM, START, steps, t, Count(0));
    t, steps := After(ROOM, t, Count(0)), steps + [Count(0)];
    RunExtends(ROOM, START, steps, t, Signal(0));
    t, steps := After(ROOM, t, Signal(0)), steps + [Signal(0)];
    assert t.subs == [Plain(Finished, Flushed)] && t.counted == {0};
  }

  // A drain can end through an unforced test, with a result flushed.
  lemma DrainCanEndUnforced() returns (steps: seq<Step>, t: State)
    ensures Init(START) && Run(ROOM, START, steps, t)
    ensures t.pc.Returned? && !t.pc.force && |t.subs| == 1 && t.subs[0].place.Flushed?
  {
    var s;
    steps, s := ReachCounted();
    var more;
    more, t := IdleTest(s);
    RunsJoin(ROOM, START, steps, s, more, t);
    steps := steps + more;
  }
}
