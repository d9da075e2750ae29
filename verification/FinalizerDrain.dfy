/**
 The finalizer's submits and its final drain, one atomic or channel operation
 to a step, interleaved in every way. Each submit is a goroutine of its own,
 the retry of a held result included. Its results pass through the bounded
 buffer to the run loop, which flushes them and, once it is stopped, drains
 them and ends on a test of two counters it loads one after the other.
 */
module FinalizerDrain {
  import opened Basics

  /** Where a submit's goroutine is. */
  datatype Phase = Refused | Acquiring | Stamping | Sending | Ending | Signaling | Finished

  /** Where its result is. Again is a held result, tried again by a submit of its own. */
  datatype Place = Out | Queued | Flushed | Again(retry: nat) | Dropped

  /** refused: the drain had ended when it started. late: handed in past the drain's deadline. holds: its bytes are acquired. */
  datatype Submit = Submit(bytes: nat, committed: bool, refused: bool, late: bool, holds: bool, phase: Phase, place: Place)

  datatype Back = InRun | InDrain(force: bool)

  /** Where the run loop is. n and bit are the submits counter as stopIfIdle loaded it, overtaken whether a later submit was done first. */
  datatype Pc =
    | Running
    | Flushing(did: seq<nat>, todo: seq<nat>, back: Back)
    | Collecting
    | Writing(force: bool)
    | Loading(force: bool)
    | Loaded(force: bool, n: nat, bit: bool)
    | Compared(force: bool, n: nat, bit: bool, overtaken: bool, equal: bool)
    | Decided(force: bool, n: nat, bit: bool, overtaken: bool, idle: bool)
    | Waiting
    | Returned(force: bool, bit: bool, overtaken: bool)

  datatype Timer = Unset | Armed | Fired | Received

  datatype Config = Config(capacity: nat, maxBytes: nat)

  /**
   The submits counter is twice |subs|, plus one once stop is set; the submitted
   counter is the number of submits counted. left holds a wake-up, past is
   whether the drain's deadline has passed, used the log budget's bytes.
   */
  datatype State = State(subs: seq<Submit>, stop: bool, counted: set<nat>, buffer: seq<nat>, batch: seq<nat>,
                         draining: bool, left: bool, timer: Timer, past: bool, used: int, pc: Pc)

  datatype Step =
    // of a submit
    | Begin(bytes: nat, committed: bool)
    | DropRefused(id: nat)
    | Acquire(id: nat)
    | GiveUp(id: nat)
    | Stamp(id: nat)
    | Send(id: nat)
    | SendDropped(id: nat)
    | Count(id: nat)
    | Signal(id: nat)
    // of the run loop
    | Take
    | StartFlush(size: nat)
    | FlushOne(again: bool)
    | EndFlush
    | StopSignal
    | Collected
    | Written
    | LoadSubmits
    | LoadSubmitted
    | LoadLength
    | Conclude
    | TakeLeft
    | TakeExpiry
    // of the clock
    | PassDeadline
    | FireTimer

  predicate Init(s: State) {
    s == State([], false, {}, [], [], false, false, Unset, false, 0, Running)
  }

  /** The submit, counted from now on: refused once the drain has ended. */
  function NewSubmit(s: State, bytes: nat, committed: bool): Submit {
    Submit(bytes, committed, s.stop, false, false, if s.stop then Refused else Acquiring, Out)
  }

  /** The submit of a held result's retry, which the run loop itself drops if it is refused. */
  function Retry(s: State, bytes: nat): Submit {
    var x := NewSubmit(s, bytes, false);
    if s.stop then x.(phase := Ending, place := Dropped) else x
  }

  predicate Fits(c: Config, s: State, bytes: nat) {
    s.used == 0 || s.used + bytes <= c.maxBytes || s.draining
  }

  predicate At(s: State, id: nat, phase: Phase) {
    id < |s.subs| && s.subs[id].phase == phase
  }

  predicate SubmitEnabled(c: Config, s: State, e: Step) {
    match e
    case Begin(_, _) => true
    case DropRefused(id) => At(s, id, Refused)
    case Acquire(id) => At(s, id, Acquiring) && (s.subs[id].bytes == 0 || Fits(c, s, s.subs[id].bytes))
    case GiveUp(id) => At(s, id, Acquiring) && s.subs[id].bytes > 0 && s.pc.Returned?
    case Stamp(id) => At(s, id, Stamping)
    case Send(id) => At(s, id, Sending) && |s.buffer| < c.capacity
    case SendDropped(id) => At(s, id, Sending) && s.pc.Returned?
    case Count(id) => At(s, id, Ending)
    case Signal(id) => At(s, id, Signaling)
    case _ => false
  }

  predicate RunEnabled(s: State, e: Step) {
    match e
    case Take => (s.pc.Running? || s.pc.Collecting? || s.pc.Waiting?) && s.buffer != []
    case StartFlush(size) =>
      && 0 < size <= |s.batch|
      && ((s.pc.Running? && size == |s.batch|) || s.pc.Writing?)
    case FlushOne(again) =>
      && s.pc.Flushing? && s.pc.todo != [] && s.pc.todo[0] < |s.subs|
      && (again ==> !s.subs[s.pc.todo[0]].committed)
    case EndFlush => s.pc.Flushing? && s.pc.todo == []
    case StopSignal => s.pc.Running?
    case Collected => s.pc.Collecting? && s.buffer == []
    case Written => s.pc.Writing? && s.batch == []
    case LoadSubmits => s.pc.Loading?
    case LoadSubmitted => s.pc.Loaded?
    case LoadLength => s.pc.Compared?
    case Conclude => s.pc.Decided?
    case TakeLeft => s.pc.Waiting? && s.left
    case TakeExpiry => s.pc.Waiting? && s.timer.Fired?
    case PassDeadline => !s.timer.Unset? && !s.past
    case FireTimer => s.timer.Armed? && s.past
    case _ => false
  }

  predicate Enabled(c: Config, s: State, e: Step) {
    SubmitEnabled(c, s, e) || RunEnabled(s, e)
  }

  function Set(s: State, id: nat, x: Submit): State
    requires id < |s.subs|
  {
    s.(subs := s.subs[id := x])
  }

  function AfterSubmit(c: Config, s: State, e: Step): State
    requires SubmitEnabled(c, s, e)
  {
    match e
    case Begin(bytes, committed) => s.(subs := s.subs + [NewSubmit(s, bytes, committed)])
    case DropRefused(id) => Set(s, id, s.subs[id].(phase := Ending, place := Dropped))
    case Acquire(id) =>
      var x := s.subs[id];
      Set(s, id, x.(phase := Stamping, holds := x.bytes > 0)).(used := s.used + x.bytes)
    case GiveUp(id) => Set(s, id, s.subs[id].(phase := Ending, place := Dropped))
    case Stamp(id) => Set(s, id, s.subs[id].(phase := Sending, late := s.draining && s.past))
    case Send(id) => Set(s, id, s.subs[id].(phase := Ending, place := Queued)).(buffer := s.buffer + [id])
    case SendDropped(id) => Set(s, id, s.subs[id].(phase := Ending, place := Dropped))
    case Count(id) => Set(s, id, s.subs[id].(phase := Signaling)).(counted := s.counted + {id})
    case Signal(id) => Set(s, id, s.subs[id].(phase := Finished)).(left := s.left || s.draining)
  }

  /** The result was handed in past the deadline, and needs a write. */
  predicate TooLate(s: State, id: nat) {
    id < |s.subs| && s.subs[id].late && !s.subs[id].committed
  }

  function Kept(s: State, ids: seq<nat>): seq<nat> {
    if ids == [] then []
    else (if TooLate(s, ids[0]) then [] else [ids[0]]) + Kept(s, ids[1..])
  }

  function LateOnes(s: State, ids: seq<nat>): seq<nat> {
    if ids == [] then []
    else (if TooLate(s, ids[0]) then [ids[0]] else []) + LateOnes(s, ids[1..])
  }

  /** subs with every one of ids changed by f. */
  function Change(subs: seq<Submit>, ids: seq<nat>, f: Submit -> Submit): (r: seq<Submit>)
    ensures |r| == |subs|
    ensures forall i :: 0 <= i < |subs| ==> i !in ids ==> r[i] == subs[i]
  {
    if ids == [] then subs
    else
      var rest := Change(subs, ids[1..], f);
      if ids[0] < |subs| then rest[ids[0] := f(subs[ids[0]])] else rest
  }

  function BytesOf(subs: seq<Submit>, ids: seq<nat>): nat {
    if ids == [] then 0
    else (if ids[0] < |subs| then subs[ids[0]].bytes else 0) + BytesOf(subs, ids[1..])
  }

  const DropIt := (x: Submit) => x.(place := Dropped, holds := false)
  const ReleaseIt := (x: Submit) => x.(holds := false)

  /** Drops the results of ids and releases their bytes. */
  function DropLate(s: State, ids: seq<nat>): State {
    s.(subs := Change(s.subs, ids, DropIt), used := s.used - BytesOf(s.subs, ids))
  }

  function Release(s: State, ids: seq<nat>): State {
    s.(subs := Change(s.subs, ids, ReleaseIt), used := s.used - BytesOf(s.subs, ids))
  }

  /** A submit done before this load had begun after the load of the submits counter, n of them. */
  predicate Overtaken(s: State, n: nat) {
    exists i :: i in s.counted && i >= n
  }

  function AfterRun(s: State, e: Step): State
    requires RunEnabled(s, e)
  {
    match e
    case Take =>
      s.(batch := s.batch + [s.buffer[0]], buffer := s.buffer[1..], pc := if s.pc.Running? then Running else Collecting)
    case StartFlush(size) =>
      s.(batch := s.batch[size..],
         pc := Flushing([], s.batch[..size], if s.pc.Running? then InRun else InDrain(s.pc.force)))
    case FlushOne(again) =>
      var id := s.pc.todo[0];
      var x := s.subs[id];
      var flushed := Set(s, id, x.(place := if again then Again(|s.subs|) else Flushed))
                       .(pc := Flushing(s.pc.did + [id], s.pc.todo[1..], s.pc.back));
      if again then flushed.(subs := flushed.subs + [Retry(s, x.bytes)]) else flushed
    case EndFlush =>
      Release(s, s.pc.did).(pc := match s.pc.back case InRun => Running case InDrain(force) => Writing(force))
    case StopSignal => s.(draining := true, pc := Collecting)
    case Collected =>
      if s.past then DropLate(s, LateOnes(s, s.batch)).(batch := Kept(s, s.batch), pc := Writing(true))
      else s.(pc := Writing(false))
    case Written => s.(timer := if s.timer.Unset? then Armed else s.timer, pc := Loading(s.pc.force))
    case LoadSubmits => s.(pc := Loaded(s.pc.force, |s.subs|, s.stop))
    case LoadSubmitted =>
      s.(pc := Compared(s.pc.force, s.pc.n, s.pc.bit, Overtaken(s, s.pc.n), |s.counted| == s.pc.n))
    case LoadLength => s.(pc := Decided(s.pc.force, s.pc.n, s.pc.bit, s.pc.overtaken, s.pc.equal && s.buffer == []))
    case Conclude =>
      if s.pc.bit || (!s.pc.idle && !s.pc.force) then Answer(s)
      else if |s.subs| == s.pc.n && !s.stop then Answer(s).(stop := true)
      else s.(pc := Loading(s.pc.force))
    case TakeLeft => s.(left := false, pc := Collecting)
    case TakeExpiry => s.(timer := Received, pc := Collecting)
    case PassDeadline => s.(past := true)
    case FireTimer => s.(timer := Fired)
  }

  /** stopIfIdle's answer ends the drain, or has it wait. */
  function Answer(s: State): State
    requires s.pc.Decided?
  {
    s.(pc := if s.pc.idle then Returned(s.pc.force, s.pc.bit, s.pc.overtaken) else Waiting)
  }

  function After(c: Config, s: State, e: Step): State
    requires Enabled(c, s, e)
  {
    if SubmitEnabled(c, s, e) then AfterSubmit(c, s, e) else AfterRun(s, e)
  }

  predicate Run(c: Config, s: State, steps: seq<Step>, t: State)
    decreases |steps|
  {
    if steps == [] then s == t
    else Enabled(c, s, steps[0]) && Run(c, After(c, s, steps[0]), steps[1..], t)
  }

  // ---------------------------------------------------------------- the invariant

  predicate HandingIn(p: Phase) {
    p.Refused? || p.Acquiring? || p.Stamping? || p.Sending?
  }

  /** The deadline has passed, and every test of the drain from now on is forced. */
  predicate PastDeadline(s: State) {
    s.past && (Forced(s.pc).Some? ==> Forced(s.pc).value) && (s.pc.Returned? ==> s.pc.force)
  }

  predicate SubmitOk(s: State, i: nat)
    requires i < |s.subs|
  {
    var x := s.subs[i];
    && (x.place.Out? <==> HandingIn(x.phase))
    && (x.phase.Refused? ==> x.refused)
    && (x.phase.Acquiring? || x.phase.Stamping? || x.phase.Sending? ==> !x.refused)
    && (x.refused ==> s.stop && (x.place.Out? || x.place.Dropped?))
    && (x.place.Dropped? ==> x.refused || (x.late && PastDeadline(s)) || (s.pc.Returned? && s.pc.overtaken))
    && (x.place.Again? ==> i < x.place.retry < |s.subs| && !x.committed
                           && (s.subs[x.place.retry].refused ==> s.subs[x.place.retry].place.Dropped? && PastDeadline(s)))
    && (i in s.counted <==> x.phase.Signaling? || x.phase.Finished?)
  }

  predicate SubmitsOk(s: State) {
    && (forall i :: 0 <= i < |s.subs| ==> SubmitOk(s, i))
    && (forall i :: i in s.counted ==> i < |s.subs|)
  }

  function Did(s: State): seq<nat> {
    if s.pc.Flushing? then s.pc.did else []
  }

  function Todo(s: State): seq<nat> {
    if s.pc.Flushing? then s.pc.todo else []
  }

  /** The results waiting to be flushed, in the order the run loop takes them. */
  function Queue(s: State): seq<nat> {
    Todo(s) + s.batch + s.buffer
  }

  predicate IsQueued(subs: seq<Submit>, i: nat) {
    i < |subs| && subs[i].place.Queued?
  }

  predicate WasFlushed(subs: seq<Submit>, i: nat) {
    i < |subs| && (subs[i].place.Flushed? || subs[i].place.Again?)
  }

  /** The queue holds the queued results, once each; those of the flush under way are flushed. */
  ghost predicate Holds(subs: seq<Submit>, did: seq<nat>, queue: seq<nat>) {
    && Distinct(did) && Distinct(queue)
    && (forall k :: 0 <= k < |did| ==> WasFlushed(subs, did[k]))
    && (forall k :: 0 <= k < |queue| ==> IsQueued(subs, queue[k]))
    && (forall i: nat :: IsQueued(subs, i) ==> i in queue)
  }

  ghost predicate QueueOk(s: State) {
    Holds(s.subs, Did(s), Queue(s))
  }

  /** Something will wake the drain: a wake-up is there, a result is, or a submit in flight will signal. */
  predicate Wakes(s: State) {
    s.left || s.buffer != [] || exists i :: 0 <= i < |s.subs| && !s.subs[i].phase.Finished?
  }

  /** Every submit up to n is done. */
  predicate AllCounted(s: State, n: nat) {
    forall i :: 0 <= i < n ==> i in s.counted
  }

  /** Every submit from n on was refused. */
  predicate RefusedFrom(s: State, n: nat) {
    forall i :: n <= i < |s.subs| ==> s.subs[i].refused
  }

  /** What the loads so far tell, while the submits counter has not moved or its stop bit was set. */
  predicate Settling(s: State, n: nat, bit: bool) {
    bit || (|s.subs| == n && !s.stop)
  }

  predicate PcOk(s: State) {
    match s.pc
    case Loaded(force, n, bit) => LoadOk(s, n, bit) && (|s.counted| <= n || Wakes(s))
    case Compared(force, n, bit, overtaken, equal) =>
      && LoadOk(s, n, bit) && (overtaken ==> n < |s.subs|)
      && (equal && !overtaken ==> AllCounted(s, n))
      && (!equal ==> Wakes(s))
    case Decided(force, n, bit, overtaken, idle) =>
      && LoadOk(s, n, bit) && (overtaken ==> n < |s.subs|)
      && (idle && !overtaken ==> AllCounted(s, n) && (Settling(s, n, bit) ==> s.buffer == []))
      && (!idle ==> Wakes(s))
    case Waiting => Wakes(s)
    case Returned(force, bit, overtaken) =>
      && s.stop && (!bit ==> !overtaken)
      && (!overtaken ==> s.buffer == [] && AllDone(s))
    case _ => true
  }

  predicate LoadOk(s: State, n: nat, bit: bool) {
    n <= |s.subs| && (bit ==> s.stop && RefusedFrom(s, n))
  }

  /** Every submit that was not refused is done. */
  predicate AllDone(s: State) {
    forall i :: 0 <= i < |s.subs| ==> s.subs[i].refused || i in s.counted
  }

  /** Past the drain's flushes nothing is batched; the stop bit is set by a forced test, or by the last one. */
  predicate DrainOk(s: State) {
    && (s.draining <==> !(s.pc.Running? || (s.pc.Flushing? && s.pc.back.InRun?)))
    && (s.pc.Loading? || s.pc.Loaded? || s.pc.Compared? || s.pc.Decided? || s.pc.Waiting? || s.pc.Returned? ==> s.batch == [])
    && (s.past ==> !s.timer.Unset?)
    && (s.stop && !s.pc.Returned? ==> s.past && s.draining)
    && (Forced(s.pc).Some? ==> (s.stop && !s.pc.Returned? ==> Forced(s.pc).value) && (Forced(s.pc).value ==> s.past))
    && (s.pc.Returned? && s.pc.bit ==> s.pc.force)
  }

  function Forced(pc: Pc): Option<bool> {
    match pc
    case Flushing(_, _, back) => (match back case InRun => None case InDrain(force) => Some(force))
    case Writing(force) => Some(force)
    case Loading(force) => Some(force)
    case Loaded(force, _, _) => Some(force)
    case Compared(force, _, _, _, _) => Some(force)
    case Decided(force, _, _, _, _) => Some(force)
    case _ => None
  }

  ghost predicate Inv(s: State) {
    SubmitsOk(s) && QueueOk(s) && PcOk(s) && DrainOk(s)
  }

  // ---------------------------------------------------------------- every step keeps it

  // A submit still to hand its result in is not done.
  lemma SendingIsInFlight(s: State, id: nat)
    requires SubmitsOk(s) && (At(s, id, Sending) || At(s, id, Acquiring))
    ensures !AllDone(s) && id !in s.counted && !s.subs[id].refused
  {
    assert SubmitOk(s, id);
  }

  lemma BeginKeepsSubmits(s: State, bytes: nat, committed: bool)
    requires SubmitsOk(s)
    ensures SubmitsOk(s.(subs := s.subs + [NewSubmit(s, bytes, committed)]))
  {
    var t := s.(subs := s.subs + [NewSubmit(s, bytes, committed)]);
    forall i | 0 <= i < |t.subs| ensures SubmitOk(t, i) {
      if i < |s.subs| { assert SubmitOk(s, i); }
    }
  }

  // The submit whose step it is.
  lemma SubmitKeepsOwn(c: Config, s: State, e: Step)
    requires SubmitsOk(s) && PcOk(s) && DrainOk(s) && SubmitEnabled(c, s, e) && !e.Begin?
    ensures SubmitOk(AfterSubmit(c, s, e), e.id)
  {
    assert SubmitOk(s, e.id);
    if e.GiveUp? || e.SendDropped? {
      GivingUpKeepsOwn(c, s, e);
    } else if e.Count? || e.Signal? {
      DoneKeepsOwn(c, s, e);
    }
  }

  lemma GivingUpKeepsOwn(c: Config, s: State, e: Step)
    requires SubmitsOk(s) && PcOk(s) && SubmitEnabled(c, s, e) && (e.GiveUp? || e.SendDropped?)
    ensures SubmitOk(AfterSubmit(c, s, e), e.id)
  {
    SendingIsInFlight(s, e.id);
    assert SubmitOk(s, e.id);
  }

  lemma DoneKeepsOwn(c: Config, s: State, e: Step)
    requires SubmitsOk(s) && SubmitEnabled(c, s, e) && (e.Count? || e.Signal?)
    ensures SubmitOk(AfterSubmit(c, s, e), e.id)
  {
    assert SubmitOk(s, e.id);
  }

  /** Only submit id has changed from s to t, as a step of its own changes it. */
  ghost predicate OnlyOwn(s: State, t: State, id: nat)
    requires id < |s.subs|
  {
    && |t.subs| == |s.subs| && t.subs == s.subs[id := t.subs[id]] && t.pc == s.pc && t.stop == s.stop && t.past == s.past
    && t.subs[id].refused == s.subs[id].refused && (s.subs[id].place.Dropped? ==> t.subs[id].place.Dropped?)
    && forall i :: i != id ==> (i in t.counted <==> i in s.counted)
  }

  lemma SubmitMovesOwn(c: Config, s: State, e: Step)
    requires SubmitsOk(s) && SubmitEnabled(c, s, e) && !e.Begin?
    ensures e.id < |s.subs| && OnlyOwn(s, AfterSubmit(c, s, e), e.id)
  {
    assert SubmitOk(s, e.id);
  }

  lemma OtherStaysOk(s: State, t: State, id: nat, i: nat)
    requires SubmitsOk(s) && id < |s.subs| && i < |s.subs| && i != id && OnlyOwn(s, t, id)
    ensures SubmitOk(t, i)
  {
    assert SubmitOk(s, i);
  }

  lemma SubmitKeepsSubmits(c: Config, s: State, e: Step)
    requires SubmitsOk(s) && PcOk(s) && DrainOk(s) && SubmitEnabled(c, s, e)
    ensures SubmitsOk(AfterSubmit(c, s, e))
  {
    if e.Begin? {
      BeginKeepsSubmits(s, e.bytes, e.committed);
    } else {
      var t := AfterSubmit(c, s, e);
      SubmitKeepsOwn(c, s, e);
      SubmitMovesOwn(c, s, e);
      forall i | 0 <= i < |s.subs| && i != e.id ensures SubmitOk(t, i) { OtherStaysOk(s, t, e.id, i); }
    }
  }

  lemma SubmitKeepsQueue(c: Config, s: State, e: Step)
    requires SubmitsOk(s) && QueueOk(s) && SubmitEnabled(c, s, e)
    ensures QueueOk(AfterSubmit(c, s, e))
  {
    var t := AfterSubmit(c, s, e);
    if e.Begin? {
      QueueSame(s, t);
    } else if e.Send? {
      assert SubmitOk(s, e.id);
      assert Queue(t) == Queue(s) + [e.id];
      QueueGrows(s.subs, Did(s), Queue(s), e.id, t.subs[e.id]);
    } else {
      SubmitKeepsPlace(c, s, e);
      QueueStays(s.subs, Did(s), Queue(s), e.id, t.subs[e.id]);
    }
  }

  // A submit's step but for its send leaves the result where it is, or drops it before it is handed in.
  lemma SubmitKeepsPlace(c: Config, s: State, e: Step)
    requires SubmitsOk(s) && SubmitEnabled(c, s, e) && !e.Begin? && !e.Send?
    ensures var t := AfterSubmit(c, s, e);
            && e.id < |s.subs| == |t.subs| && t.subs == s.subs[e.id := t.subs[e.id]] && Did(t) == Did(s) && Queue(t) == Queue(s)
            && (t.subs[e.id].place == s.subs[e.id].place || (s.subs[e.id].place.Out? && t.subs[e.id].place.Dropped?))
  {
    assert SubmitOk(s, e.id);
  }

  lemma QueueStays(subs: seq<Submit>, did: seq<nat>, queue: seq<nat>, id: nat, x: Submit)
    requires Holds(subs, did, queue) && id < |subs|
    requires x.place == subs[id].place || (subs[id].place.Out? && x.place.Dropped?)
    ensures Holds(subs[id := x], did, queue)
  {
    assert forall i: nat :: IsQueued(subs, i) <==> IsQueued(subs[id := x], i);
    assert forall i: nat :: WasFlushed(subs, i) ==> WasFlushed(subs[id := x], i);
  }

  lemma QueueGrows(subs: seq<Submit>, did: seq<nat>, queue: seq<nat>, id: nat, x: Submit)
    requires Holds(subs, did, queue) && id < |subs| && subs[id].place.Out? && x.place.Queued?
    ensures Holds(subs[id := x], did, queue + [id])
  {
    assert !IsQueued(subs, id) && id !in queue;
    assert forall i: nat :: IsQueued(subs[id := x], i) <==> IsQueued(subs, i) || i == id;
    assert forall i: nat :: WasFlushed(subs, i) ==> WasFlushed(subs[id := x], i);
  }

  // The queue is right as long as it holds what it held, and no other submit's result joined or left it.
  lemma QueueSame(s: State, t: State)
    requires QueueOk(s) && Did(t) == Did(s) && Queue(t) == Queue(s)
    requires forall i: nat :: IsQueued(s.subs, i) <==> IsQueued(t.subs, i)
    requires forall i: nat :: WasFlushed(s.subs, i) ==> WasFlushed(t.subs, i)
    ensures QueueOk(t)
  {
  }

  lemma SubmitKeepsDrain(c: Config, s: State, e: Step)
    requires DrainOk(s) && SubmitEnabled(c, s, e)
    ensures DrainOk(AfterSubmit(c, s, e))
  {
  }

  // A submit's step never takes the wake-up away.
  lemma SubmitKeepsWakes(c: Config, s: State, e: Step)
    requires SubmitEnabled(c, s, e) && s.draining && Wakes(s)
    ensures Wakes(AfterSubmit(c, s, e))
  {
    var t := AfterSubmit(c, s, e);
    if !t.left && t.buffer == [] {
      var i :| 0 <= i < |s.subs| && !s.subs[i].phase.Finished?;
      assert !t.subs[i].phase.Finished?;
    }
  }

  lemma CountWakes(c: Config, s: State, e: Step)
    requires SubmitEnabled(c, s, e) && e.Count?
    ensures Wakes(AfterSubmit(c, s, e))
  {
    assert !AfterSubmit(c, s, e).subs[e.id].phase.Finished?;
  }

  lemma SubmitKeepsLoad(c: Config, s: State, e: Step, n: nat, bit: bool)
    requires SubmitsOk(s) && SubmitEnabled(c, s, e) && LoadOk(s, n, bit)
    ensures LoadOk(AfterSubmit(c, s, e), n, bit)
    ensures AllCounted(s, n) ==> AllCounted(AfterSubmit(c, s, e), n)
  {
  }

  // With the submits counted done, or refused, none is left to hand in a result.
  lemma DoneKeepsEmpty(c: Config, s: State, e: Step, n: nat, bit: bool)
    requires SubmitsOk(s) && SubmitEnabled(c, s, e) && LoadOk(s, n, bit) && AllCounted(s, n)
    requires Settling(s, n, bit) ==> s.buffer == []
    requires Settling(AfterSubmit(c, s, e), n, bit)
    ensures AfterSubmit(c, s, e).buffer == []
  {
    if e.Send? { SendingIsInFlight(s, e.id); }
  }

  lemma SubmitKeepsLoaded(c: Config, s: State, e: Step)
    requires SubmitsOk(s) && PcOk(s) && SubmitEnabled(c, s, e) && s.draining && (s.pc.Loaded? || s.pc.Compared?)
    ensures PcOk(AfterSubmit(c, s, e))
  {
    if Wakes(s) { SubmitKeepsWakes(c, s, e); }
    if e.Count? { CountWakes(c, s, e); }
    SubmitKeepsLoad(c, s, e, s.pc.n, s.pc.bit);
  }

  lemma SubmitKeepsDecided(c: Config, s: State, e: Step)
    requires SubmitsOk(s) && PcOk(s) && SubmitEnabled(c, s, e) && s.draining && s.pc.Decided?
    ensures PcOk(AfterSubmit(c, s, e))
  {
    var n, bit := s.pc.n, s.pc.bit;
    if Wakes(s) { SubmitKeepsWakes(c, s, e); }
    SubmitKeepsLoad(c, s, e, n, bit);
    if s.pc.idle && !s.pc.overtaken && Settling(AfterSubmit(c, s, e), n, bit) { DoneKeepsEmpty(c, s, e, n, bit); }
  }

  lemma SubmitKeepsReturned(c: Config, s: State, e: Step)
    requires SubmitsOk(s) && PcOk(s) && SubmitEnabled(c, s, e) && s.pc.Returned?
    ensures PcOk(AfterSubmit(c, s, e))
  {
    if e.Send? { SendingIsInFlight(s, e.id); }
  }

  lemma SubmitKeepsPc(c: Config, s: State, e: Step)
    requires SubmitsOk(s) && PcOk(s) && DrainOk(s) && SubmitEnabled(c, s, e)
    ensures PcOk(AfterSubmit(c, s, e))
  {
    if s.pc.Loaded? || s.pc.Compared? {
      SubmitKeepsLoaded(c, s, e);
    } else if s.pc.Decided? {
      SubmitKeepsDecided(c, s, e);
    } else if s.pc.Returned? {
      SubmitKeepsReturned(c, s, e);
    } else if s.pc.Waiting? {
      SubmitKeepsWakes(c, s, e);
    }
  }

  lemma SubmitKeepsInv(c: Config, s: State, e: Step)
    requires Inv(s) && SubmitEnabled(c, s, e)
    ensures Inv(AfterSubmit(c, s, e))
  {
    SubmitKeepsSubmits(c, s, e);
    SubmitKeepsQueue(c, s, e);
    SubmitKeepsDrain(c, s, e);
    SubmitKeepsPc(c, s, e);
  }

  lemma LateAndKept(s: State, ids: seq<nat>)
    ensures forall i :: i in LateOnes(s, ids) <==> i in ids && TooLate(s, i)
    ensures forall i :: i in Kept(s, ids) <==> i in ids && !TooLate(s, i)
    ensures Distinct(ids) ==> Distinct(Kept(s, ids)) && Distinct(LateOnes(s, ids))
  {
    if ids != [] {
      LateAndKept(s, ids[1..]);
      assert ids == [ids[0]] + ids[1..];
      if Distinct(ids) {
        assert forall j :: 0 <= j < |ids[1..]| ==> ids[1..][j] == ids[j + 1] != ids[0];
        assert ids[0] !in ids[1..];
      }
    }
  }

  lemma {:induction false} Changed(subs: seq<Submit>, ids: seq<nat>, f: Submit -> Submit, i: nat)
    requires i in ids && i < |subs|
    ensures Change(subs, ids, f)[i] == f(subs[i])
    decreases |ids|
  {
    if i != ids[0] { Changed(subs, ids[1..], f, i); }
  }

  // What dropping the late results of the batch does to each submit.
  lemma DropLateAt(s: State, i: nat)
    requires i < |s.subs|
    ensures var t := DropLate(s, LateOnes(s, s.batch));
            && |t.subs| == |s.subs|
            && t.subs[i] == if i in s.batch && TooLate(s, i) then DropIt(s.subs[i]) else s.subs[i]
  {
    LateAndKept(s, s.batch);
    var lates := LateOnes(s, s.batch);
    if i in lates { Changed(s.subs, lates, DropIt, i); }
  }

  lemma DropLateKeepsSubmits(s: State)
    requires SubmitsOk(s) && QueueOk(s) && RunEnabled(s, Collected) && s.past
    ensures SubmitsOk(AfterRun(s, Collected))
  {
    var t := AfterRun(s, Collected);
    forall i | 0 <= i < |t.subs|
      ensures t.subs[i] == s.subs[i] || (t.subs[i] == DropIt(s.subs[i]) && s.subs[i].late && IsQueued(s.subs, i))
    {
      DroppedWasQueued(s, i);
    }
    forall i | 0 <= i < |t.subs| ensures SubmitOk(t, i) { assert SubmitOk(s, i); }
  }

  lemma DroppedWasQueued(s: State, i: nat)
    requires QueueOk(s) && RunEnabled(s, Collected) && s.past && i < |s.subs|
    ensures var t := DropLate(s, LateOnes(s, s.batch));
            && |t.subs| == |s.subs|
            && (t.subs[i] == s.subs[i] || (t.subs[i] == DropIt(s.subs[i]) && s.subs[i].late && IsQueued(s.subs, i)))
  {
    assert Queue(s) == s.batch;
    DropLateAt(s, i);
    if i in s.batch { var k :| 0 <= k < |s.batch| && s.batch[k] == i; assert IsQueued(s.subs, Queue(s)[k]); }
  }

  // The queue is right once the results that left it are not queued any more, and the rest are as they were.
  lemma QueueFiltered(subs: seq<Submit>, subs': seq<Submit>, queue: seq<nat>, kept: seq<nat>)
    requires Holds(subs, [], queue) && Distinct(kept) && |subs'| == |subs|
    requires forall i :: i in kept ==> i in queue
    requires forall i :: 0 <= i < |subs| ==> if i in queue && i !in kept then !subs'[i].place.Queued? else subs'[i] == subs[i]
    ensures Holds(subs', [], kept)
  {
    forall k | 0 <= k < |kept| ensures IsQueued(subs', kept[k]) {
      assert kept[k] in queue;
      var j :| 0 <= j < |queue| && queue[j] == kept[k];
      assert IsQueued(subs, queue[j]);
    }
    forall i: nat | IsQueued(subs', i) ensures i in kept {
      assert IsQueued(subs, i) || i in kept;
    }
  }

  lemma KeptOf(s: State, ids: seq<nat>)
    requires Distinct(ids)
    ensures Distinct(Kept(s, ids)) && forall i :: i in Kept(s, ids) ==> i in ids
  {
    LateAndKept(s, ids);
  }

  lemma LateLeaves(s: State, i: nat)
    requires i < |s.subs|
    ensures var x := DropLate(s, LateOnes(s, s.batch)).subs[i];
            if i in s.batch && i !in Kept(s, s.batch) then !x.place.Queued? else x == s.subs[i]
  {
    LateAndKept(s, s.batch);
    DropLateAt(s, i);
  }

  lemma DropLateKeepsQueue(s: State)
    requires Holds(s.subs, [], s.batch)
    ensures Holds(DropLate(s, LateOnes(s, s.batch)).subs, [], Kept(s, s.batch))
  {
    KeptOf(s, s.batch);
    forall i | 0 <= i < |s.subs|
      ensures var x := DropLate(s, LateOnes(s, s.batch)).subs[i];
              if i in s.batch && i !in Kept(s, s.batch) then !x.place.Queued? else x == s.subs[i]
    {
      LateLeaves(s, i);
    }
    QueueFiltered(s.subs, DropLate(s, LateOnes(s, s.batch)).subs, s.batch, Kept(s, s.batch));
  }

  lemma CollectedKeepsQueue(s: State)
    requires QueueOk(s) && RunEnabled(s, Collected) && s.past
    ensures QueueOk(AfterRun(s, Collected))
  {
    var t := AfterRun(s, Collected);
    assert Queue(s) == s.batch && Queue(t) == t.batch;
    DropLateKeepsQueue(s);
  }

  lemma EndFlushKeeps(s: State)
    requires SubmitsOk(s) && QueueOk(s) && RunEnabled(s, EndFlush)
    ensures SubmitsOk(AfterRun(s, EndFlush)) && QueueOk(AfterRun(s, EndFlush))
  {
    var t := AfterRun(s, EndFlush);
    forall i | 0 <= i < |t.subs|
      ensures t.subs[i] == s.subs[i] || t.subs[i] == s.subs[i].(holds := false)
    {
      if i in s.pc.did { Changed(s.subs, s.pc.did, ReleaseIt, i); }
    }
    forall i | 0 <= i < |t.subs| ensures SubmitOk(t, i) { assert SubmitOk(s, i); }
    assert Queue(t) == Queue(s);
    assert forall i: nat :: IsQueued(s.subs, i) <==> IsQueued(t.subs, i);
  }

  lemma FlushOneKeepsSubmits(s: State, again: bool)
    requires SubmitsOk(s) && QueueOk(s) && DrainOk(s) && RunEnabled(s, FlushOne(again))
    ensures SubmitsOk(AfterRun(s, FlushOne(again)))
  {
    var t := AfterRun(s, FlushOne(again));
    assert Queue(s)[0] == s.pc.todo[0] && IsQueued(s.subs, s.pc.todo[0]);
    forall i | 0 <= i < |t.subs| ensures SubmitOk(t, i) {
      if i < |s.subs| { assert SubmitOk(s, i); }
    }
  }

  // Only the first result of the queue leaves it, and was not flushed before.
  lemma {:induction false} QueueMoves(subs: seq<Submit>, subs': seq<Submit>, did: seq<nat>, queue: seq<nat>)
    requires queue != [] && Holds(subs, did, queue)
    requires |subs| <= |subs'| && WasFlushed(subs', queue[0])
    requires forall i :: 0 <= i < |subs| && i != queue[0] ==> subs'[i] == subs[i]
    requires forall i :: |subs| <= i < |subs'| ==> !subs'[i].place.Queued?
    ensures Holds(subs', did + [queue[0]], queue[1..])
  {
    var id, rest := queue[0], queue[1..];
    assert IsQueued(subs, id);
    assert forall k :: 0 <= k < |rest| ==> rest[k] == queue[k + 1] && rest[k] != id;
    forall i: nat | IsQueued(subs', i) ensures i in rest {
      assert IsQueued(subs, i) && i in queue && i != id;
    }
    forall k | 0 <= k < |did| ensures did[k] != id && WasFlushed(subs', did[k]) {
      assert WasFlushed(subs, did[k]);
    }
  }

  lemma TailOfJoin<T>(a: seq<T>, b: seq<T>, c: seq<T>)
    requires a != []
    ensures (a + b + c)[0] == a[0] && (a + b + c)[1..] == a[1..] + b + c
  {
  }

  lemma FlushOneShifts(s: State, again: bool)
    requires RunEnabled(s, FlushOne(again))
    ensures var t := AfterRun(s, FlushOne(again));
            Queue(s) != [] && Queue(t) == Queue(s)[1..] && Did(t) == Did(s) + [Queue(s)[0]]
  {
    TailOfJoin(s.pc.todo, s.batch, s.buffer);
  }

  lemma FlushOneKeeps(s: State, again: bool)
    requires SubmitsOk(s) && QueueOk(s) && DrainOk(s) && RunEnabled(s, FlushOne(again))
    ensures SubmitsOk(AfterRun(s, FlushOne(again))) && QueueOk(AfterRun(s, FlushOne(again)))
  {
    FlushOneKeepsSubmits(s, again);
    FlushOneShifts(s, again);
    QueueMoves(s.subs, AfterRun(s, FlushOne(again)).subs, Did(s), Queue(s));
  }

  lemma TakeKeepsQueue(s: State)
    requires RunEnabled(s, Take)
    ensures Queue(AfterRun(s, Take)) == Queue(s)
  {
    assert s.buffer == [s.buffer[0]] + s.buffer[1..];
  }

  lemma StartFlushKeepsQueue(s: State, size: nat)
    requires RunEnabled(s, StartFlush(size))
    ensures Queue(AfterRun(s, StartFlush(size))) == Queue(s)
  {
    assert s.batch == s.batch[..size] + s.batch[size..];
  }

  lemma RunKeepsQueue(s: State, e: Step)
    requires SubmitsOk(s) && QueueOk(s) && DrainOk(s) && RunEnabled(s, e)
    ensures SubmitsOk(AfterRun(s, e)) && QueueOk(AfterRun(s, e))
  {
    if e.FlushOne? {
      FlushOneKeeps(s, e.again);
    } else if e.EndFlush? {
      EndFlushKeeps(s);
    } else if e.Collected? && s.past {
      DropLateKeepsSubmits(s);
      CollectedKeepsQueue(s);
    } else {
      OthersKeepQueue(s, e);
    }
  }

  lemma OthersKeepQueue(s: State, e: Step)
    requires SubmitsOk(s) && QueueOk(s) && RunEnabled(s, e)
    requires !e.FlushOne? && !e.EndFlush? && !(e.Collected? && s.past)
    ensures SubmitsOk(AfterRun(s, e)) && QueueOk(AfterRun(s, e))
  {
    OthersKeepSubmits(s, e);
    OthersKeepDeadline(s, e);
    SameSubmits(s, AfterRun(s, e));
  }

  lemma OthersKeepSubmits(s: State, e: Step)
    requires RunEnabled(s, e) && !e.FlushOne? && !e.EndFlush? && !(e.Collected? && s.past)
    ensures var t := AfterRun(s, e);
            t.subs == s.subs && t.counted == s.counted && Did(t) == Did(s) && Queue(t) == Queue(s)
  {
    if e.Take? {
      TakeKeepsQueue(s);
    } else if e.StartFlush? {
      StartFlushKeepsQueue(s, e.size);
    }
  }

  lemma OthersKeepDeadline(s: State, e: Step)
    requires RunEnabled(s, e) && !e.FlushOne? && !e.EndFlush? && !(e.Collected? && s.past)
    ensures var t := AfterRun(s, e);
            (s.stop ==> t.stop) && (s.pc.Returned? ==> t.pc == s.pc) && (PastDeadline(s) ==> PastDeadline(t))
  {
  }

  lemma SameSubmits(s: State, t: State)
    requires SubmitsOk(s) && QueueOk(s) && t.subs == s.subs && t.counted == s.counted
    requires Did(t) == Did(s) && Queue(t) == Queue(s) && (s.stop ==> t.stop)
    requires (s.pc.Returned? ==> t.pc == s.pc) && (PastDeadline(s) ==> PastDeadline(t))
    ensures SubmitsOk(t) && QueueOk(t)
  {
    forall i | 0 <= i < |t.subs| ensures SubmitOk(t, i) { assert SubmitOk(s, i); }
    QueueSame(s, t);
  }

  lemma FlushKeepsDrain(s: State, e: Step)
    requires DrainOk(s) && RunEnabled(s, e) && (e.StartFlush? || e.FlushOne? || e.EndFlush? || e.Take? || e.StopSignal?)
    ensures DrainOk(AfterRun(s, e))
  {
  }

  lemma ConcludeKeepsDrain(s: State)
    requires DrainOk(s) && s.pc.Decided? && (s.pc.bit ==> s.stop)
    ensures DrainOk(AfterRun(s, Conclude))
  {
  }

  lemma OthersKeepDrain(s: State, e: Step)
    requires DrainOk(s) && RunEnabled(s, e) && !e.Conclude?
    requires !(e.StartFlush? || e.FlushOne? || e.EndFlush? || e.Take? || e.StopSignal?)
    ensures DrainOk(AfterRun(s, e))
  {
  }

  lemma RunKeepsDrain(s: State, e: Step)
    requires PcOk(s) && DrainOk(s) && RunEnabled(s, e)
    ensures DrainOk(AfterRun(s, e))
  {
    if e.Conclude? {
      ConcludeKeepsDrain(s);
    } else if e.StartFlush? || e.FlushOne? || e.EndFlush? || e.Take? || e.StopSignal? {
      FlushKeepsDrain(s, e);
    } else {
      OthersKeepDrain(s, e);
    }
  }

  lemma {:induction false} CardOfRange(a: set<nat>, n: nat)
    requires forall i :: i in a ==> i < n
    ensures |a| <= n && (|a| == n ==> forall i :: 0 <= i < n ==> i in a)
    decreases n
  {
    if n == 0 {
      assert a == {};
    } else {
      CardOfRange(a - {n - 1}, n - 1);
      if n - 1 in a { assert a == a - {n - 1} + {n - 1}; }
    }
  }

  // With fewer submits done than were counted, or more, one is still to signal or a wake-up is there.
  lemma UnequalWakes(s: State)
    requires SubmitsOk(s) && s.pc.Loaded? && PcOk(s) && |s.counted| != s.pc.n
    ensures Wakes(s)
  {
    if !Wakes(s) {
      forall i | 0 <= i < s.pc.n ensures i in s.counted {
        assert SubmitOk(s, i) && s.subs[i].phase.Finished?;
      }
      SubsetOfRange(s.counted, s.pc.n);
    }
  }

  lemma {:induction false} SubsetOfRange(a: set<nat>, n: nat)
    requires forall i :: 0 <= i < n ==> i in a
    ensures |a| >= n
    decreases n
  {
    if n == 0 {
    } else {
      SubsetOfRange(a - {n - 1}, n - 1);
    }
  }

  lemma LoadKeepsPc(s: State, e: Step)
    requires Inv(s) && RunEnabled(s, e) && (e.LoadSubmits? || e.LoadSubmitted? || e.LoadLength?)
    ensures PcOk(AfterRun(s, e))
  {
    match e
    case LoadSubmits => CardOfRange(s.counted, |s.subs|);
    case LoadSubmitted =>
      if |s.counted| != s.pc.n {
        UnequalWakes(s);
      } else if !Overtaken(s, s.pc.n) {
        CardOfRange(s.counted, s.pc.n);
      }
    case LoadLength =>
  }

  lemma ConcludeKeepsPc(s: State)
    requires Inv(s) && s.pc.Decided?
    ensures PcOk(AfterRun(s, Conclude))
  {
    forall i | 0 <= i < |s.subs| ensures SubmitOk(s, i) {}
  }

  lemma RunKeepsPc(s: State, e: Step)
    requires Inv(s) && RunEnabled(s, e)
    ensures PcOk(AfterRun(s, e))
  {
    match e
    case LoadSubmits => LoadKeepsPc(s, e);
    case LoadSubmitted => LoadKeepsPc(s, e);
    case LoadLength => LoadKeepsPc(s, e);
    case Conclude => ConcludeKeepsPc(s);
    case _ =>
  }

  // Every step keeps the invariant.
  lemma StepKeepsInv(c: Config, s: State, e: Step)
    requires Inv(s) && Enabled(c, s, e)
    ensures Inv(After(c, s, e))
  {
    if SubmitEnabled(c, s, e) {
      SubmitKeepsInv(c, s, e);
    } else {
      RunKeepsQueue(s, e);
      RunKeepsDrain(s, e);
      RunKeepsPc(s, e);
    }
  }

  lemma {:induction false} RunKeepsInv(c: Config, s: State, steps: seq<Step>, t: State)
    requires Inv(s) && Run(c, s, steps, t)
    ensures Inv(t)
    decreases |steps|
  {
    if steps == [] {
    } else {
      StepKeepsInv(c, s, steps[0]);
      RunKeepsInv(c, After(c, s, steps[0]), steps[1..], t);
    }
  }

  lemma InitHolds(s: State)
    requires Init(s)
    ensures Inv(s)
  {
  }

  // ---------------------------------------------------------------- what every drain promises

  /** The submit a result's retries ended with. */
  function Fate(subs: seq<Submit>, i: nat): (r: nat)
    requires i < |subs|
    ensures i <= r < |subs|
    decreases |subs| - i
  {
    if subs[i].place.Again? && i < subs[i].place.retry < |subs| then Fate(subs, subs[i].place.retry) else i
  }

  /** The result was flushed, or dropped by a drain past its deadline: handed in late, or tried again too late. */
  predicate Settled(s: State, i: nat)
    requires i < |s.subs|
  {
    var x := s.subs[Fate(s.subs, i)];
    x.place.Flushed? || (x.place.Dropped? && (x.late || x.refused) && PastDeadline(s))
  }

  /** Every result is handed in: the buffer is empty, and no submit but a refused one is still to send. */
  predicate HandedIn(s: State) {
    s.buffer == [] && forall i :: 0 <= i < |s.subs| && HandingIn(s.subs[i].phase) ==> s.subs[i].refused
  }

  /** Only refused results were dropped, and those handed in past the deadline. */
  predicate DroppedLate(s: State) {
    forall i :: 0 <= i < |s.subs| && s.subs[i].place.Dropped? ==> s.subs[i].refused || (s.subs[i].late && PastDeadline(s))
  }

  lemma {:induction false} HandedInIsSettled(s: State, i: nat)
    requires Inv(s) && s.pc.Returned? && HandedIn(s) && DroppedLate(s) && i < |s.subs|
    requires s.subs[i].refused ==> s.subs[i].place.Dropped? && PastDeadline(s)
    ensures Settled(s, i)
    decreases |s.subs| - i
  {
    assert SubmitOk(s, i);
    assert Queue(s) == [];
    assert !IsQueued(s.subs, i);
    if s.subs[i].place.Again? { HandedInIsSettled(s, s.subs[i].place.retry); }
  }

  lemma NotOvertakenIsHandedIn(s: State)
    requires Inv(s) && s.pc.Returned? && !s.pc.overtaken
    ensures HandedIn(s) && DroppedLate(s)
  {
    forall i | 0 <= i < |s.subs| && HandingIn(s.subs[i].phase) ensures s.subs[i].refused { assert SubmitOk(s, i); }
    OnTimeIsKept(s);
  }

  // Only a drain that was overtaken drops a result handed in on time.
  lemma OnTimeIsKept(s: State)
    requires SubmitsOk(s) && !(s.pc.Returned? && s.pc.overtaken)
    ensures DroppedLate(s)
  {
    forall i | 0 <= i < |s.subs| && s.subs[i].place.Dropped? ensures s.subs[i].refused || (s.subs[i].late && PastDeadline(s)) {
      assert SubmitOk(s, i);
    }
  }

  lemma DoneIsSettled(s: State, i: nat)
    requires Inv(s) && s.pc.Returned? && !s.pc.overtaken && i < |s.subs| && !s.subs[i].refused
    ensures Settled(s, i)
  {
    NotOvertakenIsHandedIn(s);
    HandedInIsSettled(s, i);
  }

  lemma RunFromInit(c: Config, s: State, steps: seq<Step>, t: State)
    requires Init(s) && Run(c, s, steps, t)
    ensures Inv(t)
  {
    InitHolds(s);
    RunKeepsInv(c, s, steps, t);
  }

  // A drain that ends through an unforced test has flushed the result of every
  // submit that started before it, the retries of held results included. None
  // is in flight or in the buffer, then or at any time after.
  lemma UnforcedStopFlushesAll(c: Config, s: State, steps: seq<Step>, t: State, i: nat)
    requires Init(s) && Run(c, s, steps, t)
    requires t.pc.Returned? && !t.pc.force && i < |t.subs| && !t.subs[i].refused
    ensures i in t.counted && t.subs[Fate(t.subs, i)].place.Flushed? && t.buffer == []
  {
    RunFromInit(c, s, steps, t);
    DoneIsSettled(t, i);
  }

  // A drain that ends through a forced test has flushed or dropped every such
  // result too, and dropped only late ones, unless a submit that began after
  // the test loaded the one counter was done before it loaded the other.
  lemma ForcedStopSettlesAll(c: Config, s: State, steps: seq<Step>, t: State, i: nat)
    requires Init(s) && Run(c, s, steps, t)
    requires t.pc.Returned? && !t.pc.overtaken && i < |t.subs| && !t.subs[i].refused
    ensures i in t.counted && Settled(t, i) && t.buffer == []
  {
    RunFromInit(c, s, steps, t);
    DoneIsSettled(t, i);
  }

  // Only a test that found the stop bit set already can be overtaken: the test that sets it is right.
  lemma StoppingTestIsRight(c: Config, s: State, steps: seq<Step>, t: State)
    requires Init(s) && Run(c, s, steps, t) && t.pc.Returned? && t.pc.overtaken
    ensures t.pc.force && t.pc.bit
  {
    RunFromInit(c, s, steps, t);
  }

  // With the counters found equal, the submits the first load counted are all
  // done if and only if none that began after it was done by the second.
  lemma EqualCountersAreRightIff(c: Config, s: State, steps: seq<Step>, t: State)
    requires Init(s) && Run(c, s, steps, t) && t.pc.Loaded? && |t.counted| == t.pc.n
    ensures AllCounted(t, t.pc.n) <==> !Overtaken(t, t.pc.n)
  {
    RunFromInit(c, s, steps, t);
    var n := t.pc.n;
    if !Overtaken(t, n) {
      CardOfRange(t.counted, n);
    } else if AllCounted(t, n) {
      var late :| late in t.counted && late >= n;
      SubsetOfRange(t.counted - {late}, n);
    }
  }

  /** The step submit i takes next, while the drain lasts. */
  function NextOf(s: State, i: nat): Step
    requires i < |s.subs|
  {
    match s.subs[i].phase
    case Refused => DropRefused(i)
    case Acquiring => Acquire(i)
    case Stamping => Stamp(i)
    case Sending => Send(i)
    case Ending => Count(i)
    case _ => Signal(i)
  }

  function StepsLeft(p: Phase): nat {
    match p
    case Refused => 3
    case Acquiring => 5
    case Stamping => 4
    case Sending => 3
    case Ending => 2
    case Signaling => 1
    case Finished => 0
  }

  /** One of the steps that take a submit from its start to its signal. */
  predicate IsOwn(e: Step) {
    e.DropRefused? || e.Acquire? || e.Stamp? || e.Send? || e.Count? || e.Signal?
  }

  predicate AllOf(steps: seq<Step>, i: nat) {
    forall k :: 0 <= k < |steps| ==> IsOwn(steps[k]) && steps[k].id == i
  }

  lemma NextIsEnabled(c: Config, s: State, i: nat)
    requires s.draining && i < |s.subs| && !s.subs[i].phase.Finished?
    requires s.subs[i].phase.Sending? ==> |s.buffer| < c.capacity
    ensures var e := NextOf(s, i);
            SubmitEnabled(c, s, e) && IsOwn(e) && e.id == i
  {
  }

  lemma OwnMoves(c: Config, s: State, e: Step)
    requires s.draining && SubmitEnabled(c, s, e) && IsOwn(e)
    requires HandingIn(s.subs[e.id].phase) ==> |s.buffer| < c.capacity
    ensures var t := AfterSubmit(c, s, e);
            && t.draining && |t.subs| == |s.subs| && StepsLeft(t.subs[e.id].phase) == StepsLeft(s.subs[e.id].phase) - 1
            && (HandingIn(t.subs[e.id].phase) ==> |t.buffer| < c.capacity)
            && (t.subs[e.id].phase.Finished? ==> t.left)
  {
  }

  /** The submit is in flight while the drain lasts, with room for its result. */
  predicate InFlight(c: Config, s: State, i: nat) {
    && s.draining && i < |s.subs| && !s.subs[i].phase.Finished?
    && (HandingIn(s.subs[i].phase) ==> |s.buffer| < c.capacity)
  }

  lemma OneStepOn(c: Config, s: State, i: nat) returns (e: Step, t: State)
    requires InFlight(c, s, i)
    ensures Enabled(c, s, e) && t == After(c, s, e) && IsOwn(e) && e.id == i
    ensures |t.subs| == |s.subs| && StepsLeft(t.subs[i].phase) == StepsLeft(s.subs[i].phase) - 1
    ensures InFlight(c, t, i) || (StepsLeft(t.subs[i].phase) == 0 && t.left)
  {
    e := NextOf(s, i);
    NextIsEnabled(c, s, i);
    OwnMoves(c, s, e);
    t := After(c, s, e);
  }

  lemma RunPrepends(c: Config, s: State, e: Step, steps: seq<Step>, t: State)
    requires Enabled(c, s, e) && Run(c, After(c, s, e), steps, t)
    ensures Run(c, s, [e] + steps, t)
  {
    assert ([e] + steps)[1..] == steps;
  }

  // With room in the buffer, a submit in flight gets to its signal by steps of its own.
  lemma {:induction false} SignalsAlone(c: Config, s: State, i: nat) returns (steps: seq<Step>, t: State)
    requires InFlight(c, s, i)
    ensures Run(c, s, steps, t) && AllOf(steps, i) && |steps| == StepsLeft(s.subs[i].phase) && t.left
    decreases StepsLeft(s.subs[i].phase)
  {
    var e, next := OneStepOn(c, s, i);
    if StepsLeft(next.subs[i].phase) == 0 {
      steps, t := [], next;
    } else {
      steps, t := SignalsAlone(c, next, i);
    }
    RunPrepends(c, s, e, steps, t);
    steps := [e] + steps;
  }

  // The drain never sleeps with nothing to wake it: with no result in the
  // buffer and no wake-up there, a submit is in flight, and at most five steps
  // of its own, each of them enabled as its turn comes, leave the drain a wake-up.
  lemma DrainNeverSleepsAlone(c: Config, s: State, steps: seq<Step>, t: State) returns (i: nat, more: seq<Step>, u: State)
    requires c.capacity > 0 && Init(s) && Run(c, s, steps, t)
    requires t.pc.Waiting? && t.buffer == [] && !t.left
    ensures i < |t.subs| && !t.subs[i].phase.Finished?
    ensures Run(c, t, more, u) && AllOf(more, i) && |more| <= 5 && u.left
  {
    RunFromInit(c, s, steps, t);
    i :| 0 <= i < |t.subs| && !t.subs[i].phase.Finished?;
    more, u := SignalsAlone(c, t, i);
  }
}
