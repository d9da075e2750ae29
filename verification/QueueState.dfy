/**
 How one client applies readings of the queues' pause and limit state. Lease
 renewals, re-reads and Queues().Add race; each reading is a version of the
 database, and each statement and each application is a step of its own.
 */
module QueueState {
  import opened Basics

  type Queue = string

  /** Where a producer's flags come from: the version read, and when that reading began. */
  datatype Reading = Reading(version: nat, begun: nat)

  /**
   A caller on this client. `seen` is the value of controlSeq it read before its
   statement, and `read` the version the statement returned, once it has. A
   re-read also keeps the value it saw first, the database version then, whether
   it is about to read controlSeq again, how many readings it has begun, and how
   many Adds have overtaken a reading of its, and its last.
   */
  datatype Caller =
    | Off
    | Renewal(seen: nat, begun: nat, read: Option<nat>)
    | Reread(start: nat, startDb: nat, first: nat, seen: nat, begun: nat, read: Option<nat>, loading: bool, readings: nat, adds: nat, since: nat)
    | Adding(queue: Queue, begun: nat, read: Option<nat>)

  /**
   The client and the database. `latest` remembers, for every queue the client
   has ever worked, the newest version applied to it. `mu` is the caller
   holding the client's mutex across steps, which only an Add does.
   */
  datatype State = State(
    clock: nat,
    db: nat,
    controlSeq: nat,
    appliedFrom: nat,
    producers: map<Queue, Reading>,
    latest: map<Queue, nat>,
    mu: Option<nat>,
    callers: seq<Caller>)

  datatype Step =
    | Change
    | BeginRenewal(t: nat)
    | BeginReread(t: nat)
    | Read(t: nat)
    | Apply(t: nat)
    | LoadAgain(t: nat)
    | Fail(t: nat)
    | BeginAdd(t: nat, queue: Queue)
    | FinishAdd(t: nat)
    | Remove(t: nat, queue: Queue)

  predicate Reader(c: Caller) {
    c.Renewal? || c.Reread?
  }

  predicate Enabled(s: State, e: Step) {
    e.Change? ||
    (e.t < |s.callers| &&
     var c := s.callers[e.t];
     match e
     case BeginRenewal(_) => c.Off?
     case BeginReread(_) => c.Off?
     case Read(_) => !c.Off? && c.read.None? && !(c.Reread? && c.loading)
     case LoadAgain(_) => c.Reread? && c.loading
     case Apply(_) => Reader(c) && c.read.Some? && s.mu.None?
     case Fail(_) => !c.Off? && c.read.None?
     case BeginAdd(_, queue) => c.Off? && s.mu.None? && queue !in s.producers
     case FinishAdd(_) => c.Adding? && c.read.Some? && s.mu == Some(e.t)
     case Remove(_, _) => c.Off? && s.mu.None?
     case Change => true)
  }

  function Set(s: State, t: nat, c: Caller): State
    requires t < |s.callers|
  {
    s.(callers := s.callers[t := c])
  }

  /** Every producer takes the reading, and controlSeq moves past the value it was read under. */
  function ApplyReading(s: State, seen: nat, reading: Reading): State {
    s.(controlSeq := s.controlSeq + 1,
       appliedFrom := seen,
       producers := map q | q in s.producers :: reading,
       latest := s.latest + (map q | q in s.producers :: reading.version))
  }

  /** A re-read is done once its reading was applied, or one that began after it did. */
  predicate Done(s: State, c: Caller)
    requires c.Reread?
  {
    s.controlSeq == c.seen || s.appliedFrom > c.first
  }

  /** An Add overtakes the reading a re-read has under way; one that is about to begin its next has none. */
  function CountAdd(c: Caller): Caller {
    if c.Reread? && !c.loading then c.(adds := c.adds + 1, since := c.since + 1) else c
  }

  function After(s: State, e: Step): State
    requires Enabled(s, e)
  {
    match e
    case Change => s.(db := s.db + 1)
    case BeginRenewal(t) => Set(s.(clock := s.clock + 1), t, Renewal(s.controlSeq, s.clock + 1, None))
    case BeginReread(t) =>
      Set(s.(clock := s.clock + 1), t,
          Reread(s.clock + 1, s.db, s.controlSeq, s.controlSeq, s.clock + 1, None, false, 1, 0, 0))
    case Read(t) => Set(s, t, s.callers[t].(read := Some(s.db)))
    case Fail(t) => Set(s.(mu := if s.mu == Some(t) then None else s.mu), t, Off)
    case BeginAdd(t, queue) => Set(s.(clock := s.clock + 1, mu := Some(t)), t, Adding(queue, s.clock + 1, None))
    case FinishAdd(t) =>
      var c := s.callers[t];
      var bumped := s.(callers := seq(|s.callers|, i requires 0 <= i < |s.callers| => CountAdd(s.callers[i])));
      Set(bumped.(controlSeq := s.controlSeq + 1, mu := None,
                  producers := s.producers[c.queue := Reading(c.read.value, c.begun)],
                  latest := s.latest[c.queue := c.read.value]), t, Off)
    case Remove(_, queue) => s.(producers := s.producers - {queue})
    case Apply(t) =>
      var c := s.callers[t];
      var s1 := if s.controlSeq == c.seen then ApplyReading(s, c.seen, Reading(c.read.value, c.begun)) else s;
      if c.Renewal? || Done(s, c) then Set(s1, t, Off)
      else Set(s1, t, c.(read := None, loading := true))
    case LoadAgain(t) =>
      var c := s.callers[t];
      Set(s.(clock := s.clock + 1), t,
          c.(seen := s.controlSeq, begun := s.clock + 1, loading := false, readings := c.readings + 1, since := 0))
  }

  // ---------------------------------------------------------------- invariants

  predicate Base(s: State) {
    && (s.appliedFrom < s.controlSeq || (s.appliedFrom == 0 && s.controlSeq == 0))
    && (forall q :: q in s.producers ==> s.producers[q].begun <= s.clock)
    && (forall q :: q in s.producers ==> q in s.latest && s.latest[q] == s.producers[q].version)
    && (forall q :: q in s.latest ==> s.latest[q] <= s.db)
    && (s.mu.Some? ==> s.mu.value < |s.callers| && s.callers[s.mu.value].Adding?)
  }

  /** A reading no application has overtaken is at least as new as everything applied. */
  predicate CallerInv(s: State, t: nat)
    requires t < |s.callers|
  {
    var c := s.callers[t];
    && (!c.Off? ==> c.begun <= s.clock)
    && (!c.Off? && c.read.Some? ==> c.read.value <= s.db)
    && (Reader(c) ==> c.seen <= s.controlSeq)
    && (c.Adding? ==> s.mu == Some(t))
    && (!c.Off? && c.read.Some? && (c.Adding? || c.seen == s.controlSeq) ==>
          forall q :: q in s.latest ==> s.latest[q] <= c.read.value)
    && (c.Reread? ==> RereadInv(s, c))
  }

  predicate RereadInv(s: State, c: Caller)
    requires c.Reread?
  {
    && c.start <= c.begun && c.start <= s.clock && c.first <= c.seen && c.startDb <= s.db
    && c.since <= c.adds
    && (c.loading ==> c.read.None? && c.first < s.controlSeq && c.seen < s.controlSeq && c.readings <= 1 + c.adds)
    && (c.readings == 1 || (c.readings >= 2 && c.first < c.seen))
    && c.readings <= 2 + c.adds - c.since
    && (c.readings >= 2 && c.seen != s.controlSeq && s.appliedFrom <= c.first ==> c.since >= 1)
    && (s.appliedFrom > c.first ==>
          forall q :: q in s.producers ==> s.producers[q].begun >= c.start)
    && (forall q :: q in s.producers && s.producers[q].begun >= c.start ==> s.producers[q].version >= c.startDb)
  }

  /** What a re-read c knows of another caller d's reading. */
  predicate PairInv(s: State, c: Caller, d: Caller)
    requires c.Reread? && !d.Off?
  {
    && (Reader(d) && d.seen > c.first ==> d.begun >= c.start)
    && (d.Adding? && s.appliedFrom > c.first ==> d.begun >= c.start)
    && (d.begun >= c.start && d.read.Some? ==> d.read.value >= c.startDb)
  }

  ghost predicate Inv(s: State) {
    && Base(s)
    && (forall t: nat :: t < |s.callers| ==> CallerInv(s, t))
    && forall t: nat, u: nat :: t < |s.callers| && u < |s.callers| && s.callers[t].Reread? && !s.callers[u].Off? ==>
         PairInv(s, s.callers[t], s.callers[u])
  }

  ghost predicate Init(s: State) {
    && s.controlSeq == 0 && s.appliedFrom == 0 && s.mu.None?
    && (forall q :: q in s.producers ==> s.producers[q].begun <= s.clock && s.producers[q].version <= s.db)
    && s.latest == (map q | q in s.producers :: s.producers[q].version)
    && forall t: nat :: t < |s.callers| ==> s.callers[t].Off?
  }

  lemma InitHasInv(s: State)
    requires Init(s)
    ensures Inv(s)
  {
  }

  // ---------------------------------------------------------------- steps keep the invariant

  // An application: the reading was overtaken by nothing, so nothing applied is newer.
  lemma ApplyReadingKeepsInv(s: State, t: nat)
    requires Inv(s) && Enabled(s, Apply(t)) && s.controlSeq == s.callers[t].seen
    ensures var c := s.callers[t];
            var r := ApplyReading(s, c.seen, Reading(c.read.value, c.begun));
            Inv(Set(r, t, Off))
  {
    var c := s.callers[t];
    assert CallerInv(s, t);
    var r := ApplyReading(s, c.seen, Reading(c.read.value, c.begun));
    var s' := Set(r, t, Off);
    forall u: nat | u < |s'.callers| ensures CallerInv(s', u) {
      assert CallerInv(s, u);
      if u != t && s.callers[u].Reread? {
        assert PairInv(s, s.callers[u], c);
      }
    }
    forall u: nat, v: nat | u < |s'.callers| && v < |s'.callers| && s'.callers[u].Reread? && !s'.callers[v].Off?
      ensures PairInv(s', s'.callers[u], s'.callers[v])
    {
      assert PairInv(s, s.callers[u], s.callers[v]);
      assert CallerInv(s, v) && CallerInv(s, u);
    }
  }

  lemma ApplyKeepsInv(s: State, t: nat)
    requires Inv(s) && Enabled(s, Apply(t))
    ensures Inv(After(s, Apply(t)))
  {
    var c := s.callers[t];
    assert CallerInv(s, t);
    if s.controlSeq == c.seen {
      ApplyReadingKeepsInv(s, t);
    } else {
      RereadAgainKeepsInv(s, t);
    }
  }

  // A reading that was overtaken: a renewal gives up, a re-read ends or reads again.
  lemma RereadAgainKeepsInv(s: State, t: nat)
    requires Inv(s) && Enabled(s, Apply(t)) && s.controlSeq != s.callers[t].seen
    ensures Inv(After(s, Apply(t)))
  {
    var s' := After(s, Apply(t));
    assert CallerInv(s, t);
    forall u: nat | u < |s'.callers| ensures CallerInv(s', u) {
      assert CallerInv(s, u);
    }
    forall u: nat, v: nat | u < |s'.callers| && v < |s'.callers| && s'.callers[u].Reread? && !s'.callers[v].Off?
      ensures PairInv(s', s'.callers[u], s'.callers[v])
    {
      assert PairInv(s, s.callers[u], s.callers[v]);
      assert CallerInv(s, v) && CallerInv(s, u);
    }
  }

  lemma FinishAddKeepsInv(s: State, t: nat)
    requires Inv(s) && Enabled(s, FinishAdd(t))
    ensures Inv(After(s, FinishAdd(t)))
  {
    var s' := After(s, FinishAdd(t));
    var c := s.callers[t];
    assert CallerInv(s, t);
    forall u: nat | u < |s'.callers| ensures CallerInv(s', u) {
      assert CallerInv(s, u);
      if s.callers[u].Reread? {
        assert PairInv(s, s.callers[u], c);
      }
    }
    forall u: nat, v: nat | u < |s'.callers| && v < |s'.callers| && s'.callers[u].Reread? && !s'.callers[v].Off?
      ensures PairInv(s', s'.callers[u], s'.callers[v])
    {
      assert PairInv(s, s.callers[u], s.callers[v]);
      assert CallerInv(s, v) && CallerInv(s, u);
    }
  }

  predicate Begins(e: Step) {
    e.BeginRenewal? || e.BeginReread? || e.BeginAdd? || e.LoadAgain?
  }

  lemma BeginKeepsCaller(s: State, e: Step, u: nat)
    requires Inv(s) && Enabled(s, e) && Begins(e) && u < |s.callers|
    ensures CallerInv(After(s, e), u)
  {
    assert CallerInv(s, u);
  }

  // A caller that begins now began after every re-read under way did.
  lemma BeginKeepsPair(s: State, e: Step, u: nat, v: nat)
    requires Inv(s) && Enabled(s, e) && Begins(e) && u < |s.callers| && v < |s.callers|
    requires After(s, e).callers[u].Reread? && !After(s, e).callers[v].Off?
    ensures PairInv(After(s, e), After(s, e).callers[u], After(s, e).callers[v])
  {
    assert CallerInv(s, v) && CallerInv(s, u);
    if s.callers[u].Reread? && !s.callers[v].Off? {
      assert PairInv(s, s.callers[u], s.callers[v]);
    }
  }

  lemma BeginKeepsInv(s: State, e: Step)
    requires Inv(s) && Enabled(s, e) && Begins(e)
    ensures Inv(After(s, e))
  {
    var s' := After(s, e);
    forall u: nat | u < |s'.callers| ensures CallerInv(s', u) {
      BeginKeepsCaller(s, e, u);
    }
    forall u: nat, v: nat | u < |s'.callers| && v < |s'.callers| && s'.callers[u].Reread? && !s'.callers[v].Off?
      ensures PairInv(s', s'.callers[u], s'.callers[v])
    {
      BeginKeepsPair(s, e, u, v);
    }
  }

  lemma ReadKeepsInv(s: State, t: nat)
    requires Inv(s) && Enabled(s, Read(t))
    ensures Inv(After(s, Read(t)))
  {
    var s' := After(s, Read(t));
    forall u: nat | u < |s'.callers| ensures CallerInv(s', u) {
      assert CallerInv(s, u);
    }
    forall u: nat, v: nat | u < |s'.callers| && v < |s'.callers| && s'.callers[u].Reread? && !s'.callers[v].Off?
      ensures PairInv(s', s'.callers[u], s'.callers[v])
    {
      ReadKeepsPair(s, t, u, v);
    }
  }

  lemma ReadKeepsPair(s: State, t: nat, u: nat, v: nat)
    requires Inv(s) && Enabled(s, Read(t)) && u < |s.callers| && v < |s.callers|
    requires s.callers[u].Reread? && !s.callers[v].Off?
    ensures var s' := After(s, Read(t));
            s'.callers[u].Reread? && !s'.callers[v].Off? && PairInv(s', s'.callers[u], s'.callers[v])
  {
    assert CallerInv(s, v) && CallerInv(s, u);
    assert PairInv(s, s.callers[u], s.callers[v]);
  }

  lemma OtherStepKeepsInv(s: State, e: Step)
    requires Inv(s) && Enabled(s, e) && (e.Change? || e.Fail? || e.Remove?)
    ensures Inv(After(s, e))
  {
    var s' := After(s, e);
    forall u: nat | u < |s'.callers| ensures CallerInv(s', u) {
      assert CallerInv(s, u);
    }
    forall u: nat, v: nat | u < |s'.callers| && v < |s'.callers| && s'.callers[u].Reread? && !s'.callers[v].Off?
      ensures PairInv(s', s'.callers[u], s'.callers[v])
    {
      assert CallerInv(s, v) && CallerInv(s, u);
      assert PairInv(s, s.callers[u], s.callers[v]);
    }
  }

  lemma StepKeepsInv(s: State, e: Step)
    requires Inv(s) && Enabled(s, e)
    ensures Inv(After(s, e))
  {
    match e
    case Apply(t) => ApplyKeepsInv(s, t);
    case FinishAdd(t) => FinishAddKeepsInv(s, t);
    case Read(t) => ReadKeepsInv(s, t);
    case Change => OtherStepKeepsInv(s, e);
    case Fail(_) => OtherStepKeepsInv(s, e);
    case Remove(_, _) => OtherStepKeepsInv(s, e);
    case _ => BeginKeepsInv(s, e);
  }

  // ---------------------------------------------------------------- runs

  ghost predicate Run(s: State, steps: seq<Step>, t: State)
    decreases |steps|
  {
    if steps == [] then s == t
    else Enabled(s, steps[0]) && Run(After(s, steps[0]), steps[1..], t)
  }

  lemma {:induction false} RunKeepsInv(s: State, steps: seq<Step>, t: State)
    requires Inv(s) && Run(s, steps, t)
    ensures Inv(t)
    decreases |steps|
  {
    if steps == [] {
    } else {
      StepKeepsInv(s, steps[0]);
      RunKeepsInv(After(s, steps[0]), steps[1..], t);
    }
  }

  lemma StepNeverGoesBack(s: State, e: Step)
    requires Inv(s) && Enabled(s, e)
    ensures s.latest.Keys <= After(s, e).latest.Keys
    ensures forall q :: q in s.latest ==> s.latest[q] <= After(s, e).latest[q]
    ensures s.controlSeq <= After(s, e).controlSeq && s.appliedFrom <= After(s, e).appliedFrom
  {
    if e.Apply? || e.FinishAdd? {
      assert CallerInv(s, e.t);
    }
  }

  // In every interleaving no queue's applied state goes back to an older
  // version, not even that of a queue removed and added again meanwhile.
  lemma {:induction false} AppliedVersionsNeverGoBack(s: State, steps: seq<Step>, t: State, q: Queue)
    requires Inv(s) && Run(s, steps, t)
    ensures q in s.producers && q in t.producers ==> s.producers[q].version <= t.producers[q].version
    ensures q in s.latest ==> q in t.latest && s.latest[q] <= t.latest[q]
    decreases |steps|
  {
    if steps == [] {
    } else {
      StepKeepsInv(s, steps[0]);
      StepNeverGoesBack(s, steps[0]);
      AppliedVersionsNeverGoBack(After(s, steps[0]), steps[1..], t, q);
      RunKeepsInv(s, steps, t);
    }
  }

  // When a re-read ends, every queue the client then works takes its flags from
  // a reading that began no earlier than the re-read did, and so from the
  // database as it was when the re-read was called, or later.
  lemma RereadEndsFresh(s: State, steps: seq<Step>, m: State, t: nat, q: Queue)
    requires Init(s) && Run(s, steps, m)
    requires Enabled(m, Apply(t)) && m.callers[t].Reread?
    requires After(m, Apply(t)).callers[t].Off?
    requires q in After(m, Apply(t)).producers
    ensures After(m, Apply(t)).producers[q].begun >= m.callers[t].start
    ensures After(m, Apply(t)).producers[q].version >= m.callers[t].startDb
  {
    InitHasInv(s);
    RunKeepsInv(s, steps, m);
    assert CallerInv(m, t) && PairInv(m, m.callers[t], m.callers[t]);
  }

  // However many renewals and other re-reads race it, a re-read begins at most
  // two readings and one more for each Add that overtakes one of them.
  lemma ReadingsAreBounded(s: State, steps: seq<Step>, m: State, t: nat)
    requires Init(s) && Run(s, steps, m)
    requires t < |m.callers| && m.callers[t].Reread?
    ensures m.callers[t].readings <= 2 + m.callers[t].adds
  {
    InitHasInv(s);
    RunKeepsInv(s, steps, m);
    assert CallerInv(m, t);
  }

  // appliedFrom strictly increases with every application that a renewal or a
  // re-read makes, except exactly the first of all, which leaves it at zero.
  lemma AppliedFromIncreases(s: State, steps: seq<Step>, m: State, t: nat)
    requires Init(s) && Run(s, steps, m)
    requires Enabled(m, Apply(t)) && m.controlSeq == m.callers[t].seen
    ensures After(m, Apply(t)).appliedFrom == m.controlSeq
    ensures m.appliedFrom < After(m, Apply(t)).appliedFrom <==> m.controlSeq != 0
  {
    InitHasInv(s);
    RunKeepsInv(s, steps, m);
    assert CallerInv(m, t);
  }

  // The first renewal of all applies its reading and leaves appliedFrom at zero.
  lemma FirstApplicationStaysAtZero() returns (s: State, steps: seq<Step>, m: State)
    ensures Init(s) && Run(s, steps, m) && Enabled(m, Apply(0)) && m.controlSeq == m.callers[0].seen
    ensures After(m, Apply(0)).controlSeq == 1 && m.appliedFrom == After(m, Apply(0)).appliedFrom == 0
  {
    s := State(0, 0, 0, 0, map[], map[], None, [Off]);
    var s1 := After(s, BeginRenewal(0));
    m := After(s1, Read(0));
    steps := [BeginRenewal(0), Read(0)];
    assert steps[1..] == [Read(0)] && steps[1..][1..] == [];
    assert Run(m, steps[1..][1..], m) && Run(s1, steps[1..], m);
  }
}
