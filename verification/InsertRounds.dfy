/**
 Inserting a batch of jobs, some with unique keys: inputs that repeat a key are
 folded into the one before, or left to a later round of statements, and the
 batch comes out as if its inputs had been inserted one at a time.
 */
module InsertRounds {
  import opened Basics

  datatype Ref = Ref(kind: string, key: string)

  datatype Finished = Completed | Canceled | Discarded

  datatype Action = Skip | Replace

  /** An input: its unique key, if any, and the finished states in which a job counts as its duplicate too. */
  datatype Input = Input(ref: Option<Ref>, finished: seq<Finished>, action: Action)

  /** A job: one there before the batch, or the one an input created. */
  datatype Job = Existing(id: int) | Created(input: nat)

  datatype Result = Result(job: Job, duplicate: bool)

  /** What the database holds of a key: the live job, whether it is running, and those in history, the latest first. */
  datatype Entry = Entry(live: Option<Job>, running: bool, done: seq<(Finished, Job)>)

  type Db = map<Ref, Entry>

  function At(db: Db, k: Ref): Entry {
    if k in db then db[k] else Entry(None, false, [])
  }

  function Latest(done: seq<(Finished, Job)>, states: seq<Finished>): Option<Job> {
    if done == [] then None
    else if done[0].0 in states then Some(done[0].1)
    else Latest(done[1..], states)
  }

  /** The job an input with the key is a duplicate of: the live one, or the latest in history in one of the states. */
  function Match(e: Entry, states: seq<Finished>): Option<Job> {
    if e.live.Some? then e.live else Latest(e.done, states)
  }

  // ---------------------------------------------------------------- one at a time

  function InsertOne(db: Db, i: nat, x: Input): (Db, Result) {
    if x.ref.None? then (db, Result(Created(i), false))
    else
      var k := x.ref.value;
      var m := Match(At(db, k), x.finished);
      if m.Some? then (db, Result(m.value, true))
      else (db[k := At(db, k).(live := Some(Created(i)), running := false)], Result(Created(i), false))
  }

  /** The input writes the key's live job: it creates it, or replaces one that is not running. */
  predicate Writes(e: Entry, x: Input) {
    x.ref.Some? && (if e.live.Some? then x.action.Replace? && !e.running else Latest(e.done, x.finished).None?)
  }

  /** The database once the first n inputs were inserted one at a time. */
  function Before(db: Db, inputs: seq<Input>, n: nat): Db
    requires n <= |inputs|
  {
    if n == 0 then db else InsertOne(Before(db, inputs, n - 1), n - 1, inputs[n - 1]).0
  }

  /** What inserting one at a time gives input i. */
  function Alone(db: Db, inputs: seq<Input>, i: nat): Result
    requires i < |inputs|
  {
    InsertOne(Before(db, inputs, i), i, inputs[i]).1
  }

  predicate HasRef(inputs: seq<Input>, i: nat, k: Ref) {
    i < |inputs| && inputs[i].ref == Some(k)
  }

  // ---------------------------------------------------------------- folding

  predicate Valid(inputs: seq<Input>) {
    forall i :: 0 <= i < |inputs| ==> Distinct(inputs[i].finished)
  }

  predicate SameStates(a: seq<Finished>, b: seq<Finished>) {
    |a| == |b| && forall i :: 0 <= i < |a| ==> a[i] in b
  }

  /** The latest input before n with the key. */
  function LastBefore(inputs: seq<Input>, n: nat, k: Ref): (r: Option<nat>)
    requires n <= |inputs|
    ensures r.Some? ==> r.value < n && HasRef(inputs, r.value, k) && forall j :: r.value < j < n ==> !HasRef(inputs, j, k)
    ensures r.None? ==> forall j :: 0 <= j < n ==> !HasRef(inputs, j, k)
  {
    if n == 0 then None
    else if inputs[n - 1].ref == Some(k) then Some(n - 1)
    else LastBefore(inputs, n - 1, k)
  }

  function Last(inputs: seq<Input>, i: nat): Option<nat>
    requires i < |inputs|
  {
    if inputs[i].ref.None? then None else LastBefore(inputs, i, inputs[i].ref.value)
  }

  /** Input i resolves to the input before it with the key. */
  predicate Folded(inputs: seq<Input>, i: nat)
    requires i < |inputs|
  {
    var last := Last(inputs, i);
    last.Some? && SameStates(inputs[last.value].finished, inputs[i].finished)
  }

  /** The round input i is inserted in, or the one of the input it resolves to. */
  function RoundOf(inputs: seq<Input>, i: nat): nat
    requires i < |inputs|
    decreases i
  {
    var last := Last(inputs, i);
    if last.None? then 0
    else if Folded(inputs, i) then RoundOf(inputs, last.value)
    else RoundOf(inputs, last.value) + 1
  }

  // Without repeats, equal length and containment mean the same states.
  lemma SameStatesMeansEqual(a: seq<Finished>, b: seq<Finished>)
    requires Distinct(a) && Distinct(b)
    ensures SameStates(a, b) <==> Elements(a) == Elements(b)
  {
    ElementsCard(a);
    ElementsCard(b);
    if SameStates(a, b) {
      assert Elements(a) <= Elements(b);
      SubsetCard(Elements(a), Elements(b));
    }
    if Elements(a) == Elements(b) {
      assert forall i :: 0 <= i < |a| ==> a[i] in Elements(b);
    }
  }

  lemma {:induction false} LatestSame(done: seq<(Finished, Job)>, a: seq<Finished>, b: seq<Finished>)
    requires Elements(a) == Elements(b)
    ensures Latest(done, a) == Latest(done, b)
    decreases |done|
  {
    if done == [] {
    } else {
      assert done[0].0 in a <==> done[0].0 in Elements(a);
      assert done[0].0 in b <==> done[0].0 in Elements(b);
      LatestSame(done[1..], a, b);
    }
  }

  // ---------------------------------------------------------------- what one at a time does to a key

  lemma {:induction false} UntouchedBetween(db: Db, inputs: seq<Input>, m: nat, n: nat, k: Ref)
    requires m <= n <= |inputs| && forall j :: m <= j < n ==> !HasRef(inputs, j, k)
    ensures At(Before(db, inputs, n), k) == At(Before(db, inputs, m), k)
    decreases n
  {
    if m >= n {
    } else {
      UntouchedBetween(db, inputs, m, n - 1, k);
      assert !HasRef(inputs, n - 1, k);
    }
  }

  // A folded input resolves to the job of the one before it, as a duplicate, and would insert nothing.
  lemma FoldedResolves(db: Db, inputs: seq<Input>, i: nat)
    requires Valid(inputs) && i < |inputs| && Folded(inputs, i)
    ensures Alone(db, inputs, i) == Result(Alone(db, inputs, Last(inputs, i).value).job, true)
    ensures Before(db, inputs, i + 1) == Before(db, inputs, i)
  {
    var k, j := inputs[i].ref.value, Last(inputs, i).value;
    UntouchedBetween(db, inputs, j + 1, i, k);
    SameStatesMeansEqual(inputs[j].finished, inputs[i].finished);
    LatestSame(At(Before(db, inputs, j), k).done, inputs[j].finished, inputs[i].finished);
  }

  // Folded inputs leave the key's entry as it is.
  lemma {:induction false} FoldedBetween(db: Db, inputs: seq<Input>, m: nat, n: nat, k: Ref)
    requires Valid(inputs) && m <= n <= |inputs| && forall j :: m <= j < n && HasRef(inputs, j, k) ==> Folded(inputs, j)
    ensures At(Before(db, inputs, n), k) == At(Before(db, inputs, m), k)
    decreases n
  {
    if m >= n {
    } else {
      FoldedBetween(db, inputs, m, n - 1, k);
      if HasRef(inputs, n - 1, k) { FoldedResolves(db, inputs, n - 1); } else { UntouchedBetween(db, inputs, n - 1, n, k); }
    }
  }

  // ---------------------------------------------------------------- rounds

  // A later input of a key is in a later round, unless it is folded.
  lemma {:induction false} RoundsOfKey(inputs: seq<Input>, j: nat, i: nat, k: Ref)
    requires j < i && HasRef(inputs, j, k) && HasRef(inputs, i, k)
    ensures RoundOf(inputs, j) <= RoundOf(inputs, i)
    ensures !Folded(inputs, i) ==> RoundOf(inputs, j) < RoundOf(inputs, i)
    decreases i
  {
    var last := Last(inputs, i).value;
    if j < last { RoundsOfKey(inputs, j, last, k); }
  }

  // No round holds a key twice.
  lemma NoKeyTwice(inputs: seq<Input>, i: nat, j: nat, k: Ref)
    requires i != j && HasRef(inputs, i, k) && HasRef(inputs, j, k) && !Folded(inputs, i) && !Folded(inputs, j)
    ensures RoundOf(inputs, i) != RoundOf(inputs, j)
  {
    if i < j { RoundsOfKey(inputs, i, j, k); } else { RoundsOfKey(inputs, j, i, k); }
  }

  // ---------------------------------------------------------------- running the statements

  /** The last input before n that writes the key's live job; with kept, of those that are not folded. */
  function LastWriter(db: Db, inputs: seq<Input>, n: nat, k: Ref, kept: bool): (r: Option<nat>)
    requires n <= |inputs|
    ensures r.Some? ==> r.value < n
  {
    if n == 0 then None
    else if inputs[n - 1].ref == Some(k) && Writes(At(Before(db, inputs, n - 1), k), inputs[n - 1]) && (kept ==> !Folded(inputs, n - 1))
    then Some(n - 1)
    else LastWriter(db, inputs, n - 1, k, kept)
  }

  /** How far the statements have come: the database, the input that last wrote each key's live job, the results. */
  datatype Stage = Stage(db: Db, writers: map<Ref, nat>, results: seq<Option<Result>>)

  function WriterOf(writers: map<Ref, nat>, k: Ref): Option<nat> {
    if k in writers then Some(writers[k]) else None
  }

  /** One input of a statement. */
  function Put(s: Stage, i: nat, x: Input): Stage
    requires i < |s.results|
  {
    var (db, r) := InsertOne(s.db, i, x);
    Stage(db,
          if x.ref.Some? && Writes(At(s.db, x.ref.value), x) then s.writers[x.ref.value := i] else s.writers,
          s.results[i := Some(r)])
  }

  /** Of the inputs of a key that are not folded, those done are the ones before n. */
  ghost predicate Prefix(inputs: seq<Input>, done: set<nat>, k: Ref, n: nat) {
    forall j: nat :: HasRef(inputs, j, k) && !Folded(inputs, j) ==> (j in done <==> j < n)
  }

  /** A key the statements have done up to n is as one at a time leaves it before n. */
  ghost predicate KeyOk(db: Db, inputs: seq<Input>, s: Stage, k: Ref, n: nat) {
    n <= |inputs| && At(s.db, k) == At(Before(db, inputs, n), k) && WriterOf(s.writers, k) == LastWriter(db, inputs, n, k, true)
  }

  ghost predicate StageOk(db: Db, inputs: seq<Input>, s: Stage, done: set<nat>) {
    && |s.results| == |inputs|
    && (forall i :: i in done ==> i < |inputs| && !Folded(inputs, i) && s.results[i] == Some(Alone(db, inputs, i)))
    && (forall k, n: nat :: n <= |inputs| && Prefix(inputs, done, k, n) ==> KeyOk(db, inputs, s, k, n))
  }

  lemma {:induction false} WriterBetween(db: Db, inputs: seq<Input>, m: nat, n: nat, k: Ref)
    requires m <= n <= |inputs| && forall j :: m <= j < n && HasRef(inputs, j, k) ==> Folded(inputs, j)
    ensures LastWriter(db, inputs, n, k, true) == LastWriter(db, inputs, m, k, true)
    decreases n
  {
    if m >= n {
    } else {
      WriterBetween(db, inputs, m, n - 1, k);
      assert HasRef(inputs, n - 1, k) ==> Folded(inputs, n - 1);
    }
  }

  // The input's own key, once it is inserted in its turn.
  lemma PutKeepsOwn(db: Db, inputs: seq<Input>, s: Stage, done: set<nat>, i: nat, n: nat)
    requires Valid(inputs) && StageOk(db, inputs, s, done) && i < |inputs| && !Folded(inputs, i) && i !in done
    requires inputs[i].ref.Some? && Prefix(inputs, done, inputs[i].ref.value, i)
    requires n <= |inputs| && Prefix(inputs, done + {i}, inputs[i].ref.value, n)
    ensures KeyOk(db, inputs, Put(s, i, inputs[i]), inputs[i].ref.value, n)
  {
    var k := inputs[i].ref.value;
    assert KeyOk(db, inputs, s, k, i);
    assert HasRef(inputs, i, k) && i < n;
    forall j | i + 1 <= j < n && HasRef(inputs, j, k) ensures Folded(inputs, j) {
      assert j in done + {i} || Folded(inputs, j);
    }
    FoldedBetween(db, inputs, i + 1, n, k);
    WriterBetween(db, inputs, i + 1, n, k);
  }

  lemma PutKeepsOther(db: Db, inputs: seq<Input>, s: Stage, done: set<nat>, i: nat, k: Ref, n: nat)
    requires StageOk(db, inputs, s, done) && i < |inputs| && inputs[i].ref != Some(k)
    requires n <= |inputs| && Prefix(inputs, done + {i}, k, n)
    ensures KeyOk(db, inputs, Put(s, i, inputs[i]), k, n)
  {
    assert Prefix(inputs, done, k, n) by {
      forall j: nat | HasRef(inputs, j, k) && !Folded(inputs, j) ensures j in done <==> j < n {
        assert j in done + {i} <==> j < n;
      }
    }
    assert KeyOk(db, inputs, s, k, n);
  }

  lemma PutAlone(db: Db, inputs: seq<Input>, s: Stage, done: set<nat>, i: nat)
    requires StageOk(db, inputs, s, done) && i < |inputs|
    requires inputs[i].ref.Some? ==> Prefix(inputs, done, inputs[i].ref.value, i)
    ensures Put(s, i, inputs[i]).results == s.results[i := Some(Alone(db, inputs, i))]
  {
    if inputs[i].ref.Some? { assert KeyOk(db, inputs, s, inputs[i].ref.value, i); }
  }

  // An input whose key has been done up to it gets the result it would alone.
  lemma PutKeepsStage(db: Db, inputs: seq<Input>, s: Stage, done: set<nat>, i: nat)
    requires Valid(inputs) && StageOk(db, inputs, s, done) && i < |inputs| && !Folded(inputs, i) && i !in done
    requires inputs[i].ref.Some? ==> Prefix(inputs, done, inputs[i].ref.value, i)
    ensures StageOk(db, inputs, Put(s, i, inputs[i]), done + {i})
  {
    PutAlone(db, inputs, s, done, i);
    forall k, n: nat | n <= |inputs| && Prefix(inputs, done + {i}, k, n) ensures KeyOk(db, inputs, Put(s, i, inputs[i]), k, n) {
      if inputs[i].ref == Some(k) { PutKeepsOwn(db, inputs, s, done, i, n); } else { PutKeepsOther(db, inputs, s, done, i, k, n); }
    }
  }

  lemma StartOk(db: Db, inputs: seq<Input>, s: Stage)
    requires s.db == db && s.writers == map[] && |s.results| == |inputs|
    ensures Valid(inputs) ==> StageOk(db, inputs, s, {})
  {
    if Valid(inputs) {
      forall k, n: nat | n <= |inputs| && Prefix(inputs, {}, k, n) ensures KeyOk(db, inputs, s, k, n) {
        forall j | 0 <= j < n && HasRef(inputs, j, k) ensures Folded(inputs, j) { assert j in {} || Folded(inputs, j); }
        FoldedBetween(db, inputs, 0, n, k);
        WriterBetween(db, inputs, 0, n, k);
      }
    }
  }

  /** The inputs of the rounds before r, and those of round r whose groups are done. */
  predicate Ready(inputs: seq<Input>, done: set<nat>, r: nat) {
    && (forall j :: 0 <= j < |inputs| && !Folded(inputs, j) && RoundOf(inputs, j) < r ==> j in done)
    && (forall j :: j in done ==> j < |inputs| && RoundOf(inputs, j) <= r)
  }

  lemma ReadyForRound(inputs: seq<Input>, done: set<nat>, r: nat, i: nat)
    requires Ready(inputs, done, r) && i < |inputs| && !Folded(inputs, i) && RoundOf(inputs, i) == r && i !in done
    requires inputs[i].ref.Some?
    ensures Prefix(inputs, done, inputs[i].ref.value, i)
  {
    var k := inputs[i].ref.value;
    forall j: nat | HasRef(inputs, j, k) && !Folded(inputs, j) ensures j in done <==> j < i {
      if j < i { RoundsOfKey(inputs, j, i, k); }
      if j > i { RoundsOfKey(inputs, i, j, k); }
    }
  }

  // ---------------------------------------------------------------- planning the rounds

  type Rounds = seq<map<Action, seq<nat>>>

  datatype Seen = Seen(last: nat, round: nat)

  function Group(rounds: Rounds, r: nat, a: Action): seq<nat> {
    if r < |rounds| && a in rounds[r] then rounds[r][a] else []
  }

  predicate IncreasingBelow(idx: seq<nat>, n: nat) {
    (forall i, j :: 0 <= i < j < |idx| ==> idx[i] < idx[j]) && forall i :: 0 <= i < |idx| ==> idx[i] < n
  }

  /** Input i belongs to round r under action a. */
  predicate Belongs(inputs: seq<Input>, i: nat, r: nat, a: Action) {
    i < |inputs| && !Folded(inputs, i) && RoundOf(inputs, i) == r && inputs[i].action == a
  }

  /** The first n inputs are planned: each is in its round and under its action once, in order, or folded. */
  ghost predicate Planned(inputs: seq<Input>, n: nat, rounds: Rounds, dupOf: seq<Option<nat>>) {
    && |dupOf| == n <= |inputs|
    && (forall i :: 0 <= i < n ==> dupOf[i] == if Folded(inputs, i) then Last(inputs, i) else None)
    && (forall i :: 0 <= i < n && !Folded(inputs, i) ==> RoundOf(inputs, i) < |rounds|)
    && (forall r: nat, a :: IncreasingBelow(Group(rounds, r, a), n))
    && (forall r: nat, a, i: nat :: i in Group(rounds, r, a) <==> i < n && Belongs(inputs, i, r, a))
  }

  ghost predicate SeenOk(inputs: seq<Input>, n: nat, seen: map<Ref, Seen>)
    requires n <= |inputs|
  {
    forall k :: if LastBefore(inputs, n, k).None? then k !in seen
                else k in seen && seen[k] == Seen(LastBefore(inputs, n, k).value, RoundOf(inputs, LastBefore(inputs, n, k).value))
  }

  lemma GrowsBelow(idx: seq<nat>, n: nat)
    requires IncreasingBelow(idx, n)
    ensures IncreasingBelow(idx, n + 1) && IncreasingBelow(idx + [n], n + 1)
  {
  }

  // A group holds what belongs to it of the first n + 1 inputs if it gains input n exactly when that belongs to it.
  lemma GroupAdds(inputs: seq<Input>, n: nat, idx: seq<nat>, idx': seq<nat>, r: nat, a: Action)
    requires n < |inputs| && forall i: nat :: i in idx <==> i < n && Belongs(inputs, i, r, a)
    requires idx' == if Belongs(inputs, n, r, a) then idx + [n] else idx
    ensures forall i: nat :: i in idx' <==> i < n + 1 && Belongs(inputs, i, r, a)
  {
  }

  // Adding an input to its group plans it.
  lemma PlanAdds(inputs: seq<Input>, n: nat, rounds: Rounds, rounds': Rounds, dupOf: seq<Option<nat>>)
    requires Planned(inputs, n, rounds, dupOf) && n < |inputs| && !Folded(inputs, n)
    requires RoundOf(inputs, n) < |rounds'| && |rounds| <= |rounds'|
    requires forall r: nat, a :: Group(rounds', r, a) ==
               if r == RoundOf(inputs, n) && a == inputs[n].action then Group(rounds, r, a) + [n] else Group(rounds, r, a)
    ensures Planned(inputs, n + 1, rounds', dupOf + [None])
  {
    forall r: nat, a
      ensures IncreasingBelow(Group(rounds', r, a), n + 1)
      ensures forall i: nat :: i in Group(rounds', r, a) <==> i < n + 1 && Belongs(inputs, i, r, a)
    {
      GrowsBelow(Group(rounds, r, a), n);
      GroupAdds(inputs, n, Group(rounds, r, a), Group(rounds', r, a), r, a);
    }
  }

  lemma PlanFolds(inputs: seq<Input>, n: nat, rounds: Rounds, dupOf: seq<Option<nat>>)
    requires Planned(inputs, n, rounds, dupOf) && n < |inputs| && Folded(inputs, n)
    ensures Planned(inputs, n + 1, rounds, dupOf + [Last(inputs, n)])
  {
    assert forall r: nat, a :: IncreasingBelow(Group(rounds, r, a), n) && IncreasingBelow(Group(rounds, r, a), n + 1);
  }

  /** Adds input i to its round's group, starting the round if it is the first of it. */
  method Place(rounds: Rounds, round: nat, i: nat, a: Action) returns (r: Rounds)
    requires round <= |rounds|
    ensures |rounds| <= |r| && round < |r|
    ensures forall q: nat, b :: Group(r, q, b) == if q == round && b == a then Group(rounds, q, b) + [i] else Group(rounds, q, b)
  {
    r := rounds;
    if round == |r| {
      r := r + [map[]];
    }
    r := r[round := r[round][a := (if a in r[round] then r[round][a] else []) + [i]]];
  }

  lemma SeenAdds(inputs: seq<Input>, i: nat, seen: map<Ref, Seen>)
    requires i < |inputs| && SeenOk(inputs, i, seen)
    ensures inputs[i].ref.Some? ==> SeenOk(inputs, i + 1, seen[inputs[i].ref.value := Seen(i, RoundOf(inputs, i))])
    ensures inputs[i].ref.None? ==> SeenOk(inputs, i + 1, seen)
  {
  }

  /** Whether input i is folded, and into which input, or else its round. */
  method Look(inputs: seq<Input>, i: nat, seen: map<Ref, Seen>) returns (dup: Option<nat>, round: nat, seen': map<Ref, Seen>)
    requires i < |inputs| && SeenOk(inputs, i, seen)
    ensures dup == (if Folded(inputs, i) then Last(inputs, i) else None) && (dup.Some? <==> Folded(inputs, i))
    ensures round == RoundOf(inputs, i) && SeenOk(inputs, i + 1, seen')
  {
    var x := inputs[i];
    dup, round, seen' := None, 0, seen;
    SeenAdds(inputs, i, seen);
    if x.ref.Some? {
      var k := x.ref.value;
      if k in seen {
        var s := seen[k];
        if SameStates(inputs[s.last].finished, x.finished) {
          dup, round := Some(s.last), s.round;
        } else {
          round := s.round + 1;
        }
      }
      seen' := seen[k := Seen(i, round)];
    }
  }

  method Plan(inputs: seq<Input>) returns (rounds: Rounds, dupOf: seq<Option<nat>>)
    ensures Planned(inputs, |inputs|, rounds, dupOf)
  {
    rounds, dupOf := [], [];
    var seen: map<Ref, Seen> := map[];
    for i := 0 to |inputs|
      invariant Planned(inputs, i, rounds, dupOf) && SeenOk(inputs, i, seen)
    {
      var dup, round, seen' := Look(inputs, i, seen);
      seen := seen';
      if dup.Some? {
        PlanFolds(inputs, i, rounds, dupOf);
      } else {
        ghost var before := rounds;
        RoundIsNext(inputs, i, rounds, dupOf);
        rounds := Place(rounds, round, i, inputs[i].action);
        PlanAdds(inputs, i, before, rounds, dupOf);
      }
      dupOf := dupOf + [dup];
    }
  }

  lemma RoundIsNext(inputs: seq<Input>, i: nat, rounds: Rounds, dupOf: seq<Option<nat>>)
    requires Planned(inputs, i, rounds, dupOf) && i < |inputs|
    ensures RoundOf(inputs, i) <= |rounds|
  {
    if Last(inputs, i).Some? { RoundIsPlanned(inputs, i, rounds, dupOf, Last(inputs, i).value); }
  }

  // The round of an input before n, folded or not, has been started.
  lemma {:induction false} RoundIsPlanned(inputs: seq<Input>, n: nat, rounds: Rounds, dupOf: seq<Option<nat>>, i: nat)
    requires Planned(inputs, n, rounds, dupOf) && i < n
    ensures RoundOf(inputs, i) < |rounds|
    decreases i
  {
    if Folded(inputs, i) { RoundIsPlanned(inputs, n, rounds, dupOf, Last(inputs, i).value); }
  }

  // ---------------------------------------------------------------- the insert

  /** One statement: the inputs of a round under one action. */
  method RunGroup(ghost db: Db, inputs: seq<Input>, idx: seq<nat>, s: Stage, ghost done: set<nat>, ghost r: nat) returns (t: Stage)
    requires Valid(inputs) && StageOk(db, inputs, s, done) && Ready(inputs, done, r) && IncreasingBelow(idx, |inputs|)
    requires forall i :: i in idx ==> i !in done && !Folded(inputs, i) && RoundOf(inputs, i) == r
    ensures StageOk(db, inputs, t, done + Elements(idx)) && Ready(inputs, done + Elements(idx), r)
  {
    t := s;
    ghost var sofar := done;
    for k := 0 to |idx|
      invariant StageOk(db, inputs, t, sofar) && Ready(inputs, sofar, r) && sofar == done + Elements(idx[..k])
    {
      var i := idx[k];
      assert i in idx && i !in idx[..k];
      if inputs[i].ref.Some? { ReadyForRound(inputs, sofar, r, i); }
      PutKeepsStage(db, inputs, t, sofar, i);
      t := Put(t, i, inputs[i]);
      sofar := sofar + {i};
      assert Elements(idx[..k + 1]) == Elements(idx[..k]) + {i};
    }
    assert idx[..|idx|] == idx;
  }

  /** The inputs of the round's groups under the actions. */
  ghost function OfActions(round: map<Action, seq<nat>>, actions: set<Action>): set<nat> {
    set a, i | a in actions && a in round && i in round[a] :: i
  }

  /** One round: a statement for each action, in any order. */
  method RunRound(ghost db: Db, inputs: seq<Input>, round: map<Action, seq<nat>>, s: Stage, ghost done: set<nat>, ghost r: nat)
    returns (t: Stage)
    requires Valid(inputs) && StageOk(db, inputs, s, done) && Ready(inputs, done, r)
    requires forall a :: a in round ==> IncreasingBelow(round[a], |inputs|)
    requires forall a, i: nat :: a in round && i in round[a] ==> Belongs(inputs, i, r, a) && i !in done
    ensures StageOk(db, inputs, t, done + OfActions(round, round.Keys)) && Ready(inputs, done + OfActions(round, round.Keys), r)
  {
    t := s;
    var rest := round.Keys;
    ghost var sofar := done;
    assert OfActions(round, {}) == {};
    while rest != {}
      invariant rest <= round.Keys && StageOk(db, inputs, t, sofar) && Ready(inputs, sofar, r)
      invariant sofar == done + OfActions(round, round.Keys - rest)
      decreases |rest|
    {
      var a :| a in rest;
      forall i | i in round[a] ensures i !in sofar && !Folded(inputs, i) && RoundOf(inputs, i) == r {
        assert Belongs(inputs, i, r, a);
      }
      t := RunGroup(db, inputs, round[a], t, sofar, r);
      sofar := sofar + Elements(round[a]);
      assert OfActions(round, round.Keys - (rest - {a})) == OfActions(round, round.Keys - rest) + Elements(round[a]);
      rest := rest - {a};
    }
    assert round.Keys - rest == round.Keys;
  }

  /** What the statements gave, and the folded inputs' results, in order. */
  method Resolve(ghost db: Db, inputs: seq<Input>, dupOf: seq<Option<nat>>, filled: seq<Option<Result>>) returns (results: seq<Result>)
    requires Valid(inputs) && |dupOf| == |inputs| == |filled|
    requires forall i :: 0 <= i < |inputs| ==> dupOf[i] == if Folded(inputs, i) then Last(inputs, i) else None
    requires forall i :: 0 <= i < |inputs| && !Folded(inputs, i) ==> filled[i] == Some(Alone(db, inputs, i))
    ensures |results| == |inputs| && forall i :: 0 <= i < |inputs| ==> results[i] == Alone(db, inputs, i)
  {
    results := [];
    for i := 0 to |inputs|
      invariant |results| == i && forall j :: 0 <= j < i ==> results[j] == Alone(db, inputs, j)
    {
      match dupOf[i]
      case Some(j) =>
        FoldedResolves(db, inputs, i);
        results := results + [Result(results[j].job, true)];
      case None =>
        results := results + [filled[i].value];
    }
  }

  lemma AllDone(inputs: seq<Input>, rounds: Rounds, dupOf: seq<Option<nat>>, done: set<nat>, k: Ref)
    requires Planned(inputs, |inputs|, rounds, dupOf) && Ready(inputs, done, |rounds|)
    ensures Prefix(inputs, done, k, |inputs|)
  {
  }

  /**
   Inserts a batch. Every input gets the job and the duplicate flag that
   inserting the inputs one at a time would give it, and each key is left
   with the same jobs. writers are the inputs whose content its live job has:
   the one that would write it last, one at a time, exactly when that is not folded.
   */
  method InsertDirect(db: Db, inputs: seq<Input>) returns (after: Db, results: seq<Result>, writers: map<Ref, nat>)
    requires Valid(inputs)
    ensures |results| == |inputs| && forall i :: 0 <= i < |inputs| ==> results[i] == Alone(db, inputs, i)
    ensures forall k :: At(after, k) == At(Before(db, inputs, |inputs|), k)
    ensures forall k :: WriterOf(writers, k) == LastWriter(db, inputs, |inputs|, k, true)
    ensures forall k :: var alone := LastWriter(db, inputs, |inputs|, k, false);
              WriterOf(writers, k) == alone <==> alone.None? || !Folded(inputs, alone.value)
  {
    var rounds, dupOf := Plan(inputs);
    var s := Stage(db, map[], seq(|inputs|, i => None));
    StartOk(db, inputs, s);
    ghost var done := {};
    for r := 0 to |rounds|
      invariant StageOk(db, inputs, s, done) && Ready(inputs, done, r)
      invariant forall i :: i in done ==> RoundOf(inputs, i) < r
    {
      var round := rounds[r];
      forall a, i: nat | a in round && i in round[a] ensures Belongs(inputs, i, r, a) && i !in done {
        assert i in Group(rounds, r, a);
      }
      assert forall a :: a in round ==> round[a] == Group(rounds, r, a);
      s := RunRound(db, inputs, round, s, done, r);
      RoundComplete(inputs, rounds, dupOf, done, r);
      done := done + OfActions(round, round.Keys);
    }
    forall k ensures At(s.db, k) == At(Before(db, inputs, |inputs|), k) && WriterOf(s.writers, k) == LastWriter(db, inputs, |inputs|, k, true) {
      AllDone(inputs, rounds, dupOf, done, k);
      assert KeyOk(db, inputs, s, k, |inputs|);
    }
    forall k ensures var alone := LastWriter(db, inputs, |inputs|, k, false);
                     LastWriter(db, inputs, |inputs|, k, true) == alone <==> alone.None? || !Folded(inputs, alone.value)
    {
      ContentAgreesIff(db, inputs, |inputs|, k);
    }
    results := Resolve(db, inputs, dupOf, s.results);
    after, writers := s.db, s.writers;
  }

  // Once its groups are done, so is the round.
  lemma RoundComplete(inputs: seq<Input>, rounds: Rounds, dupOf: seq<Option<nat>>, done: set<nat>, r: nat)
    requires Planned(inputs, |inputs|, rounds, dupOf) && r < |rounds| && Ready(inputs, done, r)
    requires forall i :: i in done ==> RoundOf(inputs, i) < r
    ensures Ready(inputs, done + OfActions(rounds[r], rounds[r].Keys), r + 1)
    ensures forall i :: i in done + OfActions(rounds[r], rounds[r].Keys) ==> i < |inputs| && RoundOf(inputs, i) < r + 1
  {
    var more := OfActions(rounds[r], rounds[r].Keys);
    forall i | i in more ensures i < |inputs| && RoundOf(inputs, i) == r {
      var a :| a in rounds[r] && i in rounds[r][a];
      assert i in Group(rounds, r, a);
    }
    forall j | 0 <= j < |inputs| && !Folded(inputs, j) && RoundOf(inputs, j) == r ensures j in more {
      assert Belongs(inputs, j, r, inputs[j].action);
      assert j in Group(rounds, r, inputs[j].action);
    }
  }

  // ---------------------------------------------------------------- replacing inputs

  // The last input that writes a key's live job among those not folded, which
  // InsertDirect shows the batch leaves it with, is the last of all if and only
  // if that one is not folded.
  lemma {:induction false} ContentAgreesIff(db: Db, inputs: seq<Input>, n: nat, k: Ref)
    requires n <= |inputs|
    ensures var alone := LastWriter(db, inputs, n, k, false);
            LastWriter(db, inputs, n, k, true) == alone <==> alone.None? || !Folded(inputs, alone.value)
    decreases n
  {
    if n == 0 {
    } else {
      ContentAgreesIff(db, inputs, n - 1, k);
    }
  }

  // Of two replacing inputs of one key, a batch keeps the first's content where one at a time keeps the second's.
  lemma FoldedReplaceIsLost(k: Ref)
    ensures var db, inputs := map[k := Entry(Some(Existing(1)), false, [])], [Input(Some(k), [], Replace), Input(Some(k), [], Replace)];
            Valid(inputs) && LastWriter(db, inputs, 2, k, true) == Some(0) && LastWriter(db, inputs, 2, k, false) == Some(1)
  {
    var db, inputs := map[k := Entry(Some(Existing(1)), false, [])], [Input(Some(k), [], Replace), Input(Some(k), [], Replace)];
    assert LastBefore(inputs, 1, k) == Some(0) && Folded(inputs, 1);
    assert Before(db, inputs, 1) == db;
    assert LastWriter(db, inputs, 1, k, true) == Some(0);
  }
}
