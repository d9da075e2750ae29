/**
 Writing a batch of results: retried while it fails, written again skipping
 held rows once it has waited for them, halved when it times out, given up when
 the client stops. A statement that fails may have committed all the same. The
 database's replies are a script, arbitrary and of any length.
 */
module FinalizerWrite {
  import opened Basics

  /** The claim a result is of. */
  datatype Key = Key(id: int, fence: int)

  /**
   A result on its way. completedTx: the worker completed the job in a
   transaction of its own, committed if the client saw it commit. heldByTx:
   another transaction of the worker's may hold the row. waits counts the
   flushes that found the row held.
   */
  datatype Pending = Pending(key: Key, terminal: bool, completedTx: bool, heldByTx: bool, committed: bool, waits: nat)

  /** What a job's row tells of a result that was not applied. Held: running in the claim still, or unreadable. */
  datatype Row = Committed | Lost | Held

  datatype Outcome = Ok | DeadlineExceeded | Failed

  /**
   What the database does with a statement: takes are the results it would
   apply, cascaded the dependents it cancels, stopped whether the client was
   stopping by then, row what the rows tell afterwards, open whether submits
   are still taken.
   */
  datatype Reply = Reply(outcome: Outcome, takes: set<Key>, cascaded: seq<int>, stopped: bool, row: Key -> Row, open: bool)

  /** A row a statement returns: an applied result, or a dependent canceled by cascade. */
  datatype Finalized = Applied(key: Key) | Cascaded(id: int)

  /** What became of results, in order: one successful statement, or one dropped report. */
  datatype Entry = Wrote(results: seq<Pending>, took: set<Key>, row: Key -> Row, open: bool) | GaveUp(results: seq<Pending>)

  function Keys(batch: seq<Pending>): (r: seq<Key>)
    ensures |r| == |batch| && forall i :: 0 <= i < |batch| ==> r[i] == batch[i].key
  {
    seq(|batch|, i requires 0 <= i < |batch| => batch[i].key)
  }

  // ---------------------------------------------------------------- what a written result becomes

  predicate IsReported(p: Pending, e: Entry)
    requires e.Wrote?
  {
    p.key in e.took || (e.row(p.key).Committed? && p.completedTx)
  }

  predicate IsRetried(p: Pending, e: Entry)
    requires e.Wrote?
  {
    p.key !in e.took && e.row(p.key).Held? && e.open
  }

  /** The job has finished as far as this result goes: it, or its dependents, are followed up. */
  predicate IsFinished(p: Pending, e: Entry)
    requires e.Wrote?
  {
    if p.key in e.took then p.terminal
    else (e.row(p.key).Committed? && (p.completedTx || p.terminal)) || (e.row(p.key).Lost? && p.terminal)
  }

  function ReportsOf(results: seq<Pending>, e: Entry): seq<Key>
    requires e.Wrote?
  {
    if results == [] then []
    else ReportsOf(results[..|results| - 1], e) + (if IsReported(results[|results| - 1], e) then [results[|results| - 1].key] else [])
  }

  function RetriesOf(results: seq<Pending>, e: Entry): seq<Pending>
    requires e.Wrote?
  {
    if results == [] then []
    else
      var p := results[|results| - 1];
      RetriesOf(results[..|results| - 1], e) + (if IsRetried(p, e) then [p.(waits := p.waits + 1)] else [])
  }

  function FinishedOf(results: seq<Pending>, e: Entry): seq<Pending>
    requires e.Wrote?
  {
    if results == [] then []
    else FinishedOf(results[..|results| - 1], e) + (if IsFinished(results[|results| - 1], e) then [results[|results| - 1]] else [])
  }

  /** What each entry gives, one entry after another. */
  function Gather<T>(done: seq<Entry>, part: Entry -> seq<T>): seq<T> {
    if done == [] then [] else Gather(done[..|done| - 1], part) + part(done[|done| - 1])
  }

  function ResultsIn(e: Entry): seq<Pending> {
    e.results
  }

  function ReportsIn(e: Entry): seq<Key> {
    if e.Wrote? then ReportsOf(e.results, e) else []
  }

  function RetriesIn(e: Entry): seq<Pending> {
    if e.Wrote? then RetriesOf(e.results, e) else []
  }

  function FinishedIn(e: Entry): seq<Pending> {
    if e.Wrote? then FinishedOf(e.results, e) else []
  }

  lemma FollowUpsGrow(batch: seq<Pending>, i: nat, e: Entry)
    requires i < |batch| && e.Wrote?
    ensures ReportsOf(batch[..i + 1], e) == ReportsOf(batch[..i], e) + (if IsReported(batch[i], e) then [batch[i].key] else [])
    ensures RetriesOf(batch[..i + 1], e) ==
              RetriesOf(batch[..i], e) + (if IsRetried(batch[i], e) then [batch[i].(waits := batch[i].waits + 1)] else [])
    ensures FinishedOf(batch[..i + 1], e) == FinishedOf(batch[..i], e) + (if IsFinished(batch[i], e) then [batch[i]] else [])
  {
    assert batch[..i + 1][..i] == batch[..i];
  }

  function Results(done: seq<Entry>): seq<Pending> {
    Gather(done, ResultsIn)
  }

  function Reports(done: seq<Entry>): seq<Key> {
    Gather(done, ReportsIn)
  }

  function Retries(done: seq<Entry>): seq<Pending> {
    Gather(done, RetriesIn)
  }

  function Finished(done: seq<Entry>): seq<Pending> {
    Gather(done, FinishedIn)
  }

  lemma Assoc<T>(a: seq<T>, b: seq<T>, c: seq<T>)
    ensures (a + b) + c == a + (b + c)
  {
  }

  lemma TailIs<T>(a: seq<T>, whole: seq<T>, b: seq<T>)
    requires whole == a + b
    ensures a <= whole && whole[|a|..] == b
  {
  }

  lemma GatherSnoc<T>(a: seq<Entry>, e: Entry, part: Entry -> seq<T>)
    ensures Gather(a + [e], part) == Gather(a, part) + part(e)
  {
    assert (a + [e])[..|a|] == a;
  }

  lemma {:induction false} GatherJoin<T>(a: seq<Entry>, b: seq<Entry>, part: Entry -> seq<T>)
    ensures Gather(a + b, part) == Gather(a, part) + Gather(b, part)
    decreases |b|
  {
    if b == [] {
      assert a + b == a;
    } else {
      var c, e := b[..|b| - 1], b[|b| - 1];
      assert b == c + [e] && a + b == (a + c) + [e];
      GatherJoin(a, c, part);
      GatherSnoc(a + c, e, part);
      GatherSnoc(c, e, part);
      Assoc(Gather(a, part), Gather(c, part), part(e));
    }
  }

  lemma GatherOne<T>(e: Entry, part: Entry -> seq<T>)
    ensures Gather([e], part) == part(e)
  {
    GatherSnoc([], e, part);
    assert [] + [e] == [e];
  }

  lemma OneEntry(e: Entry)
    ensures Results([e]) == e.results && Reports([e]) == ReportsIn(e) && Retries([e]) == RetriesIn(e) && Finished([e]) == FinishedIn(e)
  {
    GatherOne(e, ResultsIn);
    GatherOne(e, ReportsIn);
    GatherOne(e, RetriesIn);
    GatherOne(e, FinishedIn);
  }

  // ---------------------------------------------------------------- the shortcut

  // As many distinct results applied as were sent means all of them.
  lemma AllAppliedIfAsMany(keys: seq<Key>, applied: seq<Key>)
    requires Distinct(keys) && Distinct(applied) && |keys| == |applied|
    requires forall k :: k in applied ==> k in keys
    ensures forall k :: k in keys ==> k in applied
  {
    var all, some := Elements(keys), Elements(applied);
    ElementsCard(keys);
    ElementsCard(applied);
    SubsetCard(some, all);
    assert forall k :: k in keys ==> k in all;
  }

  // ---------------------------------------------------------------- reported once

  lemma {:induction false} ReportedWas(results: seq<Pending>, e: Entry, k: Key)
    requires e.Wrote? && k in ReportsOf(results, e)
    ensures exists i :: 0 <= i < |results| && results[i].key == k && IsReported(results[i], e)
    decreases |results|
  {
    var rest, p := results[..|results| - 1], results[|results| - 1];
    if k in ReportsOf(rest, e) {
      ReportedWas(rest, e, k);
      var i :| 0 <= i < |rest| && rest[i].key == k && IsReported(rest[i], e);
      assert results[i].key == k && IsReported(results[i], e);
    } else {
      assert p.key == k && IsReported(p, e);
    }
  }

  lemma {:induction false} RetriedWas(results: seq<Pending>, e: Entry, k: Key)
    requires e.Wrote? && k in Keys(RetriesOf(results, e))
    ensures exists i :: 0 <= i < |results| && results[i].key == k && IsRetried(results[i], e)
    decreases |results|
  {
    var rest, p := results[..|results| - 1], results[|results| - 1];
    var j :| 0 <= j < |RetriesOf(results, e)| && Keys(RetriesOf(results, e))[j] == k;
    if j < |RetriesOf(rest, e)| {
      assert Keys(RetriesOf(rest, e))[j] == k;
      RetriedWas(rest, e, k);
      var i :| 0 <= i < |rest| && rest[i].key == k && IsRetried(rest[i], e);
      assert results[i].key == k && IsRetried(results[i], e);
    } else {
      assert p.key == k && IsRetried(p, e);
    }
  }

  /** The reports are of the results, once each, and none of them is tried again. */
  ghost predicate Once(reports: seq<Key>, retries: seq<Pending>, results: seq<Pending>) {
    && Distinct(reports)
    && (forall k :: k in reports ==> k in Keys(results) && k !in Keys(retries))
    && (forall k :: k in Keys(retries) ==> k in Keys(results))
  }

  lemma PrefixDistinct(results: seq<Pending>, n: nat)
    requires Distinct(Keys(results)) && n <= |results|
    ensures Distinct(Keys(results[..n]))
  {
    assert forall i :: 0 <= i < n ==> Keys(results[..n])[i] == Keys(results)[i];
  }

  lemma {:induction false} ReportsDistinct(results: seq<Pending>, e: Entry)
    requires e.Wrote? && Distinct(Keys(results))
    ensures Distinct(ReportsOf(results, e))
    decreases |results|
  {
    if results == [] {
    } else {
      var n := |results| - 1;
      PrefixDistinct(results, n);
      ReportsDistinct(results[..n], e);
      forall k | k in ReportsOf(results[..n], e) ensures k in Keys(results[..n]) { ReportedIsOf(results[..n], e, k); }
      assert forall i :: 0 <= i < n ==> Keys(results[..n])[i] == Keys(results)[i] && Keys(results)[i] != Keys(results)[n];
      assert results[n].key !in Keys(results[..n]);
      var r := ReportsOf(results[..n], e);
      assert forall i :: 0 <= i < |r| ==> r[i] in r && r[i] != results[n].key;
    }
  }

  lemma ReportedIsOf(results: seq<Pending>, e: Entry, k: Key)
    requires e.Wrote? && k in ReportsOf(results, e)
    ensures k in Keys(results)
  {
    ReportedWas(results, e, k);
    var i :| 0 <= i < |results| && results[i].key == k && IsReported(results[i], e);
    assert Keys(results)[i] == k;
  }

  lemma ReportedAt(results: seq<Pending>, e: Entry, i: nat)
    requires e.Wrote? && Distinct(Keys(results)) && i < |results| && results[i].key in ReportsOf(results, e)
    ensures IsReported(results[i], e)
  {
    ReportedWas(results, e, results[i].key);
    var j :| 0 <= j < |results| && results[j].key == results[i].key && IsReported(results[j], e);
    assert Keys(results)[i] == Keys(results)[j];
  }

  lemma EntryOnce(e: Entry)
    requires e.Wrote? && Distinct(Keys(e.results))
    ensures Once(ReportsOf(e.results, e), RetriesOf(e.results, e), e.results)
  {
    var keys := Keys(e.results);
    ReportsDistinct(e.results, e);
    forall k | k in Keys(RetriesOf(e.results, e)) ensures k in keys && k !in ReportsOf(e.results, e) {
      RetriedWas(e.results, e, k);
      var i :| 0 <= i < |e.results| && e.results[i].key == k && IsRetried(e.results[i], e);
      assert keys[i] == k;
      if !IsReported(e.results[i], e) && k in ReportsOf(e.results, e) { ReportedAt(e.results, e, i); }
    }
    forall k | k in ReportsOf(e.results, e) ensures k in keys { ReportedIsOf(e.results, e, k); }
  }

  lemma OnceJoin(r: seq<Key>, t: seq<Pending>, a: seq<Pending>, r': seq<Key>, t': seq<Pending>, b: seq<Pending>)
    requires Once(r, t, a) && Once(r', t', b) && Distinct(Keys(a + b))
    ensures Once(r + r', t + t', a + b)
  {
    assert Keys(a + b) == Keys(a) + Keys(b) && Keys(t + t') == Keys(t) + Keys(t');
    forall k | k in Keys(a) ensures k !in Keys(b) {
      var i :| 0 <= i < |a| && Keys(a)[i] == k;
      forall j | 0 <= j < |b| ensures Keys(b)[j] != k { assert Keys(a + b)[i] == k && Keys(a + b)[|a| + j] == Keys(b)[j]; }
    }
    assert forall i, j :: 0 <= i < |r| && 0 <= j < |r'| ==> r[i] in r && r'[j] in r';
  }

  // However a batch was halved and retried, no result of it is reported
  // applied twice, and none both reported and tried again.
  lemma {:induction false} ReportedOnce(done: seq<Entry>)
    requires Distinct(Keys(Results(done)))
    ensures Once(Reports(done), Retries(done), Results(done))
    decreases |done|
  {
    if done == [] {
    } else {
      var rest, e := done[..|done| - 1], done[|done| - 1];
      var a := Results(rest);
      assert Results(done)[..|a|] == a && Results(done)[|a|..] == e.results;
      HalvesAreDistinct(Results(done), |a|);
      ReportedOnce(rest);
      if e.Wrote? {
        EntryOnce(e);
        OnceJoin(Reports(rest), Retries(rest), a, ReportsOf(e.results, e), RetriesOf(e.results, e), e.results);
      } else {
        assert Once([], [], e.results);
        OnceJoin(Reports(rest), Retries(rest), a, [], [], e.results);
      }
    }
  }

  // ---------------------------------------------------------------- statements

  /** The rows a statement returns: the applied results, then the dependents it canceled. */
  function Rows(jobs: seq<Key>, took: set<Key>, cascaded: seq<int>): seq<Finalized> {
    if jobs == [] then seq(|cascaded|, i requires 0 <= i < |cascaded| => Cascaded(cascaded[i]))
    else (if jobs[0] in took then [Applied(jobs[0])] else []) + Rows(jobs[1..], took, cascaded)
  }

  function AppliedOf(rows: seq<Finalized>): seq<Key> {
    if rows == [] then []
    else AppliedOf(rows[..|rows| - 1]) + (if rows[|rows| - 1].Applied? then [rows[|rows| - 1].key] else [])
  }

  function CascadedOf(rows: seq<Finalized>): seq<int> {
    if rows == [] then []
    else CascadedOf(rows[..|rows| - 1]) + (if rows[|rows| - 1].Cascaded? then [rows[|rows| - 1].id] else [])
  }

  lemma InitOfJoin<T>(a: seq<T>, b: seq<T>)
    requires b != []
    ensures (a + b)[..|a + b| - 1] == a + b[..|b| - 1] && (a + b)[|a + b| - 1] == b[|b| - 1]
  {
  }

  lemma {:induction false} RowsJoin(a: seq<Finalized>, b: seq<Finalized>)
    ensures AppliedOf(a + b) == AppliedOf(a) + AppliedOf(b) && CascadedOf(a + b) == CascadedOf(a) + CascadedOf(b)
    decreases |b|
  {
    if b == [] {
      assert a + b == a;
    } else {
      RowsJoin(a, b[..|b| - 1]);
      InitOfJoin(a, b);
    }
  }

  lemma {:induction false} CascadesOnly(ids: seq<int>)
    ensures AppliedOf(Rows([], {}, ids)) == [] && CascadedOf(Rows([], {}, ids)) == ids
    decreases |ids|
  {
    if ids == [] {
    } else {
      var rows, k := Rows([], {}, ids), |ids| - 1;
      CascadesOnly(ids[..k]);
      assert rows[..k] == Rows([], {}, ids[..k]);
      assert ids == ids[..k] + [ids[k]];
    }
  }

  lemma RowsOfFirst(jobs: seq<Key>, took: set<Key>, cascaded: seq<int>)
    requires jobs != []
    ensures AppliedOf(Rows(jobs, took, cascaded)) ==
              (if jobs[0] in took then [jobs[0]] else []) + AppliedOf(Rows(jobs[1..], took, cascaded))
    ensures CascadedOf(Rows(jobs, took, cascaded)) == CascadedOf(Rows(jobs[1..], took, cascaded))
  {
    var first: seq<Finalized> := if jobs[0] in took then [Applied(jobs[0])] else [];
    RowsJoin(first, Rows(jobs[1..], took, cascaded));
    assert AppliedOf(first) == if jobs[0] in took then [jobs[0]] else [];
    assert CascadedOf(first) == [];
  }

  // The rows tell which of the distinct results sent were applied.
  lemma {:induction false} RowsTell(jobs: seq<Key>, took: set<Key>, cascaded: seq<int>)
    requires Distinct(jobs)
    ensures var keys := AppliedOf(Rows(jobs, took, cascaded));
            Distinct(keys) && |keys| <= |jobs| && forall k :: k in keys <==> k in jobs && k in took
    ensures CascadedOf(Rows(jobs, took, cascaded)) == cascaded
    decreases |jobs|
  {
    if jobs == [] {
      CascadesOnly(cascaded);
    } else {
      RowsTell(jobs[1..], took, cascaded);
      assert jobs == [jobs[0]] + jobs[1..];
      assert jobs[0] !in jobs[1..];
      RowsOfFirst(jobs, took, cascaded);
    }
  }

  method SplitCascaded(rows: seq<Finalized>) returns (results: seq<Key>, cascaded: seq<int>)
    ensures results == AppliedOf(rows) && cascaded == CascadedOf(rows)
  {
    results, cascaded := [], [];
    for i := 0 to |rows|
      invariant results == AppliedOf(rows[..i]) && cascaded == CascadedOf(rows[..i])
    {
      assert rows[..i + 1][..i] == rows[..i];
      match rows[i]
      case Applied(key) => results := results + [key];
      case Cascaded(id) => cascaded := cascaded + [id];
    }
    assert rows[..|rows|] == rows;
  }

  /** The entry holds by what the database applied since before: what it took is applied, and what is tried again is not. */
  ghost predicate TrueEntry(e: Entry, before: set<Key>, after: set<Key>) {
    e.Wrote? ==>
      && e.took <= after && e.took !! before && (forall k :: k in e.took ==> k in Keys(e.results))
      && forall i :: 0 <= i < |e.results| && IsRetried(e.results[i], e) ==> e.results[i].key !in after
  }

  ghost predicate Truthful(done: seq<Entry>, before: set<Key>, after: set<Key>) {
    before <= after && forall i :: 0 <= i < |done| ==> TrueEntry(done[i], before, after)
  }

  /** Only results of the batch were applied. */
  ghost predicate Grew(before: set<Key>, after: set<Key>, batch: seq<Pending>) {
    before <= after && forall k :: k in after && k !in before ==> k in Keys(batch)
  }

  lemma {:induction false} EntryIsOfResults(done: seq<Entry>, i: nat, j: nat)
    requires i < |done| && j < |done[i].results|
    ensures done[i].results[j] in Results(done)
    decreases |done|
  {
    if i < |done| - 1 { EntryIsOfResults(done[..|done| - 1], i, j); }
  }

  // What the first half had to try again stays unapplied while the second is written.
  lemma TruthfulFirst(first: seq<Entry>, a: seq<Pending>, b: seq<Pending>, before: set<Key>, mid: set<Key>, after: set<Key>)
    requires Truthful(first, before, mid) && Grew(mid, after, b) && Distinct(Keys(a + b))
    requires forall p :: p in Results(first) ==> p in a
    ensures Truthful(first, before, after)
  {
    forall i | 0 <= i < |first| ensures TrueEntry(first[i], before, after) {
      var e := first[i];
      assert TrueEntry(e, before, mid);
      if e.Wrote? {
        forall j | 0 <= j < |e.results| && IsRetried(e.results[j], e) ensures e.results[j].key !in after {
          EntryIsOfResults(first, i, j);
          InOneHalf(a, b, e.results[j]);
        }
      }
    }
  }

  lemma InOneHalf(a: seq<Pending>, b: seq<Pending>, p: Pending)
    requires Distinct(Keys(a + b)) && p in a
    ensures p.key !in Keys(b)
  {
    var i :| 0 <= i < |a| && a[i] == p;
    forall j | 0 <= j < |b| ensures Keys(b)[j] != p.key {
      assert Keys(a + b)[i] == p.key && Keys(a + b)[|a| + j] == b[j].key;
    }
  }

  lemma TruthfulJoin(first: seq<Entry>, second: seq<Entry>, before: set<Key>, mid: set<Key>, after: set<Key>)
    requires Truthful(first, before, after) && Truthful(second, mid, after) && before <= mid
    ensures Truthful(first + second, before, after)
  {
    forall i | 0 <= i < |first + second| ensures TrueEntry((first + second)[i], before, after) {
      if i < |first| {
        assert TrueEntry(first[i], before, after);
      } else {
        assert TrueEntry(second[i - |first|], mid, after);
      }
    }
  }

  lemma HalvesAreDistinct(batch: seq<Pending>, half: nat)
    requires Distinct(Keys(batch)) && half <= |batch|
    ensures Distinct(Keys(batch[..half])) && Distinct(Keys(batch[half..])) && batch == batch[..half] + batch[half..]
  {
    assert forall i :: 0 <= i < half ==> Keys(batch[..half])[i] == Keys(batch)[i];
    assert forall i :: 0 <= i < |batch| - half ==> Keys(batch[half..])[i] == Keys(batch)[half + i];
  }

  lemma SplitIsDistinct(a: seq<Pending>, b: seq<Pending>)
    requires Distinct(Keys(a + b))
    ensures Distinct(Keys(a)) && Distinct(Keys(b)) && Keys(a + b) == Keys(a) + Keys(b)
  {
    HalvesAreDistinct(a + b, |a|);
    assert (a + b)[..|a|] == a && (a + b)[|a|..] == b;
  }

  lemma HalvesAddUp(a: seq<Pending>, b: seq<Pending>, done: seq<Pending>, rest: seq<Pending>, done': seq<Pending>, rest': seq<Pending>)
    requires done + rest == a && done' + rest' == b && (rest != [] ==> done' == [])
    ensures (done + done') + (rest + rest') == a + b
  {
    if rest == [] {
      assert (done + done') + (rest + rest') == done + (done' + rest');
    } else {
      assert (done + done') + (rest + rest') == (done + rest) + rest';
    }
  }

  // ---------------------------------------------------------------- what the replies told

  /** The entry is what a reply told: a statement succeeded so, or failed in a client that was stopping. */
  ghost predicate IsHeard(e: Entry, reply: Reply) {
    match e
    case Wrote(_, took, row, open) => reply.outcome.Ok? && took == reply.takes && row == reply.row && open == reply.open
    case GaveUp(_) => !reply.outcome.Ok? && reply.stopped
  }

  ghost predicate Told(e: Entry, replies: seq<Reply>) {
    exists j :: 0 <= j < |replies| && IsHeard(e, replies[j])
  }

  ghost predicate Tells(reply: Reply, done: seq<Entry>) {
    exists i :: 0 <= i < |done| && IsHeard(done[i], reply)
  }

  /** Every entry is what one of the replies told, and every success is of an entry. */
  ghost predicate Heard(done: seq<Entry>, replies: seq<Reply>) {
    && (forall i :: 0 <= i < |done| ==> Told(done[i], replies))
    && (forall j :: 0 <= j < |replies| && replies[j].outcome.Ok? ==> Tells(replies[j], done))
  }

  ghost predicate HeardSince(done: seq<Entry>, before: seq<Reply>, after: seq<Reply>) {
    before <= after && Heard(done, after[|before|..])
  }

  lemma NothingHeard(before: seq<Reply>)
    ensures HeardSince([], before, before)
  {
  }

  lemma HeardParts(a: seq<Entry>, early: seq<Reply>, b: seq<Entry>, late: seq<Reply>)
    requires Heard(a, early) && Heard(b, late)
    ensures Heard(a + b, early + late)
  {
    forall i | 0 <= i < |a + b| ensures Told((a + b)[i], early + late) {
      if i < |a| { ToldStill(a[i], early, [], late); } else { ToldStill(b[i - |a|], late, early, []); }
    }
    forall j | 0 <= j < |early + late| && (early + late)[j].outcome.Ok? ensures Tells((early + late)[j], a + b) {
      if j < |early| { TellsStill(early[j], a, [], b); } else { TellsStill(late[j - |early|], b, a, []); }
    }
  }

  lemma ToldStill(e: Entry, replies: seq<Reply>, head: seq<Reply>, tail: seq<Reply>)
    requires Told(e, replies)
    ensures Told(e, head + replies + tail) && (head == [] ==> Told(e, replies + tail)) && (tail == [] ==> Told(e, head + replies))
  {
    var j :| 0 <= j < |replies| && IsHeard(e, replies[j]);
    assert (head + replies + tail)[|head| + j] == replies[j];
    assert head == [] ==> head + replies + tail == replies + tail;
    assert tail == [] ==> head + replies + tail == head + replies;
  }

  lemma TellsStill(reply: Reply, done: seq<Entry>, head: seq<Entry>, tail: seq<Entry>)
    requires Tells(reply, done)
    ensures Tells(reply, head + done + tail) && (head == [] ==> Tells(reply, done + tail)) && (tail == [] ==> Tells(reply, head + done))
  {
    var i :| 0 <= i < |done| && IsHeard(done[i], reply);
    assert (head + done + tail)[|head| + i] == done[i];
    assert head == [] ==> head + done + tail == done + tail;
    assert tail == [] ==> head + done + tail == head + done;
  }

  lemma HeardJoin(before: seq<Reply>, mid: seq<Reply>, after: seq<Reply>, a: seq<Entry>, b: seq<Entry>)
    requires HeardSince(a, before, mid) && HeardSince(b, mid, after)
    ensures HeardSince(a + b, before, after)
  {
    assert after[|before|..] == mid[|before|..] + after[|mid|..];
    HeardParts(a, mid[|before|..], b, after[|mid|..]);
  }

  // A reply of a failure tells nothing.
  lemma FailureTellsNothing(before: seq<Reply>, mid: seq<Reply>, reply: Reply)
    requires HeardSince([], before, mid) && !reply.outcome.Ok?
    ensures HeardSince([], before, mid + [reply])
  {
    assert (mid + [reply])[|before|..] == mid[|before|..] + [reply];
  }

  lemma LastIsHeard(before: seq<Reply>, mid: seq<Reply>, e: Entry, reply: Reply)
    requires HeardSince([], before, mid) && IsHeard(e, reply)
    ensures HeardSince([e], before, mid + [reply])
  {
    assert (mid + [reply])[|mid|..] == [reply];
    assert IsHeard([e][0], [reply][0]);
    assert Told(e, [reply]) && Tells(reply, [e]);
    HeardJoin(before, mid, mid + [reply], [], [e]);
    assert [] + [e] == [e];
  }

  /** What the finalizer has done so far. */
  datatype Log = Log(reports: seq<Key>, retries: seq<Pending>, db: set<Key>, heard: seq<Reply>)

  /** Statements of the batch have failed, and nothing was told of its results, though some may have been applied. */
  ghost predicate Tried(batch: seq<Pending>, before: Log, now: Log) {
    now.reports == before.reports && now.retries == before.retries && Grew(before.db, now.db, batch) && HeardSince([], before.heard, now.heard)
  }

  /** The batch was written as done tells, but for rest. */
  ghost predicate Wrought(batch: seq<Pending>, finished: seq<Pending>, rest: seq<Pending>, done: seq<Entry>, before: Log, after: Log) {
    && Results(done) + rest == batch && finished == Finished(done)
    && after.reports == before.reports + Reports(done) && after.retries == before.retries + Retries(done)
    && Truthful(done, before.db, after.db) && Grew(before.db, after.db, batch) && HeardSince(done, before.heard, after.heard)
  }

  lemma WroughtJoin(a: seq<Pending>, f: seq<Pending>, r: seq<Pending>, d: seq<Entry>, b: seq<Pending>,
                    f': seq<Pending>, r': seq<Pending>, d': seq<Entry>, before: Log, mid: Log, after: Log)
    requires Wrought(a, f, r, d, before, mid) && Wrought(b, f', r', d', mid, after)
    requires Distinct(Keys(a + b)) && (r != [] ==> d' == [])
    ensures Wrought(a + b, f + f', r + r', d + d', before, after)
  {
    GatherJoin(d, d', ResultsIn);
    GatherJoin(d, d', ReportsIn);
    GatherJoin(d, d', RetriesIn);
    GatherJoin(d, d', FinishedIn);
    HalvesAddUp(a, b, Results(d), r, Results(d'), r');
    Assoc(before.reports, Reports(d), Reports(d'));
    Assoc(before.retries, Retries(d), Retries(d'));
    TruthfulFirst(d, a, b, before.db, mid.db, after.db);
    TruthfulJoin(d, d', before.db, mid.db, after.db);
    HeardJoin(before.heard, mid.heard, after.heard, d, d');
    SplitIsDistinct(a, b);
  }

  // Statements that told nothing leave what is told later true.
  lemma WroughtSince(batch: seq<Pending>, finished: seq<Pending>, rest: seq<Pending>, done: seq<Entry>, before: Log, mid: Log, after: Log)
    requires Wrought(batch, finished, rest, done, mid, after) && Tried(batch, before, mid)
    ensures Wrought(batch, finished, rest, done, before, after)
  {
    forall i | 0 <= i < |done| ensures TrueEntry(done[i], before.db, after.db) {
      assert TrueEntry(done[i], mid.db, after.db);
    }
    HeardJoin(before.heard, mid.heard, after.heard, [], done);
    assert [] + done == done;
  }

  lemma TriedAgain(batch: seq<Pending>, before: Log, mid: Log, now: Log, reply: Reply)
    requires Tried(batch, before, mid) && !reply.outcome.Ok? && now.heard == mid.heard + [reply]
    requires now.reports == mid.reports && now.retries == mid.retries && Grew(mid.db, now.db, batch)
    ensures Tried(batch, before, now)
  {
    FailureTellsNothing(before.heard, mid.heard, reply);
  }

  lemma WroughtOne(batch: seq<Pending>, e: Entry, before: Log, mid: Log, after: Log, reply: Reply)
    requires e.results == batch && Tried(batch, before, mid) && IsHeard(e, reply) && after.heard == mid.heard + [reply]
    requires after.reports == before.reports + ReportsIn(e) && after.retries == before.retries + RetriesIn(e)
    requires TrueEntry(e, before.db, after.db) && Grew(before.db, after.db, batch)
    ensures Wrought(batch, FinishedIn(e), [], [e], before, after)
  {
    OneEntry(e);
    assert e.results + [] == e.results;
    LastIsHeard(before.heard, mid.heard, e, reply);
  }

  lemma NothingWrought(batch: seq<Pending>, before: Log, now: Log)
    requires Tried(batch, before, now)
    ensures Wrought(batch, [], batch, [], before, now)
  {
    assert [] + batch == batch;
  }

  // ---------------------------------------------------------------- the statements sent

  /** A statement: the results it held, whether it skipped held rows, and whether it timed out. */
  datatype Sent = Sent(keys: seq<Key>, skip: bool, timedOut: bool)

  /** Every statement is of results among keys. */
  predicate Among(sent: seq<Sent>, keys: seq<Key>) {
    forall i :: 0 <= i < |sent| ==> sent[i].keys != [] && |sent[i].keys| <= |keys| && forall k :: k in sent[i].keys ==> k in keys
  }

  /** After a statement that timed out, every one skips held rows. */
  predicate SkipsAfterTimeout(sent: seq<Sent>) {
    forall i, j :: 0 <= i < j < |sent| && sent[i].timedOut ==> sent[j].skip
  }

  /** A statement of several results that timed out, skipping held rows, is not sent again as it was. */
  predicate NeverAgain(sent: seq<Sent>) {
    forall i, j :: 0 <= i < j < |sent| && sent[i].skip && sent[i].timedOut && |sent[i].keys| > 1 ==> sent[j].keys != sent[i].keys
  }

  predicate AllSkip(sent: seq<Sent>) {
    forall i :: 0 <= i < |sent| ==> sent[i].skip
  }

  predicate Smaller(sent: seq<Sent>, n: nat) {
    forall i :: 0 <= i < |sent| ==> |sent[i].keys| < n
  }

  /** Statements the database cannot finish in time degrade into ones that skip held rows, and then into smaller ones. */
  predicate Degrades(sent: seq<Sent>, keys: seq<Key>, skip: bool) {
    Among(sent, keys) && (skip ==> AllSkip(sent)) && SkipsAfterTimeout(sent) && NeverAgain(sent)
  }

  /** The statements of the loop so far are all of the batch; it goes on, skipping as it does now. */
  predicate Trying(sent: seq<Sent>, keys: seq<Key>, skip: bool, skipLocked: bool) {
    && (forall i :: 0 <= i < |sent| ==> sent[i].keys == keys && (sent[i].skip ==> skipLocked) && (sent[i].timedOut ==> skipLocked))
    && (forall i :: 0 <= i < |sent| && sent[i].skip && sent[i].timedOut ==> |keys| == 1)
    && keys != [] && (skip ==> skipLocked) && Degrades(sent, keys, skip)
  }

  lemma TryingOnce(sent: seq<Sent>, stmt: Sent, keys: seq<Key>, skip: bool, skipLocked: bool)
    requires Trying(sent, keys, skip, skipLocked) && stmt.keys == keys && stmt.skip == skipLocked
    ensures Degrades(sent + [stmt], keys, skip)
    ensures stmt.timedOut && !skipLocked ==> Trying(sent + [stmt], keys, skip, true)
    ensures !stmt.timedOut || (skipLocked && |keys| == 1) ==> Trying(sent + [stmt], keys, skip, skipLocked)
  {
  }

  lemma DegradesIntoHalves(sent: seq<Sent>, stmt: Sent, halves: seq<Sent>, keys: seq<Key>, skip: bool)
    requires Trying(sent, keys, skip, true) && stmt == Sent(keys, true, true) && |keys| > 1
    requires Degrades(halves, keys, true) && Smaller(halves, |keys|)
    ensures Degrades(sent + [stmt] + halves, keys, skip)
  {
    var all := sent + [stmt] + halves;
    forall i, j | 0 <= i < j < |all| && all[i].timedOut ensures all[j].skip {
      if i > |sent| { assert all[i] == halves[i - |sent| - 1] && all[j] == halves[j - |sent| - 1]; }
    }
    forall i, j | 0 <= i < j < |all| && all[i].skip && all[i].timedOut && |all[i].keys| > 1 ensures all[j].keys != all[i].keys {
      if i > |sent| { assert all[i] == halves[i - |sent| - 1] && all[j] == halves[j - |sent| - 1]; }
    }
  }

  lemma AmongApart(a: seq<Sent>, keysA: seq<Key>, b: seq<Sent>, keysB: seq<Key>, i: nat, j: nat)
    requires Among(a, keysA) && Among(b, keysB) && Distinct(keysA + keysB) && i < |a| && j < |b|
    ensures a[i].keys != b[j].keys
  {
    var k := b[j].keys[0];
    assert k in b[j].keys && k in keysB;
    if a[i].keys == b[j].keys {
      assert k in keysA;
      Apart(keysA, keysB, k, k);
    }
  }

  lemma DegradesJoin(a: seq<Sent>, keysA: seq<Key>, b: seq<Sent>, keysB: seq<Key>, skip: bool)
    requires Degrades(a, keysA, skip) && Degrades(b, keysB, true) && Distinct(keysA + keysB)
    ensures Degrades(a + b, keysA + keysB, skip)
    ensures keysA != [] && keysB != [] ==> Smaller(a + b, |keysA + keysB|)
  {
    var all := a + b;
    forall i, j | 0 <= i < j < |all| && all[i].skip && all[i].timedOut && |all[i].keys| > 1 ensures all[j].keys != all[i].keys {
      if i < |a| <= j { AmongApart(a, keysA, b, keysB, i, j - |a|); }
    }
  }

  /** The first statement is of all the results, and skips held rows if asked to. */
  predicate Opens(sent: seq<Sent>, keys: seq<Key>, skip: bool) {
    sent != [] ==> sent[0].keys == keys && sent[0].skip == skip
  }

  /** Every statement is of the first batch alone, or of the second alone and skips held rows. */
  predicate SecondSkips(sent: seq<Sent>, a: seq<Key>, b: seq<Key>) {
    forall i :: 0 <= i < |sent| ==> (forall k :: k in sent[i].keys ==> k in a) || (sent[i].skip && forall k :: k in sent[i].keys ==> k in b)
  }

  lemma SecondSkipsJoin(a: seq<Sent>, keysA: seq<Key>, b: seq<Sent>, keysB: seq<Key>)
    requires Among(a, keysA) && Among(b, keysB) && AllSkip(b)
    ensures SecondSkips(a + b, keysA, keysB)
  {
  }

  lemma SentJoin(a: seq<Pending>, sentA: seq<Sent>, b: seq<Pending>, sentB: seq<Sent>, skip: bool)
    requires Distinct(Keys(a + b)) && Degrades(sentA, Keys(a), skip) && Degrades(sentB, Keys(b), true)
    ensures Degrades(sentA + sentB, Keys(a + b), skip) && SecondSkips(sentA + sentB, Keys(a), Keys(b))
    ensures a != [] && b != [] ==> Smaller(sentA + sentB, |a + b|)
  {
    SplitIsDistinct(a, b);
    DegradesJoin(sentA, Keys(a), sentB, Keys(b), skip);
    SecondSkipsJoin(sentA, Keys(a), sentB, Keys(b));
  }

  // ---------------------------------------------------------------- flushes

  /** How a flush handles a result. */
  datatype Route = ToPlain | ToTx | ToReport

  function RouteOf(p: Pending): Route {
    if p.committed then ToReport else if p.completedTx || p.heldByTx || p.waits > 0 then ToTx else ToPlain
  }

  function Pick(batch: seq<Pending>, route: Route): seq<Pending> {
    if batch == [] then []
    else Pick(batch[..|batch| - 1], route) + (if RouteOf(batch[|batch| - 1]) == route then [batch[|batch| - 1]] else [])
  }

  method Sort(batch: seq<Pending>) returns (plain: seq<Pending>, tx: seq<Pending>, committed: seq<Pending>)
    ensures plain == Pick(batch, ToPlain) && tx == Pick(batch, ToTx) && committed == Pick(batch, ToReport)
  {
    plain, tx, committed := [], [], [];
    for i := 0 to |batch|
      invariant plain == Pick(batch[..i], ToPlain) && tx == Pick(batch[..i], ToTx) && committed == Pick(batch[..i], ToReport)
    {
      var p := batch[i];
      assert batch[..i + 1][..i] == batch[..i];
      if p.committed {
        committed := committed + [p];
      } else if p.completedTx || p.heldByTx || p.waits > 0 {
        tx := tx + [p];
      } else {
        plain := plain + [p];
      }
    }
    assert batch[..|batch|] == batch;
  }

  lemma {:induction false} PickIsOf(batch: seq<Pending>, route: Route)
    ensures forall p :: p in Pick(batch, route) <==> p in batch && RouteOf(p) == route
    decreases |batch|
  {
    if batch == [] {
    } else {
      PickIsOf(batch[..|batch| - 1], route);
      assert batch == batch[..|batch| - 1] + [batch[|batch| - 1]];
    }
  }

  // With distinct keys, equal keys are of one result.
  lemma SameKey(batch: seq<Pending>, p: Pending, q: Pending)
    requires Distinct(Keys(batch)) && p in batch && q in batch && p.key == q.key
    ensures p == q
  {
    var i :| 0 <= i < |batch| && batch[i] == p;
    var j :| 0 <= j < |batch| && batch[j] == q;
    assert Keys(batch)[i] == Keys(batch)[j];
  }

  lemma {:induction false} PickIsDistinct(batch: seq<Pending>, route: Route)
    requires Distinct(Keys(batch))
    ensures Distinct(Keys(Pick(batch, route)))
    decreases |batch|
  {
    if batch == [] {
    } else {
      var n := |batch| - 1;
      PrefixDistinct(batch, n);
      PickIsDistinct(batch[..n], route);
      PickIsOf(batch[..n], route);
      var picked := Pick(batch[..n], route);
      forall i | 0 <= i < |picked| ensures picked[i].key != batch[n].key {
        assert picked[i] in batch[..n];
        var j :| 0 <= j < n && batch[..n][j] == picked[i];
        assert Keys(batch)[j] != Keys(batch)[n];
      }
    }
  }

  lemma ApartByRoute(batch: seq<Pending>, r: Route, r': Route)
    requires Distinct(Keys(batch)) && r != r'
    ensures forall i, j :: 0 <= i < |Pick(batch, r)| && 0 <= j < |Pick(batch, r')| ==>
              Pick(batch, r)[i].key != Pick(batch, r')[j].key
  {
    PickIsOf(batch, r);
    PickIsOf(batch, r');
    forall i, j | 0 <= i < |Pick(batch, r)| && 0 <= j < |Pick(batch, r')|
      ensures Pick(batch, r)[i].key != Pick(batch, r')[j].key
    {
      var p, q := Pick(batch, r)[i], Pick(batch, r')[j];
      assert p in Pick(batch, r) && q in Pick(batch, r');
      if p.key == q.key { SameKey(batch, p, q); }
    }
  }

  lemma JoinDistinct(a: seq<Pending>, b: seq<Pending>)
    requires Distinct(Keys(a)) && Distinct(Keys(b))
    requires forall i, j :: 0 <= i < |a| && 0 <= j < |b| ==> a[i].key != b[j].key
    ensures Distinct(Keys(a + b))
  {
    assert Keys(a + b) == Keys(a) + Keys(b);
  }

  lemma PicksAreDistinct(batch: seq<Pending>)
    requires Distinct(Keys(batch))
    ensures Distinct(Keys(Pick(batch, ToPlain) + Pick(batch, ToTx)))
    ensures Distinct(Keys(Pick(batch, ToPlain) + Pick(batch, ToTx) + Pick(batch, ToReport)))
  {
    var plain, tx, committed := Pick(batch, ToPlain), Pick(batch, ToTx), Pick(batch, ToReport);
    PickIsDistinct(batch, ToPlain);
    PickIsDistinct(batch, ToTx);
    PickIsDistinct(batch, ToReport);
    ApartByRoute(batch, ToPlain, ToTx);
    ApartByRoute(batch, ToPlain, ToReport);
    ApartByRoute(batch, ToTx, ToReport);
    JoinDistinct(plain, tx);
    JoinDistinct(plain + tx, committed);
  }

  /** The results a flush is done with: written and not to be tried again, or dropped, or reported as committed. */
  function Settled(done: seq<Entry>, reported: seq<Pending>): set<Key> {
    (set k | k in Keys(Results(done)) && k !in Keys(Retries(done))) + Elements(Keys(reported))
  }

  // The reports a flush makes are of its batch, once each, and of results it is done with.
  lemma FlushReportsOnce(batch: seq<Pending>, done: seq<Entry>, rest: seq<Pending>, reported: seq<Pending>, before: seq<Key>, live: set<Key>)
    requires Distinct(Keys(batch)) && (forall k :: k in Keys(batch) ==> k in live)
    requires Results(done) + rest == Pick(batch, ToPlain) + Pick(batch, ToTx)
    requires reported == if rest == [] then Pick(batch, ToReport) else []
    requires Distinct(before) && forall k :: k in before ==> k !in live
    ensures Distinct(before + Reports(done) + Keys(reported))
    ensures forall k :: k in before + Reports(done) + Keys(reported) ==> k !in live - Settled(done, reported)
  {
    var written := Results(done);
    WrittenOfBatch(batch, written, rest, reported);
    ReportedOnce(done);
    NewReports(before, Reports(done), Keys(written), Keys(reported));
  }

  // What a flush wrote or had only to report is of its batch, nothing twice.
  lemma WrittenOfBatch(batch: seq<Pending>, written: seq<Pending>, rest: seq<Pending>, reported: seq<Pending>)
    requires Distinct(Keys(batch)) && written + rest == Pick(batch, ToPlain) + Pick(batch, ToTx)
    requires reported == if rest == [] then Pick(batch, ToReport) else []
    ensures Distinct(Keys(written)) && Distinct(Keys(written) + Keys(reported))
    ensures forall k :: k in Keys(written) || k in Keys(reported) ==> k in Keys(batch)
  {
    PicksAreDistinct(batch);
    WrittenApart(written, rest, Pick(batch, ToPlain) + Pick(batch, ToTx), Pick(batch, ToReport), reported);
    assert Keys(written + reported) == Keys(written) + Keys(reported);
    WrittenDistinct(written, reported);
    OfBatch(batch, written, rest, reported);
  }

  lemma WrittenDistinct(written: seq<Pending>, reported: seq<Pending>)
    requires Distinct(Keys(written + reported))
    ensures Distinct(Keys(written))
  {
    assert forall i :: 0 <= i < |written| ==> Keys(written)[i] == Keys(written + reported)[i];
  }

  lemma OfBatch(batch: seq<Pending>, written: seq<Pending>, rest: seq<Pending>, reported: seq<Pending>)
    requires written + rest == Pick(batch, ToPlain) + Pick(batch, ToTx) && (reported == Pick(batch, ToReport) || reported == [])
    ensures forall k :: k in Keys(written) || k in Keys(reported) ==> k in Keys(batch)
  {
    forall p | p in written || p in reported ensures p.key in Keys(batch) {
      PickIsOf(batch, ToPlain);
      PickIsOf(batch, ToTx);
      PickIsOf(batch, ToReport);
      if p in written { assert p in written + rest; }
      var i :| 0 <= i < |batch| && batch[i] == p;
      assert Keys(batch)[i] == p.key;
    }
    forall k | k in Keys(written) || k in Keys(reported) ensures k in Keys(batch) {
      if k in Keys(written) {
        var i :| 0 <= i < |written| && Keys(written)[i] == k;
        assert written[i] in written;
      } else {
        var i :| 0 <= i < |reported| && Keys(reported)[i] == k;
        assert reported[i] in reported;
      }
    }
  }

  lemma WrittenApart(written: seq<Pending>, rest: seq<Pending>, sent: seq<Pending>, committed: seq<Pending>, reported: seq<Pending>)
    requires written + rest == sent && Distinct(Keys(sent + committed)) && (reported == committed || reported == [])
    ensures Distinct(Keys(written + reported))
  {
    forall i, j | 0 <= i < j < |written + reported| ensures (written + reported)[i].key != (written + reported)[j].key {
      var i' := if i < |written| then i else i + |rest|;
      var j' := if j < |written| then j else j + |rest|;
      assert (sent + committed)[i'] == (written + reported)[i] && (sent + committed)[j'] == (written + reported)[j];
      assert Keys(sent + committed)[i'] != Keys(sent + committed)[j'];
    }
  }

  lemma NewReports(before: seq<Key>, reports: seq<Key>, written: seq<Key>, reported: seq<Key>)
    requires Distinct(before) && Distinct(reports) && Distinct(written + reported)
    requires forall k :: k in reports ==> k in written
    requires forall k :: k in before ==> k !in written && k !in reported
    ensures Distinct(before + reports + reported)
  {
    var all := before + reports + reported;
    forall i, j | 0 <= i < j < |all| ensures all[i] != all[j] {
      if j < |before| + |reports| {
        if i < |before| <= j { assert all[j] == reports[j - |before|] && all[j] in reports; }
      } else {
        assert all[j] == reported[j - |before| - |reports|] && all[j] in reported;
        if i < |before| {
          assert all[i] in before;
        } else if i < |before| + |reports| {
          assert all[i] == reports[i - |before|] && all[i] in reports && all[i] in written;
          Apart(written, reported, all[i], all[j]);
        } else {
          var k := |written| - |before| - |reports|;
          assert (written + reported)[i + k] == all[i] && (written + reported)[j + k] == all[j];
        }
      }
    }
  }

  lemma Apart(a: seq<Key>, b: seq<Key>, x: Key, y: Key)
    requires Distinct(a + b) && x in a && y in b
    ensures x != y
  {
    var i :| 0 <= i < |a| && a[i] == x;
    var j :| 0 <= j < |b| && b[j] == y;
    assert (a + b)[i] == x && (a + b)[|a| + j] == y;
  }

  /** No statement holds a result seen to commit, and one with a result whose row a transaction may hold skips held rows. */
  ghost predicate SkipsForTx(sent: seq<Sent>, batch: seq<Pending>) {
    forall i, p :: 0 <= i < |sent| && p in batch && p.key in sent[i].keys ==>
      !p.committed && (p.completedTx || p.heldByTx || p.waits > 0 ==> sent[i].skip)
  }

  lemma KeyOf(results: seq<Pending>, k: Key) returns (p: Pending)
    requires k in Keys(results)
    ensures p in results && p.key == k
  {
    var i :| 0 <= i < |results| && Keys(results)[i] == k;
    p := results[i];
  }

  lemma SortedSkips(batch: seq<Pending>, sent: seq<Sent>)
    requires Distinct(Keys(batch)) && SecondSkips(sent, Keys(Pick(batch, ToPlain)), Keys(Pick(batch, ToTx)))
    ensures SkipsForTx(sent, batch)
  {
    PickIsOf(batch, ToPlain);
    PickIsOf(batch, ToTx);
    forall i, p | 0 <= i < |sent| && p in batch && p.key in sent[i].keys
      ensures !p.committed && (p.completedTx || p.heldByTx || p.waits > 0 ==> sent[i].skip)
    {
      var q := KeyOf(if p.key in Keys(Pick(batch, ToPlain)) then Pick(batch, ToPlain) else Pick(batch, ToTx), p.key);
      SameKey(batch, p, q);
      if !sent[i].skip {
        var o := KeyOf(Pick(batch, ToPlain), p.key);
        SameKey(batch, p, o);
      }
    }
  }

  // ---------------------------------------------------------------- nothing is lost

  /**
   The reply lets the result of a key go: its statement succeeded, and applied
   it, or told that the job has moved on, or came with submits closed; or it
   failed in a client that was stopping.
   */
  ghost predicate LetsGo(reply: Reply, k: Key) {
    if reply.outcome.Ok? then k in reply.takes || reply.row(k).Committed? || reply.row(k).Lost? || !reply.open
    else reply.stopped
  }

  ghost predicate LetGo(replies: seq<Reply>, k: Key) {
    exists j :: 0 <= j < |replies| && LetsGo(replies[j], k)
  }

  lemma {:induction false} GatherHas<T>(done: seq<Entry>, part: Entry -> seq<T>, i: nat, x: T)
    requires i < |done| && x in part(done[i])
    ensures x in Gather(done, part)
    decreases |done|
  {
    if i == |done| - 1 {
    } else {
      GatherHas(done[..|done| - 1], part, i, x);
    }
  }

  lemma {:induction false} GatheredFrom<T>(done: seq<Entry>, part: Entry -> seq<T>, x: T) returns (i: nat)
    requires x in Gather(done, part)
    ensures i < |done| && x in part(done[i])
    decreases |done|
  {
    if x in part(done[|done| - 1]) {
      i := |done| - 1;
    } else {
      i := GatheredFrom(done[..|done| - 1], part, x);
    }
  }

  lemma {:induction false} HeldIsRetried(results: seq<Pending>, e: Entry, p: Pending)
    requires e.Wrote? && p in results && p.key !in e.took && e.row(p.key).Held? && e.open
    ensures p.(waits := p.waits + 1) in RetriesOf(results, e)
    decreases |results|
  {
    if p == results[|results| - 1] {
    } else {
      HeldIsRetried(results[..|results| - 1], e, p);
    }
  }

  // A result written is handed in again, waiting once more, unless a reply let it go.
  lemma WrittenOrAgain(done: seq<Entry>, replies: seq<Reply>, p: Pending)
    requires Heard(done, replies) && p in Results(done)
    ensures p.(waits := p.waits + 1) in Retries(done) || LetGo(replies, p.key)
  {
    var i := GatheredFrom(done, ResultsIn, p);
    var e := done[i];
    assert Told(e, replies);
    var j :| 0 <= j < |replies| && IsHeard(e, replies[j]);
    if e.Wrote? && p.key !in e.took && e.row(p.key).Held? && e.open {
      HeldIsGathered(done, i, p);
    } else {
      ToldLetsGo(e, replies[j], p.key);
    }
  }

  lemma HeldIsGathered(done: seq<Entry>, i: nat, p: Pending)
    requires i < |done| && done[i].Wrote? && p in done[i].results
    requires p.key !in done[i].took && done[i].row(p.key).Held? && done[i].open
    ensures p.(waits := p.waits + 1) in Retries(done)
  {
    HeldIsRetried(done[i].results, done[i], p);
    GatherHas(done, RetriesIn, i, p.(waits := p.waits + 1));
  }

  lemma ToldLetsGo(e: Entry, reply: Reply, k: Key)
    requires IsHeard(e, reply) && (e.Wrote? ==> k in e.took || !e.row(k).Held? || !e.open)
    ensures LetsGo(reply, k)
  {
  }

  lemma {:induction false} TakenIsReported(results: seq<Pending>, e: Entry, k: Key)
    requires e.Wrote? && k in e.took && k in Keys(results)
    ensures k in ReportsOf(results, e)
    decreases |results|
  {
    var n := |results| - 1;
    if k == results[n].key {
    } else {
      var i :| 0 <= i < |results| && Keys(results)[i] == k;
      assert Keys(results[..n])[i] == k;
      TakenIsReported(results[..n], e, k);
    }
  }

  // What a statement that succeeded applied is reported.
  lemma AppliedIsReported(done: seq<Entry>, replies: seq<Reply>, before: set<Key>, after: set<Key>, j: nat, k: Key)
    requires Heard(done, replies) && Truthful(done, before, after) && j < |replies| && replies[j].outcome.Ok? && k in replies[j].takes
    ensures k in Reports(done)
  {
    assert Tells(replies[j], done);
    var i :| 0 <= i < |done| && IsHeard(done[i], replies[j]);
    assert TrueEntry(done[i], before, after);
    TakenIsReported(done[i].results, done[i], k);
    GatherHas(done, ReportsIn, i, k);
  }

  /** A reply told the result of p applied: its statement applied it, or the transaction that completed its job had committed. */
  ghost predicate TellsApplied(reply: Reply, p: Pending) {
    reply.outcome.Ok? && (p.key in reply.takes || (reply.row(p.key).Committed? && p.completedTx))
  }

  // What is reported of the results written was told applied.
  lemma ReportIsTold(done: seq<Entry>, replies: seq<Reply>, k: Key) returns (p: Pending, j: nat)
    requires Heard(done, replies) && k in Reports(done)
    ensures p in Results(done) && p.key == k && j < |replies| && TellsApplied(replies[j], p)
  {
    var i := GatheredFrom(done, ReportsIn, k);
    var e := done[i];
    ReportedWas(e.results, e, k);
    var n :| 0 <= n < |e.results| && e.results[n].key == k && IsReported(e.results[n], e);
    p := e.results[n];
    assert p in ResultsIn(e);
    GatherHas(done, ResultsIn, i, p);
    assert Told(e, replies);
    j :| 0 <= j < |replies| && IsHeard(e, replies[j]);
  }

  /**
   Each result of the batch is still to be written, handed in again, seen
   committed, or let go by a reply; only of those does one leave live.
   */
  ghost predicate NoneLost(batch: seq<Pending>, rest: seq<Pending>, again: seq<Pending>, replies: seq<Reply>, was: set<Key>, live: set<Key>) {
    && (forall p :: p in batch ==> p in rest || p.(waits := p.waits + 1) in again || p.committed || LetGo(replies, p.key))
    && (forall k :: k in was && k !in live ==> LetGo(replies, k) || exists p :: p in batch && p.key == k && p.committed)
  }

  /** What the statements that succeeded applied is reported, and of the batch nothing but what was told applied, or seen to commit. */
  ghost predicate ReportsTrue(batch: seq<Pending>, reports: seq<Key>, replies: seq<Reply>) {
    && (forall j, k :: 0 <= j < |replies| && replies[j].outcome.Ok? && k in replies[j].takes ==> k in reports)
    && (forall k :: k in reports ==>
          exists p :: p in batch && p.key == k && (p.committed || exists j :: 0 <= j < |replies| && TellsApplied(replies[j], p)))
  }

  lemma BatchParts(batch: seq<Pending>, written: seq<Pending>, rest: seq<Pending>)
    requires written + rest == Pick(batch, ToPlain) + Pick(batch, ToTx)
    ensures forall p :: p in written || p in rest <==> p in batch && !p.committed
  {
    PickIsOf(batch, ToPlain);
    PickIsOf(batch, ToTx);
    forall p ensures p in written || p in rest <==> p in batch && !p.committed {
      assert p in written || p in rest <==> p in written + rest;
      assert p in written + rest <==> p in Pick(batch, ToPlain) || p in Pick(batch, ToTx);
    }
  }

  lemma FlushLosesNone(batch: seq<Pending>, done: seq<Entry>, rest: seq<Pending>, reported: seq<Pending>, replies: seq<Reply>, was: set<Key>)
    requires Heard(done, replies) && Results(done) + rest == Pick(batch, ToPlain) + Pick(batch, ToTx)
    requires reported == if rest == [] then Pick(batch, ToReport) else []
    ensures NoneLost(batch, rest, Retries(done), replies, was, was - Settled(done, reported))
  {
    BatchParts(batch, Results(done), rest);
    forall p | p in batch && p !in rest && !p.committed ensures p.(waits := p.waits + 1) in Retries(done) || LetGo(replies, p.key) {
      WrittenOrAgain(done, replies, p);
    }
    forall k | k in Settled(done, reported) ensures LetGo(replies, k) || exists p :: p in batch && p.key == k && p.committed {
      SettledIsLetGo(batch, done, reported, replies, k);
    }
  }

  lemma SettledIsLetGo(batch: seq<Pending>, done: seq<Entry>, reported: seq<Pending>, replies: seq<Reply>, k: Key)
    requires Heard(done, replies) && (reported == Pick(batch, ToReport) || reported == []) && k in Settled(done, reported)
    ensures LetGo(replies, k) || exists p :: p in batch && p.key == k && p.committed
  {
    if k in Keys(reported) {
      var p := KeyOf(reported, k);
      PickIsOf(batch, ToReport);
      assert p in batch && p.key == k && p.committed;
    } else {
      var p := KeyOf(Results(done), k);
      WrittenOrAgain(done, replies, p);
      if p.(waits := p.waits + 1) in Retries(done) { HasKey(Retries(done), p.(waits := p.waits + 1)); }
    }
  }

  lemma HasKey(results: seq<Pending>, p: Pending)
    requires p in results
    ensures p.key in Keys(results)
  {
    var i :| 0 <= i < |results| && results[i] == p;
    assert Keys(results)[i] == p.key;
  }

  lemma FlushReportsTrue(batch: seq<Pending>, done: seq<Entry>, rest: seq<Pending>, reported: seq<Pending>, replies: seq<Reply>,
                         before: set<Key>, after: set<Key>)
    requires Heard(done, replies) && Truthful(done, before, after) && Results(done) + rest == Pick(batch, ToPlain) + Pick(batch, ToTx)
    requires reported == if rest == [] then Pick(batch, ToReport) else []
    ensures ReportsTrue(batch, Reports(done) + Keys(reported), replies)
  {
    var reports := Reports(done) + Keys(reported);
    forall j, k | 0 <= j < |replies| && replies[j].outcome.Ok? && k in replies[j].takes ensures k in reports {
      AppliedIsReported(done, replies, before, after, j, k);
    }
    forall k | k in reports
      ensures exists p :: p in batch && p.key == k && (p.committed || exists j :: 0 <= j < |replies| && TellsApplied(replies[j], p))
    {
      if k in Keys(reported) {
        var p := KeyOf(reported, k);
        PickIsOf(batch, ToReport);
        assert p in batch && p.key == k && p.committed;
      } else {
        var p, j := ReportIsTold(done, replies, k);
        BatchParts(batch, Results(done), rest);
        assert p in batch && p.key == k && TellsApplied(replies[j], p);
      }
    }
  }

  // ---------------------------------------------------------------- the finalizer

  class Finalizer {
    /** What the database will reply, and the results it has applied. */
    var script: seq<Reply>
    var db: set<Key>
    /** The results reported applied, and those handed in again, in order. */
    var reports: seq<Key>
    var retries: seq<Pending>
    /** The replies heard, with what each statement applied and the rows told. */
    ghost var heard: seq<Reply>
    /** The results handed in that are neither reported nor dropped. */
    ghost var live: set<Key>

    /** No result was reported applied twice, or will be. */
    ghost predicate Valid()
      reads this
    {
      Distinct(reports) && forall k :: k in reports ==> k !in live
    }

    /** A statement: of the results sent it applies some whose claim still owns the job, each at most once, failing or not. */
    method FinalizeMany(jobs: seq<Key>, skipLocked: bool) returns (reply: Reply, rows: seq<Finalized>, ghost sent: Sent)
      requires script != []
      modifies `script, `db, `heard
      ensures script == old(script)[1..] && reply == old(script)[0].(takes := reply.takes, row := reply.row)
      ensures heard == old(heard) + [reply]
      ensures forall k :: k in reply.takes ==> k in jobs && k !in old(db)
      ensures db == old(db) + reply.takes && rows == Rows(jobs, reply.takes, reply.cascaded)
      ensures forall k :: k in db ==> !reply.row(k).Held?
      ensures sent == Sent(jobs, skipLocked, reply.outcome.DeadlineExceeded?)
    {
      var head := script[0];
      script := script[1..];
      var took := set k | k in head.takes && k in jobs && k !in db;
      db := db + took;
      var applied := db;
      reply := head.(takes := took, row := k => if k in applied && head.row(k).Held? then Lost else head.row(k));
      heard := heard + [reply];
      rows := Rows(jobs, took, head.cascaded);
      sent := Sent(jobs, skipLocked, head.outcome.DeadlineExceeded?);
    }

    /** Reports the applied results, hands in again those a transaction holds, and returns the jobs that finished. */
    method AfterFlush(batch: seq<Pending>, applied: seq<Key>, row: Key -> Row, open: bool, ghost e: Entry)
      returns (finished: seq<Pending>)
      requires Distinct(Keys(batch)) && Distinct(applied) && forall k :: k in applied ==> k in Keys(batch)
      requires e == Wrote(batch, Elements(applied), row, open)
      modifies `reports, `retries
      ensures reports == old(reports) + ReportsOf(batch, e) && retries == old(retries) + RetriesOf(batch, e)
      ensures finished == FinishedOf(batch, e)
    {
      var partial := |applied| != |batch|;
      if !partial { AllAppliedIfAsMany(Keys(batch), applied); }
      finished := [];
      for i := 0 to |batch|
        invariant reports == old(reports) + ReportsOf(batch[..i], e)
        invariant retries == old(retries) + RetriesOf(batch[..i], e)
        invariant finished == FinishedOf(batch[..i], e)
      {
        var p := batch[i];
        FollowUpsGrow(batch, i, e);
        assert Keys(batch)[i] == p.key;
        var done := AfterOne(p, !partial || p.key in applied, row, open, e);
        if done { finished := finished + [p]; }
      }
      assert batch[..|batch|] == batch;
    }

    /** One result of the statement, and whether its job finished. */
    method AfterOne(p: Pending, written: bool, row: Key -> Row, open: bool, ghost e: Entry) returns (done: bool)
      requires e.Wrote? && e.row == row && e.open == open && (written <==> p.key in e.took)
      modifies `reports, `retries
      ensures reports == old(reports) + (if written || (row(p.key).Committed? && p.completedTx) then [p.key] else [])
      ensures retries == old(retries) + (if !written && row(p.key).Held? && open then [p.(waits := p.waits + 1)] else [])
      ensures done <==> if written then p.terminal else (row(p.key).Committed? && p.completedTx) || (!row(p.key).Held? && p.terminal)
    {
      if written {
        reports := reports + [p.key];
        return p.terminal;
      }
      done := NotWritten(p, row, open);
    }

    /** A result the statement did not apply: reported, dropped or handed in again, as the job's row tells. */
    method NotWritten(p: Pending, row: Key -> Row, open: bool) returns (done: bool)
      modifies `reports, `retries
      ensures reports == old(reports) + (if row(p.key).Committed? && p.completedTx then [p.key] else [])
      ensures retries == old(retries) + (if row(p.key).Held? && open then [p.(waits := p.waits + 1)] else [])
      ensures done <==> (row(p.key).Committed? && p.completedTx) || (!row(p.key).Held? && p.terminal)
    {
      match row(p.key)
      case Committed =>
        if p.completedTx {
          reports := reports + [p.key];
          return true;
        }
        return p.terminal;
      case Lost => return p.terminal;
      case Held =>
        if open { retries := retries + [p.(waits := p.waits + 1)]; }
        return false;
    }

    /** A claim hands its result in. */
    ghost method HandIn(p: Pending)
      requires Valid() && p.key !in live && p.key !in reports
      modifies `live
      ensures Valid() && live == old(live) + {p.key}
    {
      live := live + {p.key};
    }

    /**
     Writes the batch of a flush: results whose rows a worker's transaction may
     hold apart from the rest, skipping held rows. Completions seen to commit
     are reported without a write, once the writes have ended.
     */
    method Flush(batch: seq<Pending>) returns (rest: seq<Pending>, ghost done: seq<Entry>, ghost sent: seq<Sent>)
      requires Valid() && Distinct(Keys(batch)) && forall k :: k in Keys(batch) ==> k in live
      modifies this
      ensures Results(done) + rest == Pick(batch, ToPlain) + Pick(batch, ToTx) && (rest != [] ==> script == [])
      ensures reports == old(reports) + Reports(done) + (if rest == [] then Keys(Pick(batch, ToReport)) else [])
      ensures retries == old(retries) + Retries(done) && Truthful(done, old(db), db)
      ensures Valid() && live == old(live) - Settled(done, if rest == [] then Pick(batch, ToReport) else [])
      ensures HeardSince(done, old(heard), heard) && SkipsForTx(sent, batch)
      ensures old(retries) <= retries && NoneLost(batch, rest, retries[|old(retries)|..], heard[|old(heard)|..], old(live), live)
      ensures old(reports) <= reports && ReportsTrue(batch, reports[|old(reports)|..], heard[|old(heard)|..])
    {
      var committed;
      rest, committed, done, sent := WriteSorted(batch);
      ghost var reported := if rest == [] then committed else [];
      if rest == [] { reports := reports + Keys(committed); }
      live := live - Settled(done, reported);
      FlushReportsOnce(batch, done, rest, reported, old(reports), old(live));
      FlushLosesNone(batch, done, rest, reported, heard[|old(heard)|..], old(live));
      FlushReportsTrue(batch, done, rest, reported, heard[|old(heard)|..], old(db), db);
      TailIs(old(retries), retries, Retries(done));
      Assoc(old(reports), Reports(done), Keys(reported));
      TailIs(old(reports), reports, Reports(done) + Keys(reported));
    }

    /** Writes what needs a write, and returns the completions that need none. */
    method WriteSorted(batch: seq<Pending>)
      returns (rest: seq<Pending>, committed: seq<Pending>, ghost done: seq<Entry>, ghost sent: seq<Sent>)
      requires Distinct(Keys(batch))
      modifies `script, `db, `heard, `reports, `retries
      ensures Results(done) + rest == Pick(batch, ToPlain) + Pick(batch, ToTx) && committed == Pick(batch, ToReport)
      ensures reports == old(reports) + Reports(done) && retries == old(retries) + Retries(done)
      ensures Truthful(done, old(db), db) && (rest != [] ==> script == [])
      ensures HeardSince(done, old(heard), heard) && SkipsForTx(sent, batch)
    {
      var plain, tx, finished;
      plain, tx, committed := Sort(batch);
      PicksAreDistinct(batch);
      finished, rest, done, sent := WriteTwo(plain, tx, false);
      SortedSkips(batch, sent);
    }

    ghost function View(): Log
      reads this
    {
      Log(reports, retries, db, heard)
    }

    /**
     Writes a batch. done is what became of its results, in order; rest are
     those still to be written where the replies end; sent are the statements.
     */
    method Write(batch: seq<Pending>, skip: bool)
      returns (finished: seq<Pending>, rest: seq<Pending>, ghost done: seq<Entry>, ghost sent: seq<Sent>)
      requires Distinct(Keys(batch))
      modifies `script, `db, `heard, `reports, `retries
      ensures Wrought(batch, finished, rest, done, old(View()), View()) && (rest != [] ==> script == [])
      ensures Degrades(sent, Keys(batch), skip)
      ensures Opens(sent, Keys(batch), skip)
      ensures |script| <= old(|script|) && (old(script) == [] ==> done == [])
      decreases |script|, 0
    {
      finished, rest, done, sent := [], batch, [], [];
      NothingHeard(heard);
      NothingWrought(batch, View(), View());
      if batch == [] {
        return;
      }
      var skipLocked := skip;
      while script != []
        invariant Tried(batch, old(View()), View()) && |script| <= old(|script|)
        invariant finished == [] && rest == batch && done == []
        invariant Opens(sent, Keys(batch), skip) && (sent == [] ==> skipLocked == skip)
        invariant Trying(sent, Keys(batch), skip, skipLocked)
        decreases |script|
      {
        var reply;
        ghost var stmt, before := Sent([], false, false), sent;
        finished, reply, done, stmt := TryOnce(batch, skipLocked, old(View()));
        TryingOnce(before, stmt, Keys(batch), skip, skipLocked);
        sent := sent + [stmt];
        if reply.outcome.Ok? {
          rest := [];
          return;
        } else if !skipLocked && reply.outcome.DeadlineExceeded? {
          skipLocked := true;
        } else if reply.stopped {
          rest, done := [], [GaveUp(batch)];
          return;
        } else if reply.outcome.DeadlineExceeded? && |batch| > 1 {
          ghost var halves;
          finished, rest, done, halves := WriteHalves(batch, old(View()));
          DegradesIntoHalves(before, stmt, halves, Keys(batch), skip);
          sent := sent + halves;
          return;
        }
      }
      NothingWrought(batch, old(View()), View());
    }

    /** One statement of the batch, after others that did not succeed. */
    method TryOnce(batch: seq<Pending>, skipLocked: bool, ghost before: Log)
      returns (finished: seq<Pending>, reply: Reply, ghost done: seq<Entry>, ghost stmt: Sent)
      requires Distinct(Keys(batch)) && script != [] && Tried(batch, before, View())
      modifies `script, `db, `heard, `reports, `retries
      ensures |script| == |old(script)| - 1 && stmt == Sent(Keys(batch), skipLocked, reply.outcome.DeadlineExceeded?)
      ensures reply.outcome.Ok? ==> Wrought(batch, finished, [], done, before, View())
      ensures !reply.outcome.Ok? ==> Tried(batch, before, View()) && finished == [] && done == []
      ensures !reply.outcome.Ok? && reply.stopped ==> Wrought(batch, [], [], [GaveUp(batch)], before, View())
    {
      var rows;
      ghost var mid := View();
      finished, done := [], [];
      reply, rows, stmt := FinalizeMany(Keys(batch), skipLocked);
      if reply.outcome.Ok? {
        finished, done := Succeed(batch, reply, rows, before, mid);
      } else {
        TriedAgain(batch, before, mid, View(), reply);
        if reply.stopped { WroughtOne(batch, GaveUp(batch), before, mid, View(), reply); }
      }
    }

    /** A statement succeeded, after others that did not. */
    method Succeed(batch: seq<Pending>, reply: Reply, rows: seq<Finalized>, ghost before: Log, ghost mid: Log)
      returns (finished: seq<Pending>, ghost done: seq<Entry>)
      requires Distinct(Keys(batch)) && rows == Rows(Keys(batch), reply.takes, reply.cascaded) && reply.outcome.Ok?
      requires Tried(batch, before, mid) && heard == mid.heard + [reply] && reports == mid.reports && retries == mid.retries
      requires db == mid.db + reply.takes && (forall k :: k in reply.takes ==> k in Keys(batch) && k !in mid.db)
      requires forall k :: k in db ==> !reply.row(k).Held?
      modifies `reports, `retries
      ensures Wrought(batch, finished, [], done, before, View()) && done == [Wrote(batch, reply.takes, reply.row, reply.open)]
    {
      ghost var e := Wrote(batch, reply.takes, reply.row, reply.open);
      finished := Written(batch, reply, rows, e);
      done := [e];
      WroughtOne(batch, e, before, mid, View(), reply);
    }

    /** Writes a batch that timed out as two halves. Before it, statements may have applied results unnoticed. */
    method WriteHalves(batch: seq<Pending>, ghost before: Log)
      returns (finished: seq<Pending>, rest: seq<Pending>, ghost done: seq<Entry>, ghost sent: seq<Sent>)
      requires Distinct(Keys(batch)) && |batch| > 1
      requires Tried(batch, before, View())
      modifies `script, `db, `heard, `reports, `retries
      ensures Wrought(batch, finished, rest, done, before, View()) && (rest != [] ==> script == [])
      ensures Degrades(sent, Keys(batch), true) && Smaller(sent, |batch|)
      ensures |script| <= old(|script|)
      decreases |script|, 2
    {
      var half := |batch| / 2;
      assert batch == batch[..half] + batch[half..];
      finished, rest, done, sent := WriteTwo(batch[..half], batch[half..], true);
      WroughtSince(batch, finished, rest, done, before, old(View()), View());
    }

    /** A statement succeeded. */
    method Written(batch: seq<Pending>, reply: Reply, rows: seq<Finalized>, ghost e: Entry) returns (finished: seq<Pending>)
      requires Distinct(Keys(batch)) && rows == Rows(Keys(batch), reply.takes, reply.cascaded)
      requires e == Wrote(batch, reply.takes, reply.row, reply.open) && forall k :: k in reply.takes ==> k in Keys(batch)
      modifies `reports, `retries
      ensures reports == old(reports) + ReportsIn(e) && retries == old(retries) + RetriesIn(e) && finished == FinishedIn(e)
    {
      var applied, cascaded := SplitCascaded(rows);
      RowsTell(Keys(batch), reply.takes, reply.cascaded);
      assert Elements(applied) == reply.takes;
      finished := AfterFlush(batch, applied, reply.row, reply.open, e);
    }

    /** Writes two batches, the one after the other, the second skipping held rows. */
    method WriteTwo(a: seq<Pending>, b: seq<Pending>, skip: bool)
      returns (finished: seq<Pending>, rest: seq<Pending>, ghost done: seq<Entry>, ghost sent: seq<Sent>)
      requires Distinct(Keys(a + b))
      modifies `script, `db, `heard, `reports, `retries
      ensures Wrought(a + b, finished, rest, done, old(View()), View()) && (rest != [] ==> script == [])
      ensures Degrades(sent, Keys(a + b), skip) && (a != [] && b != [] ==> Smaller(sent, |a + b|)) && SecondSkips(sent, Keys(a), Keys(b))
      ensures |script| <= old(|script|)
      decreases |script|, 1
    {
      ghost var first, second, sentA, sentB;
      SplitIsDistinct(a, b);
      finished, rest, first, sentA := Write(a, skip);
      ghost var mid := View();
      var more, left;
      more, left, second, sentB := Write(b, true);
      WroughtJoin(a, finished, rest, first, b, more, left, second, old(View()), mid, View());
      SentJoin(a, sentA, b, sentB, skip);
      finished, rest, done, sent := finished + more, rest + left, first + second, sentA + sentB;
    }
  }
}
