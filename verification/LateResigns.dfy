/**
 Resigns that reach the database after their call has returned: what one can do
 to the leader, and exactly when it does.
 */
module LateResigns {
  import opened Basics
  import opened LeaderLease
  import opened LeaderTerms

  // ---------------------------------------------------------------- runs, put together

  lemma {:induction false} RunAppends(s: State, a: seq<Step>, m: State, b: seq<Step>, t: State, late: bool)
    requires Run(s, a, m, late) && Run(m, b, t, late)
    ensures Run(s, a + b, t, late)
    decreases |a|
  {
    if a == [] {
      assert a + b == b;
    } else {
      RunAppends(Apply(s, a[0], late), a[1..], m, b, t, late);
      assert (a + b)[1..] == a[1..] + b;
    }
  }

  /** A fresh client with a lease of 10 time units. */
  function FreshClient(id: nat): Client {
    Client(10, id, false, None, 0, 0, false, 0, [], Idle)
  }

  /** One full iteration of client p that takes the lease. */
  function Election(p: nat): seq<Step> {
    [Begin(p), Send(p), Effect(p), Return(p, false)]
  }

  // The run of the lemma below, state by state.
  function Started(): State {
    State(0, Free, [FreshClient(0), FreshClient(1)], [0, 1], {})
  }

  function FirstTerm(): State {
    State(0, Held(0, 0, 10, false),
          [FreshClient(0).(isLeader := true, term := Some(10), held := true, loops := 1, events := [Elected]),
           FreshClient(1)], [0, 1], {})
  }

  function AskedToResign(): State {
    State(0, Held(0, 0, 10, true), [FreshClient(0).(events := [Elected], pc := Resigning(0, true)), FreshClient(1)],
          [0, 1], {})
  }

  function ResignLost(): State {
    State(20, Held(0, 0, 10, true), [FreshClient(0).(events := [Elected, Resigned]), FreshClient(1)], [0, 1], {0})
  }

  function SecondTerm(row: Row): State {
    State(20, row,
          [FreshClient(0).(isLeader := true, term := Some(30), elected := 20, held := true, loops := 1,
                           events := [Elected, Resigned, Elected]),
           FreshClient(1)], [0, 1], {0})
  }

  function TwoLeaders(): State {
    State(20, Held(1, 20, 30, false),
          [SecondTerm(Free).clients[0],
           FreshClient(1).(isLeader := true, term := Some(30), leaseID := 1, elected := 20, held := true, loops := 1,
                           events := [Elected])], [0, 1], {0})
  }

  lemma RunToFirstTerm() returns (steps: seq<Step>)
    ensures Run(Started(), steps, FirstTerm(), true)
  {
    steps := Election(0);
    assert FreshClient(0).events + [Elected] == [Elected];
    ElectionRun(Started(), 0, FirstTerm(), true);
  }

  lemma RunToAsked() returns (steps: seq<Step>)
    ensures Run(FirstTerm(), steps, AskedToResign(), true)
  {
    steps := [Request(false, 0)] + Election(0);
    var r := Apply(FirstTerm(), steps[0], true);
    ElectionRun(r, 0, AskedToResign(), true);
    assert steps[1..] == Election(0);
  }

  lemma RunToResignLost() returns (steps: seq<Step>)
    ensures Run(AskedToResign(), steps, ResignLost(), true)
  {
    steps := [ResignReturn(0), Tick(20), HoldOffEnds(0)];
    assert [Elected] + [Resigned] == [Elected, Resigned];
    var r1 := Apply(AskedToResign(), steps[0], true);
    var r2 := Apply(r1, steps[1..][0], true);
    assert r2.now == 20 && r2.clients[0].pc == HoldingOff(10) && r2.resigned == {0};
    assert Apply(r2, steps[1..][1..][0], true) == ResignLost();
    assert steps[1..][1..][1..] == [];
    assert Run(r2, steps[1..][1..], ResignLost(), true);
  }

  lemma RunToLateResign() returns (steps: seq<Step>)
    ensures Run(ResignLost(), steps, SecondTerm(Free), true)
  {
    var elected := SecondTerm(Held(0, 20, 30, false));
    assert [Elected, Resigned] + [Elected] == [Elected, Resigned, Elected];
    ElectionRun(ResignLost(), 0, elected, true);
    assert Run(elected, [StrayResign(0)], SecondTerm(Free), true) by {
      assert Apply(elected, StrayResign(0), true) == SecondTerm(Free);
      assert [StrayResign(0)][1..] == [];
    }
    RunAppends(ResignLost(), Election(0), elected, [StrayResign(0)], SecondTerm(Free), true);
    steps := Election(0) + [StrayResign(0)];
  }

  lemma RunToTwoLeaders() returns (steps: seq<Step>)
    ensures Run(SecondTerm(Free), steps, TwoLeaders(), true)
  {
    steps := Election(1);
    assert FreshClient(1).events + [Elected] == [Elected];
    ElectionRun(SecondTerm(Free), 1, TwoLeaders(), true);
  }

  // Were a resign to land after its call had returned, two clients could lead
  // at once: client 0 is asked to resign, its resign fails to report, it is
  // elected again once the lease has lapsed, and the first resign then deletes
  // the new lease, which client 1 takes.
  lemma LateResignBreaksExclusion() returns (s: State, steps: seq<Step>, t: State)
    ensures Init(s) && Run(s, steps, t, true)
    ensures Leads(t, 0) && Leads(t, 1)
  {
    s, t := Started(), TwoLeaders();
    var a := RunToFirstTerm();
    var b := RunToAsked();
    var c := RunToResignLost();
    var d := RunToLateResign();
    var e := RunToTwoLeaders();
    RunAppends(ResignLost(), d, SecondTerm(Free), e, t, true);
    RunAppends(AskedToResign(), c, ResignLost(), d + e, t, true);
    RunAppends(FirstTerm(), b, AskedToResign(), c + (d + e), t, true);
    RunAppends(s, a, FirstTerm(), b + (c + (d + e)), t, true);
    steps := a + (b + (c + (d + e)));
  }

  // An attempt takes effect and its call returns.
  lemma AnsweredRun(s: State, p: nat, t: State, late: bool)
    requires p < |s.clients| && s.clients[p].pc.Waiting? && s.clients[p].pc.response.None? && s.clients[p].pc.id < |s.owner|
    requires var c := s.clients[p];
             var (row, response) := Attempt(s.row, c.pc.id, c.ttl, s.now);
             t == s.(row := row, clients := s.clients[p := Handle(
                 c.(pc := Waiting(c.pc.id, c.pc.until, Some(response))), s.now, c.pc.id, c.pc.until, Some(response))])
    ensures Run(s, [Effect(p), Return(p, false)], t, late)
  {
    var s1 := Apply(s, Effect(p), late);
    assert Apply(s1, Return(p, false), late).clients == t.clients;
    StepFirst(s1, Return(p, false), [], t, late);
    StepFirst(s, Effect(p), [Return(p, false)] + [], t, late);
    assert [Effect(p), Return(p, false)] == [Effect(p)] + ([Return(p, false)] + []);
  }

  // One undisturbed iteration of an idle client that a fence has not moved.
  lemma ElectionRun(s: State, p: nat, t: State, late: bool)
    requires p < |s.clients| && s.clients[p].pc.Idle? && s.clients[p].id < |s.owner|
    requires var c := EndLapsed(s.clients[p], s.now);
             && !(c.held && c.leaseID != c.id)
             && var (row, response) := Attempt(s.row, c.id, c.ttl, s.now);
                t == s.(row := row, clients := s.clients[p := Handle(
                    c.(pc := Waiting(c.id, s.now + c.ttl, Some(response))), s.now, c.id, s.now + c.ttl, Some(response))])
    ensures Run(s, Election(p), t, late)
  {
    var c := EndLapsed(s.clients[p], s.now);
    var s1 := s.(clients := s.clients[p := c.(pc := Ready(c.id))]);
    assert Apply(s, Begin(p), late) == s1;
    var s2 := s.(clients := s.clients[p := c.(pc := Waiting(c.id, s.now + c.ttl, None))]);
    assert Apply(s1, Send(p), late).clients == s2.clients;
    AnsweredRun(s2, p, t, late);
    StepFirst(s1, Send(p), [Effect(p), Return(p, false)], t, late);
    StepFirst(s, Begin(p), [Send(p)] + [Effect(p), Return(p, false)], t, late);
    assert Election(p) == [Begin(p)] + ([Send(p)] + [Effect(p), Return(p, false)]);
  }

  lemma StepFirst(s: State, e: Step, rest: seq<Step>, t: State, late: bool)
    requires Enabled(s, e, late) && Run(Apply(s, e, late), rest, t, late)
    ensures Run(s, [e] + rest, t, late)
  {
    assert ([e] + rest)[1..] == rest;
  }

  // ---------------------------------------------------------------- exactly when one is harmless

  /** At most one client leads. */
  ghost predicate Exclusive(s: State) {
    forall p: nat, q: nat :: Leads(s, p) && Leads(s, q) ==> p == q
  }

  /** The client can be elected: it is between attempts, and its lease lasts. */
  predicate Electable(s: State, q: nat) {
    q < |s.clients| && s.clients[q].pc.Idle? && s.clients[q].ttl > 0
  }

  /** Client q, ready to send an attempt, takes a free lease. */
  lemma ReadyTakesLease(s: State, q: nat) returns (steps: seq<Step>, t: State)
    requires q < |s.clients| && s.clients[q].pc.Ready? && s.clients[q].ttl > 0 && s.row.Free?
    requires s.clients[q].term.None? && !s.clients[q].isLeader && s.clients[q].pc.id < |s.owner|
    ensures Run(s, steps, t, false) && Leads(t, q) && t.now == s.now && |t.clients| == |s.clients|
    ensures forall p :: 0 <= p < |s.clients| && p != q ==> t.clients[p] == s.clients[p]
  {
    var s1 := Apply(s, Send(q), false);
    var s2 := Apply(s1, Effect(q), false);
    t := Apply(s2, Return(q, false), false);
    StepFirst(s2, Return(q, false), [], t, false);
    StepFirst(s1, Effect(q), [Return(q, false)] + [], t, false);
    StepFirst(s, Send(q), [Effect(q)] + ([Return(q, false)] + []), t, false);
    steps := [Send(q)] + ([Effect(q)] + ([Return(q, false)] + []));
  }

  // With the lease free, any client between attempts is elected, whether or not a fence has moved it.
  lemma IdleTakesLease(s: State, q: nat) returns (steps: seq<Step>, t: State)
    requires Electable(s, q) && s.row.Free? && ClientInv(s.clients[q]) && IdsInv(s, q) && !Leads(s, q)
    ensures Run(s, steps, t, false) && Leads(t, q) && t.now == s.now && |t.clients| == |s.clients|
    ensures forall p :: 0 <= p < |s.clients| && p != q ==> t.clients[p] == s.clients[p]
  {
    var s1 := Apply(s, Begin(q), false);
    assert s1.clients[q].term.None? && !s1.clients[q].isLeader;
    if s1.clients[q].pc.Ready? {
      steps, t := ReadyTakesLease(s1, q);
    } else {
      var s2 := Apply(s1, ResignReturn(q), false);
      steps, t := ReadyTakesLease(s2, q);
      StepFirst(s1, ResignReturn(q), steps, t, false);
      steps := [ResignReturn(q)] + steps;
    }
    StepFirst(s, Begin(q), steps, t, false);
    steps := [Begin(q)] + steps;
  }

  // A late resign of the lease a client leads under lets any other client be elected beside it.
  lemma UnsparedLeaderBreaksExclusion(s: State, id: nat, p: nat, q: nat) returns (steps: seq<Step>, t: State)
    requires Inv(s) && Leads(s, p) && s.clients[p].leaseID == id && Electable(s, q) && p != q
    ensures Run(s.(row := Resign(s.row, id)), steps, t, false) && Leads(t, p) && Leads(t, q)
  {
    assert ClientInv(s.clients[p]) && IdsInv(s, p) && LeaseInv(s, p);
    assert ClientInv(s.clients[q]) && IdsInv(s, q) && LeaseInv(s, q);
    steps, t := IdleTakesLease(s.(row := Resign(s.row, id)), q);
  }

  // So does one of the lease a client was granted and has not heard of yet.
  lemma UnsparedGrantBreaksExclusion(s: State, id: nat, p: nat, q: nat) returns (steps: seq<Step>, t: State)
    requires Inv(s) && p < |s.clients| && GrantPending(s.clients[p], id, s.now) && Electable(s, q)
    ensures Run(s.(row := Resign(s.row, id)), steps, t, false) && Leads(t, p) && Leads(t, q) && p != q
  {
    assert ClientInv(s.clients[p]) && IdsInv(s, p) && LeaseInv(s, p);
    assert ClientInv(s.clients[q]) && IdsInv(s, q) && LeaseInv(s, q);
    var s1 := s.(row := Resign(s.row, id));
    var s2 := Apply(s1, Return(p, false), false);
    assert Leads(s2, p) && s2.row.Free?;
    steps, t := IdleTakesLease(s2, q);
    StepFirst(s1, Return(p, false), steps, t, false);
    steps := [Return(p, false)] + steps;
  }

  ghost predicate Reaches(s: State, steps: seq<Step>, t: State) {
    Run(s, steps, t, false)
  }

  // While another client can be elected, a late resign leaves one leader at a
  // time in whatever run follows if and only if it spares the leader: no
  // client leads under its ID, or has been granted the lease under it.
  lemma LateResignIsHarmlessIff(s: State, id: nat, q: nat)
    requires Inv(s) && id in s.resigned && Electable(s, q) && !OwnedBy(s, id, q)
    ensures SparesLeader(s, id) <==>
              forall steps, t :: Reaches(s.(row := Resign(s.row, id)), steps, t) ==> Exclusive(t)
  {
    var s1 := s.(row := Resign(s.row, id));
    if SparesLeader(s, id) {
      StrayResignKeepsInv(s, id);
      forall steps, t | Reaches(s1, steps, t) ensures Exclusive(t) {
        RunKeepsInv(s1, steps, t);
        InvIsExclusive(t);
      }
    } else {
      var p :| 0 <= p < |s.clients| &&
               ((s.clients[p].term.Some? && s.now < s.clients[p].term.value && s.clients[p].leaseID == id)
                || GrantPending(s.clients[p], id, s.now));
      assert ClientInv(s.clients[p]) && IdsInv(s, p);
      var steps, t;
      if GrantPending(s.clients[p], id, s.now) {
        steps, t := UnsparedGrantBreaksExclusion(s, id, p, q);
      } else {
        steps, t := UnsparedLeaderBreaksExclusion(s, id, p, q);
      }
      assert Reaches(s1, steps, t) && !Exclusive(t);
    }
  }
}
