/**
 What the steps of a client's loop do to its term, one kind of response at a
 time, as an observer of its fence and its events sees it; and that a leader
 nothing disturbs goes on leading.
 */
module LeaderSteps {
  import opened Basics
  import opened LeaderLease
  import opened LeaderTerms
  import LateResigns

  /** Client p waits on an attempt that the database has answered. */
  predicate Answered(s: State, p: nat, response: Response) {
    p < |s.clients| && s.clients[p].pc.Waiting? && s.clients[p].pc.response == Some(response)
  }

  /** The client has no term, and its loops have ended. */
  predicate Termless(c: Client) {
    c.term.None? && !c.isLeader && c.loops == 0
  }

  // A renewal that comes back in time extends the term to a TTL from when it was sent, without an event.
  lemma RenewalExtendsTerm(s: State, p: nat)
    requires Inv(s) && Leads(s, p) && Answered(s, p, Granted(s.clients[p].elected, false))
    ensures var before, after := s.clients[p], Apply(s, Return(p, false), false).clients[p];
            after == before.(term := Some(before.pc.until), pc := Idle)
  {
    assert ClientInv(s.clients[p]);
  }

  // One that comes back too late ends the term, and starts the next one of the same lease.
  lemma LateRenewalStartsOver(s: State, p: nat)
    requires Inv(s) && p < |s.clients| && Answered(s, p, Granted(s.clients[p].elected, false)) && s.clients[p].term.Some? && !Leads(s, p)
    ensures var before, after := s.clients[p], Apply(s, Return(p, false), false).clients[p];
            && after.events == before.events + [Lost, Elected] && after.term == Some(before.pc.until)
            && after.isLeader && after.loops == 1 && after.pc.Idle?
  {
    assert ClientInv(s.clients[p]);
    var e := s.clients[p].events;
    assert e + [Lost] + [Elected] == e + [Lost, Elected];
  }

  // A grant elects a client that did not lead: under the ID, and in the term, the database granted.
  lemma GrantElects(s: State, p: nat, elected: int)
    requires Inv(s) && Answered(s, p, Granted(elected, false)) && !s.clients[p].isLeader
    ensures var before, after := s.clients[p], Apply(s, Return(p, false), false).clients[p];
            && after.isLeader && after.term == Some(before.pc.until) && after.loops == 1 && after.events == before.events + [Elected]
            && after.held && after.leaseID == before.pc.id && after.elected == elected && after.pc.Idle?
  {
    assert ClientInv(s.clients[p]);
  }

  // A grant of another term than the one the client leads ends the one before it starts the other.
  lemma NewTermEndsOld(s: State, p: nat, elected: int)
    requires Inv(s) && Answered(s, p, Granted(elected, false)) && s.clients[p].isLeader && elected != s.clients[p].elected
    ensures var before, after := s.clients[p], Apply(s, Return(p, false), false).clients[p];
            && after.isLeader && after.term == Some(before.pc.until) && after.loops == 1 && after.elected == elected
            && after.events == before.events + [Lost, Elected] && after.pc.Idle?
  {
    assert ClientInv(s.clients[p]);
    var e := s.clients[p].events;
    assert e + [Lost] + [Elected] == e + [Lost, Elected];
  }

  // A denial ends the term, if there is one, with its event.
  lemma DenialEndsTerm(s: State, p: nat)
    requires Inv(s) && Answered(s, p, Denied)
    ensures var before, after := s.clients[p], Apply(s, Return(p, false), false).clients[p];
            && Termless(after) && !after.held && after.pc.Idle?
            && after.events == if before.isLeader then before.events + [Lost] else before.events
  {
    assert ClientInv(s.clients[p]);
  }

  // An attempt that failed leaves a term as it was, unless its lease may have expired: then it ends, with its event.
  lemma FailureKeepsTerm(s: State, p: nat)
    requires Inv(s) && p < |s.clients| && s.clients[p].pc.Waiting?
    ensures var before, after := s.clients[p], Apply(s, Return(p, true), false).clients[p];
            if Leads(s, p) || before.term.None? then after == before.(pc := Idle)
            else Termless(after) && after.held == before.held && after.events == before.events + [Lost] && after.pc.Idle?
  {
    assert ClientInv(s.clients[p]);
  }

  // A resign request ends the term's loops before the lease is given up; the
  // event comes once it has been, if the client led the term asked for, and a hold-off of a TTL begins.
  lemma RequestEndsTerm(s: State, p: nat, elected: int)
    requires Inv(s) && Answered(s, p, Granted(elected, true))
    ensures var before, s1 := s.clients[p], Apply(s, Return(p, false), false);
            var led := before.isLeader && before.elected == elected;
            && Termless(s1.clients[p]) && !s1.clients[p].held && s1.clients[p].pc == Resigning(before.pc.id, led)
            && s1.clients[p].events == (if before.isLeader && !led then before.events + [Lost] else before.events)
            && var after := Apply(s1, ResignReturn(p), false).clients[p];
               after.pc == HoldingOff(s.now + before.ttl) && Termless(after)
               && after.events == if led then before.events + [Resigned] else s1.clients[p].events
  {
    assert ClientInv(s.clients[p]);
  }

  /** The client holds off until then, or has been stopped while it did. */
  predicate IsOut(s: State, p: nat, until: int) {
    p < |s.clients| && (s.clients[p].pc == HoldingOff(until) || s.clients[p].pc.Stopping? || s.clients[p].pc.Stopped?)
  }

  lemma StepKeepsOut(s: State, e: Step, p: nat, until: int, anyResign: bool)
    requires Enabled(s, e, anyResign) && IsOut(s, p, until) && s.now < until
    ensures var t := Apply(s, e, anyResign); IsOut(t, p, until) && s.now <= t.now
  {
  }

  lemma {:induction false} TimeGoesOn(s: State, steps: seq<Step>, t: State, anyResign: bool)
    requires Run(s, steps, t, anyResign)
    ensures s.now <= t.now
    decreases |steps|
  {
    if steps == [] {
    } else {
      TimeGoesOn(Apply(s, steps[0], anyResign), steps[1..], t, anyResign);
    }
  }

  // In every run a client that resigned on request stays out of the election
  // until a TTL after its resign returned, unless it is stopped: it sends no attempt.
  lemma {:induction false} HoldOffLasts(s: State, steps: seq<Step>, t: State, p: nat, until: int, anyResign: bool)
    requires Run(s, steps, t, anyResign) && IsOut(s, p, until) && t.now < until
    ensures IsOut(t, p, until)
    decreases |steps|
  {
    if steps == [] {
    } else {
      TimeGoesOn(s, steps, t, anyResign);
      StepKeepsOut(s, steps[0], p, until, anyResign);
      HoldOffLasts(Apply(s, steps[0], anyResign), steps[1..], t, p, until, anyResign);
    }
  }

  // An iteration ends a term whose lease may have expired, with its event.
  lemma LapsedTermEnds(s: State, p: nat)
    requires Inv(s) && Enabled(s, Begin(p), false) && s.clients[p].term.Some? && s.clients[p].term.value <= s.now
    ensures var after := Apply(s, Begin(p), false).clients[p];
            Termless(after) && after.events == s.clients[p].events + [Lost]
  {
    assert ClientInv(s.clients[p]);
  }

  // It ends the term of a client that a fence has moved to another ID too, and gives the old ID's lease up.
  lemma MovedClientGivesUp(s: State, p: nat)
    requires Inv(s) && Enabled(s, Begin(p), false) && s.clients[p].held && s.clients[p].leaseID != s.clients[p].id
    ensures var before, after := s.clients[p], Apply(s, Begin(p), false).clients[p];
            && Termless(after) && !after.held && after.pc == GivingUp(before.leaseID, before.id)
            && after.events == if before.isLeader then before.events + [Lost] else before.events
  {
    assert ClientInv(s.clients[p]);
  }

  // Otherwise it only gets the attempt ready, and the attempt counts its lease from when it is sent.
  lemma IterationSends(s: State, p: nat)
    requires Inv(s) && Enabled(s, Begin(p), false) && (s.clients[p].term.Some? ==> Leads(s, p))
    requires s.clients[p].held ==> s.clients[p].leaseID == s.clients[p].id
    ensures var before, s1 := s.clients[p], Apply(s, Begin(p), false);
            && s1.clients[p] == before.(pc := Ready(before.id)) && Enabled(s1, Send(p), false)
            && Apply(s1, Send(p), false).clients[p] == before.(pc := Waiting(before.id, s.now + before.ttl, None))
  {
    assert ClientInv(s.clients[p]);
  }

  // A leader that nothing disturbs, its lease not asked for, goes on leading: an
  // iteration leaves it a fence, and a lease, of a full TTL and no event.
  lemma LeaderGoesOn(s: State, p: nat, late: bool) returns (t: State)
    requires Inv(s) && Leads(s, p) && s.clients[p].pc.Idle? && s.clients[p].leaseID == s.clients[p].id && !s.row.asked
    ensures Run(s, LateResigns.Election(p), t, late) && t.now == s.now && |t.clients| == |s.clients|
    ensures t.clients[p] == s.clients[p].(term := Some(s.now + s.clients[p].ttl))
    ensures Covers(t.row, s.clients[p].leaseID, s.clients[p].elected, s.now + s.clients[p].ttl)
  {
    var c := s.clients[p];
    assert ClientInv(c) && IdsInv(s, p) && LeaseInv(s, p);
    var (row, response) := Attempt(s.row, c.id, c.ttl, s.now);
    assert response == Granted(c.elected, false);
    var waiting := c.(pc := Waiting(c.id, s.now + c.ttl, Some(response)));
    t := s.(row := row, clients := s.clients[p := Handle(waiting, s.now, c.id, s.now + c.ttl, Some(response))]);
    LateResigns.ElectionRun(s, p, t, late);
  }
}
