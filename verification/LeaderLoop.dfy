/**
 The leader loop's own variables, updated in place as the loop runs, and the
 fence of a term's lease. Each method is proved against the step of the
 cluster's state machine that it takes.
 */
module LeaderLoop {
  import opened Basics
  import opened LeaderLease
  import opened LeaderTerms

  /** How long a term's lease is known to be held; None before the first renewal. */
  class LeaseFence {
    var until: Option<int>

    constructor ()
      ensures until == None
    {
      until := None;
    }

    /** Records a renewal, and reports whether it extended the lease: not once it has lapsed. */
    method Renew(now: int, renewal: int) returns (extended: bool)
      modifies this
      ensures extended <==> old(until).None? || now < old(until).value
      ensures until == if extended then Some(renewal) else old(until)
      ensures old(until).Some? ==> until == Some(RenewFence(old(until).value, now, renewal))
    {
      if until.Some? && now >= until.value {
        return false;
      }
      until := Some(renewal);
      extended := true;
    }
  }

  /** One client's loop. The term is the fence object of the term it runs, or null. */
  class Loop {
    const ttl: nat
    var id: nat
    var isLeader: bool
    var term: LeaseFence?
    var leaseID: nat
    var elected: int
    var held: bool
    var loops: nat
    var events: seq<Event>
    var pc: Pc

    ghost predicate Valid()
      reads this, term
    {
      && (term != null ==> term.until.Some?)
      && ClientInv(View())
    }

    ghost function View(): (c: Client)
      reads this, term
    {
      Client(ttl, id, isLeader, if term == null then None else term.until, leaseID, elected, held, loops, events, pc)
    }

    constructor (ttl: nat, id: nat)
      ensures Valid() && fresh(this)
      ensures View() == Client(ttl, id, false, None, 0, 0, false, 0, [], Idle)
    {
      this.ttl := ttl;
      this.id := id;
      isLeader, term, leaseID, elected, held, loops, events, pc := false, null, 0, 0, false, 0, [], Idle;
    }

    /** Stops the term's loops and waits for them; nothing without a term. */
    method EndLoops()
      requires term != null ==> term.until.Some? && loops > 0
      modifies this`term, this`loops
      ensures View() == EndTerm(old(View())) && term == null
    {
      if term == null {
        return;
      }
      loops := loops - 1;
      term := null;
    }

    /** Ends the term the client has stopped leading, with its event. */
    method LoseTerm()
      requires term != null ==> term.until.Some? && loops > 0
      modifies this`isLeader, this`events, this`term, this`loops
      ensures View() == Lose(old(View())) && term == null
    {
      isLeader := false;
      events := events + [Lost];
      EndLoops();
    }

    /** Ends the term once its lease may have expired without a renewal, and reports whether it did. */
    method EndIfLapsed(now: int) returns (ended: bool)
      requires Valid()
      modifies this
      ensures View() == EndLapsed(old(View()), now)
      ensures ended <==> old(isLeader) && !isLeader
      ensures term == old(term) || term == null
    {
      ended := term != null && term.until.value <= now && isLeader;
      if ended {
        LoseTerm();
      }
    }

    /** The top of an iteration: an attempt is ready to be sent, or a fenced client's lease to be given up. */
    method Begin(now: int)
      requires Valid() && pc.Idle?
      modifies this
      ensures Valid()
      ensures View() == BeginIteration(old(View()), now)
      ensures old(term) != null && old(term.until).value <= now ==> term == null && !isLeader && events == old(events) + [Lost]
      ensures old(term) != null && now < old(term.until).value && old(leaseID) == id ==> term == old(term) && isLeader && events == old(events)
    {
      BeginKeepsClient(View(), now);
      var attempt := id;
      var _ := EndIfLapsed(now);
      if held && leaseID != attempt {
        if isLeader {
          LoseTerm();
        }
        held := false;
        pc := GivingUp(leaseID, attempt);
      } else {
        pc := Ready(attempt);
      }
    }

    /**
     What the loop does with the term once an attempt has come back. A renewal
     of the term extends its fence, if that has not lapsed. A term whose fence
     has lapsed ends, with its event, unless the response asks it to resign.
     Anything else leaves it as it is.
     */
    method Settle(now: int, until: int, response: Option<Response>)
      requires Valid() && pc.Waiting?
      modifies this, term
      ensures View() == SettleTerm(old(View()), now, until, response)
      ensures old(term) != null && now < old(term.until).value && response == Some(Granted(old(elected), false)) ==>
                term == old(term) && term.until == Some(until)
      ensures old(term) != null && now < old(term.until).value && response != Some(Granted(old(elected), false)) ==>
                term == old(term) && term.until == old(term.until)
      ensures old(term) != null && old(term.until).value <= now && response != Some(Granted(old(elected), true)) ==>
                term == null && !isLeader && loops == 0 && events == old(events) + [Lost]
      ensures term == old(term) ==> isLeader == old(isLeader) && events == old(events) && loops == old(loops)
      ensures term == old(term) || term == null
      ensures pc == old(pc) && (term != null ==> term.until.Some? && loops > 0)
    {
      if term == null {
        return;
      }
      var renewed := response.Some? && response.value.Granted? && response.value.elected == elected;
      if renewed && !response.value.asked {
        renewed := term.Renew(now, until);
      }
      if !renewed {
        var _ := EndIfLapsed(now);
      }
    }

    /** Acts on the response once the term has been settled. */
    method Act(now: int, response: Option<Response>)
      requires pc.Waiting? && (term != null ==> term.until.Some? && loops > 0)
      modifies this
      ensures View() == Decide(old(View()), old(pc.id), old(pc.until), response)
      ensures term != null ==> term.until.Some?
    {
      var attempt, until := pc.id, pc.until;
      if response.Some? && response.value.Granted? && response.value.elected != elected && isLeader {
        LoseTerm();
      }
      match response {
        case None =>
          pc := Idle;
        case Some(Denied) =>
          held := false;
          if isLeader {
            LoseTerm();
          }
          pc := Idle;
        case Some(Granted(termOf, asked)) =>
          if asked {
            var led := isLeader;
            EndLoops();
            held, isLeader, pc := false, false, Resigning(attempt, led);
          } else {
            leaseID, elected, held, pc := attempt, termOf, true, Idle;
            if !isLeader {
              Lead(now, until);
            }
          }
      }
    }

    /** The client becomes leader, with the event. */
    method Lead(now: int, until: int)
      modifies this`isLeader, this`events, this`term, this`loops
      ensures View() == old(View()).(isLeader := true, events := old(events) + [Elected], term := Some(until), loops := old(loops) + 1)
      ensures term != null && fresh(term)
    {
      isLeader := true;
      events := events + [Elected];
      StartTerm(now, until);
    }

    /** Starts a term whose lease expires no earlier than until. */
    method StartTerm(now: int, until: int)
      modifies this`term, this`loops
      ensures View() == old(View()).(term := Some(until), loops := old(loops) + 1)
      ensures term != null && fresh(term)
    {
      var fence := new LeaseFence();
      var _ := fence.Renew(now, until);
      term, loops := fence, loops + 1;
    }

    /** Handles an attempt's response, or its error (None). */
    method HandleResponse(now: int, response: Option<Response>)
      requires Valid() && pc.Waiting?
      modifies this, term
      ensures Valid()
      ensures View() == Handle(old(View()), now, old(pc.id), old(pc.until), response)
    {
      HandleKeepsClient(View(), now, response);
      Settle(now, pc.until, response);
      Act(now, response);
    }
  }
}
