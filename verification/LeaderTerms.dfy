/**
 The leader loop of any number of clients against one lease row, as a state
 machine whose steps interleave freely. A client's step reads the clock once.
 Handling a response is one step: it touches only the client's own variables.
 */
module LeaderTerms {
  import opened Basics
  import opened LeaderLease

  datatype Event = Elected | Lost | Resigned

  /** Where a client's loop is. Waiting holds the response once the statement has taken effect. */
  datatype Pc =
    | Idle
    | Ready(id: nat)
    | Waiting(id: nat, until: int, response: Option<Response>)
    | GivingUp(id: nat, next: nat)
    | Resigning(id: nat, led: bool)
    | HoldingOff(end: int)
    | Stopping(id: nat)
    | Stopped

  /**
   A client: its current ID, the loop's variables, the leader events it has
   emitted and the number of terms whose loops have not ended. `term` is the
   expiry of the term's lease fence.
   */
  datatype Client = Client(
    ttl: nat,
    id: nat,
    isLeader: bool,
    term: Option<int>,
    leaseID: nat,
    elected: int,
    held: bool,
    loops: nat,
    events: seq<Event>,
    pc: Pc)

  /** The fence's renewal: an expiry that has passed stays put. */
  function RenewFence(until: int, now: int, renewal: int): int {
    if now < until then renewal else until
  }

  /** Ends the term's loops, waiting for them; nothing for a client without a term. */
  function EndTerm(c: Client): Client {
    c.(term := None, loops := if c.term.Some? && c.loops > 0 then c.loops - 1 else c.loops)
  }

  function Lose(c: Client): Client {
    EndTerm(c).(isLeader := false, events := c.events + [Lost])
  }

  /** Ends the term once its lease may have expired without a renewal. */
  function EndLapsed(c: Client, now: int): Client {
    if c.term.Some? && c.term.value <= now && c.isLeader then Lose(c) else c
  }

  /** The start of an iteration: a lapsed term ends, and so does one whose client a fence moved to another ID. */
  function BeginIteration(c: Client, now: int): Client {
    var c1 := EndLapsed(c, now);
    if c1.held && c1.leaseID != c1.id then
      (if c1.isLeader then Lose(c1) else c1).(held := false, pc := GivingUp(c1.leaseID, c1.id))
    else
      c1.(pc := Ready(c1.id))
  }

  /** The term after an attempt came back: extended, left alone, or ended for having lapsed. */
  function SettleTerm(c: Client, now: int, until: int, response: Option<Response>): Client {
    if c.term.None? then c
    else if response.Some? && response.value.Granted? && response.value.elected == c.elected
            && (response.value.asked || now < c.term.value) then
      if response.value.asked then c else c.(term := Some(RenewFence(c.term.value, now, until)))
    else EndLapsed(c, now)
  }

  /** What the loop makes of the response, once the term has been settled. */
  function Decide(c: Client, id: nat, until: int, response: Option<Response>): Client {
    match response
    case None => c.(pc := Idle)
    case Some(Denied) => (if c.isLeader then Lose(c) else c).(held := false, pc := Idle)
    case Some(Granted(elected, asked)) =>
      var c1 := if elected != c.elected && c.isLeader then Lose(c) else c;
      if asked then
        EndTerm(c1).(held := false, isLeader := false, pc := Resigning(id, c1.isLeader))
      else
        var c2 := c1.(leaseID := id, elected := elected, held := true, pc := Idle);
        if c2.isLeader then c2
        else c2.(isLeader := true, term := Some(until), loops := c2.loops + 1, events := c2.events + [Elected])
  }

  /** Everything the loop does with an attempt's response, or its error (None). */
  function Handle(c: Client, now: int, id: nat, until: int, response: Option<Response>): Client {
    Decide(SettleTerm(c, now, until, response), id, until, response)
  }

  /**
   The state: the clock, the row, the clients, for every ID handed out the
   client it was given to, and the IDs a resign call has returned for.
   */
  datatype State = State(now: int, row: Row, clients: seq<Client>, owner: seq<nat>, resigned: set<nat>)

  /**
   The steps. Stray is an attempt whose call has returned, with an error,
   landing late, and StrayResign the same for a resign.
   */
  datatype Step =
    | Tick(elapsed: nat)
    | Fence(p: nat)
    | Begin(p: nat)
    | ResignEffect(p: nat)
    | ResignReturn(p: nat)
    | Send(p: nat)
    | Effect(p: nat)
    | Return(p: nat, failed: bool)
    | HoldOffEnds(p: nat)
    | Stop(p: nat)
    | Request(named: bool, leader: nat)
    | Stray(id: nat)
    | StrayResign(id: nat)

  predicate IsClientStep(e: Step) {
    !e.Tick? && !e.Request? && !e.Stray? && !e.StrayResign?
  }

  /** A resign of pc.id is in flight. */
  predicate InResign(pc: Pc) {
    pc.GivingUp? || pc.Resigning? || pc.Stopping?
  }

  /** The client has been granted the lease under id for longer than now, and has not handled the response. */
  predicate GrantPending(c: Client, id: nat, now: int) {
    && c.pc.Waiting? && c.pc.id == id && now < c.pc.until
    && c.pc.response.Some? && c.pc.response.value.Granted? && !c.pc.response.value.asked
  }

  /** No client leads under id, or is about to for a lease granted. */
  predicate SparesLeader(s: State, id: nat) {
    forall p :: 0 <= p < |s.clients| ==>
      && !(s.clients[p].term.Some? && s.now < s.clients[p].term.value && s.clients[p].leaseID == id)
      && !GrantPending(s.clients[p], id, s.now)
  }

  /** With anyResign a resign may land late at any time; without, only where it spares the leader. */
  predicate Enabled(s: State, e: Step, anyResign: bool) {
    if IsClientStep(e) then
      e.p < |s.clients| &&
      var pc := s.clients[e.p].pc;
      match e
      case Fence(_) => !pc.Stopped?
      case Begin(_) => pc.Idle?
      case ResignEffect(_) => InResign(pc)
      case ResignReturn(_) => InResign(pc)
      case Send(_) => pc.Ready?
      case Effect(_) => pc.Waiting? && pc.response.None? && pc.id < |s.owner|
      case Return(_, failed) => pc.Waiting? && (failed || pc.response.Some?)
      case HoldOffEnds(_) => pc.HoldingOff? && pc.end <= s.now
      case Stop(_) => pc.Idle? || pc.HoldingOff?
    else
      match e
      case Stray(id) => id < |s.owner| && s.owner[id] < |s.clients|
      case StrayResign(id) => id in s.resigned && (anyResign || SparesLeader(s, id))
      case _ => true
  }

  /** A client's step on its own variables. */
  function ClientStep(c: Client, e: Step, now: int, newID: nat): Client {
    match e
    case Fence(_) => c.(id := newID)
    case Begin(_) => BeginIteration(c, now)
    case ResignReturn(_) =>
      (match c.pc
       case GivingUp(_, next) => c.(pc := Ready(next))
       case Resigning(_, led) => c.(pc := HoldingOff(now + c.ttl), events := if led then c.events + [Resigned] else c.events)
       case _ => c.(pc := Stopped))
    case Send(_) => if c.pc.Ready? then c.(pc := Waiting(c.pc.id, now + c.ttl, None)) else c
    case Return(_, failed) =>
      if c.pc.Waiting? then Handle(c, now, c.pc.id, c.pc.until, if failed then None else c.pc.response) else c
    case HoldOffEnds(_) => c.(pc := Idle)
    case Stop(_) =>
      var ended := EndTerm(c).(isLeader := false);
      ended.(pc := if c.isLeader || c.held then Stopping(c.leaseID) else Stopped)
    case _ => c
  }

  function Apply(s: State, e: Step, anyResign: bool): State
    requires Enabled(s, e, anyResign)
  {
    match e
    case Tick(elapsed) => s.(now := s.now + elapsed)
    case Request(named, leader) => s.(row := RequestResign(s.row, named, leader, s.now))
    case Stray(id) => s.(row := Attempt(s.row, id, s.clients[s.owner[id]].ttl, s.now).0)
    case StrayResign(id) => s.(row := Resign(s.row, id))
    case ResignEffect(p) => s.(row := Resign(s.row, s.clients[p].pc.id))
    case Effect(p) =>
      var c := s.clients[p];
      var (row, response) := Attempt(s.row, c.pc.id, c.ttl, s.now);
      s.(row := row, clients := s.clients[p := c.(pc := c.pc.(response := Some(response)))])
    case Fence(p) =>
      s.(clients := s.clients[p := ClientStep(s.clients[p], e, s.now, |s.owner|)], owner := s.owner + [p])
    case ResignReturn(p) =>
      s.(clients := s.clients[p := ClientStep(s.clients[p], e, s.now, |s.owner|)],
         resigned := s.resigned + {s.clients[p].pc.id})
    case _ =>
      s.(clients := s.clients[e.p := ClientStep(s.clients[e.p], e, s.now, |s.owner|)])
  }

  // ---------------------------------------------------------------- invariants

  predicate Alternates(events: seq<Event>) {
    forall i :: 0 <= i < |events| ==> (events[i] == Elected <==> i % 2 == 0)
  }

  /** What holds of a client by itself, at every step of every run. */
  predicate ClientInv(c: Client) {
    && (c.isLeader <==> c.term.Some?)
    && c.loops == (if c.term.Some? then 1 else 0)
    && (c.term.Some? ==> c.held && !InResign(c.pc) && !c.pc.HoldingOff? && !c.pc.Stopped?)
    && (c.term.Some? && c.pc.Waiting? ==> c.pc.id == c.leaseID)
    && (c.term.Some? && c.pc.Ready? ==> c.pc.id == c.leaseID)
    && Alternates(c.events)
    && (!c.pc.Stopping? && !c.pc.Stopped? ==>
          (|c.events| % 2 == 1 <==> c.isLeader || (c.pc.Resigning? && c.pc.led)))
  }

  predicate OwnedBy(s: State, id: nat, p: nat) {
    id < |s.owner| && s.owner[id] == p
  }

  predicate IdsInv(s: State, p: nat)
    requires p < |s.clients|
  {
    var c := s.clients[p];
    && OwnedBy(s, c.id, p)
    && (c.held ==> OwnedBy(s, c.leaseID, p))
    && (c.pc.Ready? || c.pc.Waiting? || InResign(c.pc) ==> OwnedBy(s, c.pc.id, p))
    && (c.pc.GivingUp? ==> OwnedBy(s, c.pc.next, p))
  }

  /** The inequality everything rests on: a fence, or a grant not yet handled, never outlasts the row. */
  predicate LeaseInv(s: State, p: nat)
    requires p < |s.clients|
  {
    var c := s.clients[p];
    && (c.term.Some? && s.now < c.term.value ==> Covers(s.row, c.leaseID, c.elected, c.term.value))
    && (c.pc.Waiting? ==> c.pc.until <= s.now + c.ttl)
    && (c.pc.Waiting? && c.pc.response.Some? && c.pc.response.value.Granted? && !c.pc.response.value.asked
        && s.now < c.pc.until ==>
          Covers(s.row, c.pc.id, c.pc.response.value.elected, c.pc.until))
  }

  predicate RowInv(s: State) {
    s.row.Held? ==>
      && s.row.holder < |s.owner|
      && s.owner[s.row.holder] < |s.clients|
      && s.row.expires <= s.now + s.clients[s.owner[s.row.holder]].ttl
  }

  ghost predicate Inv(s: State) {
    && RowInv(s)
    && (forall i :: 0 <= i < |s.owner| ==> s.owner[i] < |s.clients|)
    && forall p: nat :: p < |s.clients| ==> ClientInv(s.clients[p]) && IdsInv(s, p) && LeaseInv(s, p)
  }

  /** A cluster that has just started: no lease, every client with an ID of its own and no term. */
  ghost predicate Init(s: State) {
    && s.row.Free?
    && s.resigned == {}
    && |s.owner| == |s.clients|
    && forall p: nat :: p < |s.clients| ==>
         s.owner[p] == p && s.clients[p] == Client(s.clients[p].ttl, p, false, None, 0, 0, false, 0, [], Idle)
  }

  // ---------------------------------------------------------------- one client's steps

  // Ending a term for cause closes the pair of events its election opened.
  lemma LoseKeepsClient(c: Client)
    requires ClientInv(c) && c.isLeader
    ensures Alternates(Lose(c).events) && |Lose(c).events| % 2 == 0
    ensures Lose(c).loops == 0 && Lose(c).term.None?
  {
  }

  lemma BeginKeepsClient(c: Client, now: int)
    requires ClientInv(c) && c.pc.Idle?
    ensures ClientInv(BeginIteration(c, now))
  {
    if c.isLeader { LoseKeepsClient(c); }
  }

  lemma HandleKeepsClient(c: Client, now: int, response: Option<Response>)
    requires ClientInv(c) && c.pc.Waiting?
    ensures ClientInv(Handle(c, now, c.pc.id, c.pc.until, response))
  {
    if c.isLeader { LoseKeepsClient(c); }
  }

  lemma StepKeepsClient(c: Client, e: Step, now: int, newID: nat)
    requires ClientInv(c)
    requires e.Fence? || e.Begin? || e.ResignReturn? || e.Send? || e.Return? || e.HoldOffEnds? || e.Stop?
    requires e.Begin? ==> c.pc.Idle?
    requires e.ResignReturn? ==> InResign(c.pc)
    requires e.HoldOffEnds? ==> c.pc.HoldingOff?
    requires e.Stop? ==> c.pc.Idle? || c.pc.HoldingOff?
    requires e.Fence? ==> !c.pc.Stopped?
    ensures ClientInv(ClientStep(c, e, now, newID))
  {
    match e
    case Begin(_) => BeginKeepsClient(c, now);
    case Return(_, failed) =>
      if c.pc.Waiting? { HandleKeepsClient(c, now, if failed then None else c.pc.response); }
    case _ =>
  }

  // ---------------------------------------------------------------- the whole cluster's steps

  // A lease with an unexpired fence over it survives any attempt.
  lemma AttemptKeepsCover(s: State, id: nat, q: nat, leaseID: nat, elected: int, until: int)
    requires Inv(s) && OwnedBy(s, id, q)
    requires s.now < until && Covers(s.row, leaseID, elected, until)
    ensures Covers(Attempt(s.row, id, s.clients[q].ttl, s.now).0, leaseID, elected, until)
  {
    AttemptKeepsLiveLease(s.row, id, s.clients[q].ttl, s.now, until);
  }

  // A statement that changes the row by an attempt of an ID some client owns.
  lemma AttemptStepKeepsInv(s: State, id: nat, q: nat)
    requires Inv(s) && OwnedBy(s, id, q)
    ensures Inv(s.(row := Attempt(s.row, id, s.clients[q].ttl, s.now).0))
  {
    var t := s.(row := Attempt(s.row, id, s.clients[q].ttl, s.now).0);
    forall p: nat | p < |t.clients|
      ensures ClientInv(t.clients[p]) && IdsInv(t, p) && LeaseInv(t, p)
    {
      assert ClientInv(s.clients[p]) && IdsInv(s, p) && LeaseInv(s, p);
      var c := s.clients[p];
      if c.term.Some? && s.now < c.term.value {
        AttemptKeepsCover(s, id, q, c.leaseID, c.elected, c.term.value);
      }
      if c.pc.Waiting? && c.pc.response.Some? && c.pc.response.value.Granted? && !c.pc.response.value.asked && s.now < c.pc.until {
        AttemptKeepsCover(s, id, q, c.pc.id, c.pc.response.value.elected, c.pc.until);
      }
    }
  }

  // A resign in flight deletes only the lease of a client without a term.
  lemma ResignKeepsInv(s: State, q: nat)
    requires Inv(s) && q < |s.clients| && InResign(s.clients[q].pc)
    ensures Inv(s.(row := Resign(s.row, s.clients[q].pc.id)))
  {
    var t := s.(row := Resign(s.row, s.clients[q].pc.id));
    assert ClientInv(s.clients[q]) && IdsInv(s, q);
    forall p: nat | p < |t.clients|
      ensures ClientInv(t.clients[p]) && IdsInv(t, p) && LeaseInv(t, p)
    {
      assert ClientInv(s.clients[p]) && IdsInv(s, p) && LeaseInv(s, p);
    }
  }

  // A late resign deletes the lease of no client that leads, or is about to.
  lemma StrayResignKeepsInv(s: State, id: nat)
    requires Inv(s) && SparesLeader(s, id)
    ensures Inv(s.(row := Resign(s.row, id)))
  {
    var t := s.(row := Resign(s.row, id));
    forall p: nat | p < |t.clients|
      ensures ClientInv(t.clients[p]) && IdsInv(t, p) && LeaseInv(t, p)
    {
      assert ClientInv(s.clients[p]) && IdsInv(s, p) && LeaseInv(s, p);
    }
  }

  lemma RequestKeepsInv(s: State, named: bool, leader: nat)
    requires Inv(s)
    ensures Inv(s.(row := RequestResign(s.row, named, leader, s.now)))
  {
    var t := s.(row := RequestResign(s.row, named, leader, s.now));
    forall p: nat | p < |t.clients|
      ensures ClientInv(t.clients[p]) && IdsInv(t, p) && LeaseInv(t, p)
    {
      assert ClientInv(s.clients[p]) && IdsInv(s, p) && LeaseInv(s, p);
    }
  }

  lemma TickKeepsInv(s: State, elapsed: nat)
    requires Inv(s)
    ensures Inv(s.(now := s.now + elapsed))
  {
    var t := s.(now := s.now + elapsed);
    forall p: nat | p < |t.clients|
      ensures ClientInv(t.clients[p]) && IdsInv(t, p) && LeaseInv(t, p)
    {
      assert ClientInv(s.clients[p]) && IdsInv(s, p) && LeaseInv(s, p);
    }
  }

  /** From s to t only client p changes, and it may be handed an ID. */
  predicate OnlyChanges(s: State, t: State, p: nat) {
    && p < |s.clients| == |t.clients| && (t.owner == s.owner || t.owner == s.owner + [p])
    && t == s.(clients := s.clients[p := t.clients[p]], owner := t.owner) && t.clients[p].ttl == s.clients[p].ttl
  }

  // Replacing one client's variables, and nothing else, asks only about that client.
  lemma ChangeKeepsInv(s: State, t: State, p: nat)
    requires Inv(s) && OnlyChanges(s, t, p) && ClientInv(t.clients[p]) && IdsInv(t, p) && LeaseInv(t, p)
    ensures Inv(t)
  {
    forall q: nat | q < |t.clients|
      ensures ClientInv(t.clients[q]) && IdsInv(t, q) && LeaseInv(t, q)
    {
      assert ClientInv(s.clients[q]) && IdsInv(s, q) && LeaseInv(s, q);
    }
  }

  lemma EffectKeepsInv(s: State, p: nat)
    requires Inv(s) && Enabled(s, Effect(p), false)
    ensures Inv(Apply(s, Effect(p), false))
  {
    var c := s.clients[p];
    assert ClientInv(c) && IdsInv(s, p) && LeaseInv(s, p);
    var s1 := s.(row := Attempt(s.row, c.pc.id, c.ttl, s.now).0);
    AttemptStepKeepsInv(s, c.pc.id, p);
    GrantCoversTtl(s.row, c.pc.id, c.ttl, s.now);
    var c1 := c.(pc := c.pc.(response := Some(Attempt(s.row, c.pc.id, c.ttl, s.now).1)));
    assert LeaseInv(s1, p);
    ChangeKeepsInv(s1, s1.(clients := s1.clients[p := c1]), p);
  }

  // A response handled late extends or starts a term only with what the row still holds.
  lemma HandleKeepsLease(s: State, p: nat, failed: bool)
    requires Inv(s) && Enabled(s, Return(p, failed), false)
    ensures var c := s.clients[p];
            var t := s.(clients := s.clients[p := ClientStep(c, Return(p, failed), s.now, |s.owner|)]);
            IdsInv(t, p) && LeaseInv(t, p)
  {
    assert ClientInv(s.clients[p]) && IdsInv(s, p) && LeaseInv(s, p);
  }

  // No other step of a client extends a fence or brings a grant closer.
  lemma StepKeepsLease(s: State, e: Step, t: State)
    requires Inv(s) && Enabled(s, e, false) && IsClientStep(e) && !e.Effect? && !e.ResignEffect? && !e.Return?
    requires t == s.(clients := s.clients[e.p := ClientStep(s.clients[e.p], e, s.now, |s.owner|)],
                     owner := if e.Fence? then s.owner + [e.p] else s.owner)
    ensures IdsInv(t, e.p) && LeaseInv(t, e.p)
  {
    assert ClientInv(s.clients[e.p]) && IdsInv(s, e.p) && LeaseInv(s, e.p);
  }

  /** The state after a step of a client on its own variables, but for the resigns returned. */
  function Stepped(s: State, e: Step): State
    requires IsClientStep(e) && e.p < |s.clients|
  {
    s.(clients := s.clients[e.p := ClientStep(s.clients[e.p], e, s.now, |s.owner|)], owner := if e.Fence? then s.owner + [e.p] else s.owner)
  }

  lemma AppliedIsStepped(s: State, e: Step)
    requires Enabled(s, e, false) && IsClientStep(e) && !e.Effect? && !e.ResignEffect?
    ensures Apply(s, e, false) == Stepped(s, e).(resigned := Apply(s, e, false).resigned)
  {
  }

  lemma OnlyChangesOne(s: State, e: Step)
    requires IsClientStep(e) && e.p < |s.clients|
    ensures OnlyChanges(s, Stepped(s, e), e.p)
  {
  }

  lemma SteppedKeepsClient(s: State, e: Step)
    requires Inv(s) && Enabled(s, e, false) && IsClientStep(e) && !e.Effect? && !e.ResignEffect?
    ensures ClientInv(Stepped(s, e).clients[e.p])
  {
    assert ClientInv(s.clients[e.p]);
    StepKeepsClient(s.clients[e.p], e, s.now, |s.owner|);
  }

  lemma SteppedKeepsLease(s: State, e: Step)
    requires Inv(s) && Enabled(s, e, false) && IsClientStep(e) && !e.Effect? && !e.ResignEffect?
    ensures IdsInv(Stepped(s, e), e.p) && LeaseInv(Stepped(s, e), e.p)
  {
    if e.Return? {
      HandleKeepsLease(s, e.p, e.failed);
    } else {
      StepKeepsLease(s, e, Stepped(s, e));
    }
  }

  lemma SteppedKeepsInv(s: State, e: Step)
    requires Inv(s) && Enabled(s, e, false) && IsClientStep(e) && !e.Effect? && !e.ResignEffect?
    ensures Inv(Stepped(s, e))
  {
    SteppedKeepsClient(s, e);
    SteppedKeepsLease(s, e);
    OnlyChangesOne(s, e);
    ChangeKeepsInv(s, Stepped(s, e), e.p);
  }

  lemma ClientStepKeepsInv(s: State, e: Step)
    requires Inv(s) && Enabled(s, e, false) && IsClientStep(e) && !e.Effect? && !e.ResignEffect?
    ensures Inv(Apply(s, e, false))
  {
    SteppedKeepsInv(s, e);
    AppliedIsStepped(s, e);
    ResignedIsIrrelevant(Stepped(s, e), Apply(s, e, false).resigned);
  }

  lemma ResignedIsIrrelevant(s: State, resigned: set<nat>)
    requires Inv(s)
    ensures Inv(s.(resigned := resigned))
  {
    var t := s.(resigned := resigned);
    forall p: nat | p < |t.clients|
      ensures ClientInv(t.clients[p]) && IdsInv(t, p) && LeaseInv(t, p)
    {
      assert ClientInv(s.clients[p]) && IdsInv(s, p) && LeaseInv(s, p);
    }
  }

  lemma StepKeepsInv(s: State, e: Step)
    requires Inv(s) && Enabled(s, e, false)
    ensures Inv(Apply(s, e, false))
  {
    match e
    case Tick(elapsed) => TickKeepsInv(s, elapsed);
    case Request(named, leader) => RequestKeepsInv(s, named, leader);
    case Stray(id) => AttemptStepKeepsInv(s, id, s.owner[id]);
    case StrayResign(id) => StrayResignKeepsInv(s, id);
    case ResignEffect(p) => ResignKeepsInv(s, p);
    case Effect(p) => EffectKeepsInv(s, p);
    case _ => ClientStepKeepsInv(s, e);
  }

  // ---------------------------------------------------------------- runs

  /** `steps` is a run from s that ends in t. */
  ghost predicate Run(s: State, steps: seq<Step>, t: State, anyResign: bool)
    decreases |steps|
  {
    if steps == [] then s == t
    else Enabled(s, steps[0], anyResign) && Run(Apply(s, steps[0], anyResign), steps[1..], t, anyResign)
  }

  lemma {:induction false} RunKeepsInv(s: State, steps: seq<Step>, t: State)
    requires Inv(s) && Run(s, steps, t, false)
    ensures Inv(t)
    decreases |steps|
  {
    if steps == [] {
    } else {
      StepKeepsInv(s, steps[0]);
      RunKeepsInv(Apply(s, steps[0], false), steps[1..], t);
    }
  }

  lemma InitHasInv(s: State)
    requires Init(s)
    ensures Inv(s)
  {
  }

  /** The client holds a term whose fence has not expired. */
  predicate Leads(s: State, p: nat) {
    p < |s.clients| && s.clients[p].term.Some? && s.now < s.clients[p].term.value
  }

  // A client whose fence has not expired is the one the row names: so at most one leads.
  lemma InvIsExclusive(s: State)
    requires Inv(s)
    ensures forall p: nat, q: nat :: Leads(s, p) && Leads(s, q) ==> p == q
  {
    forall p: nat, q: nat | Leads(s, p) && Leads(s, q) ensures p == q {
      assert IdsInv(s, p) && LeaseInv(s, p) && ClientInv(s.clients[p]);
      assert IdsInv(s, q) && LeaseInv(s, q) && ClientInv(s.clients[q]);
    }
  }

  // In every run of any number of clients, attempts and resigns that land late
  // included where those spare the leader, a client whose fence has not
  // expired is the one the row names, in the term it runs, for longer than the
  // fence lets it: so at most one client leads at a time.
  lemma AtMostOneLeads(s: State, steps: seq<Step>, t: State, p: nat, q: nat)
    requires Init(s) && Run(s, steps, t, false)
    requires Leads(t, p)
    ensures Covers(t.row, t.clients[p].leaseID, t.clients[p].elected, t.clients[p].term.value)
    ensures OwnedBy(t, t.row.holder, p)
    ensures Leads(t, q) ==> p == q
  {
    InitHasInv(s);
    RunKeepsInv(s, steps, t);
    assert ClientInv(t.clients[p]) && IdsInv(t, p) && LeaseInv(t, p);
    InvIsExclusive(t);
  }

  // In every run, a client is leader exactly while it has a term, a term starts
  // only once the loops of the one before have ended (there is never a second
  // set of loops), and its events read elected, then lost or resigned, in turn.
  lemma TermsAreSequential(s: State, steps: seq<Step>, t: State, p: nat)
    requires Init(s) && Run(s, steps, t, false)
    requires p < |t.clients|
    ensures t.clients[p].isLeader <==> t.clients[p].term.Some?
    ensures t.clients[p].loops == if t.clients[p].isLeader then 1 else 0
    ensures Alternates(t.clients[p].events)
    ensures t.clients[p].isLeader ==> t.clients[p].events != [] && t.clients[p].events[|t.clients[p].events| - 1] == Elected
  {
    InitHasInv(s);
    RunKeepsInv(s, steps, t);
    assert ClientInv(t.clients[p]);
  }

  // In every run, once a term's fence has expired no step moves it: the term
  // ends, or keeps the expiry it had, until a new election.
  lemma ExpiredFenceStays(s: State, steps: seq<Step>, t: State, e: Step, p: nat)
    requires Init(s) && Run(s, steps, t, false) && Enabled(t, e, false)
    requires p < |t.clients| && t.clients[p].term.Some? && t.clients[p].term.value <= t.now
    ensures var c := Apply(t, e, false).clients[p];
            c.term.Some? && c.events == t.clients[p].events ==> c.term == t.clients[p].term
  {
    InitHasInv(s);
    RunKeepsInv(s, steps, t);
    assert ClientInv(t.clients[p]);
    if IsClientStep(e) && e.p == p { OwnStepKeepsExpired(t.clients[p], e, t.now, |t.owner|); }
  }

  lemma OwnStepKeepsExpired(c: Client, e: Step, now: int, newID: nat)
    requires ClientInv(c) && c.term.Some? && c.term.value <= now
    ensures var after := ClientStep(c, e, now, newID);
            after.term.Some? && after.events == c.events ==> after.term == c.term
  {
    if e.Return? && c.pc.Waiting? { HandleKeepsExpired(c, now, e.failed); }
  }

  // No response moves a fence that has expired: it is kept, or the term is lost.
  lemma HandleKeepsExpired(c: Client, now: int, failed: bool)
    requires ClientInv(c) && c.pc.Waiting? && c.term.Some? && c.term.value <= now
    ensures var after := Handle(c, now, c.pc.id, c.pc.until, if failed then None else c.pc.response);
            after.term.Some? && after.events == c.events ==> after.term == c.term
  {
    var response := if failed then None else c.pc.response;
    assert SettleTerm(c, now, c.pc.until, response) == c || SettleTerm(c, now, c.pc.until, response) == Lose(c);
    assert Lose(c).events != c.events;
  }

  // A stop of a client that leads ends its term and loops without an event,
  // and its resign, once it takes effect, leaves the lease to others.
  lemma StopGivesUpLease(s: State, p: nat)
    requires Inv(s) && Enabled(s, Stop(p), false) && s.clients[p].isLeader
    ensures var c, s1 := s.clients[p], Apply(s, Stop(p), false);
            && s1.clients[p].term.None? && s1.clients[p].loops == 0 && s1.clients[p].events == c.events && s1.row == s.row
            && Enabled(s1, ResignEffect(p), false)
            && var s2 := Apply(s1, ResignEffect(p), false);
               && !(s2.row.Held? && s2.row.holder == c.leaseID)
               && s2.row == if s.row.Held? && s.row.holder == c.leaseID then Free else s.row
  {
    assert ClientInv(s.clients[p]);
  }
}
