/**
 The client's side of the queue state: the counter, and the flags of the
 producers, updated in place. The flags a version of the database holds are
 given by flagsAt; the ghost field says which reading each producer's come from.
 */
module QueueControl {
  import opened Basics
  import opened QueueState

  datatype Flags = Flags(paused: bool, limited: bool)

  class Control {
    ghost const flagsAt: (nat, Queue) -> Flags
    var controlSeq: nat
    var appliedFrom: nat
    var producers: map<Queue, Flags>
    ghost var source: map<Queue, Reading>

    ghost predicate Valid()
      reads this
    {
      && source.Keys == producers.Keys
      && forall q :: q in producers ==> producers[q] == flagsAt(source[q].version, q)
    }

    /** The lists are what the database held at a version. */
    ghost predicate Lists(paused: seq<Queue>, limited: seq<Queue>, version: nat) {
      forall q :: flagsAt(version, q) == Flags(q in paused, q in limited)
    }

    constructor (ghost flagsAt: (nat, Queue) -> Flags)
      ensures Valid() && controlSeq == 0 && appliedFrom == 0 && producers == map[]
      ensures this.flagsAt == flagsAt
    {
      this.flagsAt := flagsAt;
      controlSeq, appliedFrom, producers, source := 0, 0, map[], map[];
    }

    /** Sets every local producer's flags from the lists of paused and limited queues. */
    method SetQueueState(paused: seq<Queue>, limited: seq<Queue>)
      modifies this`producers
      ensures producers == map q | q in old(producers) :: Flags(q in paused, q in limited)
    {
      var pausedSet := set q | q in paused;
      var limitedSet := set q | q in limited;
      var names := producers.Keys;
      while names != {}
        invariant names <= producers.Keys && producers.Keys == old(producers).Keys
        invariant forall q :: q in producers && q !in names ==> producers[q] == Flags(q in paused, q in limited)
        decreases |names|
      {
        var name :| name in names;
        producers := producers[name := Flags(name in pausedSet, name in limitedSet)];
        names := names - {name};
      }
    }

    /** The part of the shared state machine these fields hold. */
    ghost predicate Holds(s: State)
      reads this
    {
      controlSeq == s.controlSeq && appliedFrom == s.appliedFrom && source == s.producers
    }

    /** The lists are what the statement of caller t, a renewal or a re-read, returned. */
    ghost predicate Read(s: State, t: nat, paused: seq<Queue>, limited: seq<Queue>) {
      Enabled(s, Apply(t)) && Lists(paused, limited, s.callers[t].read.value)
    }

    /**
     Applies the lists a renewal or a re-read read after reading controlSeq as
     `seen`, and reports whether it did: not if the state was applied since.
     Either way the fields go where the machine's step takes them.
     */
    method ApplyQueueState(seen: nat, paused: seq<Queue>, limited: seq<Queue>, ghost s: State, ghost t: nat) returns (applied: bool)
      requires Valid() && Holds(s) && Read(s, t, paused, limited) && s.callers[t].seen == seen
      modifies this
      ensures Valid() && Holds(After(s, Apply(t)))
      ensures applied <==> old(controlSeq) == seen
      ensures !applied ==> unchanged(this)
      ensures applied ==> forall q :: q in producers <==> q in old(producers)
      ensures applied ==> forall q :: q in producers ==> producers[q] == Flags(q in paused, q in limited)
    {
      if controlSeq != seen {
        return false;
      }
      controlSeq := controlSeq + 1;
      appliedFrom := seen;
      SetQueueState(paused, limited);
      source := map q | q in source :: Reading(s.callers[t].read.value, s.callers[t].begun);
      applied := true;
    }

    /** Whether a re-read may end: its reading was applied, or one begun after it. It ends exactly where the machine's does. */
    method RereadDone(first: nat, seen: nat, paused: seq<Queue>, limited: seq<Queue>, ghost s: State, ghost t: nat) returns (done: bool)
      requires Valid() && Holds(s) && Read(s, t, paused, limited)
      requires s.callers[t].Reread? && s.callers[t].seen == seen && s.callers[t].first == first
      modifies this
      ensures Valid() && Holds(After(s, Apply(t)))
      ensures done <==> After(s, Apply(t)).callers[t].Off?
    {
      done := ApplyQueueState(seen, paused, limited, s, t);
      done := done || appliedFrom > first;
    }

    /** Starts a producer with the state its Add read, and counts the application, as the machine's step does. */
    method Add(queue: Queue, paused: bool, limited: bool, ghost s: State, ghost t: nat)
      requires Valid() && Holds(s) && Enabled(s, FinishAdd(t)) && s.callers[t].queue == queue
      requires flagsAt(s.callers[t].read.value, queue) == Flags(paused, limited)
      modifies this
      ensures Valid() && Holds(After(s, FinishAdd(t)))
      ensures controlSeq == old(controlSeq) + 1 && producers == old(producers)[queue := Flags(paused, limited)]
    {
      controlSeq := controlSeq + 1;
      producers := producers[queue := Flags(paused, limited)];
      source := source[queue := Reading(s.callers[t].read.value, s.callers[t].begun)];
    }

    /** Stops working a queue, which is no application of a reading. */
    method Remove(queue: Queue, ghost s: State, ghost t: nat)
      requires Valid() && Holds(s) && Enabled(s, QueueState.Remove(t, queue))
      modifies this
      ensures Valid() && Holds(After(s, QueueState.Remove(t, queue)))
      ensures controlSeq == old(controlSeq) && producers == old(producers) - {queue}
    {
      producers := producers - {queue};
      source := source - {queue};
    }
  }
}
