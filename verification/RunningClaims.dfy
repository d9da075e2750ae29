/**
 The claims running on a client. A job claimed here again while an earlier
 attempt of it still runs keeps both: the latest by job, the others as replaced.
 */
module RunningClaims {
  import opened Basics

  /** A claim, told from another of its job by its number. */
  datatype Claim = Claim(number: nat, job: int)

  class Tracker {
    var running: map<int, Claim>
    var replaced: set<Claim>
    /** The claims tracked whose workers have not returned. */
    ghost var live: set<Claim>

    /** Every live claim is found once, as its job's latest or as replaced. */
    ghost predicate Valid()
      reads this
    {
      && (forall id :: id in running ==> running[id].job == id && running[id] !in replaced)
      && (forall c :: c in live <==> c in replaced || (c.job in running && running[c.job] == c))
    }

    constructor ()
      ensures Valid() && live == {}
    {
      running, replaced, live := map[], {}, {};
    }

    /** Registers a claim. The claim it replaces, if any, is to be canceled. */
    method Track(c: Claim) returns (prev: Option<Claim>)
      requires Valid() && c !in live
      modifies this
      ensures Valid() && live == old(live) + {c} && c.job in running && running[c.job] == c
      ensures forall id :: id != c.job ==> (id in running <==> id in old(running)) && (id in running ==> running[id] == old(running)[id])
      ensures prev == if c.job in old(running) then Some(old(running)[c.job]) else None
      ensures prev.Some? ==> prev.value in replaced
    {
      prev := if c.job in running then Some(running[c.job]) else None;
      running := running[c.job := c];
      if prev.Some? {
        replaced := replaced + {prev.value};
      }
      live := live + {c};
    }

    /** Removes a claim, its job's latest or a replaced one. */
    method Untrack(c: Claim)
      requires Valid() && c in live
      modifies this
      ensures Valid() && live == old(live) - {c}
      ensures forall id :: id in running <==> id in old(running) && old(running)[id] != c
      ensures forall id :: id in running ==> running[id] == old(running)[id]
    {
      if c.job in running && running[c.job] == c {
        running := running - {c.job};
      } else {
        replaced := replaced - {c};
      }
      live := live - {c};
    }
  }
}
