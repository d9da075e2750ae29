/**
 What the leader's choice of periodic jobs comes to, name by name, in terms of
 the rows stored and its own set: the newest live client's definition runs.
 */
module EffectiveChoice {
  import opened Basics
  import opened EffectivePeriodic

  // The claim on a name is its first row of another client, and only the
  // leader's own row that it stands by keeps that claim from counting.
  lemma {:induction false} ClaimIs(defs: seq<Def>, self: int, recorded: bool) returns (i: nat)
    ensures i <= |defs| && (forall j :: 0 <= j < i ==> defs[j].client == self) && (i < |defs| ==> defs[i].client != self)
    ensures OthersClaim(defs, self, recorded) == if i < |defs| && (i == 0 || !recorded) then Some(defs[i]) else None
    decreases |defs|
  {
    if defs == [] || defs[0].client != self {
      i := 0;
    } else {
      i := ClaimIs(defs[1..], self, false);
      i := i + 1;
    }
  }

  /** Another client's row, and no newer one that the leader stands by, defines the name. */
  predicate Claims(v: View, name: Name, i: nat) {
    && i < |Stored(v, name)| && Stored(v, name)[i].client != v.self
    && (forall j :: 0 <= j < i ==> Stored(v, name)[j].client == v.self)
    && (i == 0 || !Recorded(v, name))
  }

  /** Nobody else's row defines the name, or the leader stands by a newer row of its own. */
  predicate Unclaimed(v: View, name: Name) {
    || (forall j :: 0 <= j < |Stored(v, name)| ==> Stored(v, name)[j].client == v.self)
    || (Recorded(v, name) && Stored(v, name) != [] && Stored(v, name)[0].client == v.self)
  }

  lemma ClaimIsFirst(v: View, name: Name, i: nat)
    requires Claims(v, name, i)
    ensures OthersClaim(Stored(v, name), v.self, Recorded(v, name)) == Some(Stored(v, name)[i])
  {
    var k := ClaimIs(Stored(v, name), v.self, Recorded(v, name));
    assert k == i;
  }

  lemma UnclaimedHasNone(v: View, name: Name)
    requires Unclaimed(v, name)
    ensures OthersClaim(Stored(v, name), v.self, Recorded(v, name)).None?
  {
    var k := ClaimIs(Stored(v, name), v.self, Recorded(v, name));
  }

  // The definition of the newest live client that registers the name runs, if
  // the leader has it registered or can read it, and did not find otherwise
  // before; built from the leader's own args where that job is its own too.
  lemma NewestRuns(v: View, name: Name, i: nat, kept: Option<Digest>, rejected: Digest)
    requires Claims(v, name, i)
    requires var d := Stored(v, name)[i]; kept == Some(d.digest) || (rejected != d.digest && v.readable(name, d.text))
    ensures var d, run := Stored(v, name)[i], Decide(v, name, kept, rejected);
            && Defines(run) && run.want.digest == d.digest && run.want.text == d.text && (run.Keep? <==> kept == Some(d.digest))
            && run.want.owner == if name in v.own && name in v.recorded && v.own[name].digest == d.digest then v.own[name] else null
  {
    ClaimIsFirst(v, name, i);
  }

  // A definition of another client that cannot be read gives way to the leader's
  // own job: not stored, it runs as it is; stored, from its definition if that is another and can be read.
  lemma UnreadableGivesWay(v: View, name: Name, i: nat, kept: Option<Digest>, rejected: Digest)
    requires Claims(v, name, i)
    requires var d := Stored(v, name)[i]; kept != Some(d.digest) && (rejected == d.digest || !v.readable(name, d.text))
    ensures var d, run := Stored(v, name)[i], Decide(v, name, kept, rejected);
            && (run.Nothing? <==> name !in v.own)
            && (Defines(run) <==>
                  && name in v.own && name in v.recorded
                  && (kept == Some(v.own[name].digest) || (v.own[name].digest != d.digest && v.readable(name, v.own[name].text))))
            && (Defines(run) ==> run.want == Want(v.own[name].digest, v.own[name].text, v.own[name])
                                 && (run.Keep? <==> kept == Some(v.own[name].digest)))
  {
    ClaimIsFirst(v, name, i);
  }

  // A name nobody else claims runs the leader's own job, as the leader has it
  // now and not as it recorded it, or nothing if it has none.
  lemma OwnRuns(v: View, name: Name, kept: Option<Digest>, rejected: Digest)
    requires Unclaimed(v, name)
    ensures var run := Decide(v, name, kept, rejected);
            && (run.Nothing? <==> name !in v.own)
            && (Defines(run) <==>
                  && name in v.own && name in v.recorded
                  && (kept == Some(v.own[name].digest) || (rejected != v.own[name].digest && v.readable(name, v.own[name].text))))
            && (Defines(run) ==> run.want == Want(v.own[name].digest, v.own[name].text, v.own[name])
                                 && (run.Keep? <==> kept == Some(v.own[name].digest)))
  {
    UnclaimedHasNone(v, name);
  }

  // Every name is claimed by one row, or by none.
  lemma ClaimedOrNot(v: View, name: Name) returns (i: nat)
    ensures Claims(v, name, i) != Unclaimed(v, name)
    ensures Claims(v, name, i) || forall j :: !Claims(v, name, j)
  {
    i := ClaimIs(Stored(v, name), v.self, Recorded(v, name));
  }
}
