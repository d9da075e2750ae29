/**
 The leader's choice of periodic jobs: for each name the definition of the
 newest live client that registers it, from the stored definitions and the
 leader's own set. Registrations built from definitions are objects the leader
 keeps from pass to pass.
 */
module EffectivePeriodic {
  import opened Basics

  datatype Name = Name(text: string)

  /** What identifies a definition. */
  datatype Digest = Digest(text: string)

  const EMPTY := Digest("")

  class Registration {
    const name: Name
    const digest: Digest
    const text: string
    var removed: bool
    var owner: Registration?

    constructor (n: Name, d: Digest, t: string)
      ensures name == n && digest == d && text == t && !removed && owner == null
    {
      name, digest, text, removed, owner := n, d, t, false, null;
    }
  }

  /** A stored definition and the client that recorded it. */
  datatype Def = Def(client: int, digest: Digest, text: string)

  /** A definition to schedule, and the leader's own job of it, if it has one. */
  datatype Want = Want(digest: Digest, text: string, owner: Registration?)

  /**
   What a pass sees: each name's stored definitions, the newest live client's
   first; the leader's own jobs and the order it registered them in, those of
   them it records, and which definitions can be read.
   */
  datatype View = View(stored: map<Name, seq<Def>>, own: map<Name, Registration>, order: seq<Name>, recorded: set<Name>, self: int,
                       readable: (Name, string) -> bool)

  /** The leader's own jobs are under their names, each in the order once. */
  ghost predicate OwnOk(v: View) {
    && (forall n :: n in v.own ==> v.own[n].name == n)
    && Distinct(v.order) && forall n :: n in v.order <==> n in v.own
  }

  /** Every definition has a digest, as all that clients record do. */
  ghost predicate Digested(v: View) {
    && (forall n, i :: n in v.stored && 0 <= i < |v.stored[n]| ==> v.stored[n][i].digest != EMPTY)
    && (forall n :: Recorded(v, n) ==> v.own[n].digest != EMPTY)
  }

  function Stored(v: View, name: Name): seq<Def> {
    if name in v.stored then v.stored[name] else []
  }

  predicate Recorded(v: View, name: Name) {
    name in v.own && name in v.recorded
  }

  function OwnWant(v: View, name: Name): Want
    requires name in v.own
  {
    Want(v.own[name].digest, v.own[name].text, v.own[name])
  }

  // ---------------------------------------------------------------- names in order

  /** The order of the names' texts, byte by byte. */
  predicate Less(a: string, b: string) {
    b != "" && (a == "" || a[0] < b[0] || (a[0] == b[0] && Less(a[1..], b[1..])))
  }

  lemma {:induction false} LessIsTotal(a: string, b: string)
    ensures a == b || Less(a, b) || Less(b, a)
    ensures Less(a, b) ==> a != b
    decreases |a|
  {
    if a == "" || b == "" {
    } else if a[0] == b[0] {
      LessIsTotal(a[1..], b[1..]);
      assert a == [a[0]] + a[1..] && b == [b[0]] + b[1..];
    }
  }

  lemma {:induction false} LessGoesOn(a: string, b: string, c: string)
    requires Less(a, b) && Less(b, c)
    ensures Less(a, c)
    decreases |a|
  {
    if a == "" {
    } else if a[0] == b[0] == c[0] {
      LessGoesOn(a[1..], b[1..], c[1..]);
    }
  }

  predicate Sorted(names: seq<Name>) {
    forall i, j :: 0 <= i < j < |names| ==> Less(names[i].text, names[j].text)
  }

  lemma SortedIsDistinct(names: seq<Name>)
    requires Sorted(names)
    ensures Distinct(names)
  {
    forall i, j | 0 <= i < j < |names| ensures names[i] != names[j] { LessIsTotal(names[i].text, names[j].text); }
  }

  /** Puts a name in its place. */
  method Insert(names: seq<Name>, name: Name) returns (out: seq<Name>)
    requires Sorted(names) && name !in names
    ensures Sorted(out) && forall n :: n in out <==> n in names || n == name
  {
    var k := |names|;
    while k > 0 && Less(name.text, names[k - 1].text)
      invariant 0 <= k <= |names| && forall i :: k <= i < |names| ==> Less(name.text, names[i].text)
    {
      k := k - 1;
    }
    InsertKeepsSorted(names, name, k);
    out := names[..k] + [name] + names[k..];
  }

  lemma InsertKeepsSorted(names: seq<Name>, name: Name, k: nat)
    requires Sorted(names) && name !in names && k <= |names| && forall i :: k <= i < |names| ==> Less(name.text, names[i].text)
    requires k > 0 ==> !Less(name.text, names[k - 1].text)
    ensures Sorted(names[..k] + [name] + names[k..])
    ensures forall n :: n in names[..k] + [name] + names[k..] <==> n in names || n == name
  {
    forall i | 0 <= i < k ensures Less(names[i].text, name.text) {
      assert names[k - 1] in names;
      LessIsTotal(name.text, names[k - 1].text);
      if i < k - 1 { LessGoesOn(names[i].text, names[k - 1].text, name.text); }
    }
    SortedBetween(names[..k], name, names[k..]);
    assert names == names[..k] + names[k..];
  }

  lemma SortedBetween(a: seq<Name>, name: Name, z: seq<Name>)
    requires Sorted(a + z) && (forall i :: 0 <= i < |a| ==> Less(a[i].text, name.text)) && forall i :: 0 <= i < |z| ==> Less(name.text, z[i].text)
    ensures Sorted(a + [name] + z)
  {
    var out := a + [name] + z;
    forall i, j | 0 <= i < j < |out| ensures Less(out[i].text, out[j].text) {
      if i != |a| && j != |a| {
        var i', j' := if i < |a| then i else i - 1, if j < |a| then j else j - 1;
        assert out[i] == (a + z)[i'] && out[j] == (a + z)[j'];
      }
    }
  }

  /** The names, sorted. */
  method SortNames(names: set<Name>) returns (out: seq<Name>)
    ensures Sorted(out) && Distinct(out) && forall n :: n in out <==> n in names
  {
    out := [];
    var rest := names;
    while rest != {}
      invariant rest <= names && Sorted(out) && forall n :: n in out <==> n in names && n !in rest
      decreases |rest|
    {
      ghost var some := Member(rest);
      var name :| name in rest;
      out := Insert(out, name);
      rest := rest - {name};
    }
    SortedIsDistinct(out);
  }

  // ---------------------------------------------------------------- the choice, name by name

  /** Another client's definition, if one comes before the leader's own row that it stands by. */
  function OthersClaim(defs: seq<Def>, self: int, recorded: bool): Option<Def> {
    if defs == [] then None
    else if defs[0].client != self then Some(defs[0])
    else if recorded then None
    else OthersClaim(defs[1..], self, recorded)
  }

  datatype Wish = NoWish | OwnJob | Wanted(want: Want)

  /** What the name should run, if its definition can be read. */
  function WishOf(v: View, name: Name): Wish {
    var claim := OthersClaim(Stored(v, name), v.self, Recorded(v, name));
    if claim.Some? then
      var d := claim.value;
      Wanted(Want(d.digest, d.text, if Recorded(v, name) && v.own[name].digest == d.digest then v.own[name] else null))
    else if name !in v.own then NoWish
    else if name !in v.recorded then OwnJob
    else Wanted(OwnWant(v, name))
  }

  /** What the name runs: nothing, the leader's own job, a registration kept, or one built from a definition. */
  datatype Decision = Nothing | Direct | Keep(want: Want) | Build(want: Want)

  predicate Defines(d: Decision) {
    d.Keep? || d.Build?
  }

  /** kept is the digest of the name's registration so far, rejected the digest last found unreadable, empty for none. */
  function Decide(v: View, name: Name, kept: Option<Digest>, rejected: Digest): Decision {
    match WishOf(v, name)
    case NoWish => Nothing
    case OwnJob => Direct
    case Wanted(w) =>
      if kept == Some(w.digest) then Keep(w)
      else if rejected != w.digest && v.readable(name, w.text) then Build(w)
      else if name !in v.own then Nothing
      else if name !in v.recorded then Direct
      else if kept == Some(v.own[name].digest) then Keep(OwnWant(v, name))
      else if w.digest != v.own[name].digest && v.readable(name, v.own[name].text) then Build(OwnWant(v, name))
      else Direct
  }

  function Names(v: View): set<Name> {
    v.stored.Keys + v.own.Keys
  }

  function NamesOf(out: seq<Registration>): (r: seq<Name>)
    ensures |r| == |out| && forall i :: 0 <= i < |out| ==> r[i] == out[i].name
  {
    seq(|out|, i requires 0 <= i < |out| => out[i].name)
  }

  // ---------------------------------------------------------------- the passes over the names

  /** Another client's definition of the name, as the first loop over its rows finds it. */
  method FindClaim(v: View, name: Name) returns (claim: Option<Def>)
    ensures claim == OthersClaim(Stored(v, name), v.self, Recorded(v, name))
  {
    var defs := if name in v.stored then v.stored[name] else [];
    var i := 0;
    while i < |defs|
      invariant 0 <= i <= |defs|
      invariant OthersClaim(defs, v.self, Recorded(v, name)) == OthersClaim(defs[i..], v.self, Recorded(v, name))
    {
      if defs[i].client != v.self {
        return Some(defs[i]);
      }
      if name in v.own && name in v.recorded {
        return None;
      }
      i := i + 1;
    }
    return None;
  }

  /** What the name should run, as the leader finds it. */
  method Find(v: View, name: Name) returns (wish: Wish)
    ensures wish == WishOf(v, name)
  {
    var claim := FindClaim(v, name);
    if claim.Some? {
      var d := claim.value;
      var mine := name in v.own && name in v.recorded && v.own[name].digest == d.digest;
      return Wanted(Want(d.digest, d.text, if mine then v.own[name] else null));
    }
    if name !in v.own {
      return NoWish;
    }
    if name !in v.recorded {
      return OwnJob;
    }
    return Wanted(OwnWant(v, name));
  }

  /** wanted and direct are the wishes of the names. */
  ghost predicate Wishes(v: View, names: set<Name>, wanted: map<Name, Want>, direct: seq<Name>) {
    && (forall n :: n in wanted <==> n in names && WishOf(v, n).Wanted?)
    && (forall n :: n in wanted ==> WishOf(v, n) == Wanted(wanted[n]))
    && Distinct(direct) && (forall n :: n in direct <==> n in names && WishOf(v, n).OwnJob?)
  }

  lemma WishesAdd(v: View, names: set<Name>, wanted: map<Name, Want>, direct: seq<Name>, name: Name)
    requires Wishes(v, names, wanted, direct) && name !in names
    ensures var w := WishOf(v, name);
            Wishes(v, names + {name}, if w.Wanted? then wanted[name := w.want] else wanted, if w.OwnJob? then direct + [name] else direct)
  {
  }

  lemma OnlyNamesWish(v: View, n: Name)
    requires n !in Names(v)
    ensures WishOf(v, n).NoWish?
  {
  }

  /** Those of names that wish for the leader's own job, in order. */
  function OwnAmong(v: View, names: seq<Name>): seq<Name> {
    if names == [] then []
    else OwnAmong(v, names[..|names| - 1]) + (if WishOf(v, names[|names| - 1]).OwnJob? then [names[|names| - 1]] else [])
  }

  lemma {:induction false} OwnAmongJoin(v: View, a: seq<Name>, b: seq<Name>)
    ensures OwnAmong(v, a + b) == OwnAmong(v, a) + OwnAmong(v, b)
    decreases |b|
  {
    if b == [] {
      assert a + b == a;
    } else {
      assert (a + b)[..|a + b| - 1] == a + b[..|b| - 1];
      OwnAmongJoin(v, a, b[..|b| - 1]);
    }
  }

  lemma {:induction false} OwnAmongIsOf(v: View, names: seq<Name>)
    ensures forall n :: n in OwnAmong(v, names) <==> n in names && WishOf(v, n).OwnJob?
    ensures Sorted(names) ==> Sorted(OwnAmong(v, names))
    decreases |names|
  {
    if names == [] {
    } else {
      var rest, last := names[..|names| - 1], names[|names| - 1];
      assert names == rest + [last];
      OwnAmongIsOf(v, rest);
      if Sorted(names) { SortedGrows(rest, OwnAmong(v, rest), last); }
    }
  }

  lemma SortedGrows(names: seq<Name>, some: seq<Name>, last: Name)
    requires Sorted(names + [last]) && Sorted(some) && forall n :: n in some ==> n in names
    ensures Sorted(names) && Sorted(some + [last])
  {
    forall i | 0 <= i < |names| ensures Less(names[i].text, last.text) {
      assert (names + [last])[i] == names[i] && (names + [last])[|names|] == last;
    }
    forall i, j | 0 <= i < j < |names| ensures Less(names[i].text, names[j].text) {
      assert (names + [last])[i] == names[i] && (names + [last])[j] == names[j];
    }
    assert forall i :: 0 <= i < |some| ==> some[i] in names;
  }

  /** The leader's own names without a stored definition, in its order. */
  function Unstored(v: View, order: seq<Name>): seq<Name> {
    if order == [] then []
    else Unstored(v, order[..|order| - 1]) + (if order[|order| - 1] in v.stored then [] else [order[|order| - 1]])
  }

  lemma {:induction false} UnstoredIsOf(v: View, order: seq<Name>)
    requires Distinct(order)
    ensures Distinct(Unstored(v, order)) && forall n :: n in Unstored(v, order) <==> n in order && n !in v.stored
    decreases |order|
  {
    if order == [] {
    } else {
      var rest, last := order[..|order| - 1], order[|order| - 1];
      assert order == rest + [last] && last !in rest;
      UnstoredIsOf(v, rest);
    }
  }

  /** The names to choose for: those stored, sorted, then the leader's other own names. */
  method ToVisit(v: View) returns (stored: seq<Name>, others: seq<Name>)
    requires OwnOk(v)
    ensures Sorted(stored) && (forall n :: n in stored <==> n in v.stored) && others == Unstored(v, v.order)
    ensures Distinct(stored + others) && forall n :: n in stored + others <==> n in Names(v)
  {
    stored := SortNames(v.stored.Keys);
    others := [];
    for i := 0 to |v.order|
      invariant others == Unstored(v, v.order[..i])
    {
      assert v.order[..i + 1][..i] == v.order[..i];
      if v.order[i] !in v.stored {
        others := others + [v.order[i]];
      }
    }
    assert v.order[..|v.order|] == v.order;
    UnstoredIsOf(v, v.order);
    DistinctJoin(stored, others);
  }

  /** The names wanted, and the leader's own jobs to run as they are. */
  method Choose(v: View) returns (wanted: map<Name, Want>, direct: seq<Name>, ghost stored: seq<Name>)
    requires OwnOk(v)
    ensures forall n :: n in wanted <==> WishOf(v, n).Wanted?
    ensures forall n :: n in wanted ==> WishOf(v, n) == Wanted(wanted[n])
    ensures Distinct(direct) && forall n :: n in direct <==> WishOf(v, n).OwnJob?
    ensures Sorted(stored) && (forall n :: n in stored ==> n in v.stored) && direct == stored + OwnAmong(v, Unstored(v, v.order))
  {
    var first, others := ToVisit(v);
    wanted, direct := ChooseAmong(v, first + others);
    assert Elements(first + others) == Names(v);
    AllWishes(v, wanted, direct);
    OwnAmongJoin(v, first, others);
    OwnAmongIsOf(v, first);
    stored := OwnAmong(v, first);
  }

  method ChooseAmong(v: View, names: seq<Name>) returns (wanted: map<Name, Want>, direct: seq<Name>)
    requires Distinct(names)
    ensures Wishes(v, Elements(names), wanted, direct) && direct == OwnAmong(v, names)
  {
    wanted, direct := map[], [];
    ghost var seen := {};
    for i := 0 to |names|
      invariant (forall n :: n in seen <==> n in names[..i]) && Wishes(v, seen, wanted, direct) && direct == OwnAmong(v, names[..i])
    {
      var name := names[i];
      VisitOneMore(names, i);
      WishesAdd(v, seen, wanted, direct, name);
      var wish := Find(v, name);
      if wish.Wanted? {
        wanted := wanted[name := wish.want];
      } else if wish.OwnJob? {
        direct := direct + [name];
      }
      seen := seen + {name};
    }
    assert names[..|names|] == names;
    assert seen == Elements(names);
  }

  lemma AllWishes(v: View, wanted: map<Name, Want>, direct: seq<Name>)
    requires Wishes(v, Names(v), wanted, direct)
    ensures forall n :: n in wanted <==> WishOf(v, n).Wanted?
    ensures forall n :: n in direct <==> WishOf(v, n).OwnJob?
  {
    forall n | n !in Names(v) ensures WishOf(v, n).NoWish? { OnlyNamesWish(v, n); }
  }

  lemma VisitOneMore(names: seq<Name>, i: nat)
    requires Distinct(names) && i < |names|
    ensures names[i] !in names[..i] && names[..i + 1] == names[..i] + [names[i]] && names[..i + 1][..i] == names[..i]
  {
  }

  lemma SortedSoFar(names: seq<Name>, i: nat, some: seq<Name>)
    requires Sorted(names) && i < |names| && Sorted(some) && forall n :: n in some ==> n in names[..i]
    ensures Sorted(some + [names[i]])
  {
    assert names[..i] + [names[i]] == names[..i + 1];
    SortedGrows(names[..i], some, names[i]);
  }

  /** What a name runs, given the registrations the leader has and the digests it found unreadable. */
  function DecisionOf(v: View, defined: map<Name, Registration>, rejected: map<Name, Digest>, name: Name): Decision {
    Decide(v, name, if name in defined then Some(defined[name].digest) else None, if name in rejected then rejected[name] else EMPTY)
  }

  /** wanted are the definitions of the decisions for the names, and direct the names decided to run the leader's own jobs. */
  ghost predicate Resolved(v: View, defined: map<Name, Registration>, rejected: map<Name, Digest>, names: set<Name>,
                           wanted: map<Name, Want>, direct: seq<Name>)
  {
    && (forall n :: n in wanted <==> n in names && Defines(DecisionOf(v, defined, rejected, n)))
    && (forall n :: n in wanted ==> wanted[n] == DecisionOf(v, defined, rejected, n).want)
    && Distinct(direct) && (forall n :: n in direct <==> n in names && DecisionOf(v, defined, rejected, n).Direct?)
  }

  /** The maps agree on the name. */
  predicate SameAt(a: map<Name, Digest>, b: map<Name, Digest>, name: Name) {
    (name in a <==> name in b) && (name in a ==> a[name] == b[name])
  }

  lemma SameBut(a: map<Name, Digest>, b: map<Name, Digest>, c: map<Name, Digest>, seen: set<Name>, name: Name)
    requires (forall n :: n !in seen ==> SameAt(b, a, n)) && forall n :: n != name ==> SameAt(c, b, n)
    ensures forall n :: n !in seen + {name} ==> SameAt(c, a, n)
  {
    forall n | n !in seen + {name} ensures SameAt(c, a, n) { assert SameAt(b, a, n) && SameAt(c, b, n); }
  }

  lemma SameDecision(v: View, defined: map<Name, Registration>, a: map<Name, Digest>, b: map<Name, Digest>, name: Name)
    requires SameAt(a, b, name)
    ensures DecisionOf(v, defined, a, name) == DecisionOf(v, defined, b, name)
  {
  }

  /** The name has a registration of the definition. */
  predicate IsKept(defined: map<Name, Registration>, name: Name, want: Want) {
    name in defined && defined[name].digest == want.digest
  }

  /**
   From was to now the definitions wanted became the ones defined, those kept
   under the same registrations; a registration with an empty digest stays.
   */
  ghost predicate Redefined(was: map<Name, Registration>, now: map<Name, Registration>, wanted: map<Name, Want>) {
    && (forall n :: n in now <==> n in wanted || (n in was && was[n].digest == EMPTY))
    && (forall n :: n in wanted ==> now[n].digest == wanted[n].digest)
    && (forall n :: n in wanted && IsKept(was, n, wanted[n]) ==> now[n] == was[n])
    && (forall n :: n in now && n !in wanted ==> now[n] == was[n])
  }

  /** The registration is of the definition. */
  predicate IsOf(r: Registration, name: Name, want: Want) {
    r.name == name && r.digest == want.digest && r.text == want.text
  }

  lemma ResolvedAdds(v: View, defined: map<Name, Registration>, rejected: map<Name, Digest>, names: set<Name>,
                     wanted: map<Name, Want>, direct: seq<Name>, name: Name)
    requires Resolved(v, defined, rejected, names, wanted, direct) && name !in names
    ensures var d := DecisionOf(v, defined, rejected, name);
            Resolved(v, defined, rejected, names + {name},
                     if Defines(d) then wanted[name := d.want] else wanted, if d.Direct? then direct + [name] else direct)
  {
  }

  /** From was to now, a definition wanted that is neither kept nor known to be unreadable, and is, became known to be; nothing else did. */
  ghost predicate Found(v: View, defined: map<Name, Registration>, was: map<Name, Digest>, now: map<Name, Digest>, name: Name) {
    var wish := WishOf(v, name);
    if wish.Wanted? && IsUnread(v, defined, was, name, wish.want) then name in now && now[name] == wish.want.digest
    else SameAt(now, was, name)
  }

  /** The definition wanted is looked at, for nothing is registered or known of it, and it cannot be read. */
  predicate IsUnread(v: View, defined: map<Name, Registration>, rejected: map<Name, Digest>, name: Name, want: Want) {
    !IsKept(defined, name, want) && (if name in rejected then rejected[name] else EMPTY) != want.digest && !v.readable(name, want.text)
  }

  /** The names of seen are resolved, and nothing is found out of the others. */
  ghost predicate ResolvedSoFar(v: View, defined: map<Name, Registration>, was: map<Name, Digest>, now: map<Name, Digest>, seen: set<Name>,
                                wanted: map<Name, Want>, direct: seq<Name>)
  {
    && Resolved(v, defined, was, seen, wanted, direct) && Sorted(direct)
    && (forall n :: n !in seen ==> SameAt(now, was, n)) && forall n :: n in seen ==> Found(v, defined, was, now, n)
  }

  lemma ResolvesNext(v: View, defined: map<Name, Registration>, was: map<Name, Digest>, before: map<Name, Digest>, now: map<Name, Digest>,
                     seen: set<Name>, wanted: map<Name, Want>, direct: seq<Name>, name: Name)
    requires ResolvedSoFar(v, defined, was, before, seen, wanted, direct) && name !in seen && Sorted(direct + [name])
    requires (forall n :: n != name ==> SameAt(now, before, n)) && Found(v, defined, before, now, name)
    ensures var d := DecisionOf(v, defined, before, name);
            ResolvedSoFar(v, defined, was, now, seen + {name},
                          if Defines(d) then wanted[name := d.want] else wanted, if d.Direct? then direct + [name] else direct)
  {
    SameDecision(v, defined, before, was, name);
    ResolvedAdds(v, defined, was, seen, wanted, direct, name);
    SameBut(was, before, now, seen, name);
    FindsNext(v, defined, was, before, now, seen, name);
  }

  lemma FindsNext(v: View, defined: map<Name, Registration>, was: map<Name, Digest>, before: map<Name, Digest>, now: map<Name, Digest>,
                  seen: set<Name>, name: Name)
    requires forall n :: n in seen ==> Found(v, defined, was, before, n)
    requires name !in seen && SameAt(before, was, name) && (forall n :: n != name ==> SameAt(now, before, n)) && Found(v, defined, before, now, name)
    ensures forall n :: n in seen + {name} ==> Found(v, defined, was, now, n)
  {
    forall n | n in seen + {name} ensures Found(v, defined, was, now, n) {
      if n != name { assert Found(v, defined, was, before, n) && SameAt(now, before, n); }
    }
  }

  lemma AllFound(v: View, defined: map<Name, Registration>, was: map<Name, Digest>, now: map<Name, Digest>, seen: set<Name>)
    requires (forall n :: n !in seen ==> SameAt(now, was, n)) && forall n :: n in seen ==> Found(v, defined, was, now, n)
    requires forall n :: WishOf(v, n).Wanted? ==> n in seen
    ensures forall n :: Found(v, defined, was, now, n)
  {
    forall n ensures Found(v, defined, was, now, n) {
      if n !in seen { assert SameAt(now, was, n); }
    }
  }

  // ---------------------------------------------------------------- the leader's registrations

  class Leader {
    /** By name, the registrations built from definitions, and the digests found unreadable. */
    var defined: map<Name, Registration>
    var rejected: map<Name, Digest>

    ghost predicate Valid()
      reads this
    {
      forall n :: n in defined ==> defined[n].name == n
    }

    /** Every registration has a digest, as at the start of a term, when there is none. */
    ghost predicate NoneEmpty()
      reads this
    {
      forall n :: n in defined ==> defined[n].digest != EMPTY
    }

    ghost function Registrations(): set<Registration>
      reads this
    {
      set n | n in defined :: defined[n]
    }

    /** Whether the definition wanted for a name can be scheduled, and what is scheduled if it cannot. */
    method ResolveOne(v: View, name: Name, want: Want) returns (decision: Decision)
      requires WishOf(v, name) == Wanted(want)
      modifies `rejected
      ensures decision == DecisionOf(v, defined, old(rejected), name)
      ensures (forall n :: n != name ==> SameAt(rejected, old(rejected), n)) && Found(v, defined, old(rejected), rejected, name)
      ensures (decision.Keep? ==> IsKept(defined, name, decision.want)) && (decision.Build? ==> !IsKept(defined, name, decision.want))
    {
      if name in defined && defined[name].digest == want.digest {
        return Keep(want);
      }
      if (if name in rejected then rejected[name] else EMPTY) != want.digest {
        if v.readable(name, want.text) {
          return Build(want);
        }
        rejected := rejected[name := want.digest];
      }
      if name !in v.own {
        return Nothing;
      }
      if name !in v.recorded {
        return Direct;
      }
      var fallback := OwnWant(v, name);
      if name in defined && defined[name].digest == fallback.digest {
        return Keep(fallback);
      }
      if (if name in rejected then rejected[name] else EMPTY) != fallback.digest && v.readable(name, fallback.text) {
        return Build(fallback);
      }
      return Direct;
    }

    /** What becomes of one more name wanted. */
    method ResolveNext(v: View, name: Name, want: Want, wanted: map<Name, Want>, direct: seq<Name>, ghost seen: set<Name>,
                       ghost was: map<Name, Digest>) returns (wanted': map<Name, Want>, direct': seq<Name>)
      requires WishOf(v, name) == Wanted(want) && name !in seen && Sorted(direct + [name])
      requires ResolvedSoFar(v, defined, was, rejected, seen, wanted, direct)
      modifies `rejected
      ensures ResolvedSoFar(v, defined, was, rejected, seen + {name}, wanted', direct')
    {
      var decision := ResolveOne(v, name, want);
      ResolvesNext(v, defined, was, old(rejected), rejected, seen, wanted, direct, name);
      wanted', direct' := wanted, direct;
      if Defines(decision) {
        wanted' := wanted[name := decision.want];
      } else if decision.Direct? {
        direct' := direct + [name];
      }
    }

    /** What becomes of each name wanted, in order: the definitions to schedule, and those of them to build. */
    method ResolveAll(v: View, wishes: map<Name, Want>) returns (wanted: map<Name, Want>, builds: set<Name>, direct: seq<Name>)
      requires (forall n :: n in wishes ==> WishOf(v, n) == Wanted(wishes[n])) && forall n :: WishOf(v, n).Wanted? ==> n in wishes
      modifies `rejected
      ensures Resolved(v, defined, old(rejected), wishes.Keys, wanted, direct) && Sorted(direct)
      ensures forall n :: Found(v, defined, old(rejected), rejected, n)
      ensures forall n :: n in builds <==> n in wanted && !IsKept(defined, n, wanted[n])
    {
      var names := SortNames(wishes.Keys);
      wanted, direct := map[], [];
      ghost var seen := {};
      for i := 0 to |names|
        invariant forall n :: n in seen <==> n in names[..i]
        invariant ResolvedSoFar(v, defined, old(rejected), rejected, seen, wanted, direct)
      {
        VisitOneMore(names, i);
        SortedSoFar(names, i, direct);
        assert names[i] in names;
        wanted, direct := ResolveNext(v, names[i], wishes[names[i]], wanted, direct, seen, old(rejected));
        seen := seen + {names[i]};
      }
      assert names[..|names|] == names;
      assert seen == wishes.Keys;
      AllFound(v, defined, old(rejected), rejected, seen);
      builds := set n | n in wanted && !IsKept(defined, n, wanted[n]);
    }

    /** Builds a registration for each of names. */
    method BuildAll(wanted: map<Name, Want>, names: set<Name>) returns (added: map<Name, Registration>)
      requires names <= wanted.Keys
      ensures added.Keys == names && forall n :: n in added ==> fresh(added[n]) && IsOf(added[n], n, wanted[n]) && !added[n].removed
    {
      added := map[];
      var rest := names;
      while rest != {}
        invariant rest <= names && added.Keys == names - rest
        invariant forall n :: n in added ==> fresh(added[n]) && IsOf(added[n], n, wanted[n]) && !added[n].removed
        decreases |rest|
      {
        ghost var some := Member(rest);
        var name :| name in rest;
        var r := new Registration(name, wanted[name].digest, wanted[name].text);
        added := added[name := r];
        rest := rest - {name};
      }
    }

    /** The digest wanted for a name, empty if none is. */
    function WantedDigest(wanted: map<Name, Want>, name: Name): Digest {
      if name in wanted then wanted[name].digest else EMPTY
    }

    /** Marks the registrations of names removed. */
    method MarkRemoved(names: set<Name>)
      requires Valid() && forall n :: n in names ==> n in defined
      modifies Registrations()`removed
      ensures forall n :: n in defined ==> defined[n].removed == (old(defined[n].removed) || n in names)
    {
      var rest := names;
      while rest != {}
        invariant rest <= names
        invariant forall n :: n in defined ==> defined[n].removed == (old(defined[n].removed) || (n in names && n !in rest))
        decreases |rest|
      {
        ghost var some := Member(rest);
        var name :| name in rest;
        assert forall n :: n in defined && n != name ==> defined[n] != defined[name];
        defined[name].removed := true;
        rest := rest - {name};
      }
    }

    /** Drops the registrations whose definition is not wanted any more. */
    method DropStale(wanted: map<Name, Want>)
      requires Valid()
      modifies `defined, Registrations()`removed
      ensures Valid() && forall n :: n in defined <==> n in old(defined) && old(defined)[n].digest == WantedDigest(wanted, n)
      ensures forall n :: n in defined ==> defined[n] == old(defined)[n] && defined[n].removed == old(defined[n].removed)
      ensures forall n :: n in old(defined) && n !in defined ==> old(defined)[n].removed
    {
      var stale := set n | n in defined && defined[n].digest != WantedDigest(wanted, n);
      MarkRemoved(stale);
      defined := defined - stale;
    }

    /** Sets the owners of the registrations wanted, and lists them by name. */
    method Collect(wanted: map<Name, Want>) returns (out: seq<Registration>)
      requires Valid() && wanted.Keys <= defined.Keys
      modifies Registrations()`owner
      ensures Sorted(NamesOf(out)) && (forall n :: n in NamesOf(out) <==> n in wanted)
      ensures forall i :: 0 <= i < |out| ==> out[i].name in wanted && out[i] == defined[out[i].name]
      ensures forall n :: n in wanted ==> defined[n].owner == wanted[n].owner
    {
      out := [];
      var names := SortNames(wanted.Keys);
      for i := 0 to |names|
        invariant |out| == i && forall j :: 0 <= j < i ==> out[j] == defined[names[j]]
        invariant forall j :: 0 <= j < i ==> defined[names[j]].owner == wanted[names[j]].owner
      {
        assert names[i] in names;
        var r := defined[names[i]];
        r.owner := wanted[names[i]].owner;
        out := out + [r];
      }
      assert NamesOf(out) == names;
    }

    /** Makes the definitions wanted the ones defined, but for registrations with an empty digest: drops, builds and keeps. */
    method Redefine(wanted: map<Name, Want>, builds: set<Name>)
      requires Valid() && forall n :: n in builds <==> n in wanted && !IsKept(defined, n, wanted[n])
      modifies `defined, Registrations()`removed
      ensures Valid() && Redefined(old(defined), defined, wanted)
      ensures forall x :: x in Registrations() ==> x in old(Registrations()) || fresh(x)
      ensures forall n :: n in wanted && !IsKept(old(defined), n, wanted[n]) ==>
                fresh(defined[n]) && IsOf(defined[n], n, wanted[n]) && !defined[n].removed
      ensures forall n :: n in old(defined) && (n !in defined || defined[n] != old(defined)[n]) ==> old(defined)[n].removed
    {
      var added := BuildAll(wanted, builds);
      DropStale(wanted);
      defined := defined + added;
    }

    /** Makes the definitions wanted the ones defined, and lists them by name. */
    method Install(wanted: map<Name, Want>, builds: set<Name>) returns (out: seq<Registration>)
      requires Valid() && forall n :: n in builds <==> n in wanted && !IsKept(defined, n, wanted[n])
      modifies `defined, Registrations()
      ensures Valid() && Redefined(old(defined), defined, wanted) && forall n :: n in wanted ==> defined[n].owner == wanted[n].owner
      ensures Sorted(NamesOf(out)) && (forall n :: n in NamesOf(out) <==> n in wanted)
      ensures forall i :: 0 <= i < |out| ==> out[i].name in defined && out[i] == defined[out[i].name]
      ensures forall n :: n in wanted && !IsKept(old(defined), n, wanted[n]) ==>
                fresh(defined[n]) && IsOf(defined[n], n, wanted[n]) && !defined[n].removed
      ensures forall n :: n in old(defined) && (n !in defined || defined[n] != old(defined)[n]) ==> old(defined)[n].removed
    {
      Redefine(wanted, builds);
      out := Collect(wanted);
    }

    /**
     The jobs the leader schedules: one registration for each name it decides
     to run, and none twice, in the order of names. Afterwards it defines
     exactly the definitions wanted. What it drops is marked removed, and what
     it keeps is the same registration as before. Only a registration with an
     empty digest, which no client records, would stay though it is not wanted.
     */
    method Effective(v: View) returns (out: seq<Registration>, ghost wanted: map<Name, Want>, ghost names: Listing)
      requires Valid() && OwnOk(v)
      modifies this, Registrations()
      ensures Chosen(v, old(defined), old(rejected), wanted, names.Direct()) && InOrder(v, names)
      ensures forall n :: Found(v, old(defined), old(rejected), rejected, n)
      ensures Valid() && NamesOf(out) == names.All() && Distinct(names.All()) && forall n :: n in names.defined <==> n in wanted
      ensures forall i :: 0 <= i < |out| ==> IsListed(v, defined, names, out[i])
      ensures Redefined(old(defined), defined, wanted) && forall n :: n in wanted ==> defined[n].owner == wanted[n].owner
      ensures old(NoneEmpty()) ==> (Digested(v) ==> NoneEmpty()) && forall n :: n in defined <==> n in wanted
      ensures forall n :: n in wanted && !IsKept(old(defined), n, wanted[n]) ==>
                fresh(defined[n]) && IsOf(defined[n], n, wanted[n]) && !defined[n].removed
      ensures forall n :: n in old(defined) && (n !in defined || defined[n] != old(defined)[n]) ==> old(defined)[n].removed
    {
      var want, builds, direct;
      want, builds, direct, names := DecideAll(v);
      wanted := want;
      var own := OwnJobs(v, direct);
      var listed := Install(want, builds);
      out := own + listed;
      names := names.(defined := NamesOf(listed));
      ListsAll(v, own, listed, names, defined);
    }

    /** What each name runs, and those that run the leader's own jobs, in order. */
    method DecideAll(v: View) returns (wanted: map<Name, Want>, builds: set<Name>, direct: seq<Name>, ghost names: Listing)
      requires OwnOk(v)
      modifies `rejected
      ensures Chosen(v, defined, old(rejected), wanted, direct) && InOrder(v, names) && names.defined == [] && direct == names.Direct()
      ensures forall n :: Found(v, defined, old(rejected), rejected, n)
      ensures Distinct(direct) && forall n :: n in direct ==> n in v.own && n !in wanted
      ensures forall n :: n in builds <==> n in wanted && !IsKept(defined, n, wanted[n])
      ensures Digested(v) ==> forall n :: n in wanted ==> wanted[n].digest != EMPTY
    {
      ghost var stored;
      var wishes, chosen, fallen;
      wishes, chosen, stored := Choose(v);
      wanted, builds, fallen := ResolveAll(v, wishes);
      direct := chosen + fallen;
      DecisionsSplit(v, defined, old(rejected), wishes, chosen, wanted, fallen);
      if Digested(v) { WantedAreDigested(v, defined, old(rejected), wanted, direct); }
      names := Listing(stored, OwnAmong(v, Unstored(v, v.order)), fallen, []);
    }
  }

  /** The names listed: own jobs of stored names, own jobs of others, own jobs fallen back to, and definitions. */
  datatype Listing = Listing(stored: seq<Name>, others: seq<Name>, fallen: seq<Name>, defined: seq<Name>) {
    function Direct(): seq<Name> { stored + others + fallen }

    function All(): seq<Name> { Direct() + defined }
  }

  /** Each part is sorted, but for the leader's own names not stored, which are in its order. */
  ghost predicate InOrder(v: View, l: Listing) {
    && Sorted(l.stored) && Sorted(l.fallen) && Sorted(l.defined) && (forall n :: n in l.stored ==> n in v.stored)
    && l.others == OwnAmong(v, Unstored(v, v.order))
  }

  lemma {:induction false} ClaimIsStored(defs: seq<Def>, self: int, recorded: bool)
    ensures var claim := OthersClaim(defs, self, recorded);
            claim.Some? ==> claim.value in defs
    decreases |defs|
  {
    if defs == [] {
    } else {
      ClaimIsStored(defs[1..], self, recorded);
    }
  }

  lemma WantIsDigested(v: View, name: Name, kept: Option<Digest>, rejected: Digest)
    requires Digested(v) && Defines(Decide(v, name, kept, rejected))
    ensures Decide(v, name, kept, rejected).want.digest != EMPTY
  {
    var defs := Stored(v, name);
    ClaimIsStored(defs, v.self, Recorded(v, name));
    var claim := OthersClaim(defs, v.self, Recorded(v, name));
    if claim.Some? {
      var i :| 0 <= i < |defs| && defs[i] == claim.value;
      assert v.stored[name][i].digest != EMPTY;
    }
  }

  lemma WantedAreDigested(v: View, defined: map<Name, Registration>, rejected: map<Name, Digest>, wanted: map<Name, Want>, direct: seq<Name>)
    requires Digested(v) && Chosen(v, defined, rejected, wanted, direct)
    ensures forall n :: n in wanted ==> wanted[n].digest != EMPTY
  {
    forall n | n in wanted ensures wanted[n].digest != EMPTY {
      WantIsDigested(v, n, if n in defined then Some(defined[n].digest) else None, if n in rejected then rejected[n] else EMPTY);
    }
  }

  /** The registration is the leader's own of a name listed so, and the one defined of any other. */
  predicate IsListed(v: View, defined: map<Name, Registration>, names: Listing, r: Registration) {
    if r.name in names.Direct() then r.name in v.own && r == v.own[r.name] else r.name in defined && r == defined[r.name]
  }

  lemma ListsAll(v: View, own: seq<Registration>, listed: seq<Registration>, names: Listing, defined: map<Name, Registration>)
    requires NamesOf(own) == names.Direct() && NamesOf(listed) == names.defined && Distinct(names.Direct()) && Sorted(names.defined)
    requires forall n :: n in names.Direct() ==> n !in names.defined
    requires forall i :: 0 <= i < |own| ==> own[i].name in v.own && own[i] == v.own[own[i].name]
    requires forall i :: 0 <= i < |listed| ==> listed[i].name in defined && listed[i] == defined[listed[i].name]
    ensures NamesOf(own + listed) == names.All() && Distinct(names.All())
    ensures forall i :: 0 <= i < |own + listed| ==> IsListed(v, defined, names, (own + listed)[i])
  {
    assert NamesOf(own + listed) == NamesOf(own) + NamesOf(listed);
    SortedIsDistinct(names.defined);
    DistinctJoin(names.Direct(), names.defined);
    forall i | 0 <= i < |own + listed| ensures IsListed(v, defined, names, (own + listed)[i]) {
      if i < |own| {
        assert names.Direct()[i] == own[i].name;
      } else {
        assert names.defined[i - |own|] == listed[i - |own|].name;
      }
    }
  }

  /** wanted holds the definitions the leader decides to schedule, direct the names it runs its own jobs for. */
  ghost predicate Chosen(v: View, defined: map<Name, Registration>, rejected: map<Name, Digest>, wanted: map<Name, Want>, direct: seq<Name>) {
    && (forall n :: n in direct <==> DecisionOf(v, defined, rejected, n).Direct?)
    && (forall n :: n in wanted <==> Defines(DecisionOf(v, defined, rejected, n)))
    && (forall n :: n in wanted ==> wanted[n] == DecisionOf(v, defined, rejected, n).want)
  }

  /** The leader's own jobs of the names. */
  method OwnJobs(v: View, names: seq<Name>) returns (out: seq<Registration>)
    requires (forall n :: n in v.own ==> v.own[n].name == n) && forall n :: n in names ==> n in v.own
    ensures NamesOf(out) == names && forall i :: 0 <= i < |out| ==> out[i].name in v.own && out[i] == v.own[out[i].name]
  {
    out := [];
    for i := 0 to |names|
      invariant NamesOf(out) == names[..i] && forall j :: 0 <= j < i ==> out[j].name in v.own && out[j] == v.own[out[j].name]
    {
      assert names[i] in names;
      out := out + [v.own[names[i]]];
    }
  }

  // The names that run the leader's own jobs, those chosen at first and those fallen back to, and the names defined, are apart.
  lemma DecisionsSplit(v: View, defined: map<Name, Registration>, rejected: map<Name, Digest>, wishes: map<Name, Want>,
                       chosen: seq<Name>, wanted: map<Name, Want>, direct: seq<Name>)
    requires forall n :: n in wishes <==> WishOf(v, n).Wanted?
    requires Distinct(chosen) && forall n :: n in chosen <==> WishOf(v, n).OwnJob?
    requires Resolved(v, defined, rejected, wishes.Keys, wanted, direct)
    ensures Distinct(chosen + direct) && Chosen(v, defined, rejected, wanted, chosen + direct)
    ensures forall n :: n in chosen + direct ==> n in v.own && n !in wanted
  {
    assert forall n :: n in chosen ==> n !in wishes && n !in direct;
    DistinctJoin(chosen, direct);
    ChosenOf(v, defined, rejected, wishes, chosen, wanted, direct);
  }

  lemma ChosenOf(v: View, defined: map<Name, Registration>, rejected: map<Name, Digest>, wishes: map<Name, Want>,
                 chosen: seq<Name>, wanted: map<Name, Want>, direct: seq<Name>)
    requires forall n :: n in wishes <==> WishOf(v, n).Wanted?
    requires forall n :: n in chosen <==> WishOf(v, n).OwnJob?
    requires Resolved(v, defined, rejected, wishes.Keys, wanted, direct)
    ensures Chosen(v, defined, rejected, wanted, chosen + direct)
  {
  }

  lemma DistinctJoin<T>(a: seq<T>, b: seq<T>)
    requires Distinct(a) && Distinct(b) && forall x :: x in a ==> x !in b
    ensures Distinct(a + b)
  {
    forall i, j | 0 <= i < |a| && 0 <= j < |b| ensures a[i] != b[j] {
      assert a[i] in a && b[j] in b;
    }
  }

  // A definition stored without a digest, as no client does, is built exactly
  // where it can be read and another digest of the name was found unreadable
  // before: a name with none rejected takes the empty one for rejected.
  lemma EmptyDigestIsBuiltIff(v: View, name: Name, kept: Option<Digest>, rejected: Digest)
    requires Recorded(v, name) ==> v.own[name].digest != EMPTY
    ensures var d, w := Decide(v, name, kept, rejected), WishOf(v, name);
            (d.Build? && d.want.digest == EMPTY) <==>
              (w.Wanted? && w.want.digest == EMPTY && kept != Some(EMPTY) && rejected != EMPTY && v.readable(name, w.want.text))
  {
    var w := WishOf(v, name);
    if w.Wanted? && w.want.digest == EMPTY {
      assert kept == Some(EMPTY) ==> Decide(v, name, kept, rejected) == Keep(w.want);
    }
  }
}
