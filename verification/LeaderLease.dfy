/**
 The leader lease as the database keeps it: one row, the statements that
 change it, and the clock they run at. Times are integers on one shared clock.
 */
module LeaderLease {

  /** The lease row. `asked` records a resign request of the holder. */
  datatype Row = Free | Held(holder: nat, elected: int, expires: int, asked: bool)

  /** What an attempt reports: the lease is another's, or the term it holds. */
  datatype Response = Denied | Granted(elected: int, asked: bool)

  /** A lease is live through its expiry. Only a lease past it can be taken. */
  predicate Live(row: Row, now: int) {
    row.Held? && now <= row.expires
  }

  /** Takes a free or expired lease, which starts a term, or renews the caller's live one. */
  function Attempt(row: Row, id: nat, ttl: nat, now: int): (Row, Response) {
    if Live(row, now) then
      if row.holder != id then (row, Denied)
      else (if row.asked then row else row.(expires := now + ttl), Granted(row.elected, row.asked))
    else
      (Held(id, now, now + ttl, false), Granted(now, false))
  }

  /** Deletes the lease if the caller holds it, live or not. */
  function Resign(row: Row, id: nat): Row {
    if row.Held? && row.holder == id then Free else row
  }

  /** Asks the holder of a lease with time left to resign: the one named, or whichever for None. */
  function RequestResign(row: Row, named: bool, leader: nat, now: int): Row {
    if row.Held? && now < row.expires && (!named || row.holder == leader) then row.(asked := true) else row
  }

  /** The row names `id` in the term `elected`, until `until` at the earliest. */
  predicate Covers(row: Row, id: nat, elected: int, until: int) {
    row.Held? && row.holder == id && row.elected == elected && until <= row.expires
  }

  // While a lease is live, through its expiry, an attempt by anyone keeps its holder and its term,
  // and the holder's own attempt never shortens it.
  lemma AttemptKeepsLiveLease(row: Row, id: nat, ttl: nat, now: int, until: int)
    requires row.Held? && now <= until <= row.expires
    requires row.holder == id ==> row.expires <= now + ttl
    ensures Covers(Attempt(row, id, ttl, now).0, row.holder, row.elected, until)
    ensures row.holder != id ==> Attempt(row, id, ttl, now) == (row, Denied)
  {
  }

  // A grant without a resign request leaves a lease of the caller's that
  // lasts a full TTL from the statement, in the term it reports.
  lemma GrantCoversTtl(row: Row, id: nat, ttl: nat, now: int)
    ensures var (after, response) := Attempt(row, id, ttl, now);
            response.Granted? && !response.asked ==> Covers(after, id, response.elected, now + ttl)
  {
  }

  // An attempt is denied exactly while another's lease is live. It starts a term
  // exactly when no lease is, at the time of the statement; otherwise it is told
  // the term it holds, and the resign request, which stops the lease from being extended.
  lemma AttemptIff(row: Row, id: nat, ttl: nat, now: int)
    ensures var (after, response) := Attempt(row, id, ttl, now);
            && (response.Denied? <==> row.Held? && now <= row.expires && row.holder != id)
            && (response.Denied? ==> after == row)
            && (response.Granted? ==> after.Held? && after.holder == id && after.elected == response.elected && after.asked == response.asked)
            && (response.Granted? ==> (response.elected == now && !response.asked && after.expires == now + ttl) || row.Held?)
            && (response.Granted? && row.Held? && now <= row.expires ==>
                  after.elected == row.elected && after.asked == row.asked && after.expires == if row.asked then row.expires else now + ttl)
            && (row.Free? || row.expires < now ==> after == Held(id, now, now + ttl, false))
  {
  }

  // Only a lease with time left is asked for, and only of the holder named, if one is; nothing else of it changes.
  lemma RequestIff(row: Row, named: bool, leader: nat, now: int)
    ensures var after := RequestResign(row, named, leader, now);
            && (row.Free? ==> after.Free?)
            && (row.Held? ==> after == row.(asked := row.asked || (now < row.expires && (named ==> row.holder == leader))))
  {
  }
}
