/** The two leased tables as objects: each method is one statement or one locked transaction. */
module LeaseTables {
  import opened Outcomes
  import opened Totals
  import opened Leases

  /** Nobody may claim the row: it is finished, or RUNNING without a deadline or with one not yet past. */
  predicate Taken(row: Row, now: int) {
    || row.status.Finished?
    || (row.status.Running? && (row.deadline.None? || now <= row.deadline.value))
  }

  class LeaseTable {
    var rows: Table

    constructor ()
      ensures rows == map[]
    {
      rows := map[];
    }

    /** ORDER BY id LIMIT 1 over the claimable rows. */
    method FirstClaimable(now: int) returns (id: Option<int>)
      ensures id.Some? ==> IsFirst(rows, now, id.value)
      ensures id.None? ==> forall other :: other in rows ==> !Claimable(rows[other], now)
      ensures id.None? <==> forall other :: other in rows ==> Taken(rows[other], now)
      ensures id.Some? ==>
                && id.value in rows && !Taken(rows[id.value], now)
                && forall other :: other in rows && other < id.value ==> Taken(rows[other], now)
    {
      id := None;
      var rest: set<int> := rows.Keys;
      while rest != {}
        invariant rest <= rows.Keys
        invariant id.Some? ==> id.value in rows && Claimable(rows[id.value], now)
        invariant forall other :: other in rows && other !in rest && Claimable(rows[other], now) ==>
                    id.Some? && id.value <= other
        decreases |rest|
      {
        var candidate := Pick(rest);
        rest := rest - {candidate};
        if Claimable(rows[candidate], now) && (id.None? || candidate < id.value) {
          id := Some(candidate);
        }
      }
    }

    method Enqueue(id: int, account: string)
      requires id !in rows
      modifies this
      ensures Next(old(rows), Step.Enqueue(id, account), rows)
    {
      rows := rows[id := Row(account, Queued, None, None)];
    }

    /** The manual start: refused while any run of the account is RUNNING, whatever its lease. */
    method StartManual(id: int, account: string, token: Token, lease: nat) returns (started: bool)
      requires id !in rows
      modifies this
      ensures !started <==> exists other :: other in old(rows) && old(rows)[other].status == Running
                                            && old(rows)[other].account == account
      ensures started ==> rows == old(rows)[id := Row(account, Running, Some(token), Some(token.at + lease))]
      ensures started == !HasRunning(old(rows), account)
      ensures started ==> Next(old(rows), Step.StartManual(id, account, token, token.at + lease), rows)
      ensures !started ==> rows == old(rows)
    {
      started := !HasRunning(rows, account);
      if started {
        rows := rows[id := Row(account, Running, Some(token), Some(token.at + lease))];
      }
    }

    /** An agent run: the first claimable row, with no regard to other leases. */
    method ClaimAgentRun(worker: string, now: int, lease: nat) returns (id: Option<int>)
      modifies this
      ensures id.None? <==> forall other :: other in old(rows) ==> Taken(old(rows)[other], now)
      ensures id.None? ==> rows == old(rows)
      ensures id.Some? ==>
                && id.value in old(rows) && !Taken(old(rows)[id.value], now)
                && (forall other :: other in old(rows) && other < id.value ==> Taken(old(rows)[other], now))
                && rows == old(rows)[id.value := Row(old(rows)[id.value].account, Running, Some(Token(worker, now)),
                                                     Some(now + lease))]
      ensures id.None? ==> rows == old(rows) && forall other :: other in rows ==> !Claimable(rows[other], now)
      ensures id.Some? ==> IsFirst(old(rows), now, id.value)
                           && Next(old(rows), Claim(id.value, Token(worker, now), now + lease), rows)
    {
      id := FirstClaimable(now);
      if id.Some? {
        rows := rows[id.value := Claimed(rows[id.value], Token(worker, now), now + lease)];
      }
    }

    /** A reconciliation run: nothing while any lease is live, otherwise the first claimable row. */
    method ClaimReconciliation(worker: string, now: int, lease: nat) returns (id: Option<int>)
      modifies this
      ensures id.None? <==>
                || (exists other :: other in old(rows) && old(rows)[other].status == Running
                                    && old(rows)[other].deadline.Some? && now <= old(rows)[other].deadline.value)
                || (forall other :: other in old(rows) ==> Taken(old(rows)[other], now))
      ensures id.Some? ==>
                && id.value in old(rows) && !Taken(old(rows)[id.value], now)
                && (forall other :: other in old(rows) && other < id.value ==> Taken(old(rows)[other], now))
                && rows == old(rows)[id.value := Row(old(rows)[id.value].account, Running, Some(Token(worker, now)),
                                                     Some(now + lease))]
      ensures id.None? ==> rows == old(rows)
      ensures id.None? ==> AnyLive(rows, now) || forall other :: other in rows ==> !Claimable(rows[other], now)
      ensures id.Some? ==> Serialized(old(rows), Claim(id.value, Token(worker, now), now + lease))
                           && Next(old(rows), Claim(id.value, Token(worker, now), now + lease), rows)
    {
      if AnyLive(rows, now) {
        return None;
      }
      id := ClaimAgentRun(worker, now, lease);
    }

    /** The conditional UPDATE of a claim: true exactly when the token still owns a live lease. */
    method UpdateClaim(id: int, token: Token, now: int, outcome: Option<string>) returns (updated: bool)
      modifies this
      ensures updated <==>
                && id in old(rows) && old(rows)[id].status == Running && old(rows)[id].token == Some(token)
                && old(rows)[id].deadline.Some? && now <= old(rows)[id].deadline.value
      ensures rows == if updated && outcome.Some?
                      then old(rows)[id := old(rows)[id].(status := Finished(outcome.value))] else old(rows)
      ensures Next(old(rows), Update(id, token, now, outcome), rows)
    {
      updated := id in rows && Owned(rows[id], token, now);
      if updated {
        rows := rows[id := Updated(rows[id], outcome)];
      }
    }
  }
}
