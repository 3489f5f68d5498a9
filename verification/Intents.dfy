/**
 Trading intents: claimed for execution under a lease, finished with a token, put back for a
 retry, or expired. Unlike the other leased rows, a finished claim may be claimed again.
 */
module Intents {
  import opened Outcomes
  import opened Totals
  import Leases

  datatype Phase = Ready | Retry | ShadowReady | ClaimedPhase | Completed | Expired

  /** `open` is status READY_FOR_EXECUTION; an expired intent leaves it. */
  datatype Intent = Intent(
    open: bool, phase: Phase, sell: bool, validFrom: int, validUntil: int,
    nextAt: Option<int>, token: Option<Token>, deadline: Option<int>)

  type Token = Leases.Token

  type Table = map<int, Intent>

  /** A deferred execution is tried again no earlier than this many time units later. */
  const RETRY_DELAY := 5

  predicate Claimable(row: Intent, now: int) {
    && row.open
    && (row.phase.Ready? || row.phase.Retry?
       || (row.phase.ClaimedPhase? && row.deadline.Some? && row.deadline.value < now))
    && row.validFrom <= now < row.validUntil
    && (row.nextAt.Some? ==> row.nextAt.value <= now)
    && (row.deadline.Some? ==> row.deadline.value < now)
  }

  predicate Owned(row: Intent, token: Token, now: int) {
    row.token == Some(token) && row.deadline.Some? && row.deadline.value >= now
  }

  predicate Expirable(row: Intent, now: int) {
    && row.open && row.validUntil <= now
    && (row.phase.Ready? || row.phase.Retry? || row.phase.ShadowReady? || row.phase.ClaimedPhase?)
    && (row.deadline.Some? ==> row.deadline.value <= now)
  }

  function Claimed(row: Intent, token: Token, deadline: int): Intent {
    row.(phase := ClaimedPhase, token := Some(token), deadline := Some(deadline))
  }

  /** Finishing releases the lease; an execution that failed is tried again some time after `failedAt`. */
  function Finished(row: Intent, failedAt: Option<int>): Intent {
    var released := row.(token := None, deadline := None);
    match failedAt
    case Some(at) => released.(phase := Retry, nextAt := Some(at + RETRY_DELAY))
    case None => released.(phase := Completed)
  }

  function ExpiredRow(row: Intent, now: int): Intent {
    if Expirable(row, now) then row.(open := false, phase := Expired) else row
  }

  function ExpireAll(rows: Table, now: int): Table {
    map id | id in rows :: ExpiredRow(rows[id], now)
  }

  /** Sells first, then the earliest deadline of validity, then the smallest id. */
  predicate Before(rows: Table, a: int, b: int)
    requires a in rows && b in rows
  {
    if rows[a].sell != rows[b].sell then rows[a].sell
    else if rows[a].validUntil != rows[b].validUntil then rows[a].validUntil < rows[b].validUntil
    else a <= b
  }

  datatype Step =
    | Create(id: int, sell: bool, validFrom: int, validUntil: int, shadow: bool)
    | Claim(id: int, token: Token, deadline: int)
    | Finish(id: int, token: Token, failedAt: Option<int>, now: int)
    | Expire(now: int)

  /** A worker reads the clock for claiming, then for a failure, then for finishing. */
  ghost predicate Next(rows: Table, step: Step, after: Table) {
    match step
    case Create(id, sell, validFrom, validUntil, shadow) =>
      id !in rows
      && after == rows[id := Intent(true, if shadow then ShadowReady else Ready, sell, validFrom, validUntil,
                                    None, None, None)]
    case Claim(id, token, deadline) =>
      && id in rows && Claimable(rows[id], token.at) && token.at <= deadline
      && (forall other :: other in rows && Claimable(rows[other], token.at) ==> Before(rows, id, other))
      && after == rows[id := Claimed(rows[id], token, deadline)]
    case Finish(id, token, failedAt, now) =>
      token.at <= failedAt.GetOr(now) <= now
      && after == if id in rows && Owned(rows[id], token, now) then rows[id := Finished(rows[id], failedAt)] else rows
    case Expire(now) =>
      after == ExpireAll(rows, now)
  }

  ghost predicate IsRun(states: seq<Table>, steps: seq<Step>) {
    && |states| == |steps| + 1
    && states[0] == map[]
    && forall i :: 0 <= i < |steps| ==> Next(states[i], steps[i], states[i + 1])
  }

  // ----- fencing -----

  ghost predicate WellLeased(row: Intent) {
    && row.token.Some? == row.deadline.Some?
    && (row.token.Some? ==> row.token.value.at <= row.deadline.value)
    && (row.phase.ClaimedPhase? ==> row.token.Some?)
    && (row.phase.Ready? || row.phase.ShadowReady? || row.phase.Retry? || row.phase.Completed? ==> row.token.None?)
  }

  lemma {:induction false} RunWellLeased(states: seq<Table>, steps: seq<Step>, n: nat)
    requires IsRun(states, steps) && n < |states|
    ensures forall id :: id in states[n] ==> WellLeased(states[n][id])
  {
    if n > 0 {
      RunWellLeased(states, steps, n - 1);
      assert Next(states[n - 1], steps[n - 1], states[n]);
    }
  }

  /** No later claim of the row can be made at or before `time`, and no token that old is on it. */
  ghost predicate Beyond(row: Intent, time: int) {
    && (row.token.Some? ==> row.token.value.at > time)
    && match row.phase
       case ClaimedPhase => row.deadline.Some? && row.deadline.value >= time
       case Retry => row.nextAt.Some? && row.nextAt.value > time
       case Completed => true
       case Expired => true
       case _ => false
  }

  /** From the claim at `token.at` on, either the row still carries that claim or it is beyond it. */
  ghost predicate HeldOrBeyond(row: Intent, token: Token) {
    || (row.token == Some(token) && (row.phase.ClaimedPhase? || row.phase.Expired?))
    || Beyond(row, token.at)
  }

  lemma {:induction false} ClaimIsNotReissued(states: seq<Table>, steps: seq<Step>, i: nat, n: nat)
    requires IsRun(states, steps) && i < n < |states| && steps[i].Claim?
    ensures steps[i].id in states[n] && HeldOrBeyond(states[n][steps[i].id], steps[i].token)
    ensures forall k :: i < k < n && steps[k].Claim? && steps[k].id == steps[i].id ==>
              Beyond(states[n][steps[i].id], steps[i].token.at)
  {
    var id, token := steps[i].id, steps[i].token;
    assert Next(states[n - 1], steps[n - 1], states[n]);
    if n > i + 1 {
      ClaimIsNotReissued(states, steps, i, n - 1);
      RunWellLeased(states, steps, n - 1);
      assert WellLeased(states[n - 1][id]);
    }
  }

  /** If a finish with a token succeeds, the intent was not claimed again since that token was issued. */
  lemma Fencing(states: seq<Table>, steps: seq<Step>, i: nat, j: nat)
    requires IsRun(states, steps) && i < j < |steps|
    requires steps[i].Claim? && steps[j].Finish? && steps[j].id == steps[i].id && steps[j].token == steps[i].token
    requires steps[j].id in states[j] && Owned(states[j][steps[j].id], steps[j].token, steps[j].now)
    ensures forall k :: i < k < j && steps[k].Claim? ==> steps[k].id != steps[i].id
  {
    ClaimIsNotReissued(states, steps, i, j);
  }

  // ----- when and in which order intents are claimed -----

  /**
   Nobody may claim the intent: it is closed, only a shadow, or done; its validity has not begun or
   is over; its retry is not yet due; or it is under a lease that is not yet past.
   */
  predicate Unavailable(row: Intent, now: int) {
    || !row.open || row.phase in {ShadowReady, Completed, Expired}
    || now < row.validFrom || row.validUntil <= now
    || (row.nextAt.Some? && now < row.nextAt.value)
    || (row.deadline.Some? && now <= row.deadline.value)
    || (row.phase == ClaimedPhase && row.deadline.None?)
  }

  /** `a` is claimed before `b`: a sale before a purchase, then what ends earlier, then what was created earlier. */
  predicate Precedes(a: int, rowA: Intent, b: int, rowB: Intent) {
    || (rowA.sell && !rowB.sell)
    || (rowA.sell == rowB.sell && rowA.validUntil < rowB.validUntil)
    || (rowA.sell == rowB.sell && rowA.validUntil == rowB.validUntil && a < b)
  }

  /** The order is total, so it leaves one intent to be claimed first. */
  lemma OrderIsTotal(a: int, rowA: Intent, b: int, rowB: Intent, c: int, rowC: Intent)
    requires a != b
    ensures Precedes(a, rowA, b, rowB) <==> !Precedes(b, rowB, a, rowA)
    ensures Precedes(a, rowA, b, rowB) && Precedes(b, rowB, c, rowC) ==> Precedes(a, rowA, c, rowC)
  {
  }

  /** In every run a claim takes an available intent that precedes all the other available ones. */
  lemma ClaimsInOrder(states: seq<Table>, steps: seq<Step>, i: nat)
    requires IsRun(states, steps) && i < |steps| && steps[i].Claim?
    ensures var id, now := steps[i].id, steps[i].token.at;
            && id in states[i] && !Unavailable(states[i][id], now)
            && forall other :: other in states[i] && other != id && !Unavailable(states[i][other], now) ==>
                 Precedes(id, states[i][id], other, states[i][other])
  {
    assert Next(states[i], steps[i], states[i + 1]);
  }

  ghost predicate Finishes(rows: Table, step: Step, id: int) {
    step.Finish? && step.id == id && id in rows && Owned(rows[id], step.token, step.now)
  }

  /** After an execution that failed at `failedAt`, the intent is held back for five time units. */
  ghost predicate HeldBack(row: Intent, until: int) {
    row.nextAt.Some? && row.nextAt.value >= until && (row.token.Some? ==> row.token.value.at >= until)
  }

  lemma {:induction false} RetryWaits(states: seq<Table>, steps: seq<Step>, i: nat, n: nat)
    requires IsRun(states, steps) && i < n < |states|
    requires steps[i].Finish? && steps[i].failedAt.Some? && Finishes(states[i], steps[i], steps[i].id)
    ensures steps[i].id in states[n] && HeldBack(states[n][steps[i].id], steps[i].failedAt.value + 5)
    ensures forall j :: i < j < n && steps[j].Claim? && steps[j].id == steps[i].id ==>
              steps[j].token.at >= steps[i].failedAt.value + 5
  {
    assert Next(states[n - 1], steps[n - 1], states[n]);
    if n > i + 1 {
      RetryWaits(states, steps, i, n - 1);
    }
  }

  // ----- expiry against live leases -----

  /** Expiry never touches an intent whose lease is strictly live. */
  lemma ExpireSparesLiveLeases(rows: Table, now: int, id: int)
    requires id in rows && rows[id].deadline.Some? && now < rows[id].deadline.value
    ensures ExpireAll(rows, now)[id] == rows[id]
  {
  }

  /** What the two clock comparisons leave open, on one row. */
  lemma OwnedAfterExpiry(row: Intent, token: Token, expiredAt: int, now: int)
    requires Expirable(row, expiredAt) && row.token == Some(token) && row.deadline.Some? && expiredAt <= now
    ensures Owned(ExpiredRow(row, expiredAt), token, now) <==> expiredAt == now == row.deadline.value
  {
  }

  /** From its expiry on, an intent changes only by a finish of the claim it still carries, and then has none. */
  lemma {:induction false} ExpiredKeepsOrLosesClaim(states: seq<Table>, steps: seq<Step>, id: int, m: nat, n: nat)
    requires IsRun(states, steps) && m <= n < |states| && id in states[m] && !states[m][id].open
    ensures id in states[n] && !states[n][id].open
    ensures if exists k :: m <= k < n && Finishes(states[k], steps[k], id) then states[n][id].token.None?
            else states[n][id] == states[m][id]
  {
    if m < n {
      ExpiredKeepsOrLosesClaim(states, steps, id, m, n - 1);
      assert Next(states[n - 1], steps[n - 1], states[n]);
    }
  }

  /**
   In every run, a finish after the expiry of a claimed intent succeeds if and only if it carries
   the expired claim's token, its clock reading is within the lease, and it is the first to do so.
   With a reading no earlier than the expiry's, that leaves the one instant at which the lease ends.
   */
  lemma FinishAfterExpiry(states: seq<Table>, steps: seq<Step>, id: int, i: nat, j: nat)
    requires IsRun(states, steps) && i < j < |steps|
    requires steps[i].Expire? && id in states[i] && Expirable(states[i][id], steps[i].now)
    requires steps[j].Finish? && steps[j].id == id
    ensures Finishes(states[j], steps[j], id) <==>
              && Owned(states[i][id], steps[j].token, steps[j].now)
              && (forall k :: i < k < j ==> !Finishes(states[k], steps[k], id))
    ensures Finishes(states[j], steps[j], id) && steps[i].now <= steps[j].now ==>
              steps[i].now == steps[j].now == states[i][id].deadline.value
  {
    var row := states[i][id];
    assert Next(states[i], steps[i], states[i + 1]);
    ExpiredKeepsOrLosesClaim(states, steps, id, i + 1, j);
    RunWellLeased(states, steps, i);
    assert WellLeased(row);
    if row.token == Some(steps[j].token) && steps[i].now <= steps[j].now {
      OwnedAfterExpiry(row, steps[j].token, steps[i].now, steps[j].now);
    }
  }

  /** An intent is claimed, expired at the end of its lease and finished at that instant. */
  const LATE: seq<Step> := [
    Create(1, false, 0, 50, false),
    Claim(1, Leases.Token("worker", 10), 70),
    Expire(70),
    Finish(1, Leases.Token("worker", 10), None, 70)]

  lemma ExpiredCanBeCompleted() returns (states: seq<Table>)
    ensures IsRun(states, LATE)
    ensures 1 in states[3] && states[3][1].phase.Expired? && 1 in states[4] && states[4][1].phase.Completed?
  {
    var token := Leases.Token("worker", 10);
    var s1: Table := map[1 := Intent(true, Ready, false, 0, 50, None, None, None)];
    var s2: Table := s1[1 := Claimed(s1[1], token, 70)];
    var s3: Table := ExpireAll(s2, 70);
    var s4: Table := s3[1 := Finished(s3[1], None)];
    states := [map[], s1, s2, s3, s4];
    assert Next(states[0], LATE[0], s1);
    assert Next(s1, LATE[1], s2);
    assert Next(s2, LATE[2], s3);
    assert Next(s3, LATE[3], s4);
  }

  lemma AvailableExactly(rows: Table, now: int)
    ensures forall other :: other in rows ==> (Claimable(rows[other], now) <==> !Unavailable(rows[other], now))
  {
  }

  lemma OrderedExactly(rows: Table, id: int)
    requires id in rows
    ensures forall other :: other in rows && other != id ==>
              (Before(rows, id, other) <==> Precedes(id, rows[id], other, rows[other]))
  {
  }

  // ----- the table as an object -----

  class IntentTable {
    var rows: Table

    constructor ()
      ensures rows == map[]
    {
      rows := map[];
    }

    /** The first claimable intent in claim order. */
    method FirstReady(now: int) returns (id: Option<int>)
      ensures id.None? ==> forall other :: other in rows ==> !Claimable(rows[other], now)
      ensures id.Some? ==>
                && id.value in rows && Claimable(rows[id.value], now)
                && forall other :: other in rows && Claimable(rows[other], now) ==> Before(rows, id.value, other)
    {
      id := None;
      var rest: set<int> := rows.Keys;
      while rest != {}
        invariant rest <= rows.Keys
        invariant id.Some? ==> id.value in rows && Claimable(rows[id.value], now)
        invariant forall other :: other in rows && other !in rest && Claimable(rows[other], now) ==>
                    id.Some? && Before(rows, id.value, other)
        decreases |rest|
      {
        var candidate := Pick(rest);
        rest := rest - {candidate};
        if Claimable(rows[candidate], now) && (id.None? || Before(rows, candidate, id.value)) {
          id := Some(candidate);
        }
      }
    }

    /** That intent is leased to the worker. */
    method ClaimNextReady(worker: string, now: int, lease: nat) returns (id: Option<int>)
      modifies this
      ensures id.None? ==> rows == old(rows)
      ensures id.None? <==> forall other :: other in old(rows) ==> Unavailable(old(rows)[other], now)
      ensures id.Some? ==>
                && id.value in old(rows) && !Unavailable(old(rows)[id.value], now)
                && (forall other :: other in old(rows) && other != id.value && !Unavailable(old(rows)[other], now) ==>
                      Precedes(id.value, old(rows)[id.value], other, old(rows)[other]))
                && rows == old(rows)[id.value := old(rows)[id.value].(phase := ClaimedPhase,
                                       token := Some(Leases.Token(worker, now)), deadline := Some(now + lease))]
      ensures id.Some? ==> Next(old(rows), Claim(id.value, Leases.Token(worker, now), now + lease), rows)
    {
      id := FirstReady(now);
      AvailableExactly(rows, now);
      if id.Some? {
        OrderedExactly(rows, id.value);
        hide Claimable, Before, Unavailable, Precedes;
        rows := rows[id.value := Claimed(rows[id.value], Leases.Token(worker, now), now + lease)];
      }
    }

    method FinishClaim(id: int, token: Token, failedAt: Option<int>, now: int) returns (updated: bool)
      requires token.at <= failedAt.GetOr(now) <= now
      modifies this
      ensures updated <==>
                && id in old(rows) && old(rows)[id].token == Some(token)
                && old(rows)[id].deadline.Some? && now <= old(rows)[id].deadline.value
      ensures updated ==>
                rows == old(rows)[id := old(rows)[id].(
                          phase := if failedAt.Some? then Retry else Completed, token := None, deadline := None,
                          nextAt := if failedAt.Some? then Some(failedAt.value + 5) else old(rows)[id].nextAt)]
      ensures !updated ==> rows == old(rows)
      ensures Next(old(rows), Finish(id, token, failedAt, now), rows)
    {
      updated := id in rows && Owned(rows[id], token, now);
      if updated {
        rows := rows[id := Finished(rows[id], failedAt)];
      }
    }

    method ExpireDue(now: int)
      modifies this
      ensures rows.Keys == old(rows).Keys
      ensures forall id :: id in rows ==>
                var row := old(rows)[id];
                rows[id] == if row.open && row.phase != Completed && row.phase != Expired && row.validUntil <= now
                               && !(row.deadline.Some? && now < row.deadline.value)
                            then row.(open := false, phase := Expired) else row
      ensures Next(old(rows), Expire(now), rows)
    {
      rows := ExpireAll(rows, now);
    }
  }
}
