/**
 Rows that workers claim with a lease: agent runs and reconciliation runs. Every
 conditional UPDATE and every transaction under the control-row lock is one atomic
 step; workers may stop between any two steps and never come back.
 */
module Leases {
  import opened Outcomes

  /** A claim token hashes the worker name and the claim time; distinct pairs hash differently. */
  datatype Token = Token(worker: string, at: int)

  datatype Status = Queued | Running | Finished(outcome: string)

  datatype Row = Row(account: string, status: Status, token: Option<Token>, deadline: Option<int>)

  type Table = map<int, Row>

  // ----- one row -----

  predicate Live(row: Row, now: int) {
    row.status.Running? && row.deadline.Some? && row.deadline.value >= now
  }

  predicate Claimable(row: Row, now: int) {
    row.status.Queued? || (row.status.Running? && row.deadline.Some? && row.deadline.value < now)
  }

  predicate Owned(row: Row, token: Token, now: int) {
    Live(row, now) && row.token == Some(token)
  }

  function Claimed(row: Row, token: Token, deadline: int): Row {
    row.(status := Running, token := Some(token), deadline := Some(deadline))
  }

  /** A checkpoint keeps the row RUNNING; an outcome finishes it. */
  function Updated(row: Row, outcome: Option<string>): Row {
    if outcome.Some? then row.(status := Finished(outcome.value)) else row
  }

  // ----- the table -----

  predicate AnyLive(rows: Table, now: int) {
    exists id :: id in rows && Live(rows[id], now)
  }

  predicate HasRunning(rows: Table, account: string) {
    exists id :: id in rows && rows[id].status.Running? && rows[id].account == account
  }

  predicate IsFirst(rows: Table, now: int, id: int) {
    && id in rows && Claimable(rows[id], now)
    && forall other :: other in rows && Claimable(rows[other], now) ==> id <= other
  }

  datatype Step =
    | Enqueue(id: int, account: string)
    | StartManual(id: int, account: string, token: Token, deadline: int)
    | Claim(id: int, token: Token, deadline: int)
    | Update(id: int, token: Token, now: int, outcome: Option<string>)

  /** What any step may do; a claim carries its own clock reading in the token. */
  ghost predicate Next(rows: Table, step: Step, after: Table) {
    match step
    case Enqueue(id, account) =>
      id !in rows && after == rows[id := Row(account, Queued, None, None)]
    case StartManual(id, account, token, deadline) =>
      id !in rows && token.at <= deadline && !HasRunning(rows, account)
      && after == rows[id := Row(account, Running, Some(token), Some(deadline))]
    case Claim(id, token, deadline) =>
      id in rows && Claimable(rows[id], token.at) && token.at <= deadline
      && after == rows[id := Claimed(rows[id], token, deadline)]
    case Update(id, token, now, outcome) =>
      after == if id in rows && Owned(rows[id], token, now) then rows[id := Updated(rows[id], outcome)] else rows
  }

  /** Reconciliation claims take the smallest claimable id, and only while no lease is live. */
  ghost predicate Serialized(rows: Table, step: Step) {
    step.Claim? ==> !AnyLive(rows, step.token.at) && IsFirst(rows, step.token.at, step.id)
  }

  ghost predicate IsRun(states: seq<Table>, steps: seq<Step>) {
    && |states| == |steps| + 1
    && states[0] == map[]
    && forall i :: 0 <= i < |steps| ==> Next(states[i], steps[i], states[i + 1])
  }

  ghost predicate IsReconciliationRun(states: seq<Table>, steps: seq<Step>) {
    IsRun(states, steps) && forall i :: 0 <= i < |steps| ==> Serialized(states[i], steps[i])
  }

  // ----- leases of one row over a run -----

  /** A row that was ever claimed keeps a token no newer than its deadline. */
  ghost predicate LeaseSet(row: Row) {
    if row.status.Queued? then row.token.None?
    else row.token.Some? && row.deadline.Some? && row.token.value.at <= row.deadline.value
  }

  ghost predicate LeasesSet(rows: Table) {
    forall id :: id in rows ==> LeaseSet(rows[id])
  }

  lemma {:induction false} RunLeasesSet(states: seq<Table>, steps: seq<Step>, i: nat)
    requires IsRun(states, steps) && i < |states|
    ensures LeasesSet(states[i])
  {
    if i > 0 {
      RunLeasesSet(states, steps, i - 1);
      assert Next(states[i - 1], steps[i - 1], states[i]);
    }
  }

  /** The claim times stored on one row never go back, and each new claim is strictly later. */
  lemma {:induction false} ClaimTimesGrow(states: seq<Table>, steps: seq<Step>, id: int, m: nat, n: nat)
    requires IsRun(states, steps) && m <= n < |states|
    requires id in states[m] && states[m][id].token.Some?
    ensures id in states[n] && states[n][id].token.Some? && states[m][id].token.value.at <= states[n][id].token.value.at
    ensures forall k :: m <= k < n && steps[k].Claim? && steps[k].id == id ==>
              states[m][id].token.value.at < states[n][id].token.value.at
  {
    if m < n {
      ClaimTimesGrow(states, steps, id, m, n - 1);
      RunLeasesSet(states, steps, n - 1);
      assert LeaseSet(states[n - 1][id]);
      assert Next(states[n - 1], steps[n - 1], states[n]);
    }
  }

  /** A RUNNING row is claimed again only strictly after its deadline. */
  lemma ClaimsWaitForTheDeadline(states: seq<Table>, steps: seq<Step>, k: nat)
    requires IsRun(states, steps) && k < |steps| && steps[k].Claim?
    ensures steps[k].id in states[k] && states[k][steps[k].id].status in {Queued, Running}
    ensures states[k][steps[k].id].status == Running ==>
              && states[k][steps[k].id].deadline.Some?
              && states[k][steps[k].id].deadline.value < steps[k].token.at
  {
    assert Next(states[k], steps[k], states[k + 1]);
  }

  /** Deadlines stored on one row never go back. */
  lemma {:induction false} DeadlinesGrow(states: seq<Table>, steps: seq<Step>, id: int, m: nat, n: nat)
    requires IsRun(states, steps) && m <= n < |states|
    requires id in states[m] && states[m][id].token.Some? && states[m][id].deadline.Some?
    ensures id in states[n] && !states[n][id].status.Queued? && states[n][id].deadline.Some?
    ensures states[m][id].deadline.value <= states[n][id].deadline.value
  {
    RunLeasesSet(states, steps, m);
    assert LeaseSet(states[m][id]);
    if m < n {
      DeadlinesGrow(states, steps, id, m, n - 1);
      assert Next(states[n - 1], steps[n - 1], states[n]);
    }
  }

  /** From the moment a token is issued until its deadline, nobody else claims the row. */
  lemma NoClaimWithinALease(states: seq<Table>, steps: seq<Step>, i: nat, j: nat)
    requires IsRun(states, steps) && i < j < |steps|
    requires Issues(steps[i]) && steps[j].Claim? && steps[j].id == steps[i].id
    ensures steps[i].deadline < steps[j].token.at
  {
    assert Next(states[i], steps[i], states[i + 1]);
    DeadlinesGrow(states, steps, steps[i].id, i + 1, j);
    ClaimsWaitForTheDeadline(states, steps, j);
  }

  /** The holder of a lease can write until its deadline, and only the holder: then, and no longer. */
  lemma HolderWritesUntilTheDeadline(states: seq<Table>, steps: seq<Step>, id: int, j: nat)
    requires IsRun(states, steps) && j < |steps| && steps[j].Update? && steps[j].id == id
    requires id in states[j] && states[j][id].status == Running
    ensures id in states[j + 1]
    ensures var row := states[j][id];
            && row.token.Some? && row.deadline.Some?
            && states[j + 1][id] ==
               if steps[j].token == row.token.value && steps[j].now <= row.deadline.value && steps[j].outcome.Some?
               then row.(status := Finished(steps[j].outcome.value)) else row
  {
    RunLeasesSet(states, steps, j);
    assert LeaseSet(states[j][id]) && Next(states[j], steps[j], states[j + 1]);
  }

  /** The step hands out a token: a claim, or a manual start that creates its row already claimed. */
  predicate Issues(step: Step) {
    step.Claim? || step.StartManual?
  }

  /** If an update with a token succeeds, the row was not claimed again since that token was issued. */
  lemma Fencing(states: seq<Table>, steps: seq<Step>, i: nat, j: nat)
    requires IsRun(states, steps) && i < j < |steps|
    requires Issues(steps[i]) && steps[j].Update? && steps[j].id == steps[i].id && steps[j].token == steps[i].token
    requires steps[j].id in states[j] && Owned(states[j][steps[j].id], steps[j].token, steps[j].now)
    ensures forall k :: i < k < j && steps[k].Claim? ==> steps[k].id != steps[i].id
  {
    assert Next(states[i], steps[i], states[i + 1]);
    ClaimTimesGrow(states, steps, steps[i].id, i + 1, j);
  }

  /** A finished row is never claimed or written again. */
  lemma {:induction false} FinishedForever(states: seq<Table>, steps: seq<Step>, id: int, m: nat, n: nat)
    requires IsRun(states, steps) && m <= n < |states|
    requires id in states[m] && states[m][id].status.Finished?
    ensures id in states[n] && states[n][id] == states[m][id]
    ensures forall k :: m <= k < n && steps[k].Claim? ==> steps[k].id != id
  {
    if m < n {
      FinishedForever(states, steps, id, m, n - 1);
      assert Next(states[n - 1], steps[n - 1], states[n]);
    }
  }

  /**
   An expired lease stays a barrier: a RUNNING row stops being RUNNING only when the holder of its
   current token finishes it inside the lease, however often it was reclaimed before.
   */
  lemma {:induction false} BarrierHolds(states: seq<Table>, steps: seq<Step>, id: int, m: nat, n: nat) returns (k: nat)
    requires IsRun(states, steps) && m <= n < |states|
    requires id in states[m] && states[m][id].status.Running?
    requires !(id in states[n] && states[n][id].status.Running?)
    ensures m <= k < n && steps[k].Update? && steps[k].id == id && steps[k].outcome.Some?
    ensures id in states[k] && Owned(states[k][id], steps[k].token, steps[k].now)
    ensures forall i :: m <= i <= k ==>
              id in states[i] && states[i][id].status.Running? && HasRunning(states[i], states[m][id].account)
    decreases n - m
  {
    assert Next(states[m], steps[m], states[m + 1]);
    if id in states[m + 1] && states[m + 1][id].status.Running? {
      k := BarrierHolds(states, steps, id, m + 1, n);
    } else {
      k := m;
    }
  }
}
