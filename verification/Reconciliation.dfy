/**
 Reconciliation runs: one table of leased rows whose claims are serialized by the
 durable control row, and the order in which the runs therefore finish.
 */
module Reconciliation {
  import opened Outcomes
  import opened Leases

  /** Every id below a started run is finished. */
  ghost predicate Serial(rows: Table) {
    forall a, b :: a in rows && b in rows && a < b && !rows[b].status.Queued? ==> rows[a].status.Finished?
  }

  ghost predicate OneRunning(rows: Table) {
    forall a, b :: a in rows && b in rows && rows[a].status.Running? && rows[b].status.Running? ==> a == b
  }

  lemma SerialHasOneRunning(rows: Table)
    requires Serial(rows)
    ensures OneRunning(rows)
  {
  }

  // ----- which steps keep the order -----

  /**
   The insertions that do not overtake: a queued row above all started ones, a manual run above
   nothing unfinished.
   */
  ghost predicate Orderly(rows: Table, step: Step) {
    match step
    case Enqueue(id, _) => forall other :: other in rows && id < other ==> rows[other].status.Queued?
    case StartManual(id, _, _, _) =>
      forall other :: other in rows ==> if other < id then rows[other].status.Finished? else rows[other].status.Queued?
    case _ => true
  }

  /** A serialized claim can only reclaim the expired run, or start the first run behind finished ones. */
  lemma ClaimKeepsSerial(rows: Table, step: Step, after: Table)
    requires Serial(rows) && LeasesSet(rows) && step.Claim? && Next(rows, step, after) && Serialized(rows, step)
    ensures Serial(after)
  {
    forall a | a in rows && a < step.id ensures rows[a].status.Finished? {
      assert LeaseSet(rows[a]);
      assert !Claimable(rows[a], step.token.at) && !Live(rows[a], step.token.at);
    }
  }

  lemma InsertKeepsSerial(rows: Table, step: Step, after: Table)
    requires Serial(rows) && Next(rows, step, after) && (step.Enqueue? || step.StartManual?)
    ensures Serial(after) <==> Orderly(rows, step)
  {
    assert after.Keys == rows.Keys + {step.id};
    if Serial(after) {
      forall other | other in rows
        ensures step.id < other ==> rows[other].status.Queued?
        ensures step.StartManual? && other < step.id ==> rows[other].status.Finished?
      {
        assert other in after && after[other] == rows[other];
      }
    }
  }

  /**
   Over a whole run every id below a started run is finished, in every state, exactly when every
   insertion was orderly: claims, checkpoints, lease expiries and reclaims never break it.
   */
  lemma {:induction false} RunIsSerial(states: seq<Table>, steps: seq<Step>, n: nat)
    requires IsReconciliationRun(states, steps) && n < |states|
    ensures (forall i :: 0 <= i <= n ==> Serial(states[i])) <==>
              (forall i :: 0 <= i < n ==> Orderly(states[i], steps[i]))
  {
    if n > 0 {
      RunIsSerial(states, steps, n - 1);
      if forall i :: 0 <= i < n ==> Serial(states[i]) {
        var rows, step := states[n - 1], steps[n - 1];
        assert Next(rows, step, states[n]) && Serialized(rows, step);
        RunLeasesSet(states, steps, n - 1);
        if step.Claim? {
          ClaimKeepsSerial(rows, step, states[n]);
        } else if !step.Update? {
          InsertKeepsSerial(rows, step, states[n]);
        }
      }
    }
  }

  /** With queued runs only and growing ids, every reachable table is in order and has at most one RUNNING row. */
  lemma QueuedRunsAreSerial(states: seq<Table>, steps: seq<Step>, n: nat)
    requires IsReconciliationRun(states, steps) && n < |states|
    requires forall i :: 0 <= i < |steps| ==> !steps[i].StartManual?
    requires forall i, other :: 0 <= i < |steps| && steps[i].Enqueue? && other in states[i] ==> other < steps[i].id
    ensures Serial(states[n])
    ensures OneRunning(states[n])
  {
    RunIsSerial(states, steps, n);
    SerialHasOneRunning(states[n]);
  }

  // ----- when at most one row is RUNNING -----

  /** A queued row is claimed only while nothing is RUNNING, a check that a manual start makes and a claim does not. */
  ghost predicate Waits(rows: Table, step: Step, account: string) {
    step.Claim? && step.id in rows && rows[step.id].status.Queued? ==> !HasRunning(rows, account)
  }

  lemma {:induction false} RunOneAccount(states: seq<Table>, steps: seq<Step>, account: string, n: nat)
    requires IsRun(states, steps) && n < |states|
    requires forall i :: 0 <= i < |steps| ==> ForAccount(steps[i], account)
    ensures OneAccount(states[n], account)
  {
    if n > 0 {
      RunOneAccount(states, steps, account, n - 1);
      assert Next(states[n - 1], steps[n - 1], states[n]) && ForAccount(steps[n - 1], account);
    }
  }

  lemma StepHasOneRunning(rows: Table, step: Step, after: Table, account: string)
    requires Next(rows, step, after) && ForAccount(step, account) && OneAccount(rows, account) && OneRunning(rows)
    ensures OneRunning(after) <==> Waits(rows, step, account)
  {
    if step.Claim? && rows[step.id].status.Queued? && HasRunning(rows, account) {
      var other :| other in rows && rows[other].status.Running? && rows[other].account == account;
      assert other in after && after[other].status.Running? && after[step.id].status.Running?;
    }
  }

  /** Over a run at most one row is RUNNING in every state if and only if no queued row was claimed beside one. */
  lemma {:induction false} OneRunningExactly(states: seq<Table>, steps: seq<Step>, account: string, n: nat)
    requires IsReconciliationRun(states, steps) && n < |states|
    requires forall i :: 0 <= i < |steps| ==> ForAccount(steps[i], account)
    ensures (forall i :: 0 <= i <= n ==> OneRunning(states[i])) <==>
              (forall i :: 0 <= i < n ==> Waits(states[i], steps[i], account))
  {
    hide OneRunning, Waits, OneAccount;
    if n == 0 {
      NoneRunning(states[0]);
    } else {
      OneRunningExactly(states, steps, account, n - 1);
      RunOneAccount(states, steps, account, n - 1);
      assert Next(states[n - 1], steps[n - 1], states[n]) && ForAccount(steps[n - 1], account);
      if OneRunning(states[n - 1]) {
        StepHasOneRunning(states[n - 1], steps[n - 1], states[n], account);
      }
    }
  }

  lemma NoneRunning(rows: Table)
    requires rows == map[]
    ensures OneRunning(rows)
  {
  }

  // ----- runs finish in id order -----

  ghost predicate Finishes(rows: Table, step: Step) {
    step.Update? && step.outcome.Some? && step.id in rows && Owned(rows[step.id], step.token, step.now)
  }

  lemma FinishesInIdOrder(states: seq<Table>, steps: seq<Step>, i: nat, j: nat)
    requires IsReconciliationRun(states, steps) && i < j < |steps|
    requires forall n :: 0 <= n < |steps| ==> Orderly(states[n], steps[n])
    requires Finishes(states[i], steps[i]) && Finishes(states[j], steps[j])
    ensures steps[i].id < steps[j].id
  {
    RunIsSerial(states, steps, |steps|);
    assert Next(states[i], steps[i], states[i + 1]);
    FinishedForever(states, steps, steps[i].id, i + 1, j);
    assert Serial(states[j]);
  }

  /** No run above the one that finishes has finished before. */
  ghost predicate FinishesLast(rows: Table, step: Step) {
    Finishes(rows, step) ==> forall other :: other in rows && rows[other].status.Finished? ==> other < step.id
  }

  ghost predicate FinishedInOrder(states: seq<Table>, steps: seq<Step>, n: nat)
    requires n <= |steps| <= |states|
  {
    forall i, j :: 0 <= i < j < n && Finishes(states[i], steps[i]) && Finishes(states[j], steps[j]) ==>
      steps[i].id < steps[j].id
  }

  /** A finished row was finished by one of the steps before. */
  lemma {:induction false} FinishedBy(states: seq<Table>, steps: seq<Step>, id: int, n: nat) returns (i: nat)
    requires IsRun(states, steps) && n < |states| && id in states[n] && states[n][id].status.Finished?
    ensures i < n && steps[i].Update? && steps[i].id == id && Finishes(states[i], steps[i])
  {
    assert n > 0;
    assert Next(states[n - 1], steps[n - 1], states[n]);
    if id in states[n - 1] && states[n - 1][id].status.Finished? {
      i := FinishedBy(states, steps, id, n - 1);
    } else {
      i := n - 1;
    }
  }

  /** Over any run the finishes are in id order if and only if none was made below a finished run. */
  lemma FinishedInOrderExactly(states: seq<Table>, steps: seq<Step>, n: nat)
    requires IsRun(states, steps) && n <= |steps|
    ensures FinishedInOrder(states, steps, n) <==> forall j :: 0 <= j < n ==> FinishesLast(states[j], steps[j])
  {
    if FinishedInOrder(states, steps, n) {
      forall j, other | 0 <= j < n && Finishes(states[j], steps[j]) && other in states[j]
                        && states[j][other].status.Finished?
        ensures other < steps[j].id
      {
        var i := FinishedBy(states, steps, other, j);
      }
    }
    if forall j :: 0 <= j < n ==> FinishesLast(states[j], steps[j]) {
      forall i, j | 0 <= i < j < n && Finishes(states[i], steps[i]) && Finishes(states[j], steps[j])
        ensures steps[i].id < steps[j].id
      {
        assert Next(states[i], steps[i], states[i + 1]) && FinishesLast(states[j], steps[j]);
        FinishedForever(states, steps, steps[i].id, i + 1, j);
      }
    }
  }

  // ----- a manual run that overtakes the queue -----

  const ACCOUNT := "simulation"

  /** A run is queued, a manual run starts above it, its lease expires, and the queued run is claimed. */
  const OVERTAKING: seq<Step> := [
    Enqueue(1, ACCOUNT),
    StartManual(2, ACCOUNT, Token("manual-reconcile", 0), 60),
    Claim(1, Token("worker", 61), 151)]

  lemma ManualRunCanOvertake() returns (states: seq<Table>)
    ensures IsReconciliationRun(states, OVERTAKING) && |states| == 4
    ensures 1 in states[3] && states[3][1].status.Running? && 2 in states[3] && states[3][2].status.Running?
    ensures !Orderly(states[1], OVERTAKING[1])
  {
    var s1: Table := map[1 := Row(ACCOUNT, Queued, None, None)];
    var s2: Table := s1[2 := Row(ACCOUNT, Running, Some(Token("manual-reconcile", 0)), Some(60))];
    var s3: Table := s2[1 := Claimed(s2[1], Token("worker", 61), 151)];
    states := [map[], s1, s2, s3];
    assert Next(states[0], OVERTAKING[0], states[1]);
    assert Next(states[1], OVERTAKING[1], states[2]);
    assert Next(states[2], OVERTAKING[2], states[3]);
    assert !AnyLive(s2, 61) && IsFirst(s2, 61, 1);
    assert !s1[1].status.Finished?;
  }

  /** The same start, but the manual run finishes inside its lease, and the queued run after it. */
  const PASSING: seq<Step> := [
    Enqueue(1, ACCOUNT),
    StartManual(2, ACCOUNT, Token("manual-reconcile", 0), 60),
    Update(2, Token("manual-reconcile", 0), 30, Some("SUCCEEDED")),
    Claim(1, Token("worker", 40), 130),
    Update(1, Token("worker", 40), 50, Some("SUCCEEDED"))]

  /** So an order that is not kept need not put two rows in RUNNING, but it can turn the finishes round. */
  lemma ManualRunCanFinishFirst() returns (states: seq<Table>)
    ensures IsReconciliationRun(states, PASSING) && |states| == 6 && !Orderly(states[1], PASSING[1])
    ensures forall i :: 0 <= i < 6 ==> OneRunning(states[i])
    ensures Finishes(states[2], PASSING[2]) && Finishes(states[4], PASSING[4]) && PASSING[4].id < PASSING[2].id
  {
    var manual, worker := Token("manual-reconcile", 0), Token("worker", 40);
    var s1: Table := map[1 := Row(ACCOUNT, Queued, None, None)];
    var s2: Table := s1[2 := Row(ACCOUNT, Running, Some(manual), Some(60))];
    var s3: Table := s2[2 := Row(ACCOUNT, Finished("SUCCEEDED"), Some(manual), Some(60))];
    var s4: Table := s3[1 := Claimed(s3[1], worker, 130)];
    var s5: Table := s4[1 := Row(ACCOUNT, Finished("SUCCEEDED"), Some(worker), Some(130))];
    states := [map[], s1, s2, s3, s4, s5];
    assert Next(states[0], PASSING[0], s1);
    assert Next(s1, PASSING[1], s2);
    assert Next(s2, PASSING[2], s3);
    assert Next(s3, PASSING[3], s4) && !AnyLive(s3, 40) && IsFirst(s3, 40, 1);
    assert Next(s4, PASSING[4], s5);
    assert !s1[1].status.Finished?;
  }

  // ----- what holds even then -----

  ghost predicate OneLive(rows: Table, clock: int) {
    forall a, b :: a in rows && b in rows && Live(rows[a], clock) && Live(rows[b], clock) ==> a == b
  }

  ghost predicate OneAccount(rows: Table, account: string) {
    forall id :: id in rows ==> rows[id].account == account
  }

  /** The step commits at `clock`; the clock reading it carries was taken earlier. */
  ghost predicate ReadBefore(step: Step, clock: int) {
    match step
    case Claim(_, token, _) => token.at <= clock
    case Update(_, _, now, _) => now <= clock
    case _ => true
  }

  ghost predicate ForAccount(step: Step, account: string) {
    match step
    case Enqueue(_, a) => a == account
    case StartManual(_, a, _, _) => a == account
    case _ => true
  }

  /**
   Even with manual runs, and with clock readings taken before the lock was acquired, at most one
   reconciliation of the account holds a live lease at any time.
   */
  lemma {:induction false} OneLiveLease(states: seq<Table>, steps: seq<Step>, clocks: seq<int>, account: string, n: nat)
    requires IsReconciliationRun(states, steps) && n < |states| == |clocks|
    requires forall i :: 0 <= i < |steps| ==> clocks[i] <= clocks[i + 1]
    requires forall i :: 0 <= i < |steps| ==> ReadBefore(steps[i], clocks[i + 1]) && ForAccount(steps[i], account)
    ensures OneAccount(states[n], account)
    ensures forall t :: t >= clocks[n] ==> OneLive(states[n], t)
  {
    if n > 0 {
      OneLiveLease(states, steps, clocks, account, n - 1);
      var rows, step := states[n - 1], steps[n - 1];
      assert Next(rows, step, states[n]) && Serialized(rows, step);
      assert ReadBefore(step, clocks[n]) && ForAccount(step, account);
      forall t | t >= clocks[n] ensures OneLive(states[n], t) {
        assert OneLive(rows, t);
      }
    }
  }
}
