/**
 How the row handlers are scheduled: the loop takes a semaphore slot for each row in turn and then
 starts its handler; a handler records its result under the mutex and gives its slot back at the
 end. Everything is proved over every interleaving.
 */
module RowSchedules {
  import opened Sorting
  import opened Totals

  /**
   `taken` counts the slots in the semaphore. `acquired`: the loop holds a slot for the next row.
   `leaving` counts handlers that have recorded but not yet given their slot back. `order` lists the
   rows in the order in which their handlers got the mutex.
   */
  datatype State = State(taken: nat, acquired: bool, started: nat, running: set<int>, leaving: nat, order: seq<int>)

  datatype Step = Acquire | Spawn | Record(row: int) | Release

  const START := State(0, false, 0, {}, 0, [])

  /** The capacity of the semaphore. */
  function Limit(concurrency: int, rows: nat): nat {
    if concurrency <= 0 then 1 else if concurrency > rows then rows else concurrency
  }

  predicate Enabled(s: State, step: Step, rows: nat, limit: nat) {
    match step
    case Acquire => !s.acquired && s.started < rows && s.taken < limit
    case Spawn => s.acquired
    case Record(row) => row in s.running
    case Release => s.leaving > 0 && s.taken > 0
  }

  function After(s: State, step: Step, rows: nat, limit: nat): State
    requires Enabled(s, step, rows, limit)
  {
    match step
    case Acquire => s.(taken := s.taken + 1, acquired := true)
    case Spawn => s.(acquired := false, running := s.running + {s.started}, started := s.started + 1)
    case Record(row) => s.(running := s.running - {row}, leaving := s.leaving + 1, order := s.order + [row])
    case Release => s.(leaving := s.leaving - 1, taken := s.taken - 1)
  }

  /** The loop is over and the wait group has reached zero. */
  predicate Complete(s: State, rows: nat) {
    s.started == rows && s.running == {} && s.leaving == 0
  }

  ghost predicate IsSchedule(states: seq<State>, steps: seq<Step>, rows: nat, limit: nat) {
    && |states| == |steps| + 1 && states[0] == START
    && forall i :: 0 <= i < |steps| ==>
       Enabled(states[i], steps[i], rows, limit) && states[i + 1] == After(states[i], steps[i], rows, limit)
  }

  ghost predicate IsPermutation(order: seq<int>, n: nat) {
    && |order| == n && NoRepeats(order)
    && (forall i :: 0 <= i < |order| ==> 0 <= order[i] < n)
    && (forall i :: 0 <= i < n ==> i in order)
  }

  /** Of the rows started, those in `running` are being handled and the others are recorded. */
  ghost predicate Scheduled(order: seq<int>, running: set<int>, started: nat) {
    && NoRepeats(order) && |order| + |running| == started
    && (forall i :: 0 <= i < |order| ==> 0 <= order[i] < started)
    && (forall i :: i in running ==> 0 <= i < started && i !in order)
    && (forall i :: 0 <= i < started && i !in running ==> i in order)
  }

  /** Every slot is held by a handler or by the loop. */
  ghost predicate SlotsHeld(s: State, limit: nat) {
    |s.running| + s.leaving + (if s.acquired then 1 else 0) == s.taken <= limit
  }

  ghost predicate Inv(s: State, rows: nat, limit: nat) {
    && Scheduled(s.order, s.running, s.started) && SlotsHeld(s, limit)
    && s.started <= rows && (s.acquired ==> s.started < rows)
  }

  lemma StartInv(rows: nat, limit: nat)
    ensures Inv(START, rows, limit)
  {
  }

  lemma StepKeepsInv(s: State, step: Step, rows: nat, limit: nat)
    requires Inv(s, rows, limit) && Enabled(s, step, rows, limit)
    ensures Inv(After(s, step, rows, limit), rows, limit)
  {
    match step {
      case Spawn => StartOne(s.order, s.running, s.started);
      case Record(row) => RecordOne(s.order, s.running, s.started, row);
      case Acquire =>
      case Release =>
    }
  }

  lemma StartOne(order: seq<int>, running: set<int>, started: nat)
    requires Scheduled(order, running, started)
    ensures Scheduled(order, running + {started}, started + 1) && |running + {started}| == |running| + 1
  {
  }

  lemma RecordOne(order: seq<int>, running: set<int>, started: nat, row: int)
    requires Scheduled(order, running, started) && row in running
    ensures Scheduled(order + [row], running - {row}, started) && |running - {row}| == |running| - 1
  {
  }

  lemma {:induction false} ScheduleInv(states: seq<State>, steps: seq<Step>, rows: nat, limit: nat, n: nat)
    requires IsSchedule(states, steps, rows, limit) && n < |states|
    ensures Inv(states[n], rows, limit)
  {
    hide Inv, Enabled, After;
    if n == 0 {
      StartInv(rows, limit);
    } else {
      ScheduleInv(states, steps, rows, limit, n - 1);
      StepKeepsInv(states[n - 1], steps[n - 1], rows, limit);
    }
  }

  /** In every reachable state no more handlers are under way than the semaphore has slots. */
  lemma ConcurrencyBounded(states: seq<State>, steps: seq<Step>, rows: nat, concurrency: int, n: nat)
    requires IsSchedule(states, steps, rows, Limit(concurrency, rows)) && n < |states|
    ensures |states[n].running| + states[n].leaving <= if concurrency <= 0 then 1 else concurrency
  {
    ScheduleInv(states, steps, rows, Limit(concurrency, rows), n);
  }

  /** A complete schedule has handled every row exactly once. */
  lemma CompleteSchedulePermutes(states: seq<State>, steps: seq<Step>, rows: nat, limit: nat)
    requires IsSchedule(states, steps, rows, limit) && Complete(states[|steps|], rows)
    ensures IsPermutation(states[|steps|].order, rows)
  {
    ScheduleInv(states, steps, rows, limit, |steps|);
  }

  /** Each row still needs its slot, its handler, its record and its release. */
  function StepsLeft(s: State, rows: nat): int {
    4 * (rows - s.started) + 2 * |s.running| + s.leaving - if s.acquired then 1 else 0
  }

  lemma StepsRunOut(s: State, step: Step, rows: nat, limit: nat)
    requires Inv(s, rows, limit) && Enabled(s, step, rows, limit)
    ensures 0 <= StepsLeft(After(s, step, rows, limit), rows) == StepsLeft(s, rows) - 1
  {
    StepKeepsInv(s, step, rows, limit);
    match step {
      case Spawn => StartOne(s.order, s.running, s.started);
      case Record(row) => RecordOne(s.order, s.running, s.started, row);
      case Acquire =>
      case Release =>
    }
  }

  /** Every schedule ends: none has more than four steps for each row. */
  lemma {:induction false} SchedulesEnd(states: seq<State>, steps: seq<Step>, rows: nat, limit: nat, n: nat)
    requires IsSchedule(states, steps, rows, limit) && n < |states|
    ensures 0 <= StepsLeft(states[n], rows) == 4 * rows - n
  {
    if n > 0 {
      SchedulesEnd(states, steps, rows, limit, n - 1);
      ScheduleInv(states, steps, rows, limit, n - 1);
      StepsRunOut(states[n - 1], steps[n - 1], rows, limit);
    }
  }

  /** A schedule that is not complete can go on. */
  lemma NeverStuck(s: State, rows: nat, limit: nat)
    requires Inv(s, rows, limit) && limit > 0 && !Complete(s, rows)
    ensures exists step :: Enabled(s, step, rows, limit)
  {
    if s.acquired {
      assert Enabled(s, Spawn, rows, limit);
    } else if s.running != {} {
      var row := Member(s.running);
      assert Enabled(s, Record(row), rows, limit);
    } else if s.leaving > 0 {
      assert Enabled(s, Release, rows, limit);
    } else {
      assert Enabled(s, Acquire, rows, limit);
    }
  }
}
