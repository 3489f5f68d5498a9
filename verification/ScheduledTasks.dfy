/**
 The scheduled-task journal with any number of schedulers and workers. Claims carry no token:
 a worker that was presumed dead may still write its result. What protects the OpenList batch
 is the unique task key, the attempt counter and the check before the handler is called.
 Times are milliseconds; a time zone is its offset.
 */
module ScheduledTasks {
  import opened Outcomes
  import opened Totals

  const MINUTE := 60_000
  const HOUR := 3_600_000
  const DAY := 86_400_000

  datatype TaskType = OpenList | OtherTask(number: int)

  datatype TaskKey = DateKey(day: int) | OtherKey(text: string)

  datatype Status = Queued | Running | Succeeded | Failed | Skipped

  datatype Row = Row(taskType: TaskType, key: TaskKey, status: Status, scheduledAt: int, attempts: nat,
      startedAt: Option<int>)

  type Table = map<int, Row>

  /** `enabled` is the conjunction of the three switches the check reads. */
  datatype Schedule = Schedule(enabled: bool, zone: int, hour: nat, minute: nat)

  // ----- the daily window -----

  function DayOf(now: int, zone: int): int {
    (now + zone) / DAY
  }

  function DailyScheduledAt(now: int, s: Schedule): int {
    DayOf(now, s.zone) * DAY + s.hour * HOUR + s.minute * MINUTE - s.zone
  }

  predicate WithinScheduledMinute(now: int, scheduledAt: int) {
    scheduledAt <= now < scheduledAt + MINUTE
  }

  /** The schedule's time of day exists. */
  predicate ClockTime(s: Schedule) {
    s.hour < 24 && s.minute < 60
  }

  /** Milliseconds of the local day from the scheduled minute to `now`. */
  function SinceStart(now: int, s: Schedule): int {
    (now + s.zone) % 86_400_000 - (s.hour * 3_600_000 + s.minute * 60_000)
  }

  /** The scheduled instant shows hour and minute on the local clock, on the local date of `now`. */
  lemma LocalClock(now: int, s: Schedule)
    requires ClockTime(s)
    ensures var at := DailyScheduledAt(now, s);
            && (at + s.zone) % 86_400_000 == s.hour * 3_600_000 + s.minute * 60_000
            && (at + s.zone) / 86_400_000 == (now + s.zone) / 86_400_000
  {
    var day, time := (now + s.zone) / 86_400_000, s.hour * 3_600_000 + s.minute * 60_000;
    assert DailyScheduledAt(now, s) + s.zone == day * 86_400_000 + time;
    DayAndTime(day, time);
  }

  lemma DayAndTime(day: int, time: int)
    requires 0 <= time < 86_400_000
    ensures (day * 86_400_000 + time) / 86_400_000 == day && (day * 86_400_000 + time) % 86_400_000 == time
  {
  }

  /** The start minute is the one in which the local clock shows the scheduled time. */
  lemma LocalMinute(now: int, s: Schedule)
    requires ClockTime(s)
    ensures WithinScheduledMinute(now, DailyScheduledAt(now, s)) <==> 0 <= SinceStart(now, s) < 60_000
    ensures DayOf(DailyScheduledAt(now, s), s.zone) == (now + s.zone) / 86_400_000
    ensures DailyScheduledAt(now, s) == now - SinceStart(now, s)
  {
    LocalClock(now, s);
    var at := DailyScheduledAt(now, s);
    assert now + s.zone == (now + s.zone) / 86_400_000 * 86_400_000 + (now + s.zone) % 86_400_000;
    assert at + s.zone == (at + s.zone) / 86_400_000 * 86_400_000 + (at + s.zone) % 86_400_000;
  }

  datatype SkipReason = Disabled | ObsoleteSchedule | MissedStartWindow | AttemptAlreadyStarted

  function OpenListSkipReason(run: Row, s: Schedule, now: int): Option<SkipReason> {
    var scheduledAt := DailyScheduledAt(now, s);
    if !s.enabled then Some(Disabled)
    else if run.key != DateKey(DayOf(scheduledAt, s.zone)) || run.scheduledAt != scheduledAt then Some(ObsoleteSchedule)
    else if !WithinScheduledMinute(now, scheduledAt) then Some(MissedStartWindow)
    else if run.attempts > 1 then Some(AttemptAlreadyStarted)
    else None
  }

  // ----- statements on the table -----

  predicate Terminal(status: Status) {
    status.Succeeded? || status.Failed? || status.Skipped?
  }

  predicate HasKey(rows: Table, taskType: TaskType, key: TaskKey) {
    exists id :: id in rows && rows[id].taskType == taskType && rows[id].key == key
  }

  predicate Stale(row: Row, staleBefore: int) {
    row.status.Running? && row.startedAt.Some? && row.startedAt.value < staleBefore
  }

  predicate Claimable(row: Row, now: int, staleBefore: int) {
    row.scheduledAt <= now && (row.status.Queued? || Stale(row, staleBefore))
  }

  /** The compare-and-set of a claim: whoever wins gets the next attempt number. */
  function Claimed(row: Row, now: int): Row {
    row.(status := Running, attempts := row.attempts + 1, startedAt := Some(now))
  }

  // ----- the system -----

  /** A worker works from the copy of the row its claim returned. */
  datatype Phase = Checking | Handling | Ending(status: Status) | Done

  datatype Execution = Execution(id: int, run: Row, phase: Phase)

  /** One call of the OpenList handler. */
  datatype Invocation = Invocation(id: int, key: TaskKey, scheduledAt: int, at: int, schedule: Schedule)

  datatype State = State(rows: Table, executions: map<int, Execution>, invocations: seq<Invocation>)

  datatype Step =
    | Enqueue(id: int, taskType: TaskType, key: TaskKey, scheduledAt: int)
    | Claim(worker: int, id: int, now: int, timeout: nat)
    | Check(worker: int, schedule: Option<Schedule>, now: int)
    | HandlerReturns(worker: int, succeeded: bool)
    | Write(worker: int)
    | Crash(worker: int)

  /** The outcome of the check in front of the handler: a missing configuration fails it. */
  function Checked(e: Execution, schedule: Option<Schedule>, now: int): Phase {
    if !e.run.taskType.OpenList? then Handling
    else if schedule.None? then Ending(Failed)
    else if OpenListSkipReason(e.run, schedule.value, now).Some? then Ending(Skipped)
    else Handling
  }

  /**
   The handler of an OpenList task is called if and only if the schedule is there and enabled, the
   local clock shows its minute, the task was made for that date and instant, and this is its first attempt.
   */
  lemma CalledExactly(e: Execution, schedule: Option<Schedule>, now: int)
    requires e.run.taskType == OpenList && (schedule.Some? ==> ClockTime(schedule.value))
    ensures Checked(e, schedule, now) == Handling <==>
              && schedule.Some?
              && var s := schedule.value;
                 && s.enabled && 0 <= SinceStart(now, s) < 60_000
                 && e.run.key == DateKey((now + s.zone) / 86_400_000) && e.run.scheduledAt == now - SinceStart(now, s)
                 && e.run.attempts <= 1
    ensures Checked(e, schedule, now) in {Handling, Ending(Failed), Ending(Skipped)}
    ensures Checked(e, schedule, now) == Ending(Failed) <==> schedule == None
  {
    if schedule.Some? {
      LocalMinute(now, schedule.value);
    }
  }

  /** `worker` numbers executions: every claim starts a new one. */
  ghost predicate Next(s: State, step: Step, after: State) {
    match step
    case Enqueue(id, taskType, key, scheduledAt) =>
      if HasKey(s.rows, taskType, key) then after == s
      else id !in s.rows && after == s.(rows := s.rows[id := Row(taskType, key, Queued, scheduledAt, 0, None)])
    case Claim(worker, id, now, timeout) =>
      && worker !in s.executions && id in s.rows && Claimable(s.rows[id], now, now - timeout)
      && after == s.(rows := s.rows[id := Claimed(s.rows[id], now)],
                     executions := s.executions[worker := Execution(id, Claimed(s.rows[id], now), Checking)])
    case Check(worker, schedule, now) =>
      && worker in s.executions && s.executions[worker].phase.Checking?
      && var e := s.executions[worker];
         var phase := Checked(e, schedule, now);
         var called := if phase.Handling? && e.run.taskType.OpenList?
                       then [Invocation(e.id, e.run.key, e.run.scheduledAt, now, schedule.value)]
                       else [];
         after == s.(executions := s.executions[worker := e.(phase := phase)], invocations := s.invocations + called)
    case HandlerReturns(worker, succeeded) =>
      && worker in s.executions && s.executions[worker].phase.Handling?
      && var outcome := if succeeded then Succeeded else Failed;
         after == s.(executions := s.executions[worker := s.executions[worker].(phase := Ending(outcome))])
    case Write(worker) =>
      && worker in s.executions && s.executions[worker].phase.Ending?
      && var e := s.executions[worker];
         e.id in s.rows
         && after == s.(rows := s.rows[e.id := s.rows[e.id].(status := e.phase.status)],
                        executions := s.executions[worker := e.(phase := Done)])
    case Crash(worker) =>
      worker in s.executions && after == s.(executions := s.executions[worker := s.executions[worker].(phase := Done)])
  }

  ghost predicate IsRun(states: seq<State>, steps: seq<Step>) {
    && |states| == |steps| + 1
    && states[0] == State(map[], map[], [])
    && forall i :: 0 <= i < |steps| ==> Next(states[i], steps[i], states[i + 1])
  }

  // ----- the invariant -----

  ghost predicate KeysUnique(rows: Table) {
    forall a, b :: a in rows && b in rows && rows[a].taskType == rows[b].taskType && rows[a].key == rows[b].key ==>
        a == b
  }

  /** An execution's copy agrees with its row, which may have been claimed more often since. */
  ghost predicate CopyOf(e: Execution, rows: Table) {
    && e.id in rows && e.run.key == rows[e.id].key && e.run.taskType == rows[e.id].taskType
    && e.run.scheduledAt == rows[e.id].scheduledAt
    && 1 <= e.run.attempts <= rows[e.id].attempts
    && (e.phase.Ending? ==> Terminal(e.phase.status))
  }

  ghost predicate Copies(s: State) {
    forall w :: w in s.executions ==> CopyOf(s.executions[w], s.rows)
  }

  /** No two executions of a row hold the same attempt number. */
  ghost predicate AttemptsDistinct(s: State) {
    forall v, w :: v in s.executions && w in s.executions && v != w && s.executions[v].id == s.executions[w].id ==>
      s.executions[v].run.attempts != s.executions[w].run.attempts
  }

  ghost predicate Attempts(s: State) {
    Copies(s) && AttemptsDistinct(s)
  }

  ghost predicate InvokedRow(v: Invocation, rows: Table) {
    && v.id in rows && rows[v.id].taskType.OpenList? && rows[v.id].key == v.key
    && rows[v.id].scheduledAt == v.scheduledAt && rows[v.id].attempts >= 1
  }

  ghost predicate InvokedRows(s: State) {
    forall i :: 0 <= i < |s.invocations| ==> InvokedRow(s.invocations[i], s.rows)
  }

  /** The first attempt at an invoked row has left the check for good. */
  ghost predicate FirstAttemptsSpent(s: State) {
    forall i, w :: 0 <= i < |s.invocations| && w in s.executions && s.executions[w].phase.Checking? ==>
      s.executions[w].id != s.invocations[i].id || s.executions[w].run.attempts > 1
  }

  ghost predicate InvokedOnce(s: State) {
    forall i, j :: 0 <= i < j < |s.invocations| ==> s.invocations[i].id != s.invocations[j].id
  }

  /** Where and when the handler was called. */
  ghost predicate InWindow(v: Invocation) {
    && WithinScheduledMinute(v.at, v.scheduledAt)
    && v.scheduledAt == DailyScheduledAt(v.at, v.schedule)
    && v.key == DateKey(DayOf(v.scheduledAt, v.schedule.zone))
  }

  ghost predicate Inv(s: State) {
    && KeysUnique(s.rows) && Attempts(s) && InvokedRows(s) && FirstAttemptsSpent(s) && InvokedOnce(s)
    && forall i :: 0 <= i < |s.invocations| ==> InWindow(s.invocations[i])
  }

  lemma StepKeepsKeys(s: State, step: Step, after: State)
    requires KeysUnique(s.rows) && Next(s, step, after)
    ensures KeysUnique(after.rows)
  {
  }

  lemma StepKeepsCopies(s: State, step: Step, after: State)
    requires Copies(s) && Next(s, step, after)
    ensures Copies(after)
  {
    forall w | w in after.executions ensures CopyOf(after.executions[w], after.rows) {
      if w in s.executions {
        assert CopyOf(s.executions[w], s.rows);
      }
    }
  }

  lemma StepKeepsAttempts(s: State, step: Step, after: State)
    requires Attempts(s) && Next(s, step, after)
    ensures Attempts(after)
  {
    StepKeepsCopies(s, step, after);
    if step.Claim? {
      forall w | w in s.executions && s.executions[w].id == step.id
        ensures s.executions[w].run.attempts < after.executions[step.worker].run.attempts
      {
        assert CopyOf(s.executions[w], s.rows);
      }
    }
  }

  /** Only the check calls the handler, and only for a first attempt. */
  lemma NewInvocation(s: State, step: Step, after: State)
    requires Attempts(s) && Next(s, step, after)
    ensures after.invocations == s.invocations ||
            (step.Check? && step.worker in s.executions && s.executions[step.worker].phase.Checking?
             && after.executions == s.executions[step.worker := s.executions[step.worker].(phase := Handling)]
             && after.rows == s.rows && s.executions[step.worker].run.attempts == 1
             && |after.invocations| == |s.invocations| + 1 && after.invocations[..|s.invocations|] == s.invocations
             && InvokedRow(after.invocations[|s.invocations|], s.rows)
             && after.invocations[|s.invocations|].id == s.executions[step.worker].id)
  {
  }

  lemma StepKeepsInvokedRows(s: State, step: Step, after: State)
    requires Attempts(s) && InvokedRows(s) && Next(s, step, after)
    ensures InvokedRows(after)
  {
    NewInvocation(s, step, after);
    forall i | 0 <= i < |after.invocations| ensures InvokedRow(after.invocations[i], after.rows) {
      if i < |s.invocations| {
        assert after.invocations[i] == after.invocations[..|s.invocations|][i];
        assert InvokedRow(s.invocations[i], s.rows);
      }
    }
  }

  lemma StepKeepsSpent(s: State, step: Step, after: State)
    requires Attempts(s) && InvokedRows(s) && FirstAttemptsSpent(s) && Next(s, step, after)
    ensures FirstAttemptsSpent(after)
  {
    NewInvocation(s, step, after);
    forall i, w | 0 <= i < |after.invocations| && w in after.executions && after.executions[w].phase.Checking?
      ensures after.executions[w].id != after.invocations[i].id || after.executions[w].run.attempts > 1
    {
      if i < |s.invocations| {
        assert after.invocations[i] == after.invocations[..|s.invocations|][i];
        assert InvokedRow(s.invocations[i], s.rows);
      }
    }
  }

  lemma StepKeepsInvokedOnce(s: State, step: Step, after: State)
    requires Attempts(s) && FirstAttemptsSpent(s) && InvokedOnce(s) && Next(s, step, after)
    ensures InvokedOnce(after)
  {
    NewInvocation(s, step, after);
    assert forall i :: 0 <= i < |s.invocations| ==> after.invocations[i] == after.invocations[..|s.invocations|][i];
  }

  lemma StepKeepsWindow(s: State, step: Step, after: State)
    requires Next(s, step, after) && forall i :: 0 <= i < |s.invocations| ==> InWindow(s.invocations[i])
    ensures forall i :: 0 <= i < |after.invocations| ==> InWindow(after.invocations[i])
  {
  }

  lemma {:induction false} RunInv(states: seq<State>, steps: seq<Step>, n: nat)
    requires IsRun(states, steps) && n < |states|
    ensures Inv(states[n])
  {
    hide KeysUnique, Attempts, InvokedRows, FirstAttemptsSpent, InvokedOnce, InWindow, Next;
    if n > 0 {
      RunInv(states, steps, n - 1);
      StepKeepsKeys(states[n - 1], steps[n - 1], states[n]);
      StepKeepsAttempts(states[n - 1], steps[n - 1], states[n]);
      StepKeepsInvokedRows(states[n - 1], steps[n - 1], states[n]);
      StepKeepsSpent(states[n - 1], steps[n - 1], states[n]);
      StepKeepsInvokedOnce(states[n - 1], steps[n - 1], states[n]);
      StepKeepsWindow(states[n - 1], steps[n - 1], states[n]);
    } else {
      InitialInv();
    }
  }

  lemma InitialInv()
    ensures Inv(State(map[], map[], []))
  {
  }

  /**
   Over every run, with crashes, reclaims and schedule changes, the OpenList handler is called at
   most once for a date, and only in the minute that starts at its scheduled time on that date.
   */
  lemma AtMostOncePerDate(states: seq<State>, steps: seq<Step>, n: nat)
    requires IsRun(states, steps) && n < |states|
    ensures var calls := states[n].invocations;
            && (forall i, j :: 0 <= i < j < |calls| ==> calls[i].key != calls[j].key)
            && (forall i :: 0 <= i < |calls| ==> InWindow(calls[i]) && calls[i].key.DateKey?)
            && (forall i :: 0 <= i < |calls| && ClockTime(calls[i].schedule) ==>
                  && calls[i].key == DateKey((calls[i].at + calls[i].schedule.zone) / 86_400_000)
                  && 0 <= SinceStart(calls[i].at, calls[i].schedule) < 60_000)
  {
    RunInv(states, steps, n);
    var s := states[n];
    forall i, j | 0 <= i < j < |s.invocations|
      ensures s.invocations[i].key != s.invocations[j].key
    {
      assert s.invocations[i].id != s.invocations[j].id;
      assert InvokedRow(s.invocations[i], s.rows) && InvokedRow(s.invocations[j], s.rows);
    }
    assert forall i :: 0 <= i < |s.invocations| ==> InWindow(s.invocations[i]);
    forall i | 0 <= i < |s.invocations| && ClockTime(s.invocations[i].schedule)
      ensures s.invocations[i].key == DateKey((s.invocations[i].at + s.invocations[i].schedule.zone) / 86_400_000)
      ensures 0 <= SinceStart(s.invocations[i].at, s.invocations[i].schedule) < 60_000
    {
      LocalMinute(s.invocations[i].at, s.invocations[i].schedule);
    }
  }

  // ----- terminal rows -----

  /** A terminal row is never queued or claimed again. */
  lemma {:induction false} TerminalNeverClaimed(states: seq<State>, steps: seq<Step>, id: int, m: nat, n: nat)
    requires IsRun(states, steps) && m <= n < |states|
    requires id in states[m].rows && Terminal(states[m].rows[id].status)
    ensures id in states[n].rows && Terminal(states[n].rows[id].status)
    ensures states[n].rows[id].attempts == states[m].rows[id].attempts
    ensures forall k :: m <= k < n && steps[k].Claim? ==> steps[k].id != id
  {
    if m < n {
      TerminalNeverClaimed(states, steps, id, m, n - 1);
      RunInv(states, steps, n - 1);
      assert Next(states[n - 1], steps[n - 1], states[n]);
    }
  }

  /** A claimed row is never QUEUED again. */
  lemma {:induction false} NeverQueuedAgain(states: seq<State>, steps: seq<Step>, id: int, m: nat, n: nat)
    requires IsRun(states, steps) && m <= n < |states|
    requires id in states[m].rows && !states[m].rows[id].status.Queued?
    ensures id in states[n].rows && !states[n].rows[id].status.Queued?
  {
    if m < n {
      NeverQueuedAgain(states, steps, id, m, n - 1);
      RunInv(states, steps, n - 1);
      assert Next(states[n - 1], steps[n - 1], states[n]);
    }
  }

  /**
   Terminal rows are not absorbing: when a reclaimed row has two finishing workers, both writes go
   through and the later one decides, even over the outcome of the worker that holds the claim.
   */
  lemma LastWriterDecides(s: State, first: int, second: int) returns (mid: State, after: State)
    requires Copies(s) && first != second && first in s.executions && second in s.executions
    requires s.executions[first].id == s.executions[second].id
    requires s.executions[first].phase.Ending? && s.executions[second].phase.Ending?
    ensures Next(s, Write(first), mid) && Next(mid, Write(second), after)
    ensures var id := s.executions[first].id;
            && id in mid.rows && mid.rows[id].status == s.executions[first].phase.status
               && Terminal(mid.rows[id].status)
            && id in after.rows && after.rows[id].status == s.executions[second].phase.status
  {
    var e, f := s.executions[first], s.executions[second];
    assert CopyOf(e, s.rows) && CopyOf(f, s.rows);
    mid := s.(rows := s.rows[e.id := s.rows[e.id].(status := e.phase.status)],
        executions := s.executions[first := e.(phase := Done)]);
    after := mid.(rows := mid.rows[f.id := mid.rows[f.id].(status := f.phase.status)],
        executions := mid.executions[second := f.(phase := Done)]);
  }

  // ----- when a terminal status stays -----

  /** A continuation of the system from a state it has reached. */
  ghost predicate Continues(states: seq<State>, steps: seq<Step>, s: State) {
    && |states| == |steps| + 1 && states[0] == s
    && forall i :: 0 <= i < |steps| ==> Next(states[i], steps[i], states[i + 1])
  }

  ghost predicate StatusIs(s: State, id: int, status: Status) {
    id in s.rows && s.rows[id].status == status
  }

  /** Some continuation writes another status over the row. */
  ghost predicate CanChange(s: State, id: int, status: Status) {
    exists states, steps :: Continues(states, steps, s) && !StatusIs(states[|steps|], id, status)
  }

  /** Every execution of the row is over, or about to write the status it already has. */
  ghost predicate Settled(s: State, id: int, status: Status) {
    forall w :: w in s.executions && s.executions[w].id == id ==> s.executions[w].phase in {Done, Ending(status)}
  }

  lemma StepStaysSettled(s: State, step: Step, after: State, id: int, status: Status)
    requires Copies(s) && Next(s, step, after)
    requires Terminal(status) && StatusIs(s, id, status) && Settled(s, id, status)
    ensures StatusIs(after, id, status) && Settled(after, id, status)
  {
  }

  lemma {:induction false} SettledStays(states: seq<State>, steps: seq<Step>, s: State, id: int, status: Status, n: nat)
    requires Continues(states, steps, s) && n <= |steps| && Copies(s)
    requires Terminal(status) && StatusIs(s, id, status) && Settled(s, id, status)
    ensures StatusIs(states[n], id, status) && Settled(states[n], id, status) && Copies(states[n])
  {
    if n > 0 {
      SettledStays(states, steps, s, id, status, n - 1);
      hide Next, Copies, Settled, StatusIs;
      StepKeepsCopies(states[n - 1], steps[n - 1], states[n]);
      StepStaysSettled(states[n - 1], steps[n - 1], states[n], id, status);
    }
  }

  lemma WriteChanges(s: State, w: int, id: int, status: Status) returns (after: State)
    requires Copies(s) && w in s.executions && s.executions[w].id == id
    requires s.executions[w].phase.Ending? && s.executions[w].phase.status != status
    ensures Next(s, Write(w), after) && !StatusIs(after, id, status)
  {
    var e := s.executions[w];
    assert CopyOf(e, s.rows);
    after := s.(rows := s.rows[e.id := s.rows[e.id].(status := e.phase.status)],
        executions := s.executions[w := e.(phase := Done)]);
  }

  lemma ReturnThenWrite(s: State, w: int, id: int, status: Status) returns (mid: State, step: Step, after: State)
    requires Copies(s) && w in s.executions && s.executions[w].id == id && s.executions[w].phase.Handling?
    ensures Next(s, step, mid) && Next(mid, Write(w), after) && !StatusIs(after, id, status)
  {
    var succeeded := status != Succeeded;
    step := HandlerReturns(w, succeeded);
    var outcome := if succeeded then Succeeded else Failed;
    mid := s.(executions := s.executions[w := s.executions[w].(phase := Ending(outcome))]);
    assert Copies(mid) by { StepKeepsCopies(s, step, mid); }
    after := WriteChanges(mid, w, id, status);
  }

  /** The check can always end in another status: the configuration may be missing or the schedule switched off. */
  lemma CheckThenWrite(s: State, w: int, id: int, status: Status)
    requires Copies(s) && w in s.executions && s.executions[w].id == id && s.executions[w].phase.Checking?
    ensures CanChange(s, id, status)
  {
    var e := s.executions[w];
    var schedule := if status == Failed then Some(Schedule(false, 0, 0, 0)) else None;
    var step, phase := Check(w, schedule, 0), Checked(e, schedule, 0);
    var mid := s.(executions := s.executions[w := e.(phase := phase)]);
    assert Next(s, step, mid);
    assert Copies(mid) by { StepKeepsCopies(s, step, mid); }
    if e.run.taskType.OpenList? {
      var after := WriteChanges(mid, w, id, status);
      assert Continues([s, mid, after], [step, Write(w)], s);
    } else {
      var returned, next, after := ReturnThenWrite(mid, w, id, status);
      assert Continues([s, mid, returned, after], [step, next, Write(w)], s);
    }
  }

  lemma UnsettledCanChange(s: State, w: int, id: int, status: Status)
    requires Copies(s) && w in s.executions && s.executions[w].id == id
    requires s.executions[w].phase !in {Done, Ending(status)}
    ensures CanChange(s, id, status)
  {
    match s.executions[w].phase {
      case Checking => CheckThenWrite(s, w, id, status);
      case Handling =>
        var mid, step, after := ReturnThenWrite(s, w, id, status);
        assert Continues([s, mid, after], [step, Write(w)], s);
      case Ending(_) =>
        var after := WriteChanges(s, w, id, status);
        assert Continues([s, after], [Write(w)], s);
      case Done =>
    }
  }

  /** A terminal status stays over every continuation exactly if no execution of the row can still write another one. */
  lemma TerminalStaysExactly(states: seq<State>, steps: seq<Step>, n: nat, id: int, status: Status)
    requires IsRun(states, steps) && n < |states|
    requires Terminal(status) && StatusIs(states[n], id, status)
    ensures !CanChange(states[n], id, status) <==> Settled(states[n], id, status)
  {
    RunInv(states, steps, n);
    var s := states[n];
    if Settled(s, id, status) {
      forall next, more | Continues(next, more, s) ensures StatusIs(next[|more|], id, status) {
        SettledStays(next, more, s, id, status, |more|);
      }
    } else {
      var w :| w in s.executions && s.executions[w].id == id && s.executions[w].phase !in {Done, Ending(status)};
      UnsettledCanChange(s, w, id, status);
    }
  }

  /**
   Two workers on one task: the second claims it when the first is overdue, succeeds, and is
   overwritten by the first.
   */
  const OVERWRITING: seq<Step> := [
    Enqueue(1, OtherTask(7), OtherKey("sync"), 0),
    Claim(10, 1, 0, 5),
    Check(10, None, 0),
    Claim(20, 1, 6, 5),
    Check(20, None, 6),
    HandlerReturns(20, true),
    Write(20),
    HandlerReturns(10, false),
    Write(10)]

  /** The one task with its row, and the executions of worker 10 and then worker 20. */
  function OneTask(status: Status, startedAt: int, attempts: nat, first: Phase, second: Option<Phase>): State {
    var queued := Row(OtherTask(7), OtherKey("sync"), Queued, 0, 0, None);
    var early := map[10 := Execution(1, Claimed(queued, 0), first)];
    State(map[1 := Row(OtherTask(7), OtherKey("sync"), status, 0, attempts, Some(startedAt))],
          if second.None? then early else early[20 := Execution(1, Claimed(Claimed(queued, 0), 6), second.value)], [])
  }

  lemma OverwritingBegins() returns (states: seq<State>)
    ensures |states| == 4 && states[0] == State(map[], map[], []) && states[3] == OneTask(Running, 0, 1, Handling, None)
    ensures Next(states[0], Enqueue(1, OtherTask(7), OtherKey("sync"), 0), states[1])
    ensures Next(states[1], Claim(10, 1, 0, 5), states[2]) && Next(states[2], Check(10, None, 0), states[3])
  {
    var s0 := State(map[], map[], []);
    var s1 := s0.(rows := map[1 := Row(OtherTask(7), OtherKey("sync"), Queued, 0, 0, None)]);
    var s2, s3 := OneTask(Running, 0, 1, Checking, None), OneTask(Running, 0, 1, Handling, None);
    states := [s0, s1, s2, s3];
  }

  lemma OverwritingGoesOn() returns (states: seq<State>)
    ensures |states| == 4 && states[0] == OneTask(Running, 0, 1, Handling, None)
    ensures states[3] == OneTask(Running, 6, 2, Handling, Some(Ending(Succeeded)))
    ensures Next(states[0], Claim(20, 1, 6, 5), states[1]) && Next(states[1], Check(20, None, 6), states[2])
    ensures Next(states[2], HandlerReturns(20, true), states[3])
  {
    var s3, s4 := OneTask(Running, 0, 1, Handling, None), OneTask(Running, 6, 2, Handling, Some(Checking));
    var s5, s6 := OneTask(Running, 6, 2, Handling, Some(Handling)),
        OneTask(Running, 6, 2, Handling, Some(Ending(Succeeded)));
    states := [s3, s4, s5, s6];
  }

  lemma OverwritingEnds() returns (states: seq<State>)
    ensures |states| == 4 && states[0] == OneTask(Running, 6, 2, Handling, Some(Ending(Succeeded)))
    ensures StatusIs(states[1], 1, Succeeded) && StatusIs(states[3], 1, Failed)
    ensures Next(states[0], Write(20), states[1]) && Next(states[1], HandlerReturns(10, false), states[2])
    ensures Next(states[2], Write(10), states[3])
  {
    var s6, s7 := OneTask(Running, 6, 2, Handling, Some(Ending(Succeeded))),
        OneTask(Succeeded, 6, 2, Handling, Some(Done));
    var s8, s9 := OneTask(Succeeded, 6, 2, Ending(Failed), Some(Done)), OneTask(Failed, 6, 2, Done, Some(Done));
    states := [s6, s7, s8, s9];
  }

  /** So a run from the empty journal overwrites SUCCEEDED with FAILED. */
  lemma StaleWorkerOverwrites() returns (states: seq<State>)
    ensures IsRun(states, OVERWRITING)
    ensures StatusIs(states[7], 1, Succeeded) && StatusIs(states[9], 1, Failed)
  {
    hide Next, StatusIs, OneTask;
    var begin := OverwritingBegins();
    var middle := OverwritingGoesOn();
    var end := OverwritingEnds();
    states := [begin[0], begin[1], begin[2], begin[3], middle[1], middle[2], middle[3], end[1], end[2], end[3]];
  }

  // ----- the journal as an object -----

  predicate Due(row: Row, now: int, timeout: nat, types: set<TaskType>) {
    (types == {} || row.taskType in types) && Claimable(row, now, now - timeout)
  }

  /** Nobody may claim the task: another type is asked for, it lies ahead, is terminal, or was started in time. */
  predicate NotDue(row: Row, now: int, timeout: nat, types: set<TaskType>) {
    || (types != {} && row.taskType !in types)
    || row.scheduledAt > now || Terminal(row.status)
    || (row.status == Running && (row.startedAt.None? || row.startedAt.value + timeout >= now))
  }

  lemma DueExactly(rows: Table, now: int, timeout: nat, types: set<TaskType>)
    ensures forall id :: id in rows ==> (Due(rows[id], now, timeout, types) <==> !NotDue(rows[id], now, timeout, types))
  {
  }

  class TaskJournal {
    var rows: Table

    constructor ()
      ensures rows == map[]
    {
      rows := map[];
    }

    /** INSERT that does nothing on a duplicate (type, key). */
    method CreateIfAbsent(id: int, taskType: TaskType, key: TaskKey, scheduledAt: int) returns (created: bool)
      requires id !in rows
      modifies this
      ensures created == !HasKey(old(rows), taskType, key)
      ensures rows == if created then old(rows)[id := Row(taskType, key, Queued, scheduledAt, 0, None)] else old(rows)
    {
      created := !HasKey(rows, taskType, key);
      if created {
        rows := rows[id := Row(taskType, key, Queued, scheduledAt, 0, None)];
      }
    }

    /** The OpenList part of the enqueue lane: today's task, and only inside its start minute. */
    method EnqueueOpenList(id: int, s: Schedule, now: int) returns (created: bool)
      requires id !in rows
      modifies this
      ensures var at := DailyScheduledAt(now, s);
              var key := DateKey(DayOf(at, s.zone));
              && created == (s.enabled && WithinScheduledMinute(now, at) && !HasKey(old(rows), OpenList, key))
              && rows == if created then old(rows)[id := Row(OpenList, key, Queued, at, 0, None)] else old(rows)
      ensures ClockTime(s) ==>
                var today := DateKey((now + s.zone) / 86_400_000);
                && (created <==> s.enabled && 0 <= SinceStart(now, s) < 60_000
                                 && forall other :: other in old(rows) ==>
                                      old(rows)[other].taskType != OpenList || old(rows)[other].key != today)
                && (created ==>
                      rows == old(rows)[id := Row(OpenList, today, Queued, now - SinceStart(now, s), 0, None)])
                && (!created ==> rows == old(rows))
    {
      created := false;
      if ClockTime(s) {
        LocalMinute(now, s);
      }
      if s.enabled {
        var scheduledAt := DailyScheduledAt(now, s);
        if WithinScheduledMinute(now, scheduledAt) {
          created := CreateIfAbsent(id, OpenList, DateKey(DayOf(scheduledAt, s.zone)), scheduledAt);
        }
      }
    }

    /** The earliest due row of the listed types, or of all if none is listed; ties by id. Returns the claimed copy. */
    method ClaimNextDue(now: int, timeout: nat, types: set<TaskType>) returns (claimed: Option<(int, Row)>)
      modifies this
      ensures claimed.None? ==>
                rows == old(rows) && forall id :: id in rows ==> !Due(rows[id], now, timeout, types)
      ensures claimed.None? <==> forall id :: id in old(rows) ==> NotDue(old(rows)[id], now, timeout, types)
      ensures claimed.Some? ==>
                var id := claimed.value.0;
                && id in old(rows) && !NotDue(old(rows)[id], now, timeout, types)
                && claimed.value.1 == old(rows)[id].(status := Running, attempts := old(rows)[id].attempts + 1,
                                                     startedAt := Some(now))
                && forall other :: other in old(rows) && !NotDue(old(rows)[other], now, timeout, types) ==>
                     old(rows)[id].scheduledAt < old(rows)[other].scheduledAt
                     || (old(rows)[id].scheduledAt == old(rows)[other].scheduledAt && id <= other)
      ensures claimed.Some? ==>
                var id := claimed.value.0;
                && id in old(rows) && Due(old(rows)[id], now, timeout, types)
                && claimed.value.1 == Claimed(old(rows)[id], now)
                   && rows == old(rows)[id := Claimed(old(rows)[id], now)]
                && forall other :: other in old(rows) && Due(old(rows)[other], now, timeout, types) ==>
                     old(rows)[id].scheduledAt < old(rows)[other].scheduledAt
                     || (old(rows)[id].scheduledAt == old(rows)[other].scheduledAt && id <= other)
    {
      DueExactly(rows, now, timeout, types);
      hide Due, NotDue;
      var best: Option<int> := None;
      var rest: set<int> := rows.Keys;
      while rest != {}
        invariant rest <= rows.Keys && rows == old(rows)
        invariant best.Some? ==> best.value in rows && Due(rows[best.value], now, timeout, types)
        invariant forall other :: other in rows && other !in rest && Due(rows[other], now, timeout, types) ==>
                    best.Some? && (rows[best.value].scheduledAt < rows[other].scheduledAt
                                   || (rows[best.value].scheduledAt == rows[other].scheduledAt && best.value <= other))
        decreases |rest|
      {
        var next := Pick(rest);
        rest := rest - {next};
        if Due(rows[next], now, timeout, types) {
          if best.None? || rows[next].scheduledAt < rows[best.value].scheduledAt
             || (rows[next].scheduledAt == rows[best.value].scheduledAt && next < best.value) {
            best := Some(next);
          }
        }
      }
      if best.None? {
        return None;
      }
      var copy := Claimed(rows[best.value], now);
      rows := rows[best.value := copy];
      return Some((best.value, copy));
    }

    /** Carries no token: whoever calls it decides the status. */
    method UpdateByID(id: int, status: Status)
      modifies this
      ensures rows == if id in old(rows) then old(rows)[id := old(rows)[id].(status := status)] else old(rows)
    {
      if id in rows {
        rows := rows[id := rows[id].(status := status)];
      }
    }
  }
}
