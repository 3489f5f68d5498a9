/**
 Retrying failed documents from any number of processes that only use the retry path. Every
 conditional UPDATE and every section under the process's mutex is one step; a process may stop
 between any two steps.
 */
module DocumentRetry {
  import opened Outcomes

  datatype Status = Ingested | Parsed | Analyzing | Failed | Planned | Invalid

  /** `produced`: events, plans or a successful ingestion exist for the document. */
  datatype Row = Row(status: Status, produced: bool)

  /** `kept`: the call ended with the row still ANALYZING, by a failed restore or a stopped process. */
  datatype Phase = Acquired | Checked | Claimed | Written(outcome: Status) | Restored(kept: bool) | Over(kept: bool)

  datatype Call = Call(process: int, document: int, phase: Phase)

  datatype State = State(rows: map<int, Row>, busy: set<(int, int)>, calls: map<int, Call>)

  datatype Action = Check | GiveUp | Claim | Persist | Write(outcome: Status) | Restore(applied: bool) | Release

  datatype Step =
    | Acquire(k: int, process: int, document: int)
    | Act(k: int, action: Action)
    | Stop(process: int)

  predicate Terminal(status: Status) {
    status == Planned || status == Invalid
  }

  predicate Claimable(row: Row) {
    row.status == Failed && !row.produced
  }

  function RestoredRow(row: Row): Row {
    if row.status == Analyzing || row.status == Parsed then row.(status := Failed) else row
  }

  predicate Permitted(phase: Phase, row: Row, action: Action) {
    match action
    case Check => phase == Acquired && row.status == Failed
    case GiveUp => phase == Acquired || phase == Checked
    case Claim => phase == Checked && Claimable(row)
    case Persist => phase == Claimed
    case Write(outcome) => phase == Claimed && Terminal(outcome)
    case Restore(_) => phase == Claimed || phase.Written?
    case Release => phase.Restored?
  }

  predicate Enabled(s: State, step: Step) {
    match step
    case Acquire(k, process, document) => k !in s.calls && document in s.rows && (process, document) !in s.busy
    case Act(k, action) =>
      k in s.calls && s.calls[k].document in s.rows && Permitted(s.calls[k].phase, s.rows[s.calls[k].document], action)
    case Stop(_) => true
  }

  function Stopped(call: Call): Call {
    call.(phase := Over(call.phase == Claimed || call.phase == Restored(true) || call.phase == Over(true)))
  }

  function OtherProcesses(busy: set<(int, int)>, process: int): set<(int, int)> {
    set b | b in busy && b.0 != process
  }

  function NewRow(row: Row, action: Action): Row {
    match action
    case Claim => row.(status := Analyzing)
    case Persist => row.(produced := true)
    case Write(outcome) => row.(status := outcome)
    case Restore(applied) => if applied then RestoredRow(row) else row
    case Check => row
    case GiveUp => row
    case Release => row
  }

  function NewPhase(phase: Phase, action: Action): Phase {
    match action
    case Check => Checked
    case GiveUp => Over(false)
    case Claim => Claimed
    case Persist => phase
    case Write(outcome) => Written(outcome)
    case Restore(applied) => Restored(!applied && phase == Claimed)
    case Release => Over(phase == Restored(true))
  }

  function After(s: State, step: Step): State
    requires Enabled(s, step)
  {
    match step
    case Acquire(k, process, document) =>
      s.(busy := s.busy + {(process, document)}, calls := s.calls[k := Call(process, document, Acquired)])
    case Act(k, action) =>
      var call, d := s.calls[k], s.calls[k].document;
      State(s.rows[d := NewRow(s.rows[d], action)],
            if action == GiveUp || action == Release then s.busy - {(call.process, d)} else s.busy,
            s.calls[k := call.(phase := NewPhase(call.phase, action))])
    case Stop(process) =>
      s.(busy := OtherProcesses(s.busy, process),
         calls := map k | k in s.calls :: if s.calls[k].process == process then Stopped(s.calls[k]) else s.calls[k])
  }

  predicate Initial(s: State) {
    s.busy == {} && s.calls == map[] && forall d :: d in s.rows ==> s.rows[d].status != Analyzing
  }

  ghost predicate IsRun(states: seq<State>, steps: seq<Step>) {
    && |states| == |steps| + 1 && Initial(states[0])
    && forall i :: 0 <= i < |steps| ==> Enabled(states[i], steps[i]) && states[i + 1] == After(states[i], steps[i])
  }

  // ----- the claim on a document -----

  predicate Holds(s: State, k: int, d: int) {
    k in s.calls && s.calls[k].document == d
    && (s.calls[k].phase == Claimed || s.calls[k].phase == Restored(true) || s.calls[k].phase == Over(true))
  }

  ghost predicate HoldersAnalyze(s: State) {
    forall k, d :: Holds(s, k, d) ==> d in s.rows && s.rows[d].status == Analyzing
  }

  ghost predicate OneHolder(s: State) {
    forall j, k, d :: Holds(s, j, d) && Holds(s, k, d) ==> j == k
  }

  ghost predicate AnalyzingHeld(s: State) {
    forall d :: d in s.rows && s.rows[d].status == Analyzing ==> exists k :: Holds(s, k, d)
  }

  /** A call that has written its outcome still finds it in the row. */
  ghost predicate OutcomesStand(s: State) {
    forall k :: k in s.calls && s.calls[k].phase.Written? ==>
      s.calls[k].document in s.rows && Terminal(s.calls[k].phase.outcome)
          && s.rows[s.calls[k].document].status == s.calls[k].phase.outcome
  }

  ghost predicate Inv(s: State) {
    HoldersAnalyze(s) && OneHolder(s) && AnalyzingHeld(s) && OutcomesStand(s)
  }

  lemma HoldersAfter(s: State, step: Step, k: int, d: int)
    requires Enabled(s, step)
    ensures Holds(After(s, step), k, d) ==> Holds(s, k, d) || (step == Act(k, Claim) && s.calls[k].document == d)
    ensures Holds(s, k, d) && !Holds(After(s, step), k, d) ==>
              step.Act? && step.k == k && (step.action == Restore(true) || step.action.Write?)
  {
  }

  lemma StepKeepsHolders(s: State, step: Step)
    requires Inv(s) && Enabled(s, step)
    ensures HoldersAnalyze(After(s, step)) && OneHolder(After(s, step))
  {
    var t := After(s, step);
    forall k, d | Holds(t, k, d) ensures d in t.rows && t.rows[d].status == Analyzing {
      HoldersAfter(s, step, k, d);
      if step.Act? && (step.action.Write? || step.action.Restore?) {
        assert Holds(s, step.k, s.calls[step.k].document) || s.calls[step.k].phase.Written?;
      }
    }
    forall j, k, d | Holds(t, j, d) && Holds(t, k, d) ensures j == k {
      HoldersAfter(s, step, j, d);
      HoldersAfter(s, step, k, d);
    }
  }

  lemma StepKeepsAnalyzingHeld(s: State, step: Step)
    requires Inv(s) && Enabled(s, step)
    ensures AnalyzingHeld(After(s, step))
  {
    var t := After(s, step);
    forall d | d in t.rows && t.rows[d].status == Analyzing ensures exists k :: Holds(t, k, d) {
      if step.Act? && step.action == Claim && s.calls[step.k].document == d {
        assert Holds(t, step.k, d);
      } else {
        var k :| Holds(s, k, d);
        HoldersAfter(s, step, k, d);
        assert Holds(t, k, d);
      }
    }
  }

  lemma StepKeepsOutcomes(s: State, step: Step)
    requires Inv(s) && Enabled(s, step)
    ensures OutcomesStand(After(s, step))
  {
    var t := After(s, step);
    forall k | k in t.calls && t.calls[k].phase.Written?
      ensures t.calls[k].document in t.rows && Terminal(t.calls[k].phase.outcome)
      ensures t.rows[t.calls[k].document].status == t.calls[k].phase.outcome
    {
      TerminalStays(s, step, t.calls[k].document);
    }
  }

  /** No step overwrites PLANNED or INVALID, although the analysis writes without a condition. */
  lemma TerminalStays(s: State, step: Step, d: int)
    requires Inv(s) && Enabled(s, step) && d in s.rows
    ensures d in After(s, step).rows
    ensures Terminal(s.rows[d].status) ==> After(s, step).rows[d].status == s.rows[d].status
  {
    if step.Act? && step.action.Write? {
      assert Holds(s, step.k, s.calls[step.k].document);
    }
  }

  lemma {:induction false} RunInv(states: seq<State>, steps: seq<Step>, n: nat)
    requires IsRun(states, steps) && n < |states|
    ensures Inv(states[n])
  {
    if n > 0 {
      RunInv(states, steps, n - 1);
      hide Inv, Enabled, After;
      StepKeepsHolders(states[n - 1], steps[n - 1]);
      StepKeepsAnalyzingHeld(states[n - 1], steps[n - 1]);
      StepKeepsOutcomes(states[n - 1], steps[n - 1]);
      Together(states[n]);
    }
  }

  lemma Together(s: State)
    requires HoldersAnalyze(s) && OneHolder(s) && AnalyzingHeld(s) && OutcomesStand(s)
    ensures Inv(s)
  {
  }

  /** In every interleaving at most one call holds the ANALYZING claim of a document. */
  lemma OneAnalysisAtATime(states: seq<State>, steps: seq<Step>, n: nat, j: int, k: int)
    requires IsRun(states, steps) && n < |states|
    requires j in states[n].calls && k in states[n].calls && states[n].calls[j].document == states[n].calls[k].document
    requires states[n].calls[j].phase == Claimed && states[n].calls[k].phase == Claimed
    ensures j == k
  {
    RunInv(states, steps, n);
    assert Holds(states[n], j, states[n].calls[j].document) && Holds(states[n], k, states[n].calls[j].document);
  }

  /** A restore that changes the row gives back the caller's own claim and nobody else's. */
  lemma RestoreGivesBackOwnClaim(states: seq<State>, steps: seq<Step>, n: nat)
    requires IsRun(states, steps) && n < |steps| && steps[n].Act? && steps[n].action.Restore?
    requires states[n + 1].rows != states[n].rows
    ensures states[n].calls[steps[n].k].phase == Claimed
    ensures forall j :: (j in states[n].calls && states[n].calls[j].phase == Claimed
                         && states[n].calls[j].document == states[n].calls[steps[n].k].document) ==> j == steps[n].k
  {
    RunInv(states, steps, n);
    var s, k := states[n], steps[n].k;
    assert s.rows == s.rows[s.calls[k].document := s.rows[s.calls[k].document]];
    forall j | j in s.calls && s.calls[j].phase == Claimed
        && s.calls[j].document == s.calls[k].document ensures j == k {
      assert Holds(s, j, s.calls[k].document) && Holds(s, k, s.calls[k].document);
    }
  }

  /** Once PLANNED or INVALID, a document stays so. */
  lemma {:induction false} ResultNeverOverwritten(states: seq<State>, steps: seq<Step>, i: nat, j: nat, d: int)
    requires IsRun(states, steps) && i <= j < |states|
    requires d in states[i].rows && Terminal(states[i].rows[d].status)
    ensures d in states[j].rows && states[j].rows[d].status == states[i].rows[d].status
  {
    if i < j {
      ResultNeverOverwritten(states, steps, i, j - 1, d);
      RunInv(states, steps, j - 1);
      hide Inv, After, Enabled;
      TerminalStays(states[j - 1], steps[j - 1], d);
    }
  }

  /**
   A document is ANALYZING exactly while a call has claimed it, or after a call lost its claim
   without restoring it.
   */
  lemma AnalyzingExactlyWhileHeld(states: seq<State>, steps: seq<Step>, n: nat, d: int)
    requires IsRun(states, steps) && n < |states| && d in states[n].rows
    ensures states[n].rows[d].status == Analyzing <==> exists k :: Holds(states[n], k, d)
  {
    RunInv(states, steps, n);
  }

  /**
   A claim lost by a failed restore or a stopped process is never given back: the document stays
   ANALYZING and is not claimed again.
   */
  lemma {:induction false} LostClaimStays(states: seq<State>, steps: seq<Step>, i: nat, j: nat, k: int)
    requires IsRun(states, steps) && i <= j < |states|
    requires k in states[i].calls && states[i].calls[k].phase == Over(true)
    ensures var call := states[i].calls[k];
            && k in states[j].calls && states[j].calls[k] == call
            && call.document in states[j].rows && states[j].rows[call.document].status == Analyzing
            && forall n :: i <= n < j && steps[n].Act? && steps[n].action == Claim ==>
                 steps[n].k in states[n].calls && states[n].calls[steps[n].k].document != call.document
  {
    RunInv(states, steps, j);
    if i < j {
      LostClaimStays(states, steps, i, j - 1, k);
      assert Enabled(states[j - 1], steps[j - 1]);
      var s, step := states[j - 1], steps[j - 1];
      CallOver(s, step, k);
    }
    assert Holds(states[j], k, states[i].calls[k].document);
  }

  lemma CallOver(s: State, step: Step, k: int)
    requires Enabled(s, step) && k in s.calls && s.calls[k].phase == Over(true)
    ensures k in After(s, step).calls && After(s, step).calls[k] == s.calls[k]
  {
  }

  /** A process stops while it holds a claim. */
  const LOSING: seq<Step> := [Acquire(0, 1, 2), Act(0, Check), Act(0, Claim), Stop(1)]

  lemma ClaimCanBeLost() returns (states: seq<State>)
    ensures IsRun(states, LOSING) && 0 in states[4].calls && states[4].calls[0] == Call(1, 2, Over(true))
    ensures 2 in states[4].rows && states[4].rows[2].status == Analyzing
  {
    var s0 := State(map[2 := Row(Failed, false)], {}, map[]);
    var s1 := After(s0, LOSING[0]);
    var s2 := After(s1, LOSING[1]);
    var s3 := After(s2, LOSING[2]);
    states := [s0, s1, s2, s3, After(s3, LOSING[3])];
  }

  /** So once every retry of a document has restored it, it is not ANALYZING. */
  lemma CompletedRetriesLeaveNoClaim(states: seq<State>, steps: seq<Step>, n: nat, d: int)
    requires IsRun(states, steps) && n < |states| && d in states[n].rows
    requires forall k :: k in states[n].calls && states[n].calls[k].document == d ==>
               states[n].calls[k].phase == Restored(false) || states[n].calls[k].phase == Over(false)
    ensures states[n].rows[d].status != Analyzing
  {
    AnalyzingExactlyWhileHeld(states, steps, n, d);
  }

  /** A document whose retry stored results but not its status is never claimed again. */
  lemma {:induction false} ProducedNeverReclaimed(states: seq<State>, steps: seq<Step>, i: nat, j: nat, d: int)
    requires IsRun(states, steps) && i <= j < |states| && d in states[i].rows
    requires states[i].rows[d].produced && states[i].rows[d].status != Analyzing
    ensures d in states[j].rows && states[j].rows[d].produced && states[j].rows[d].status != Analyzing
  {
    if i < j {
      ProducedNeverReclaimed(states, steps, i, j - 1, d);
      assert Enabled(states[j - 1], steps[j - 1]);
    }
  }

  // ----- one call per process -----

  predicate SameSlot(a: Call, b: Call) {
    !a.phase.Over? && !b.phase.Over? && a.process == b.process && a.document == b.document
  }

  /** Every unfinished call of a process is registered as busy, and no two are on the same document. */
  ghost predicate Registered(s: State) {
    && (forall k :: k in s.calls && !s.calls[k].phase.Over? ==> (s.calls[k].process, s.calls[k].document) in s.busy)
    && (forall j, k :: j in s.calls && k in s.calls && SameSlot(s.calls[j], s.calls[k]) ==> j == k)
  }

  lemma StepKeepsRegistered(s: State, step: Step)
    requires Registered(s) && Enabled(s, step)
    ensures Registered(After(s, step))
  {
    var t := After(s, step);
    forall k | k in t.calls && !t.calls[k].phase.Over? ensures (t.calls[k].process, t.calls[k].document) in t.busy {
      assert k in s.calls ==> (t.calls[k].process == s.calls[k].process && t.calls[k].document == s.calls[k].document
                               && !s.calls[k].phase.Over?);
    }
    forall j, k | j in t.calls && k in t.calls && SameSlot(t.calls[j], t.calls[k]) ensures j == k {
      assert step.Acquire? || (j in s.calls && k in s.calls && SameSlot(s.calls[j], s.calls[k]));
    }
  }

  lemma {:induction false} OneCallPerProcess(states: seq<State>, steps: seq<Step>, n: nat)
    requires IsRun(states, steps) && n < |states|
    ensures Registered(states[n])
  {
    if n > 0 {
      OneCallPerProcess(states, steps, n - 1);
      StepKeepsRegistered(states[n - 1], steps[n - 1]);
    }
  }

  // ----- the objects -----

  /** The documents table: each method is one conditional UPDATE. */
  class DocumentTable {
    var rows: map<int, Row>

    constructor (initial: map<int, Row>)
      ensures rows == initial
    {
      rows := initial;
    }

    method ClaimFailedAnalysis(id: int) returns (claimed: bool)
      modifies this
      ensures claimed == (id in old(rows) && Claimable(old(rows)[id]))
      ensures rows == if claimed then old(rows)[id := NewRow(old(rows)[id], Claim)] else old(rows)
    {
      claimed := id in rows && rows[id].status == Failed && !rows[id].produced;
      if claimed {
        rows := rows[id := rows[id].(status := Analyzing)];
      }
    }

    method RestoreFailedAnalysis(id: int)
      modifies this
      ensures rows == if id in old(rows) then old(rows)[id := NewRow(old(rows)[id], Restore(true))] else old(rows)
    {
      if id in rows && (rows[id].status == Analyzing || rows[id].status == Parsed) {
        rows := rows[id := rows[id].(status := Failed)];
      }
    }

    method UpdateStatusByID(id: int, status: Status)
      modifies this
      ensures rows == if id in old(rows) then old(rows)[id := old(rows)[id].(status := status)] else old(rows)
    {
      if id in rows {
        rows := rows[id := rows[id].(status := status)];
      }
    }

    method StoreResults(id: int)
      modifies this
      ensures rows == if id in old(rows) then old(rows)[id := NewRow(old(rows)[id], Persist)] else old(rows)
    {
      if id in rows {
        rows := rows[id := rows[id].(produced := true)];
      }
    }
  }

  datatype RetryError = Busy | NotAllowed | NotFinished

  /** The status an analysis leaves when only its PLANNED and INVALID writes reach the row. */
  function FinalStatus(start: Status, writes: seq<Status>): Status {
    if writes == [] then start
    else if Terminal(writes[|writes| - 1]) then writes[|writes| - 1]
    else FinalStatus(start, writes[..|writes| - 1])
  }

  class DocumentService {
    const documents: DocumentTable
    var active: set<int>

    constructor (table: DocumentTable)
      ensures documents == table && active == {}
    {
      documents, active := table, {};
    }

    method Acquire(id: int) returns (ok: bool)
      modifies this
      ensures ok == (id !in old(active))
      ensures active == old(active) + {id}
    {
      ok := id !in active;
      active := active + {id};
    }

    method Free(id: int)
      modifies this
      ensures active == old(active) - {id}
    {
      active := active - {id};
    }

    /** PARSED and FAILED are held back during a retry, so that no other process can claim the row. */
    method UpdateAnalysisStatus(id: int, status: Status, retry: bool)
      modifies documents
      ensures retry && (status == Parsed || status == Failed) ==> documents.rows == old(documents.rows)
      ensures !(retry && (status == Parsed || status == Failed)) ==>
                documents.rows == if id in old(documents.rows)
                                  then old(documents.rows)[id := old(documents.rows)[id].(status := status)]
                                  else old(documents.rows)
    {
      if retry && (status == Parsed || status == Failed) {
        return;
      }
      documents.UpdateStatusByID(id, status);
    }

    /** The analysis, reduced to its effects on the row: whether results are stored, and the statuses it reports. */
    method Analyze(id: int, stores: bool, writes: seq<Status>)
      requires id in documents.rows
      requires forall i :: 0 <= i < |writes| ==> writes[i] == Parsed || writes[i] == Failed || Terminal(writes[i])
      modifies documents
      ensures var row := old(documents.rows)[id];
              documents.rows
              == old(documents.rows)[id := Row(FinalStatus(row.status, writes), row.produced || stores)]
    {
      if stores {
        documents.StoreResults(id);
      }
      ghost var row := old(documents.rows)[id];
      for i := 0 to |writes|
        invariant documents.rows
                  == old(documents.rows)[id := Row(FinalStatus(row.status, writes[..i]), row.produced || stores)]
      {
        assert writes[..i + 1][..i] == writes[..i];
        UpdateAnalysisStatus(id, writes[i], true);
      }
      assert writes[..|writes|] == writes;
    }

    /** A whole retry with no other call in between. */
    method RetryFailedDocument(id: int, stores: bool, writes: seq<Status>) returns (r: Result<Status, RetryError>)
      requires id in documents.rows
      requires forall i :: 0 <= i < |writes| ==> writes[i] == Parsed || writes[i] == Failed || Terminal(writes[i])
      modifies this, documents
      ensures active == old(active)
      ensures r == Err(Busy) <==> id in old(active)
      ensures r == Err(NotAllowed) <==> id !in old(active) && !Claimable(old(documents.rows)[id])
      ensures r == Err(Busy) || r == Err(NotAllowed) ==> documents.rows == old(documents.rows)
      ensures r.Ok? ==> Terminal(r.value) && documents.rows == old(documents.rows)[id := Row(r.value, stores)]
      ensures r == Err(NotFinished) ==> documents.rows == old(documents.rows)[id := Row(Failed, stores)]
      ensures r == Err(NotFinished) ==> forall i :: 0 <= i < |writes| ==> !Terminal(writes[i])
    {
      var ok := Acquire(id);
      if !ok {
        return Err(Busy);
      }
      if documents.rows[id].status != Failed {
        Free(id);
        return Err(NotAllowed);
      }
      var claimed := documents.ClaimFailedAnalysis(id);
      if !claimed {
        Free(id);
        return Err(NotAllowed);
      }
      Analyze(id, stores, writes);
      FinalStatusMeaning(Analyzing, writes);
      var current := documents.rows[id].status;
      documents.RestoreFailedAnalysis(id);
      Free(id);
      if Terminal(current) {
        return Ok(current);
      }
      return Err(NotFinished);
    }
  }

  lemma {:induction false} FinalStatusMeaning(start: Status, writes: seq<Status>)
    ensures Terminal(FinalStatus(start, writes)) || FinalStatus(start, writes) == start
    ensures !Terminal(start) ==>
              (Terminal(FinalStatus(start, writes)) <==> exists i :: 0 <= i < |writes| && Terminal(writes[i]))
  {
    if writes != [] {
      FinalStatusMeaning(start, writes[..|writes| - 1]);
      assert writes == writes[..|writes| - 1] + [writes[|writes| - 1]];
    }
  }
}
