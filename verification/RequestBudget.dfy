/**
 A request budget shared by threads: any number of threads watch a response while any number
 cancel. Each step below is one action between two scheduling points: setting the event, one
 section under the lock, one check of `remaining`, or one socket shutdown.
 */
module RequestBudget {
  import opened Totals

  type Watcher = int
  type Canceller = int

  datatype WatcherPhase = Outside | Registered | Inside | Leaving(raised: bool) | Finished(raised: bool)

  datatype CancelPhase = NotCalled | Flagged | Closing(pending: set<Watcher>) | Returned

  /** `open` holds the watchers whose response has a socket that is not shut down. */
  datatype State = State(cancelled: bool, closers: set<Watcher>, open: set<Watcher>,
                         watchers: map<Watcher, WatcherPhase>, cancels: map<Canceller, CancelPhase>)

  datatype Step =
    | Register(w: Watcher)
    | Enter(w: Watcher, expired: bool)
    | Leave(w: Watcher, expired: bool, failed: bool)
    | Unregister(w: Watcher)
    | SetFlag(c: Canceller)
    | Snapshot(c: Canceller)
    | Close(c: Canceller, w: Watcher)
    | Return(c: Canceller)

  function WatcherAt(s: State, w: Watcher): WatcherPhase {
    if w in s.watchers then s.watchers[w] else Outside
  }

  function CancelAt(s: State, c: Canceller): CancelPhase {
    if c in s.cancels then s.cancels[c] else NotCalled
  }

  predicate Enabled(s: State, step: Step) {
    match step
    case Register(w) => WatcherAt(s, w) == Outside
    case Enter(w, _) => WatcherAt(s, w) == Registered
    case Leave(w, _, _) => WatcherAt(s, w) == Inside
    case Unregister(w) => WatcherAt(s, w).Leaving?
    case SetFlag(c) => CancelAt(s, c) == NotCalled
    case Snapshot(c) => CancelAt(s, c) == Flagged
    case Close(c, w) => CancelAt(s, c).Closing? && w in CancelAt(s, c).pending
    case Return(c) => CancelAt(s, c) == Closing({})
  }

  function After(s: State, step: Step): State
    requires Enabled(s, step)
  {
    match step
    case Register(w) => s.(closers := s.closers + {w}, watchers := s.watchers[w := Registered])
    // remaining() raises once the flag is set or the deadline has passed
    case Enter(w, expired) => s.(watchers := s.watchers[w := if s.cancelled || expired then Leaving(true) else Inside])
    case Leave(w, expired, failed) => s.(watchers := s.watchers[w := Leaving(s.cancelled || expired || failed)])
    case Unregister(w) => s.(closers := s.closers - {w}, watchers := s.watchers[w := Finished(s.watchers[w].raised)])
    case SetFlag(c) => s.(cancelled := true, cancels := s.cancels[c := Flagged])
    case Snapshot(c) => s.(cancels := s.cancels[c := Closing(s.closers)])
    case Close(c, w) => s.(open := s.open - {w}, cancels := s.cancels[c := Closing(s.cancels[c].pending - {w})])
    case Return(c) => s.(cancels := s.cancels[c := Returned])
  }

  predicate Initial(s: State) {
    !s.cancelled && s.closers == {} && s.watchers == map[] && s.cancels == map[]
  }

  ghost predicate IsRun(states: seq<State>, steps: seq<Step>) {
    && |states| == |steps| + 1 && Initial(states[0])
    && forall i :: 0 <= i < |steps| ==> Enabled(states[i], steps[i]) && states[i + 1] == After(states[i], steps[i])
  }

  predicate Watching(phase: WatcherPhase) {
    phase == Registered || phase == Inside || phase.Leaving?
  }

  /** Whoever is between registering and unregistering can be reached by a canceller. */
  ghost predicate Reachable(s: State) {
    forall w :: Watching(WatcherAt(s, w)) ==> w in s.closers
  }

  ghost predicate FlagFirst(s: State) {
    forall c :: CancelAt(s, c) != NotCalled ==> s.cancelled
  }

  /** A canceller past its snapshot still has to close every open body, and none is left when it returns. */
  ghost predicate Covered(s: State) {
    && (forall c, w :: CancelAt(s, c).Closing? && WatcherAt(s, w) == Inside && w in s.open ==>
       w in CancelAt(s, c).pending)
    && (forall c, w :: CancelAt(s, c) == Returned && WatcherAt(s, w) == Inside ==> w !in s.open)
  }

  ghost predicate Inv(s: State) {
    Reachable(s) && FlagFirst(s) && Covered(s)
  }

  lemma StepKeepsInv(s: State, step: Step)
    requires Inv(s) && Enabled(s, step)
    ensures Inv(After(s, step))
  {
    var t := After(s, step);
    forall w | Watching(WatcherAt(t, w)) ensures w in t.closers {
      assert Watching(WatcherAt(s, w)) || step == Register(w);
    }
    forall c | CancelAt(t, c) != NotCalled ensures t.cancelled {
      assert CancelAt(s, c) != NotCalled || step == SetFlag(c);
    }
    forall c, w | CancelAt(t, c) != NotCalled && WatcherAt(t, w) == Inside
      ensures CancelAt(t, c).Closing? && w in t.open ==> w in CancelAt(t, c).pending
      ensures CancelAt(t, c) == Returned ==> w !in t.open
    {
      OnePair(s, step, c, w);
    }
  }

  lemma OnePair(s: State, step: Step, c: Canceller, w: Watcher)
    requires Inv(s) && Enabled(s, step)
    requires CancelAt(After(s, step), c) != NotCalled && WatcherAt(After(s, step), w) == Inside
    ensures var t := After(s, step);
            && (CancelAt(t, c).Closing? && w in t.open ==> w in CancelAt(t, c).pending)
            && (CancelAt(t, c) == Returned ==> w !in t.open)
  {
    assert WatcherAt(s, w) == Inside || step.Enter?;
    assert CancelAt(s, c) == NotCalled ==> CancelAt(After(s, step), c) == Flagged;
  }

  lemma {:induction false} RunInv(states: seq<State>, steps: seq<Step>, n: nat)
    requires IsRun(states, steps) && n < |states|
    ensures Inv(states[n])
  {
    if n > 0 {
      RunInv(states, steps, n - 1);
      StepKeepsInv(states[n - 1], steps[n - 1]);
    }
  }

  /** In every interleaving: once a cancel has returned, nobody is inside its body with an open socket. */
  lemma CancellationIsNeverLost(states: seq<State>, steps: seq<Step>, n: nat, c: Canceller, w: Watcher)
    requires IsRun(states, steps) && n < |states|
    requires CancelAt(states[n], c) == Returned && WatcherAt(states[n], w) == Inside
    ensures w !in states[n].open
  {
    RunInv(states, steps, n);
  }

  predicate Succeeded(phase: WatcherPhase) {
    phase == Leaving(false) || phase == Finished(false)
  }

  lemma {:induction false} FlagStays(states: seq<State>, steps: seq<Step>, i: nat, j: nat)
    requires IsRun(states, steps) && i <= j < |states| && states[i].cancelled
    ensures states[j].cancelled
  {
    if i < j {
      FlagStays(states, steps, i, j - 1);
      assert Enabled(states[j - 1], steps[j - 1]);
    }
  }

  /** After the flag is set no watcher enters its body, and none that is still inside leaves without raising. */
  lemma {:induction false} NoSuccessAfterCancel(states: seq<State>, steps: seq<Step>, i: nat, j: nat, w: Watcher)
    requires IsRun(states, steps) && i <= j < |states| && states[i].cancelled
    ensures WatcherAt(states[j], w) == Inside ==> WatcherAt(states[i], w) == Inside
    ensures Succeeded(WatcherAt(states[j], w)) ==> Succeeded(WatcherAt(states[i], w))
  {
    if i < j {
      NoSuccessAfterCancel(states, steps, i, j - 1, w);
      FlagStays(states, steps, i, j - 1);
      assert Enabled(states[j - 1], steps[j - 1]);
    }
  }

  /** A canceller that has taken its snapshot can always go on until it returns. */
  lemma CancelCanReturn(s: State, c: Canceller)
    requires CancelAt(s, c).Closing?
    ensures Enabled(s, Return(c)) || exists w ::
              Enabled(s, Close(c, w)) && |CancelAt(After(s, Close(c, w)), c).pending| < |CancelAt(s, c).pending|
  {
    var pending := CancelAt(s, c).pending;
    if pending != {} {
      var w := Member(pending);
      assert Enabled(s, Close(c, w));
      assert CancelAt(After(s, Close(c, w)), c).pending == pending - {w};
    }
  }

  /** The budget object: the flag, the closers behind the lock and the sockets; the phases are bookkeeping. */
  class Budget {
    var cancelled: bool
    var closers: set<Watcher>
    var open: set<Watcher>
    ghost var watchers: map<Watcher, WatcherPhase>
    ghost var cancels: map<Canceller, CancelPhase>

    ghost function Now(): State
      reads this
    {
      State(cancelled, closers, open, watchers, cancels)
    }

    constructor (sockets: set<Watcher>)
      ensures Initial(Now()) && open == sockets
    {
      cancelled, closers, open := false, {}, sockets;
      watchers, cancels := map[], map[];
    }

    /** What `remaining` raises on; `expired` says that the monotonic clock has passed the deadline. */
    method Remaining(expired: bool) returns (raised: bool)
      ensures raised == (cancelled || expired)
    {
      if cancelled {
        return true;
      }
      return expired;
    }

    method AddCloser(w: Watcher)
      requires Enabled(Now(), Register(w))
      modifies this
      ensures Now() == After(old(Now()), Register(w))
    {
      closers := closers + {w};
      watchers := watchers[w := Registered];
    }

    method EnterBody(w: Watcher, expired: bool) returns (raised: bool)
      requires Enabled(Now(), Enter(w, expired))
      modifies this
      ensures Now() == After(old(Now()), Enter(w, expired))
      ensures raised <==> WatcherAt(Now(), w) != Inside
    {
      raised := Remaining(expired);
      watchers := watchers[w := if raised then Leaving(true) else Inside];
    }

    /** Leaving the body: by its own exception, or through the second check. */
    method LeaveBody(w: Watcher, expired: bool, failed: bool) returns (raised: bool)
      requires Enabled(Now(), Leave(w, expired, failed))
      modifies this
      ensures Now() == After(old(Now()), Leave(w, expired, failed))
      ensures WatcherAt(Now(), w) == Leaving(raised)
    {
      raised := failed;
      if !failed {
        raised := Remaining(expired);
      }
      watchers := watchers[w := Leaving(raised)];
    }

    method DiscardCloser(w: Watcher)
      requires Enabled(Now(), Unregister(w))
      modifies this
      ensures Now() == After(old(Now()), Unregister(w))
    {
      closers := closers - {w};
      watchers := watchers[w := Finished(watchers[w].raised)];
    }

    method SetCancelled(c: Canceller)
      requires Enabled(Now(), SetFlag(c))
      modifies this
      ensures Now() == After(old(Now()), SetFlag(c))
    {
      cancelled := true;
      cancels := cancels[c := Flagged];
    }

    method ListClosers(c: Canceller) returns (list: set<Watcher>)
      requires Enabled(Now(), Snapshot(c))
      modifies this
      ensures Now() == After(old(Now()), Snapshot(c)) && CancelAt(Now(), c) == Closing(list)
    {
      list := closers;
      cancels := cancels[c := Closing(closers)];
    }

    /** The loop over the listed closers, when nothing else runs in between. */
    method CloseAll(c: Canceller, list: set<Watcher>)
      requires CancelAt(Now(), c) == Closing(list)
      modifies this
      ensures cancelled == old(cancelled) && closers == old(closers) && watchers == old(watchers)
      ensures open == old(open) - list
      ensures cancels == old(cancels)[c := Returned]
    {
      var rest := list;
      while rest != {}
        invariant rest <= list && CancelAt(Now(), c) == Closing(rest)
        invariant cancelled == old(cancelled) && closers == old(closers) && watchers == old(watchers)
        invariant open == old(open) - (list - rest)
        invariant cancels == old(cancels)[c := Closing(rest)]
        decreases |rest|
      {
        var w := Pick(rest);
        open := open - {w};
        rest := rest - {w};
        cancels := cancels[c := Closing(rest)];
      }
      cancels := cancels[c := Returned];
    }
  }
}
