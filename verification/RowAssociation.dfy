/**
 Associating provider rows with local securities by concurrent handlers. The scheduler's choices
 are nondeterministic, so what is proved holds for every interleaving.
 */
module RowAssociation {
  import opened Totals
  import opened Sorting
  import opened RowHandling
  import Schedules = RowSchedules

  // ----- the concurrent run -----

  /** The results that the handlers of one response share and change under one mutex. */
  class Association {
    const rows: seq<ProviderRow>
    const byCode: map<int, Security>
    const convert: Convert
    var quotes: seq<Quote>
    var missing: seq<MissingItem>
    var returned: set<int>
    var providerErrors: nat
    /** The rows in the order in which their handlers got the mutex. */
    ghost var order: seq<int>
    ghost const initial: seq<MissingItem>

    ghost predicate Valid()
      reads this
    {
      && NoRepeats(order) && (forall i :: 0 <= i < |order| ==> 0 <= order[i] < |rows|)
      && var done := InOrder(HandledRows(byCode, rows, convert), order);
         && quotes == Quotes(done) && missing == initial + Refusals(done)
         && providerErrors == |Refusals(done)|
         && (forall code :: code in returned <==> HasQuote(quotes, code))
    }

    constructor (providerRows: seq<ProviderRow>, securities: map<int, Security>, conversion: Convert,
                 initialMissing: seq<MissingItem>)
      ensures Valid() && order == [] && rows == providerRows && byCode == securities && convert == conversion
      ensures initial == initialMissing
    {
      rows, byCode, convert, initial := providerRows, securities, conversion, initialMissing;
      quotes, missing, returned, providerErrors, order := [], initialMissing, {}, 0, [];
    }

    /** The critical section of one handler. */
    method Record(i: nat)
      requires Valid() && i < |rows| && i !in order
      modifies this
      ensures Valid() && order == old(order) + [i]
    {
      hide Quotes, Refusals, HasQuote, NoRepeats;
      ghost var handled := HandledRows(byCode, rows, convert);
      ghost var done := InOrder(handled, order);
      assert InOrder(handled, order + [i]) == done + [handled[i]];
      OneMoreRow(order, i);
      var outcome := Handle(byCode, rows[i], convert);
      Recorded(done, handled[i]);
      NewCode(quotes, outcome);
      order := order + [i];
      match outcome {
        case Refused(item) =>
          providerErrors := providerErrors + 1;
          missing := missing + [item];
        case Found(quote) =>
          quotes := quotes + [quote];
          returned := returned + {quote.code};
      }
    }

    /** One schedule, whichever: the handlers' results are recorded in its order. */
    method RunConcurrent(concurrency: int)
      returns (ghost states: seq<Schedules.State>, ghost steps: seq<Schedules.Step>)
      requires Valid() && order == []
      modifies this
      ensures Valid()
      ensures Schedules.IsSchedule(states, steps, |rows|, Schedules.Limit(concurrency, |rows|))
      ensures Schedules.Complete(states[|steps|], |rows|) && states[|steps|].order == order
    {
      hide Schedules.Inv, Association.Valid;
      var limit := Schedules.Limit(concurrency, |rows|);
      var s := Schedules.START;
      states, steps := [s], [];
      Schedules.StartInv(|rows|, limit);
      while !Schedules.Complete(s, |rows|)
        invariant Valid() && s.order == order && Schedules.Inv(s, |rows|, limit)
        invariant Schedules.IsSchedule(states, steps, |rows|, limit) && states[|steps|] == s
        decreases Schedules.StepsLeft(s, |rows|)
      {
        var step;
        InvFacts(s, |rows|, limit);
        if {
          case Schedules.Enabled(s, Schedules.Acquire, |rows|, limit) =>
            step := Schedules.Acquire;
          case s.acquired =>
            step := Schedules.Spawn;
          case s.running != {} =>
            var i := Pick(s.running);
            RunningRow(s, |rows|, limit, i);
            Record(i);
            step := Schedules.Record(i);
          case s.leaving > 0 =>
            step := Schedules.Release;
        }
        Schedules.StepKeepsInv(s, step, |rows|, limit);
        Schedules.StepsRunOut(s, step, |rows|, limit);
        s := Schedules.After(s, step, |rows|, limit);
        states, steps := states + [s], steps + [step];
      }
    }
  }

  lemma InvFacts(s: Schedules.State, rows: nat, limit: nat)
    requires Schedules.Inv(s, rows, limit)
    ensures s.started <= rows && (s.acquired ==> s.started < rows)
    ensures s.leaving > 0 || s.running != {} ==> s.taken > 0
    ensures s.started !in s.running
    ensures s.running == {} && s.leaving == 0 && !s.acquired ==> s.taken == 0
  {
  }

  lemma RunningRow(s: Schedules.State, rows: nat, limit: nat, i: int)
    requires Schedules.Inv(s, rows, limit) && i in s.running
    ensures 0 <= i < rows && i !in s.order
  {
  }

  lemma OneMoreRow(order: seq<int>, i: int)
    requires NoRepeats(order) && i !in order
    ensures NoRepeats(order + [i])
  {
  }

  lemma Recorded(done: seq<Handled>, next: Handled)
    ensures Quotes(done + [next]) == Quotes(done) + if next.Found? then [next.quote] else []
    ensures Refusals(done + [next]) == Refusals(done) + if next.Refused? then [next.item] else []
  {
    assert (done + [next])[..|done|] == done;
  }

  lemma NewCode(quotes: seq<Quote>, next: Handled)
    ensures next.Found? ==> forall code :: HasQuote(quotes + [next.quote], code) <==>
              HasQuote(quotes, code) || code == next.quote.code
  {
    if next.Found? {
      forall code ensures HasQuote(quotes + [next.quote], code) <==> HasQuote(quotes, code) || code == next.quote.code {
        assert (quotes + [next.quote])[|quotes|] == next.quote;
        if HasQuote(quotes, code) {
          var i :| 0 <= i < |quotes| && quotes[i].code == code;
          assert (quotes + [next.quote])[i].code == code;
        }
      }
    }
  }

  // ----- the whole association -----

  ghost predicate SortedByCode(quotes: seq<Quote>) {
    forall i, j :: 0 <= i < j < |quotes| ==> quotes[i].code <= quotes[j].code
  }

  method SmallestCode(quotes: seq<Quote>) returns (k: nat)
    requires quotes != []
    ensures k < |quotes| && forall i :: 0 <= i < |quotes| ==> quotes[k].code <= quotes[i].code
  {
    k := 0;
    for i := 1 to |quotes|
      invariant k < |quotes| && forall j :: 0 <= j < i ==> quotes[k].code <= quotes[j].code
    {
      if quotes[i].code < quotes[k].code {
        k := i;
      }
    }
  }

  lemma Without(quotes: seq<Quote>, k: nat)
    requires k < |quotes|
    ensures multiset(quotes) == multiset{quotes[k]} + multiset(quotes[..k] + quotes[k + 1..])
    ensures forall quote :: quote in quotes[..k] + quotes[k + 1..] ==> quote in quotes
  {
    assert quotes == quotes[..k] + [quotes[k]] + quotes[k + 1..];
  }

  method SortQuotes(quotes: seq<Quote>) returns (sorted: seq<Quote>)
    ensures SortedByCode(sorted) && multiset(sorted) == multiset(quotes)
  {
    sorted := [];
    var rest := quotes;
    while rest != []
      invariant multiset(sorted) + multiset(rest) == multiset(quotes)
      invariant SortedByCode(sorted)
      invariant forall i, j :: 0 <= i < |sorted| && 0 <= j < |rest| ==> sorted[i].code <= rest[j].code
      decreases |rest|
    {
      var k := SmallestCode(rest);
      Without(rest, k);
      sorted := sorted + [rest[k]];
      rest := rest[..k] + rest[k + 1..];
    }
  }

  method IndexByCode(securities: seq<Security>) returns (byCode: map<int, Security>)
    ensures byCode == ByCode(securities)
  {
    byCode := map[];
    for i := 0 to |securities|
      invariant byCode == ByCode(securities[..i])
    {
      assert securities[..i + 1][..i] == securities[..i];
      byCode := byCode[securities[i].code := securities[i]];
    }
    assert securities[..|securities|] == securities;
  }

  method AddLeftOut(securities: seq<Security>, quotes: seq<Quote>, returned: set<int>,
                    missing: seq<MissingItem>) returns (after: seq<MissingItem>)
    requires forall code :: code in returned <==> HasQuote(quotes, code)
    ensures after == missing + LeftOut(securities, quotes, missing)
  {
    after := missing;
    for i := 0 to |securities|
      invariant after == missing + LeftOut(securities[..i], quotes, missing)
    {
      assert securities[..i + 1][..i] == securities[..i];
      var code := securities[i].code;
      MissingInEither(missing, LeftOut(securities[..i], quotes, missing), code);
      if code in returned || HasMissing(after, code) {
        continue;
      }
      after := after + [MissingItem(code, NotReturned)];
    }
    assert securities[..|securities|] == securities;
  }

  lemma MissingInEither(a: seq<MissingItem>, b: seq<MissingItem>, code: int)
    ensures HasMissing(a + b, code) <==> HasMissing(a, code) || HasMissing(b, code)
  {
    if HasMissing(b, code) {
      var i :| 0 <= i < |b| && b[i].code == code;
      assert (a + b)[|a| + i].code == code;
    }
    if HasMissing(a, code) {
      StillMissing(a, a + b, code);
    }
  }


  /**
   Whatever the schedule: the quotes and missing items are those of handling the rows one by one,
   each row gives exactly one of them, and every local security appears among them.
   */
  method AssociateRows(rows: seq<ProviderRow>, securities: seq<Security>, initialMissing: seq<MissingItem>,
                       convert: Convert, concurrency: int)
    returns (quotes: seq<Quote>, missing: seq<MissingItem>, providerErrors: nat)
    ensures var handled := HandledRows(ByCode(securities), rows, convert);
            var reported := initialMissing + Refusals(handled);
            && multiset(quotes) == multiset(Quotes(handled))
            && multiset(missing) == multiset(reported + LeftOut(securities, Quotes(handled), reported))
            && providerErrors == |Refusals(handled)|
    ensures forall q :: q in quotes <==> QuotedFrom(q, securities, rows, convert)
    ensures forall item :: item in initialMissing || RefusedFrom(item, securities, rows, convert) ==> item in missing
    ensures forall item :: item in missing ==>
              || item in initialMissing || RefusedFrom(item, securities, rows, convert)
              || (item.reason == NotReturned
                  && forall q :: QuotedFrom(q, securities, rows, convert) ==> q.code != item.code)
    ensures |quotes| + providerErrors == |rows|
    ensures SortedByCode(quotes)
    ensures forall i :: 0 <= i < |securities| ==>
              HasQuote(quotes, securities[i].code) || HasMissing(missing, securities[i].code)
  {
    hide HandledRows, Quotes, Refusals, LeftOut, ByCode, SortedByCode, HasQuote, HasMissing;
    hide QuotedFrom, RefusedFrom;
    var byCode := IndexByCode(securities);
    var association := new Association(rows, byCode, convert, initialMissing);
    ghost var states, steps := association.RunConcurrent(concurrency);
    Schedules.CompleteSchedulePermutes(states, steps, |rows|, Schedules.Limit(concurrency, |rows|));
    ghost var handled := HandledRows(byCode, rows, convert);
    OrderIrrelevant(handled, association.order);
    EveryRowCounted(handled);
    ghost var reported := initialMissing + Refusals(handled);
    assert multiset(association.missing) == multiset(reported);
    BagSizes(association.quotes, Quotes(handled));
    BagSizes(Refusals(InOrder(handled, association.order)), Refusals(handled));
    missing := AddLeftOut(securities, association.quotes, association.returned, association.missing);
    LeftOutOrder(securities, association.quotes, association.missing, Quotes(handled), reported);
    LeftOutExactly(securities, association.quotes, association.missing);
    quotes := SortQuotes(association.quotes);
    providerErrors := association.providerErrors;
    forall i | 0 <= i < |securities| ensures HasQuote(quotes, securities[i].code)
        || HasMissing(missing, securities[i].code) {
      SameQuotes(association.quotes, quotes, securities[i].code);
    }
    BagSizes(quotes, Quotes(handled));
    OutcomeDecided(securities, rows, convert, initialMissing, quotes, missing);
  }

  lemma BagSizes<T>(a: seq<T>, b: seq<T>)
    requires multiset(a) == multiset(b)
    ensures |a| == |b|
  {
    assert |multiset(a)| == |a| && |multiset(b)| == |b|;
  }
}
