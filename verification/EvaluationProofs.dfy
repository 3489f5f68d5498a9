/** Properties of evaluated windows: no look-ahead, complete counts, and bounds between the ratios. */
module EvaluationProofs {
  import opened Outcomes
  import opened Sorting
  import opened Evaluations

  // ----- counts -----

  /** Found and missing quotes always make up the window. */
  lemma CountsAddUp(input: Input, result: Evaluation)
    requires Evaluates(input, result) && input.windowDays > 0 && input.direction != Unsupported
    ensures 0 <= result.actual <= input.windowDays
    ensures result.actual + result.missing == input.windowDays == result.expected
  {
    hide IsBase, Coverage, MetricsOf;
    var dates, byDate := TradingDates(input.marketDates, input.recommendDate), ByDate(input.quotes);
    QuotedMembers(byDate, dates[..if |dates| < input.windowDays then |dates| else input.windowDays]);
  }

  // ----- no look-ahead -----

  /** An ascending list is determined up to its n-th element by its members up to that element. */
  lemma {:induction false} PrefixDetermined(p: seq<int>, q: seq<int>, n: nat)
    requires StrictlyAscending(p) && StrictlyAscending(q) && 0 < n <= |p|
    requires forall d :: d <= p[n - 1] ==> (d in p <==> d in q)
    ensures n <= |q| && p[..n] == q[..n]
  {
    assert p[0] in p && p[n - 1] in p && p[0] <= p[n - 1];
    assert p[0] in q;
    assert q[0] in q;
    assert p[0] == q[0];
    if n > 1 {
      assert p[1..][n - 2] == p[n - 1];
      forall d | d <= p[n - 1] ensures d in p[1..] <==> d in q[1..] {
        TailMembers(p, d);
        TailMembers(q, d);
      }
      PrefixDetermined(p[1..], q[1..], n - 1);
      assert p[..n] == [p[0]] + p[1..][..n - 1] && q[..n] == [q[0]] + q[1..][..n - 1];
    }
  }

  /** The two inputs ask for the same window and agree on all dates and quotes up to `last`. */
  ghost predicate SameUpTo(a: Input, b: Input, last: int) {
    && a.recommendDate == b.recommendDate && a.direction == b.direction && a.windowDays == b.windowDays
    && a.winThreshold == b.winThreshold && a.minCoverage == b.minCoverage
    && (forall d :: d <= last ==> (d in a.marketDates <==> d in b.marketDates))
    && (forall d :: d <= last ==> (d in ByDate(a.quotes) <==> d in ByDate(b.quotes)))
    && (forall d :: d <= last && d in ByDate(a.quotes) && d in ByDate(b.quotes) ==>
       ByDate(a.quotes)[d] == ByDate(b.quotes)[d])
  }

  lemma BaseDetermined(a: map<int, Quote>, b: map<int, Quote>, date: int, last: int, baseA: Option<int>,
                       baseB: Option<int>)
    requires IsBase(a, date, baseA) && IsBase(b, date, baseB)
    requires forall d :: d <= last ==> (d in a <==> d in b)
    requires last in a && date <= last
    ensures baseA == baseB && baseA.Some? && baseA.value <= last
  {
  }

  /** What a READY evaluation went through. */
  lemma ReadyShape(input: Input, dates: seq<int>, byDate: map<int, Quote>, base: Option<int>)
    requires base.Some? ==> base.value in byDate
    requires Evaluate(input, dates, byDate, base).status == Ready
    ensures 0 < input.windowDays <= |dates| && input.direction != Unsupported
    ensures var window := dates[..input.windowDays];
            && var result := Evaluate(input, dates, byDate, base);
            && result.exitDate == Some(dates[input.windowDays - 1]) && result.entryDate == Some(dates[0])
            && dates[0] in byDate && dates[input.windowDays - 1] in byDate
            && byDate[dates[0]].open > 0.0 && AllValid(Quoted(byDate, window)) && Quoted(byDate, window) != []
            && Quoted(byDate, window)[|Quoted(byDate, window)| - 1] == byDate[dates[input.windowDays - 1]]
            && byDate[dates[input.windowDays - 1]].close > 0.0
            && result.metrics == Some(MetricsOf(input.direction, byDate[dates[0]].open,
               byDate[dates[input.windowDays - 1]].close, Quoted(byDate, window), input.winThreshold))
  {
    hide MetricsOf, AllValid;
    var window := dates[..input.windowDays];
    assert window[..|window| - 1] == dates[..input.windowDays - 1];
    LastValid(Quoted(byDate, window));
  }

  lemma LastValid(quotes: seq<Quote>)
    requires AllValid(quotes) && quotes != []
    ensures quotes[|quotes| - 1].close > 0.0
  {
  }

  /** Nothing after the exit date, and no order or repetition of the market dates, can change a READY evaluation. */
  lemma NoLookAhead(a: Input, b: Input, resultA: Evaluation, resultB: Evaluation)
    requires Evaluates(a, resultA) && Evaluates(b, resultB) && resultA.status == Ready
    requires SameUpTo(a, b, resultA.exitDate.GetOr(0))
    ensures resultA == resultB
  {
    hide Evaluate, ByDate, TradingDates;
    var datesA, datesB := TradingDates(a.marketDates, a.recommendDate), TradingDates(b.marketDates, b.recommendDate);
    var quotesA, quotesB := ByDate(a.quotes), ByDate(b.quotes);
    var baseA :| IsBase(quotesA, a.recommendDate, baseA) && resultA == Evaluate(a, datesA, quotesA, baseA);
    var baseB :| IsBase(quotesB, b.recommendDate, baseB) && resultB == Evaluate(b, datesB, quotesB, baseB);
    ReadyShape(a, datesA, quotesA, baseA);
    TradingDatesAscend(a.marketDates, a.recommendDate);
    TradingDatesAscend(b.marketDates, b.recommendDate);
    var n := a.windowDays;
    var last := datesA[n - 1];
    assert last in datesA;
    PrefixDetermined(datesA, datesB, n);
    BaseDetermined(quotesA, quotesB, a.recommendDate, last, baseA, baseB);
    SamePrefixSameResult(a, b, datesA, datesB, quotesA, quotesB, baseA.value);
  }

  lemma SamePrefixSameResult(a: Input, b: Input, datesA: seq<int>, datesB: seq<int>, quotesA: map<int, Quote>,
                             quotesB: map<int, Quote>, base: int)
    requires 0 < a.windowDays <= |datesA| && a.windowDays <= |datesB|
    requires datesA[..a.windowDays] == datesB[..a.windowDays]
    requires StrictlyAscending(datesA)
    requires a.direction == b.direction && a.windowDays == b.windowDays && a.winThreshold == b.winThreshold
    requires a.minCoverage == b.minCoverage
    requires base in quotesA && base in quotesB && base <= datesA[a.windowDays - 1]
    requires forall d :: d <= datesA[a.windowDays - 1] ==> (d in quotesA <==> d in quotesB)
    requires forall d :: d <= datesA[a.windowDays - 1] && d in quotesA && d in quotesB ==> quotesA[d] == quotesB[d]
    ensures Evaluate(a, datesA, quotesA, Some(base)) == Evaluate(b, datesB, quotesB, Some(base))
  {
    hide MetricsOf, AllValid, Coverage;
    var window := datesA[..a.windowDays];
    assert window[0] == datesA[0] == datesB[0];
    assert window[a.windowDays - 1] == datesA[a.windowDays - 1];
    QuotedAgree(quotesA, quotesB, window);
  }

  // ----- bounds between the ratios -----

  lemma {:induction false} DrawdownAboveMinusOne(e: seq<real>)
    requires Positive(e)
    ensures -1.0 < MaxDrawdown(e) <= 0.0
  {
    if e != [] {
      DrawdownAboveMinusOne(e[..|e| - 1]);
      RatioPositive(e[|e| - 1], Peak(e));
    }
  }

  lemma RatioPositive(x: real, y: real)
    requires x > 0.0 && y > 0.0
    ensures x / y > 0.0
  {
  }

  lemma EquitiesPositive(direction: Direction, entry: real, window: seq<Quote>)
    requires entry > 0.0 && AllValid(window)
    ensures Positive(Equities(direction, entry, window))
  {
    forall i | 0 <= i < |window| ensures Equities(direction, entry, window)[i] > 0.0 {
      RatioPositive(entry, window[i].close);
      RatioPositive(window[i].close, entry);
    }
  }

  /** The drawdown never exceeds the whole stake, and is at least as deep as the final loss. */
  lemma DrawdownBounds(direction: Direction, entry: real, exit: real, window: seq<Quote>, winThreshold: real)
    requires direction != Unsupported && entry > 0.0 && AllValid(window) && window != []
    requires exit == window[|window| - 1].close
    ensures var m := MetricsOf(direction, entry, exit, window, winThreshold);
            -1.0 < m.drawdown <= 0.0 && m.drawdown <= m.directionReturn
  {
    var e := Equities(direction, entry, window);
    EquitiesPositive(direction, entry, window);
    DrawdownAboveMinusOne(e);
    OnePassFindsDeepestFall(e);
    assert MaxDrawdown(e) <= Fall(e, -1, |e| - 1);
  }

  lemma DivideBoth(x: real, y: real, entry: real)
    requires x > 0.0 && y > 0.0 && entry > 0.0
    ensures x <= y <==> x / entry <= y / entry
    ensures x <= y <==> entry / y <= entry / x
  {
    var a, b := x / entry, y / entry;
    assert a * entry == x && b * entry == y && (b - a) * entry == y - x;
    var c, d := entry / x, entry / y;
    assert c * x == entry && d * y == entry;
    assert d > 0.0 && c > 0.0;
    assert (c - d) * x == d * (y - x);
  }

  /**
   The final return lies between the adverse and the favorable one exactly when the exit close lies
   within the window's range.
   */
  lemma ReturnWithinRange(direction: Direction, entry: real, exit: real, window: seq<Quote>, winThreshold: real)
    requires direction != Unsupported && entry > 0.0 && exit > 0.0 && AllValid(window) && window != []
    ensures var m := MetricsOf(direction, entry, exit, window, winThreshold);
            m.adverse <= m.directionReturn <= m.favorable <==> Lowest(window).low <= exit <= Highest(window).high
  {
    DivideBoth(Lowest(window).low, exit, entry);
    DivideBoth(exit, Highest(window).high, entry);
  }

  lemma RangeOrdered(direction: Direction, entry: real, exit: real, window: seq<Quote>, winThreshold: real)
    requires direction != Unsupported && entry > 0.0 && exit > 0.0 && AllValid(window) && window != []
    ensures var m := MetricsOf(direction, entry, exit, window, winThreshold);
            -1.0 < m.adverse <= m.favorable
  {
    var low, high := Lowest(window), Highest(window);
    assert Lows(window)[0] == window[0].low && Highs(window)[0] == window[0].high;
    assert low.low <= window[0].low <= window[0].high <= high.high;
    DivideBoth(low.low, high.high, entry);
    RatioPositive(low.low, entry);
    RatioPositive(entry, high.high);
  }

  lemma {:induction false} DrawdownAtLeast(e: seq<real>, low: real, high: real)
    requires Positive(e) && 0.0 < low <= high
    requires forall i :: 0 <= i < |e| ==> low <= e[i] <= high
    ensures Peak(e) <= Larger(1.0, high)
    ensures 1.0 + MaxDrawdown(e) >= low / Larger(1.0, high)
  {
    if e != [] {
      DrawdownAtLeast(e[..|e| - 1], low, high);
      LargerDivisor(low, Larger(1.0, high), Peak(e));
      SameDivisor(low, e[|e| - 1], Peak(e));
    } else {
      SameDivisor(low, Larger(1.0, high), Larger(1.0, high));
    }
  }

  lemma SameDivisor(x: real, y: real, d: real)
    requires x <= y && d > 0.0
    ensures x / d <= y / d
    ensures d / d == 1.0
  {
    assert (y / d - x / d) * d == y - x;
  }

  /**
   If closes stay within the day's range, the drawdown is no deeper than the fall from the best to
   the worst price.
   */
  lemma DrawdownFloor(direction: Direction, entry: real, exit: real, window: seq<Quote>, winThreshold: real)
    requires direction != Unsupported && entry > 0.0 && exit > 0.0 && AllValid(window) && window != []
    requires forall i :: 0 <= i < |window| ==> window[i].low <= window[i].close <= window[i].high
    ensures var m := MetricsOf(direction, entry, exit, window, winThreshold);
            1.0 + m.drawdown >= (1.0 + m.adverse) / Larger(1.0, 1.0 + m.favorable)
  {
    var e, m := Equities(direction, entry, window), MetricsOf(direction, entry, exit, window, winThreshold);
    EquitiesPositive(direction, entry, window);
    RangeOrdered(direction, entry, exit, window, winThreshold);
    forall i | 0 <= i < |e| ensures 1.0 + m.adverse <= e[i] <= 1.0 + m.favorable {
      assert Lows(window)[i] == window[i].low && Highs(window)[i] == window[i].high;
      DivideBoth(Lowest(window).low, window[i].close, entry);
      DivideBoth(window[i].close, Highest(window).high, entry);
    }
    DrawdownAtLeast(e, 1.0 + m.adverse, 1.0 + m.favorable);
  }

  /** The quotes of the window, once it has matured. */
  function WindowQuotes(input: Input): seq<Quote> {
    var dates := TradingDates(input.marketDates, input.recommendDate);
    if 0 < input.windowDays <= |dates| then Quoted(ByDate(input.quotes), dates[..input.windowDays]) else []
  }

  predicate ClosesInRange(quotes: seq<Quote>) {
    forall i :: 0 <= i < |quotes| ==> quotes[i].low <= quotes[i].close <= quotes[i].high
  }

  /** The bounds on every READY evaluation, LONG or SHORT. */
  lemma ReadyBounds(input: Input, result: Evaluation)
    requires Evaluates(input, result) && result.status == Ready
    ensures result.metrics.Some?
    ensures var m := result.metrics.value;
            && -1.0 < m.drawdown <= 0.0 && m.drawdown <= m.directionReturn
            && -1.0 < m.adverse <= m.favorable
            && (m.win <==> m.directionReturn > input.winThreshold)
    ensures ClosesInRange(WindowQuotes(input)) ==>
              var m := result.metrics.value;
              && m.adverse <= m.directionReturn <= m.favorable
              && 1.0 + m.drawdown >= (1.0 + m.adverse) / Larger(1.0, 1.0 + m.favorable)
  {
    hide Evaluate, TradingDates, Quoted, AllValid, MetricsOf;
    var dates, byDate := TradingDates(input.marketDates, input.recommendDate), ByDate(input.quotes);
    var base :| IsBase(byDate, input.recommendDate, base) && result == Evaluate(input, dates, byDate, base);
    ReadyShape(input, dates, byDate, base);
    var n := input.windowDays;
    var entry, exit, window := byDate[dates[0]].open, byDate[dates[n - 1]].close, Quoted(byDate, dates[..n]);
    DrawdownBounds(input.direction, entry, exit, window, input.winThreshold);
    RangeOrdered(input.direction, entry, exit, window, input.winThreshold);
    WinFlag(input.direction, entry, exit, window, input.winThreshold);
    if ClosesInRange(WindowQuotes(input)) {
      DrawdownFloor(input.direction, entry, exit, window, input.winThreshold);
      ReturnWithinRange(input.direction, entry, exit, window, input.winThreshold);
      LastInRange(window);
    }
  }

  lemma WinFlag(direction: Direction, entry: real, exit: real, window: seq<Quote>, winThreshold: real)
    requires entry > 0.0 && exit > 0.0 && AllValid(window) && window != []
    ensures var m := MetricsOf(direction, entry, exit, window, winThreshold); m.win <==>
              m.directionReturn > winThreshold
  {
  }

  lemma LastInRange(window: seq<Quote>)
    requires window != [] && forall i :: 0 <= i < |window| ==> window[i].low <= window[i].close <= window[i].high
    ensures Lowest(window).low <= window[|window| - 1].close <= Highest(window).high
  {
    assert Lows(window)[|window| - 1] == window[|window| - 1].low
             && Highs(window)[|window| - 1] == window[|window| - 1].high;
  }
}
