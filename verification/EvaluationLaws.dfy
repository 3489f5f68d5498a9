/**
 When a window is READY and why it is not, and what a READY result reports, on the input's quotes
 and dates and on the result's own figures.
 */
module EvaluationLaws {
  import opened Outcomes
  import opened Sorting
  import opened Evaluations
  import opened EvaluationProofs

  // ----- the quotes and dates that count -----

  /** Of several quotes for a date the last one given counts. */
  lemma {:induction false} LastQuoteCounts(quotes: seq<Quote>, k: nat)
    requires k < |quotes| && forall j :: k < j < |quotes| ==> quotes[j].date != quotes[k].date
    ensures quotes[k].date in ByDate(quotes) && ByDate(quotes)[quotes[k].date] == quotes[k]
  {
    if k < |quotes| - 1 {
      var front := quotes[..|quotes| - 1];
      assert front[k] == quotes[k];
      LastQuoteCounts(front, k);
    }
  }

  /** The window of a matured input: the first windowDays market dates after the recommendation. */
  function Window(input: Input): seq<int>
    requires 0 < input.windowDays <= |TradingDates(input.marketDates, input.recommendDate)|
  {
    TradingDates(input.marketDates, input.recommendDate)[..input.windowDays]
  }

  predicate IsQuoted(input: Input, date: int) {
    exists i :: 0 <= i < |input.quotes| && input.quotes[i].date == date
  }

  lemma QuotedExactly(input: Input, date: int)
    ensures IsQuoted(input, date) <==> date in ByDate(input.quotes)
  {
    ByDateKeys(input.quotes);
    if IsQuoted(input, date) {
      var i :| 0 <= i < |input.quotes| && input.quotes[i].date == date;
      assert input.quotes[i] in input.quotes;
    }
    if date in ByDate(input.quotes) {
      var q := ByDate(input.quotes)[date];
      assert q in input.quotes && q.date == date;
    }
  }

  /** The number of quotes found is the number of window dates that are quoted. */
  lemma {:induction false} QuotedCount(byDate: map<int, Quote>, dates: seq<int>)
    ensures |Quoted(byDate, dates)| == |set k | 0 <= k < |dates| && dates[k] in byDate|
  {
    var all := set k | 0 <= k < |dates| && dates[k] in byDate;
    if dates != [] {
      var n := |dates| - 1;
      QuotedCount(byDate, dates[..n]);
      var front := set k | 0 <= k < n && dates[..n][k] in byDate;
      assert all == if dates[n] in byDate then front + {n} else front;
    }
  }

  // ----- statuses -----

  /** Matured: the direction is supported and the market dates of the window are there. */
  predicate IsMature(input: Input) {
    && input.direction != Unsupported
    && 0 < input.windowDays <= |TradingDates(input.marketDates, input.recommendDate)|
  }

  /** As many quotes as demanded; all of them if the demand is not a share of the window. */
  predicate EnoughQuotes(input: Input, actual: int) {
    if 0.0 < input.minCoverage <= 1.0 then actual as real >= input.minCoverage * input.windowDays as real
    else actual == input.windowDays
  }

  /** Every price of the quote is positive, and the high is not below the low. */
  predicate SoundQuote(q: Quote) {
    q.open > 0.0 && q.close > 0.0 && q.low > 0.0 && q.high >= q.low
  }

  /** The earliest quote from the recommendation on closes at a positive price. */
  ghost predicate BasePriced(input: Input) {
    exists base :: base in ByDate(input.quotes) && base >= input.recommendDate && ByDate(input.quotes)[base].close > 0.0
                   && forall d :: d in ByDate(input.quotes) && d >= input.recommendDate ==> base <= d
  }

  /** The base close, the entry open and all quotes of the window are positive prices. */
  ghost predicate PricesSound(input: Input)
    requires IsMature(input)
  {
    var byDate, window := ByDate(input.quotes), Window(input);
    && BasePriced(input)
    && forall k :: 0 <= k < |window| && window[k] in byDate ==> SoundQuote(byDate[window[k]])
  }

  lemma ShareOfWindow(actual: int, days: int, share: real)
    requires days > 0
    ensures actual as real / days as real < share <==> actual as real < share * days as real
    ensures actual as real / days as real < 1.0 <==> actual < days
  {
    var ratio := actual as real / days as real;
    assert ratio * days as real == actual as real;
    assert (share - ratio) * days as real == share * days as real - actual as real;
    assert (1.0 - ratio) * days as real == (days - actual) as real;
    Sign(share - ratio, days as real);
    Sign(1.0 - ratio, days as real);
  }

  lemma Sign(x: real, y: real)
    requires y > 0.0
    ensures x * y > 0.0 <==> x > 0.0
  {
  }

  lemma EnoughExactly(input: Input, actual: int)
    requires input.windowDays > 0 && actual <= input.windowDays
    ensures actual as real / input.windowDays as real < Coverage(input.minCoverage) <==> !EnoughQuotes(input, actual)
  {
    ShareOfWindow(actual, input.windowDays, input.minCoverage);
  }

  lemma ValidExactly(byDate: map<int, Quote>, dates: seq<int>)
    ensures AllValid(Quoted(byDate, dates)) <==>
            forall k :: 0 <= k < |dates| && dates[k] in byDate ==> SoundQuote(byDate[dates[k]])
  {
    var quotes := Quoted(byDate, dates);
    QuotedMembers(byDate, dates);
    hide Quoted;
    if AllValid(quotes) {
      forall k | 0 <= k < |dates| && dates[k] in byDate ensures SoundQuote(byDate[dates[k]]) {
        var d := dates[k];
        assert d in dates && byDate[d] in quotes;
        var i :| 0 <= i < |quotes| && quotes[i] == byDate[d];
        assert ValidQuote(quotes[i]);
      }
    }
    if forall k :: 0 <= k < |dates| && dates[k] in byDate ==> SoundQuote(byDate[dates[k]]) {
      forall i | 0 <= i < |quotes| ensures ValidQuote(quotes[i]) {
        var q := quotes[i];
        assert q in quotes;
        var d :| d in dates && d in byDate && byDate[d] == q;
        var k :| 0 <= k < |dates| && dates[k] == d;
        assert SoundQuote(byDate[dates[k]]);
      }
    }
  }

  lemma BaseExactly(input: Input, base: Option<int>)
    requires IsBase(ByDate(input.quotes), input.recommendDate, base)
    ensures BasePriced(input) <==> base.Some? && ByDate(input.quotes)[base.value].close > 0.0
  {
  }

  /** What a matured window evaluates to, as a decision of four questions. */
  lemma DecidedExactly(input: Input, result: Evaluation)
    requires Evaluates(input, result) && IsMature(input)
    ensures var first, last := Window(input)[0], Window(input)[input.windowDays - 1];
            && (result.status == Ready <==>
                  && IsQuoted(input, first) && IsQuoted(input, last)
                  && EnoughQuotes(input, result.actual) && PricesSound(input))
            && (result.status == Incomplete && result.reason == EntryQuoteMissing <==> !IsQuoted(input, first))
            && (result.status == Incomplete && result.reason == ExitQuoteMissing <==>
                  IsQuoted(input, first) && !IsQuoted(input, last))
            && (result.status == Incomplete && result.reason == QuoteGap <==>
                  IsQuoted(input, first) && IsQuoted(input, last) && !EnoughQuotes(input, result.actual))
            && (result.status == Failed && result.reason == InvalidPrice <==>
                  && IsQuoted(input, first) && IsQuoted(input, last)
                  && EnoughQuotes(input, result.actual) && !PricesSound(input))
            && (result.metrics.Some? <==> result.status == Ready)
  {
    hide ByDate, TradingDates, Quoted, AllValid, MetricsOf, Coverage, EnoughQuotes, BasePriced, IsQuoted, SoundQuote;
    var dates, byDate := TradingDates(input.marketDates, input.recommendDate), ByDate(input.quotes);
    var base :| IsBase(byDate, input.recommendDate, base) && result == Evaluate(input, dates, byDate, base);
    var window := Window(input);
    QuotedExactly(input, window[0]);
    QuotedExactly(input, window[input.windowDays - 1]);
    ActualWithinWindow(byDate, window);
    EnoughExactly(input, |Quoted(byDate, window)|);
    ValidExactly(byDate, window);
    BaseExactly(input, base);
    EntrySound(byDate, window);
  }

  lemma ActualWithinWindow(byDate: map<int, Quote>, window: seq<int>)
    ensures |Quoted(byDate, window)| <= |window|
  {
    QuotedMembers(byDate, window);
  }

  lemma EntrySound(byDate: map<int, Quote>, window: seq<int>)
    requires window != []
    ensures (forall k :: 0 <= k < |window| && window[k] in byDate ==> SoundQuote(byDate[window[k]])) ==>
              window[0] in byDate ==> byDate[window[0]].open > 0.0
  {
  }

  /** Whatever is not matured is refused for its window, its direction, or as pending. */
  lemma RefusedExactly(input: Input, result: Evaluation)
    requires Evaluates(input, result)
    ensures result.status == Failed && result.reason == InvalidWindow <==> input.windowDays <= 0
    ensures result.status == UnsupportedDirection <==> input.windowDays > 0 && input.direction == Unsupported
    ensures result.status == Pending <==>
              && input.windowDays > 0 && input.direction != Unsupported
              && |TradingDates(input.marketDates, input.recommendDate)| < input.windowDays
  {
    hide ByDate, TradingDates, Quoted, AllValid, MetricsOf, Coverage;
  }

  /** The quotes counted are the quoted dates among the window's dates that have passed. */
  lemma CountsTheQuotedDates(input: Input, result: Evaluation)
    requires Evaluates(input, result) && input.windowDays > 0 && input.direction != Unsupported
    ensures var dates := TradingDates(input.marketDates, input.recommendDate);
            result.actual == |set k | 0 <= k < |dates| && k < input.windowDays && dates[k] in ByDate(input.quotes)|
  {
    hide ByDate, TradingDates, Quoted, AllValid, MetricsOf, Coverage;
    var dates, byDate := TradingDates(input.marketDates, input.recommendDate), ByDate(input.quotes);
    var elapsed := dates[..if |dates| < input.windowDays then |dates| else input.windowDays];
    assert result.actual == |Quoted(byDate, elapsed)|;
    QuotedCount(byDate, elapsed);
    assert (set k | 0 <= k < |elapsed| && elapsed[k] in byDate)
        == set k | 0 <= k < |dates| && k < input.windowDays && dates[k] in byDate;
  }

  /** The base is the earliest quote from the recommendation on, with its close; without one there is none. */
  lemma ReportsTheBase(input: Input, result: Evaluation)
    requires Evaluates(input, result) && input.windowDays > 0 && input.direction != Unsupported
    ensures var byDate := ByDate(input.quotes);
            match result.baseDate
            case None => result.baseClose == None && forall d :: d in byDate ==> d < input.recommendDate
            case Some(base) =>
              && base in byDate && base >= input.recommendDate && result.baseClose == Some(byDate[base].close)
              && forall d :: d in byDate && d >= input.recommendDate ==> base <= d
  {
    hide ByDate, TradingDates, Quoted, AllValid, MetricsOf, Coverage;
  }

  /** So a fully quoted window of sound prices behind a priced base is READY whatever coverage is demanded. */
  lemma FullWindowIsReady(input: Input, result: Evaluation)
    requires Evaluates(input, result) && IsMature(input) && PricesSound(input)
    requires forall k :: 0 <= k < |Window(input)| ==> IsQuoted(input, Window(input)[k])
    ensures result.status == Ready && result.actual == input.windowDays
  {
    hide TradingDates, PricesSound, IsQuoted, ByDate;
    DecidedExactly(input, result);
    var byDate, window := ByDate(input.quotes), Window(input);
    forall k | 0 <= k < |window| ensures window[k] in byDate {
      QuotedExactly(input, window[k]);
    }
    AllQuoted(byDate, window);
    assert result.actual == |Quoted(byDate, window)| by {
      hide Quoted, AllValid, MetricsOf, Coverage;
    }
    AllOfWindow(input.minCoverage, input.windowDays);
  }

  lemma {:induction false} AllQuoted(byDate: map<int, Quote>, dates: seq<int>)
    requires forall k :: 0 <= k < |dates| ==> dates[k] in byDate
    ensures |Quoted(byDate, dates)| == |dates|
  {
    if dates != [] {
      AllQuoted(byDate, dates[..|dates| - 1]);
    }
  }

  lemma AllOfWindow(share: real, days: int)
    requires days > 0
    ensures share <= 1.0 ==> days as real >= share * days as real
  {
    if share <= 1.0 {
      assert (1.0 - share) * days as real >= 0.0;
    }
  }

  // ----- what a READY result reports -----

  /** What one unit gains from one price to a later one: a long position by the rise, a short one by the fall. */
  function Change(direction: Direction, before: real, after: real): real
    requires before > 0.0 && after > 0.0
  {
    if direction == Short then before / after - 1.0 else after / before - 1.0
  }

  /** The most a position entered at `entry` stood to gain during the day of the quote. */
  function BestChange(direction: Direction, entry: real, q: Quote): real
    requires entry > 0.0 && SoundQuote(q)
  {
    if direction == Short then entry / q.low - 1.0 else q.high / entry - 1.0
  }

  /** The most it stood to lose. */
  function WorstChange(direction: Direction, entry: real, q: Quote): real
    requires entry > 0.0 && SoundQuote(q)
  {
    if direction == Short then entry / q.high - 1.0 else q.low / entry - 1.0
  }

  ghost predicate SoundQuotes(quotes: seq<Quote>) {
    forall i :: 0 <= i < |quotes| ==> SoundQuote(quotes[i])
  }

  ghost predicate DatesAscend(quotes: seq<Quote>) {
    forall i, j :: 0 <= i < j < |quotes| ==> quotes[i].date < quotes[j].date
  }

  /** The extreme ratios, each with the first day that reaches it. */
  ghost predicate ExtremesOf(m: Metrics, direction: Direction, entry: real, quotes: seq<Quote>)
    requires entry > 0.0 && SoundQuotes(quotes)
  {
    && (exists i :: 0 <= i < |quotes| && quotes[i].date == m.bestDate
                    && BestChange(direction, entry, quotes[i]) == m.favorable)
    && (exists i :: 0 <= i < |quotes| && quotes[i].date == m.worstDate
                    && WorstChange(direction, entry, quotes[i]) == m.adverse)
    && (forall i :: 0 <= i < |quotes| ==>
          && m.adverse <= WorstChange(direction, entry, quotes[i])
          && BestChange(direction, entry, quotes[i]) <= m.favorable
          && (quotes[i].date < m.worstDate ==> m.adverse < WorstChange(direction, entry, quotes[i]))
          && (quotes[i].date < m.bestDate ==> BestChange(direction, entry, quotes[i]) < m.favorable))
  }

  /** The deepest loss from the entry or an earlier close to a later close, 0 if there is none. */
  ghost predicate DrawdownOf(d: real, direction: Direction, entry: real, quotes: seq<Quote>)
    requires entry > 0.0 && SoundQuotes(quotes)
  {
    && d <= 0.0
    && (forall i :: 0 <= i < |quotes| ==> d <= Change(direction, entry, quotes[i].close))
    && (forall i, j :: 0 <= i <= j < |quotes| ==> d <= Change(direction, quotes[i].close, quotes[j].close))
    && (|| d == 0.0
        || (exists i :: 0 <= i < |quotes| && d == Change(direction, entry, quotes[i].close))
        || (exists i, j :: 0 <= i <= j < |quotes| && d == Change(direction, quotes[i].close, quotes[j].close)))
  }

  lemma ChangesCompare(direction: Direction, entry: real, p: Quote, q: Quote)
    requires entry > 0.0 && SoundQuote(p) && SoundQuote(q) && direction != Unsupported
    ensures direction == Long ==>
              && (p.high <= q.high <==> BestChange(direction, entry, p) <= BestChange(direction, entry, q))
              && (p.low <= q.low <==> WorstChange(direction, entry, p) <= WorstChange(direction, entry, q))
    ensures direction == Short ==>
              && (p.low <= q.low <==> BestChange(direction, entry, q) <= BestChange(direction, entry, p))
              && (p.high <= q.high <==> WorstChange(direction, entry, q) <= WorstChange(direction, entry, p))
  {
    DivideBoth(p.high, q.high, entry);
    DivideBoth(p.low, q.low, entry);
  }

  lemma ExtremesMeasured(m: Metrics, direction: Direction, entry: real, exit: real, quotes: seq<Quote>, threshold: real)
    requires entry > 0.0 && exit > 0.0 && quotes != [] && AllValid(quotes) && SoundQuotes(quotes)
    requires DatesAscend(quotes) && direction != Unsupported
    requires m == MetricsOf(direction, entry, exit, quotes, threshold)
    ensures ExtremesOf(m, direction, entry, quotes)
  {
    var top, bottom := FirstMax(Highs(quotes)), FirstMin(Lows(quotes));
    var best, worst := if direction == Short then bottom else top, if direction == Short then top else bottom;
    assert m.favorable == BestChange(direction, entry, quotes[best]) && m.bestDate == quotes[best].date;
    assert m.adverse == WorstChange(direction, entry, quotes[worst]) && m.worstDate == quotes[worst].date;
    forall i | 0 <= i < |quotes|
      ensures m.adverse <= WorstChange(direction, entry, quotes[i])
      ensures BestChange(direction, entry, quotes[i]) <= m.favorable
      ensures quotes[i].date < m.worstDate ==> m.adverse < WorstChange(direction, entry, quotes[i])
      ensures quotes[i].date < m.bestDate ==> BestChange(direction, entry, quotes[i]) < m.favorable
    {
      assert Highs(quotes)[i] <= Highs(quotes)[top] && Lows(quotes)[i] >= Lows(quotes)[bottom];
      assert i < top ==> Highs(quotes)[i] < Highs(quotes)[top];
      assert i < bottom ==> Lows(quotes)[i] > Lows(quotes)[bottom];
      assert quotes[i].date < quotes[best].date ==> i < best;
      assert quotes[i].date < quotes[worst].date ==> i < worst;
      hide MetricsOf, BestChange, WorstChange, DatesAscend;
      ChangesCompare(direction, entry, quotes[i], quotes[best]);
      ChangesCompare(direction, entry, quotes[best], quotes[i]);
      ChangesCompare(direction, entry, quotes[i], quotes[worst]);
      ChangesCompare(direction, entry, quotes[worst], quotes[i]);
    }
  }

  lemma QuotientOfQuotients(a: real, b: real, c: real)
    requires a > 0.0 && b > 0.0 && c > 0.0
    ensures (a / c) / (b / c) == a / b
    ensures (c / a) / (c / b) == b / a
  {
    RatioPositive(b, c);
    RatioPositive(c, b);
    RatioPositive(c, a);
    var x, y := a / c, b / c;
    assert x * c == a && y * c == b;
    assert (a / b) * y * c == a;
    Cancelled((a / b) * y, x, c);
    var u, v := c / a, c / b;
    assert u * a == c && v * b == c;
    assert (b / a) * a == b;
    assert (b / a) * v * a == c;
    Cancelled((b / a) * v, u, a);
  }

  lemma Cancelled(x: real, y: real, c: real)
    requires c > 0.0 && x * c == y * c
    ensures x == y
  {
  }

  lemma DrawdownMeasured(direction: Direction, entry: real, quotes: seq<Quote>)
    requires entry > 0.0 && AllValid(quotes) && SoundQuotes(quotes) && direction != Unsupported
    ensures DrawdownOf(MaxDrawdown(Equities(direction, entry, quotes)), direction, entry, quotes)
  {
    var e := Equities(direction, entry, quotes);
    EquitiesPositive(direction, entry, quotes);
    OnePassFindsDeepestFall(e);
    var d := MaxDrawdown(e);
    hide MaxDrawdown;
    forall i, j | -1 <= i <= j < |e| && 0 <= j
      ensures Fall(e, i, j) == Change(direction, if i == -1 then entry else quotes[i].close, quotes[j].close)
    {
      if i >= 0 {
        QuotientOfQuotients(quotes[j].close, quotes[i].close, entry);
      }
    }
    forall i, j | 0 <= i <= j < |quotes| ensures d <= Change(direction, quotes[i].close, quotes[j].close) {
      assert d <= Fall(e, i, j);
    }
    forall i | 0 <= i < |quotes| ensures d <= Change(direction, entry, quotes[i].close) {
      assert d <= Fall(e, -1, i);
    }
    if d != 0.0 {
      var i, j :| -1 <= i <= j < |e| && 0 <= j && d == Fall(e, i, j);
      assert i == -1 ==> d == Change(direction, entry, quotes[j].close);
    }
  }

  lemma {:induction false} QuotesAscend(byDate: map<int, Quote>, dates: seq<int>)
    requires StrictlyAscending(dates) && forall d :: d in byDate ==> byDate[d].date == d
    ensures DatesAscend(Quoted(byDate, dates))
    ensures forall i :: 0 <= i < |Quoted(byDate, dates)| ==> Quoted(byDate, dates)[i].date in dates
  {
    if dates != [] {
      var front := dates[..|dates| - 1];
      QuotesAscend(byDate, front);
      assert forall d :: d in front ==> d < dates[|dates| - 1];
    }
  }

  /** The figures of a READY result: its prices, its returns, its extremes with their days, and its drawdown. */
  lemma ReadyReports(input: Input, result: Evaluation)
    requires Evaluates(input, result) && result.status == Ready
    ensures IsMature(input) && result.metrics.Some?
    ensures var byDate, window, n := ByDate(input.quotes), Window(input), input.windowDays;
            var m, quotes := result.metrics.value, Quoted(byDate, window);
            && window[0] in byDate && window[n - 1] in byDate && quotes != []
            && quotes[0] == byDate[window[0]] && quotes[|quotes| - 1] == byDate[window[n - 1]]
            && SoundQuotes(quotes) && DatesAscend(quotes)
            && result.entryDate == Some(window[0]) && result.entryPrice == Some(quotes[0].open)
            && result.exitDate == Some(window[n - 1]) && result.exitClose == Some(quotes[|quotes| - 1].close)
            && m.rawReturn == result.exitClose.value / result.entryPrice.value - 1.0
            && m.directionReturn == Change(input.direction, result.entryPrice.value, result.exitClose.value)
            && (m.win <==> m.directionReturn > input.winThreshold)
            && ExtremesOf(m, input.direction, result.entryPrice.value, quotes)
            && DrawdownOf(m.drawdown, input.direction, result.entryPrice.value, quotes)
  {
    hide Evaluate, TradingDates, Quoted, AllValid, MetricsOf, ByDate, ExtremesOf, DrawdownOf, DatesAscend;
    var dates, byDate := TradingDates(input.marketDates, input.recommendDate), ByDate(input.quotes);
    var base :| IsBase(byDate, input.recommendDate, base) && result == Evaluate(input, dates, byDate, base);
    ReadyShape(input, dates, byDate, base);
    ReadyPrices(input, dates, byDate, base);
    var window := Window(input);
    var quotes := Quoted(byDate, window);
    SoundnessAgrees(quotes);
    FirstQuoted(byDate, window);
    TradingDatesAscend(input.marketDates, input.recommendDate);
    ByDateKeys(input.quotes);
    QuotesAscend(byDate, window);
    var entry, exit := byDate[window[0]].open, byDate[window[input.windowDays - 1]].close;
    var m := result.metrics.value;
    Returns(input.direction, entry, exit, quotes, input.winThreshold);
    ExtremesMeasured(m, input.direction, entry, exit, quotes, input.winThreshold);
    DrawdownMeasured(input.direction, entry, quotes);
  }

  lemma ReadyPrices(input: Input, dates: seq<int>, byDate: map<int, Quote>, base: Option<int>)
    requires base.Some? ==> base.value in byDate
    requires Evaluate(input, dates, byDate, base).status == Ready
    requires 0 < input.windowDays <= |dates| && dates[0] in byDate && dates[input.windowDays - 1] in byDate
    ensures var result := Evaluate(input, dates, byDate, base);
            && result.entryPrice == Some(byDate[dates[0]].open)
            && result.exitClose == Some(byDate[dates[input.windowDays - 1]].close)
  {
    hide MetricsOf, AllValid, Quoted, Coverage;
  }

  lemma SoundnessAgrees(quotes: seq<Quote>)
    requires AllValid(quotes)
    ensures SoundQuotes(quotes)
  {
    forall i | 0 <= i < |quotes| ensures SoundQuote(quotes[i]) {
      assert ValidQuote(quotes[i]);
    }
  }

  lemma {:induction false} FirstQuoted(byDate: map<int, Quote>, dates: seq<int>)
    requires dates != [] && dates[0] in byDate
    ensures Quoted(byDate, dates) != [] && Quoted(byDate, dates)[0] == byDate[dates[0]]
  {
    if |dates| == 1 {
      assert dates[..0] == [];
    } else {
      FirstQuoted(byDate, dates[..|dates| - 1]);
    }
  }

  lemma Returns(direction: Direction, entry: real, exit: real, quotes: seq<Quote>, threshold: real)
    requires entry > 0.0 && exit > 0.0 && quotes != [] && AllValid(quotes) && direction != Unsupported
    ensures var m := MetricsOf(direction, entry, exit, quotes, threshold);
            && m.rawReturn == exit / entry - 1.0 && m.directionReturn == Change(direction, entry, exit)
            && (m.win <==> m.directionReturn > threshold)
            && m.drawdown == MaxDrawdown(Equities(direction, entry, quotes))
  {
  }
}
