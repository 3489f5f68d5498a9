/** The evaluator as it runs: one-pass loops over lists and maps, each tied to what it means. */
module Evaluator {
  import opened Outcomes
  import opened Totals
  import opened Sorting
  import opened Evaluations

  method TradingDatesAfter(values: seq<int>, date: int) returns (dates: seq<int>)
    ensures dates == TradingDates(values, date)
  {
    var seen: set<int> := {};
    dates := [];
    for i := 0 to |values|
      invariant dates == LaterDates(values[..i], date)
      invariant forall d :: d in seen <==> d in dates
    {
      assert values[..i + 1][..i] == values[..i];
      var value := values[i];
      if value == 0 || value <= date {
        continue;
      }
      if value in seen {
        continue;
      }
      seen := seen + {value};
      dates := dates + [value];
    }
    assert values[..|values|] == values;
    dates := Sort(dates);
  }

  method IndexByDate(quotes: seq<Quote>) returns (byDate: map<int, Quote>)
    ensures byDate == ByDate(quotes)
  {
    byDate := map[];
    for i := 0 to |quotes|
      invariant byDate == ByDate(quotes[..i])
    {
      assert quotes[..i + 1][..i] == quotes[..i];
      byDate := byDate[quotes[i].date := quotes[i]];
    }
    assert quotes[..|quotes|] == quotes;
  }

  /** The quoted dates in order: the quotes of a map, in any order, sorted by date. */
  method SortedDates(byDate: map<int, Quote>) returns (dates: seq<int>)
    ensures StrictlyAscending(dates)
    ensures forall d :: d in dates <==> d in byDate
  {
    dates := [];
    var rest: set<int> := byDate.Keys;
    while rest != {}
      invariant rest <= byDate.Keys && NoRepeats(dates)
      invariant forall d :: d in dates <==> d in byDate && d !in rest
      decreases |rest|
    {
      var d := Pick(rest);
      rest := rest - {d};
      dates := dates + [d];
    }
    SortDistinct(dates);
    dates := Sort(dates);
  }

  method FirstOnOrAfter(dates: seq<int>, byDate: map<int, Quote>, date: int) returns (base: Option<int>)
    requires StrictlyAscending(dates) && forall d :: d in dates <==> d in byDate
    ensures IsBase(byDate, date, base)
  {
    for i := 0 to |dates|
      invariant forall j :: 0 <= j < i ==> dates[j] < date
    {
      if dates[i] >= date {
        assert dates[i] in dates;
        return Some(dates[i]);
      }
    }
    return None;
  }

  method CountQuotesOnDates(byDate: map<int, Quote>, dates: seq<int>) returns (count: nat)
    ensures count == |Quoted(byDate, dates)|
  {
    count := 0;
    for i := 0 to |dates|
      invariant count == |Quoted(byDate, dates[..i])|
    {
      assert dates[..i + 1][..i] == dates[..i];
      if dates[i] in byDate {
        count := count + 1;
      }
    }
    assert dates[..|dates|] == dates;
  }

  method QuotesOnDates(byDate: map<int, Quote>, dates: seq<int>) returns (quotes: seq<Quote>)
    ensures quotes == Quoted(byDate, dates)
  {
    quotes := [];
    for i := 0 to |dates|
      invariant quotes == Quoted(byDate, dates[..i])
    {
      assert dates[..i + 1][..i] == dates[..i];
      if dates[i] in byDate {
        quotes := quotes + [byDate[dates[i]]];
      }
    }
    assert dates[..|dates|] == dates;
  }

  /** The extreme prices and the first dates that reach them. */
  method Extremes(quotes: seq<Quote>) returns (maxHigh: real, minLow: real, highDate: int, lowDate: int)
    requires quotes != []
    ensures maxHigh == Highest(quotes).high && highDate == Highest(quotes).date
    ensures minLow == Lowest(quotes).low && lowDate == Lowest(quotes).date
  {
    maxHigh, minLow, highDate, lowDate := quotes[0].high, quotes[0].low, quotes[0].date, quotes[0].date;
    for i := 1 to |quotes|
      invariant maxHigh == Highest(quotes[..i]).high && highDate == Highest(quotes[..i]).date
      invariant minLow == Lowest(quotes[..i]).low && lowDate == Lowest(quotes[..i]).date
    {
      assert Highs(quotes[..i + 1])[..i] == Highs(quotes[..i]);
      assert Lows(quotes[..i + 1])[..i] == Lows(quotes[..i]);
      if quotes[i].high > maxHigh {
        maxHigh, highDate := quotes[i].high, quotes[i].date;
      }
      if quotes[i].low < minLow {
        minLow, lowDate := quotes[i].low, quotes[i].date;
      }
    }
    assert quotes[..|quotes|] == quotes;
  }

  method CalculateMaxDrawdown(direction: Direction, entry: real, quotes: seq<Quote>) returns (drawdown: real)
    requires entry > 0.0 && AllValid(quotes)
    ensures drawdown == MaxDrawdown(Equities(direction, entry, quotes))
  {
    var e := Equities(direction, entry, quotes);
    var peak := 1.0;
    drawdown := 0.0;
    for i := 0 to |quotes|
      invariant peak == Peak(e[..i]) && drawdown == MaxDrawdown(e[..i])
    {
      assert e[..i + 1][..i] == e[..i];
      var equity := quotes[i].close / entry;
      if direction == Short {
        equity := entry / quotes[i].close;
      }
      if equity > peak {
        peak := equity;
      }
      var fall := equity / peak - 1.0;
      if fall < drawdown {
        drawdown := fall;
      }
    }
    assert e[..|e|] == e;
  }

  method EveryQuoteValid(quotes: seq<Quote>) returns (valid: bool)
    ensures valid == AllValid(quotes)
  {
    for i := 0 to |quotes|
      invariant AllValid(quotes[..i])
    {
      if !ValidQuote(quotes[i]) {
        return false;
      }
      assert quotes[..i + 1][..i] == quotes[..i];
    }
    assert quotes[..|quotes|] == quotes;
    return true;
  }

  method MeasureWindow(direction: Direction, entry: real, exit: real, window: seq<Quote>, winThreshold: real)
    returns (metrics: Metrics)
    requires entry > 0.0 && exit > 0.0 && window != [] && AllValid(window)
    ensures metrics == MetricsOf(direction, entry, exit, window, winThreshold)
  {
    var raw := exit / entry - 1.0;
    var directional := raw;
    if direction == Short {
      directional := entry / exit - 1.0;
    }
    var maxHigh, minLow, highDate, lowDate := Extremes(window);
    var drawdown := CalculateMaxDrawdown(direction, entry, window);
    assert ValidQuote(Highest(window)) && ValidQuote(Lowest(window));
    if direction == Short {
      metrics := Metrics(raw, directional, entry / minLow - 1.0, entry / maxHigh - 1.0, drawdown,
          directional > winThreshold, lowDate, highDate);
    } else {
      metrics := Metrics(raw, directional, maxHigh / entry - 1.0, minLow / entry - 1.0, drawdown,
          directional > winThreshold, highDate, lowDate);
    }
  }

  method EvaluateWindow(input: Input) returns (result: Evaluation)
    ensures Evaluates(input, result)
  {
    hide MetricsOf, AllValid, Quoted, ByDate, TradingDates;
    result := NOTHING.(expected := input.windowDays);
    var byDate := IndexByDate(input.quotes);
    var quoteDates := SortedDates(byDate);
    var base := FirstOnOrAfter(quoteDates, byDate, input.recommendDate);
    var dates := TradingDatesAfter(input.marketDates, input.recommendDate);
    ghost var expected := Evaluate(input, dates, byDate, base);
    if input.windowDays <= 0 {
      result := result.(status := Failed, reason := InvalidWindow);
      return;
    }
    if input.direction == Unsupported {
      result := result.(status := UnsupportedDirection, reason := DirectionNotSupported);
      return;
    }
    if base.Some? {
      result := result.(baseDate := base, baseClose := Some(byDate[base.value].close));
    }
    var window := dates[..if |dates| < input.windowDays then |dates| else input.windowDays];
    var actual := CountQuotesOnDates(byDate, window);
    result := result.(
        actual := actual,
        missing := if input.windowDays - actual > 0 then input.windowDays - actual else 0);
    if dates != [] {
      result := result.(entryDate := Some(dates[0]));
      if dates[0] in byDate {
        result := result.(entryPrice := Some(byDate[dates[0]].open));
      }
    }
    if |dates| < input.windowDays {
      result := result.(status := Pending, reason := WindowNotMatured);
      assert result == expected;
      return;
    }
    result := Mature(input, window, byDate, base, result);
  }

  /** The rest of the evaluation, once the window has matured. */
  method Mature(input: Input, window: seq<int>, byDate: map<int, Quote>, base: Option<int>,
                counted: Evaluation) returns (result: Evaluation)
    requires window != [] && input.windowDays > 0
    requires base.Some? ==> base.value in byDate
    ensures result == Matured(input, window, byDate, base, counted)
  {
    hide MetricsOf, AllValid, Quoted;
    result := counted;
    var entryDate, exitDate := window[0], window[|window| - 1];
    result := result.(entryDate := Some(entryDate), exitDate := Some(exitDate));
    if entryDate !in byDate {
      result := result.(status := Incomplete, reason := EntryQuoteMissing);
      return;
    }
    result := result.(entryPrice := Some(byDate[entryDate].open));
    if exitDate !in byDate {
      result := result.(status := Incomplete, reason := ExitQuoteMissing);
      return;
    }
    result := result.(exitClose := Some(byDate[exitDate].close));
    var quotes := QuotesOnDates(byDate, window);
    if result.actual as real / input.windowDays as real < Coverage(input.minCoverage) {
      result := result.(status := Incomplete, reason := QuoteGap);
      return;
    }
    var valid := EveryQuoteValid(quotes);
    if base.None? || byDate[base.value].close <= 0.0 || byDate[entryDate].open <= 0.0 || !valid {
      result := result.(status := Failed, reason := InvalidPrice);
      return;
    }
    ExitValid(byDate, window);
    var metrics := MeasureWindow(input.direction, byDate[entryDate].open, byDate[exitDate].close, quotes,
        input.winThreshold);
    result := result.(status := Ready, metrics := Some(metrics));
  }

  lemma ExitValid(byDate: map<int, Quote>, window: seq<int>)
    requires window != [] && window[|window| - 1] in byDate && AllValid(Quoted(byDate, window))
    ensures byDate[window[|window| - 1]].close > 0.0 && Quoted(byDate, window) != []
  {
    QuotedMembers(byDate, window);
    assert byDate[window[|window| - 1]] in Quoted(byDate, window);
  }
}
