/**
 What a recommendation window evaluates to. Dates are day numbers (0 is the missing date) and
 prices are reals. The evaluation is a function of the ascending trading dates after the
 recommendation and of the last quote given for each date.
 */
module Evaluations {
  import opened Outcomes
  import opened Sorting

  datatype Quote = Quote(date: int, open: real, high: real, low: real, close: real)

  datatype Direction = Long | Short | Unsupported

  datatype Input = Input(recommendDate: int, direction: Direction, windowDays: int,
                         quotes: seq<Quote>, marketDates: seq<int>, winThreshold: real, minCoverage: real)

  datatype Status = Ready | Pending | Incomplete | UnsupportedDirection | Failed

  datatype Reason =
    | NoReason
    | WindowNotMatured
    | QuoteGap
    | EntryQuoteMissing
    | ExitQuoteMissing
    | InvalidPrice
    | InvalidWindow
    | DirectionNotSupported

  datatype Metrics = Metrics(rawReturn: real, directionReturn: real, favorable: real, adverse: real,
                             drawdown: real, win: bool, bestDate: int, worstDate: int)

  datatype Evaluation = Evaluation(status: Status, reason: Reason,
                                   baseDate: Option<int>, baseClose: Option<real>,
                                   entryDate: Option<int>, entryPrice: Option<real>,
                                   exitDate: Option<int>, exitClose: Option<real>,
                                   expected: int, actual: int, missing: int, metrics: Option<Metrics>)

  const NOTHING := Evaluation(Pending, NoReason, None, None, None, None, None, None, 0, 0, 0, None)

  // ----- dates and quotes -----

  /** The dates after `date`, in order of first appearance and without repetition. */
  function LaterDates(values: seq<int>, date: int): seq<int> {
    if values == [] then []
    else
      var front := LaterDates(values[..|values| - 1], date);
      var last := values[|values| - 1];
      if last == 0 || last <= date || last in front then front else front + [last]
  }

  function TradingDates(values: seq<int>, date: int): seq<int> {
    Sort(LaterDates(values, date))
  }

  lemma {:induction false} LaterDatesMembers(values: seq<int>, date: int)
    ensures NoRepeats(LaterDates(values, date))
    ensures forall d :: d in LaterDates(values, date) <==> d in values && d != 0 && d > date
  {
    if values != [] {
      LaterDatesMembers(values[..|values| - 1], date);
      assert values == values[..|values| - 1] + [values[|values| - 1]];
    }
  }

  lemma TradingDatesAscend(values: seq<int>, date: int)
    ensures StrictlyAscending(TradingDates(values, date))
    ensures forall d :: d in TradingDates(values, date) <==> d in values && d != 0 && d > date
  {
    LaterDatesMembers(values, date);
    SortDistinct(LaterDates(values, date));
  }

  /** The last quote given for each date. */
  function ByDate(quotes: seq<Quote>): map<int, Quote> {
    if quotes == [] then map[]
    else
      var last := quotes[|quotes| - 1];
      ByDate(quotes[..|quotes| - 1])[last.date := last]
  }

  lemma {:induction false} ByDateKeys(quotes: seq<Quote>)
    ensures forall d :: d in ByDate(quotes) ==> ByDate(quotes)[d].date == d && ByDate(quotes)[d] in quotes
    ensures forall q :: q in quotes ==> q.date in ByDate(quotes)
  {
    if quotes != [] {
      ByDateKeys(quotes[..|quotes| - 1]);
      assert quotes == quotes[..|quotes| - 1] + [quotes[|quotes| - 1]];
    }
  }

  /** The earliest quoted date that is not before the recommendation. */
  ghost predicate IsBase(byDate: map<int, Quote>, date: int, base: Option<int>) {
    match base
    case Some(d) => d in byDate && d >= date && forall other :: other in byDate && other >= date ==> d <= other
    case None => forall other :: other in byDate ==> other < date
  }

  function Quoted(byDate: map<int, Quote>, dates: seq<int>): seq<Quote> {
    if dates == [] then []
    else
      var last := dates[|dates| - 1];
      Quoted(byDate, dates[..|dates| - 1]) + if last in byDate then [byDate[last]] else []
  }

  lemma {:induction false} QuotedMembers(byDate: map<int, Quote>, dates: seq<int>)
    ensures |Quoted(byDate, dates)| <= |dates|
    ensures forall d :: d in dates && d in byDate ==> byDate[d] in Quoted(byDate, dates)
    ensures forall q :: q in Quoted(byDate, dates) ==> exists d :: d in dates && d in byDate && byDate[d] == q
  {
    if dates != [] {
      QuotedMembers(byDate, dates[..|dates| - 1]);
      assert dates == dates[..|dates| - 1] + [dates[|dates| - 1]];
    }
  }

  lemma {:induction false} QuotedAgree(a: map<int, Quote>, b: map<int, Quote>, dates: seq<int>)
    requires forall d :: d in dates ==> (d in a <==> d in b)
    requires forall d :: d in dates && d in a && d in b ==> a[d] == b[d]
    ensures Quoted(a, dates) == Quoted(b, dates)
  {
    if dates != [] {
      QuotedAgree(a, b, dates[..|dates| - 1]);
    }
  }

  // ----- extremes -----

  /** The first position of the largest value. */
  function FirstMax(v: seq<real>): (k: nat)
    requires v != []
    ensures k < |v|
    ensures forall j :: 0 <= j < |v| ==> v[j] <= v[k]
    ensures forall j :: 0 <= j < k ==> v[j] < v[k]
  {
    if |v| == 1 then 0
    else
      var k := FirstMax(v[..|v| - 1]);
      if v[|v| - 1] > v[k] then |v| - 1 else k
  }

  /** The first position of the smallest value. */
  function FirstMin(v: seq<real>): (k: nat)
    requires v != []
    ensures k < |v|
    ensures forall j :: 0 <= j < |v| ==> v[j] >= v[k]
    ensures forall j :: 0 <= j < k ==> v[j] > v[k]
  {
    if |v| == 1 then 0
    else
      var k := FirstMin(v[..|v| - 1]);
      if v[|v| - 1] < v[k] then |v| - 1 else k
  }

  function Highs(quotes: seq<Quote>): (v: seq<real>)
    ensures |v| == |quotes|
  {
    seq(|quotes|, i requires 0 <= i < |quotes| => quotes[i].high)
  }

  function Lows(quotes: seq<Quote>): (v: seq<real>)
    ensures |v| == |quotes|
  {
    seq(|quotes|, i requires 0 <= i < |quotes| => quotes[i].low)
  }

  function Highest(quotes: seq<Quote>): Quote
    requires quotes != []
  {
    quotes[FirstMax(Highs(quotes))]
  }

  function Lowest(quotes: seq<Quote>): Quote
    requires quotes != []
  {
    quotes[FirstMin(Lows(quotes))]
  }

  // ----- equity and drawdown -----

  /** The value of one unit of the position at a closing price. */
  function Equity(direction: Direction, entry: real, close: real): real
    requires entry > 0.0 && close > 0.0
  {
    if direction == Short then entry / close else close / entry
  }

  predicate ValidQuote(quote: Quote) {
    quote.open > 0.0 && quote.high > 0.0 && quote.low > 0.0 && quote.close > 0.0 && quote.high >= quote.low
  }

  predicate AllValid(quotes: seq<Quote>) {
    forall i :: 0 <= i < |quotes| ==> ValidQuote(quotes[i])
  }

  function Equities(direction: Direction, entry: real, quotes: seq<Quote>): (e: seq<real>)
    requires entry > 0.0 && AllValid(quotes)
    ensures |e| == |quotes|
  {
    seq(|quotes|, i requires 0 <= i < |quotes| => Equity(direction, entry, quotes[i].close))
  }

  function Larger(x: real, y: real): real {
    if x > y then x else y
  }

  function Smaller(x: real, y: real): real {
    if x < y then x else y
  }

  /** The largest equity so far, counting the 1 the position starts from. */
  function Peak(e: seq<real>): (p: real)
    ensures p >= 1.0
  {
    if e == [] then 1.0 else Larger(Peak(e[..|e| - 1]), e[|e| - 1])
  }

  function MaxDrawdown(e: seq<real>): real {
    if e == [] then 0.0 else Smaller(MaxDrawdown(e[..|e| - 1]), e[|e| - 1] / Peak(e) - 1.0)
  }

  /** The fall to the equity of day j from the equity of an earlier day i, or from the start (i = -1). */
  function Fall(e: seq<real>, i: int, j: int): real
    requires -1 <= i <= j < |e| && 0 <= j && (i >= 0 ==> e[i] != 0.0)
  {
    e[j] / (if i == -1 then 1.0 else e[i]) - 1.0
  }

  ghost predicate Positive(e: seq<real>) {
    forall i :: 0 <= i < |e| ==> e[i] > 0.0
  }

  /** The deepest fall between any two moments in order, 0 if there is none. */
  ghost predicate IsDeepestFall(e: seq<real>, d: real)
    requires Positive(e)
  {
    && d <= 0.0
    && (forall i, j :: -1 <= i <= j < |e| && 0 <= j ==> d <= Fall(e, i, j))
    && (d == 0.0 || exists i, j :: -1 <= i <= j < |e| && 0 <= j && d == Fall(e, i, j))
  }

  lemma DeepestFallUnique(e: seq<real>, c: real, d: real)
    requires Positive(e) && IsDeepestFall(e, c) && IsDeepestFall(e, d)
    ensures c == d
  {
  }

  lemma {:induction false} PeakIsLargest(e: seq<real>)
    ensures forall i :: 0 <= i < |e| ==> e[i] <= Peak(e)
    ensures Peak(e) == 1.0 || exists i :: 0 <= i < |e| && e[i] == Peak(e)
  {
    if e != [] {
      PeakIsLargest(e[..|e| - 1]);
    }
  }

  lemma LargerDivisor(x: real, p: real, q: real)
    requires x > 0.0 && 0.0 < q <= p
    ensures x / p <= x / q
  {
    var a, b := x / p, x / q;
    assert a * p == x && b * q == x;
    assert (a - b) * p == b * (q - p) <= 0.0;
  }

  /** One pass with a running peak finds the deepest fall over all pairs of days. */
  lemma {:induction false} OnePassFindsDeepestFall(e: seq<real>)
    requires Positive(e)
    ensures IsDeepestFall(e, MaxDrawdown(e))
  {
    if e != [] {
      var front, last := e[..|e| - 1], |e| - 1;
      OnePassFindsDeepestFall(front);
      PeakIsLargest(e);
      var d := MaxDrawdown(e);
      forall i, j | -1 <= i <= j < |e| && 0 <= j ensures d <= Fall(e, i, j) {
        if j < last {
          assert Fall(e, i, j) == Fall(front, i, j);
        } else {
          LargerDivisor(e[last], Peak(e), if i == -1 then 1.0 else e[i]);
        }
      }
      if d == e[last] / Peak(e) - 1.0 {
        var i :| -1 <= i <= last && Peak(e) == (if i == -1 then 1.0 else e[i]);
        assert d == Fall(e, i, last);
      } else if d != 0.0 {
        var i, j :| -1 <= i <= j < last && 0 <= j && d == Fall(front, i, j);
        assert d == Fall(e, i, j);
      }
    }
  }

  // ----- the evaluation -----

  function Coverage(value: real): real {
    if value <= 0.0 || value > 1.0 then 1.0 else value
  }

  function MetricsOf(direction: Direction, entry: real, exit: real, window: seq<Quote>, winThreshold: real): Metrics
    requires entry > 0.0 && exit > 0.0 && window != [] && AllValid(window)
  {
    var raw := exit / entry - 1.0;
    var directional := if direction == Short then entry / exit - 1.0 else raw;
    var high, low := Highest(window), Lowest(window);
    assert ValidQuote(high) && ValidQuote(low);
    var drawdown := MaxDrawdown(Equities(direction, entry, window));
    if direction == Short then
      Metrics(raw, directional, entry / low.low - 1.0, entry / high.high - 1.0, drawdown, directional > winThreshold,
          low.date, high.date)
    else
      Metrics(raw, directional, high.high / entry - 1.0, low.low / entry - 1.0, drawdown, directional > winThreshold,
          high.date, low.date)
  }

  /** The window once it has matured: `dates` are its trading dates, `base` the base date. */
  function Matured(input: Input, dates: seq<int>, byDate: map<int, Quote>, base: Option<int>,
                   soFar: Evaluation): Evaluation
    requires dates != [] && input.windowDays > 0
    requires base.Some? ==> base.value in byDate
  {
    var entryDate, exitDate := dates[0], dates[|dates| - 1];
    var window := Quoted(byDate, dates);
    var dated := soFar.(entryDate := Some(entryDate), exitDate := Some(exitDate));
    if entryDate !in byDate then
      dated.(status := Incomplete, reason := EntryQuoteMissing)
    else if exitDate !in byDate then
      dated.(entryPrice := Some(byDate[entryDate].open), status := Incomplete, reason := ExitQuoteMissing)
    else
      var priced := dated.(entryPrice := Some(byDate[entryDate].open), exitClose := Some(byDate[exitDate].close));
      if soFar.actual as real / input.windowDays as real < Coverage(input.minCoverage) then
        priced.(status := Incomplete, reason := QuoteGap)
      else if base.None? || byDate[base.value].close <= 0.0 || byDate[entryDate].open <= 0.0
              || !AllValid(window) then
        priced.(status := Failed, reason := InvalidPrice)
      else
        QuotedMembers(byDate, dates);
        assert byDate[exitDate] in window;
        priced.(status := Ready,
            metrics := Some(MetricsOf(input.direction, byDate[entryDate].open, byDate[exitDate].close, window,
                input.winThreshold)))
  }

  function Evaluate(input: Input, dates: seq<int>, byDate: map<int, Quote>, base: Option<int>): Evaluation
    requires base.Some? ==> base.value in byDate
  {
    var result := NOTHING.(expected := input.windowDays);
    if input.windowDays <= 0 then
      result.(status := Failed, reason := InvalidWindow)
    else if input.direction == Unsupported then
      result.(status := UnsupportedDirection, reason := DirectionNotSupported)
    else
      var elapsed := dates[..if |dates| < input.windowDays then |dates| else input.windowDays];
      var actual := |Quoted(byDate, elapsed)|;
      var counted := result.(
                     baseDate := base,
                     baseClose := if base.Some? then Some(byDate[base.value].close) else None,
                     actual := actual,
                     missing := if input.windowDays - actual > 0 then input.windowDays - actual else 0,
                     entryDate := if dates == [] then None else Some(dates[0]),
                     entryPrice := if dates != [] && dates[0] in byDate then Some(byDate[dates[0]].open) else None);
      if |dates| < input.windowDays then
        counted.(status := Pending, reason := WindowNotMatured)
      else
        Matured(input, elapsed, byDate, base, counted)
  }

  /** `result` is what the window of the input evaluates to. */
  ghost predicate Evaluates(input: Input, result: Evaluation) {
    exists base :: IsBase(ByDate(input.quotes), input.recommendDate, base)
                   && result == Evaluate(input, TradingDates(input.marketDates, input.recommendDate),
                      ByDate(input.quotes), base)
  }
}
