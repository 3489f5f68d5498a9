/**
 Which positions a replay day sells, which intents it buys and what the account is then worth, in
 terms of closes, gains, dates and limits.
 */
module ReplayLaws {
  import opened Totals
  import opened Ledger
  import opened ReplaySizing
  import opened ReplaySpec
  import opened ReplayLimits

  // ----- exits -----

  /** There is a previous close to judge by, and a bar with volume and range to sell on. */
  predicate Judged(day: Day, symbol: string) {
    && symbol in day.previousClose
    && symbol in day.bars && day.bars[symbol].volume > 0.0 && day.bars[symbol].high != day.bars[symbol].low
  }

  /** The gain at the close is strictly between the bounds that are set, and too few days have passed to give up. */
  ghost predicate HoldsOn(p: Position, close: real, date: int, rules: Rules)
    requires p.entryPrice > 0.0
  {
    var gain := close / p.entryPrice - 1.0;
    var passed := set i | 0 <= i < |rules.openDates| && p.entryDate < rules.openDates[i] <= date;
    && (rules.exits.stopLoss < 1.0 ==> gain > -rules.exits.stopLoss)
    && (rules.exits.takeProfit > -1.0 ==> gain < rules.exits.takeProfit)
    && (rules.exits.maxHolding > 0 ==> |passed| < rules.exits.maxHolding)
  }

  ghost predicate Stays(p: Position, day: Day, symbol: string, rules: Rules)
    requires p.entryPrice > 0.0
  {
    Judged(day, symbol) ==> HoldsOn(p, day.previousClose[symbol], day.date, rules)
  }

  lemma GainAgainst(close: real, entry: real, ratio: real)
    requires entry > 0.0
    ensures close <= entry * (1.0 + ratio) <==> close / entry - 1.0 <= ratio
    ensures close >= entry * (1.0 + ratio) <==> close / entry - 1.0 >= ratio
    ensures entry * (1.0 + ratio) > 0.0 <==> ratio > -1.0
  {
    var gain := close / entry - 1.0;
    assert (1.0 + gain) * entry == close;
    Scaled(gain - ratio, entry);
    Scaled(ratio - gain, entry);
    Scaled(1.0 + ratio, entry);
    assert (gain - ratio) * entry == close - entry * (1.0 + ratio);
  }

  lemma Scaled(x: real, entry: real)
    requires entry > 0.0
    ensures x * entry > 0.0 <==> x > 0.0
    ensures x * entry >= 0.0 <==> x >= 0.0
  {
  }

  lemma TriggeredExactly(p: Position, close: real, date: int, rules: Rules)
    requires p.entryPrice > 0.0
    ensures ExitTriggered(p, close, Held(rules.openDates, p.entryDate, date), rules.exits)
            <==> !HoldsOn(p, close, date, rules)
  {
    GainAgainst(close, p.entryPrice, -rules.exits.stopLoss);
    GainAgainst(close, p.entryPrice, rules.exits.takeProfit);
    assert Held(rules.openDates, p.entryDate, date)
        == |set i | 0 <= i < |rules.openDates| && p.entryDate < rules.openDates[i] <= date|;
  }

  /** The exits leave exactly the positions that stay, as they were. */
  lemma ExitsKeepExactly(h: Holding, day: Day, rules: Rules)
    requires forall symbol :: symbol in h.positions ==> h.positions[symbol].entryPrice > 0.0
    ensures var after := AfterExits(h, day, rules).positions;
            && (forall symbol :: symbol in after <==>
                  symbol in h.positions && Stays(h.positions[symbol], day, symbol, rules))
            && (forall symbol :: symbol in after ==> after[symbol] == h.positions[symbol])
    ensures AfterExits(h, day, rules).orders
         == |set symbol | symbol in h.positions && symbol in day.bars && symbol in day.previousClose
                          && !HoldsOn(h.positions[symbol], day.previousClose[symbol], day.date, rules)|
  {
    hide HoldsOn, ExitTriggered, Held;
    forall symbol | symbol in h.positions && symbol in day.previousClose
      ensures ExitTriggered(h.positions[symbol], day.previousClose[symbol],
                Held(rules.openDates, h.positions[symbol].entryDate, day.date), rules.exits)
              <==> !HoldsOn(h.positions[symbol], day.previousClose[symbol], day.date, rules)
    {
      TriggeredExactly(h.positions[symbol], day.previousClose[symbol], day.date, rules);
    }
    assert MustExits(h.positions, day, rules)
        == set symbol | symbol in h.positions && symbol in day.bars && symbol in day.previousClose
                        && !HoldsOn(h.positions[symbol], day.previousClose[symbol], day.date, rules);
  }

  ghost function Proceeds(positions: map<string, Position>, day: Day, gone: set<string>): map<string, real>
    requires forall symbol :: symbol in gone ==> symbol in positions && symbol in day.bars
  {
    map symbol | symbol in gone :: positions[symbol].volume as real * day.bars[symbol].open
  }

  /** What the positions that left brought: their volume at the open, less the fee of a sale. */
  lemma ExitsPay(h: Holding, day: Day, rules: Rules)
    ensures var after := AfterExits(h, day, rules);
            var gone := h.positions.Keys - after.positions.Keys;
            && (forall symbol :: symbol in gone ==> symbol in h.positions && symbol in day.bars)
            && var gross := Proceeds(h.positions, day, gone);
               && after.turnover == Total(gross)
               && after.cash == h.cash + Total(map symbol | symbol in gone ::
                                                 gross[symbol] - Fee(Sell, gross[symbol], h.positions[symbol].asset))
  {
    var after := AfterExits(h, day, rules);
    var gone := h.positions.Keys - after.positions.Keys;
    hide Fee, Total, MustExit, Held;
    assert gone == SoldOn(h.positions, day, rules);
    var gross := Proceeds(h.positions, day, gone);
    assert gross == SoldAmounts(h.positions, day, rules);
    assert SoldNets(h.positions, day, rules)
        == map symbol | symbol in gone :: gross[symbol] - Fee(Sell, gross[symbol], h.positions[symbol].asset);
  }

  /** The entries of a day add positions of that day at positive prices and leave the others alone. */
  lemma {:induction false} IntentsOnlyAdd(x: Session, terms: Terms, n: nat)
    requires RatiosSane(terms) && n <= |terms.day.intents|
    ensures var after := AfterIntents(x, terms, n).positions;
            && (forall symbol :: symbol in x.positions ==> symbol in after && after[symbol] == x.positions[symbol])
            && (forall symbol :: symbol in after && symbol !in x.positions ==>
                  after[symbol].entryDate == terms.day.date && after[symbol].entryPrice > 0.0)
  {
    if n > 0 {
      IntentsOnlyAdd(x, terms, n - 1);
      hide AfterIntent, PositivePrices;
      OneIntentAdds(AfterIntents(x, terms, n - 1), terms, terms.day.intents[n - 1]);
    }
  }

  lemma OneIntentAdds(x: Session, terms: Terms, intent: Intent)
    requires PositivePrices(terms.day) && SaneRisk(terms.risk) && intent.ratio >= 0.0
    ensures var after := AfterIntent(x, terms, intent).positions;
            && (forall symbol :: symbol in x.positions ==> symbol in after && after[symbol] == x.positions[symbol])
            && (forall symbol :: symbol in after && symbol !in x.positions ==>
                  after[symbol].entryDate == terms.day.date && after[symbol].entryPrice > 0.0)
  {
    hide Admits, WithinLimits, AfterPurchase;
    if Fills(x, terms, intent) {
      AdmittedIsNew(x, terms, intent);
      SizedMeetsLimits(x, terms, intent);
      SizedAtOpen(x, terms, intent);
      var p := Sized(x, terms, intent);
      hide Sized, Fills;
      PurchaseAdds(x, p, terms.day.bars[intent.symbol].open, terms.day.date, intent.asset);
    }
  }

  lemma SizedAtOpen(x: Session, terms: Terms, intent: Intent)
    requires PositivePrices(terms.day) && Admits(x, terms, intent)
    ensures terms.day.bars[intent.symbol].open > 0.0
    ensures Sized(x, terms, intent).amount
         == terms.day.bars[intent.symbol].open * Sized(x, terms, intent).quantity as real
  {
    hide SizedQuantity, SessionNav;
  }

  lemma PurchaseAdds(x: Session, p: Purchase, price: real, date: int, asset: string)
    requires p.quantity > 0 && price > 0.0 && p.amount == price * p.quantity as real && p.symbol !in x.positions
    ensures var after := AfterPurchase(x, p, date, asset).positions;
            && (forall symbol :: symbol in x.positions ==> symbol in after && after[symbol] == x.positions[symbol])
            && (forall symbol :: symbol in after && symbol !in x.positions ==>
                  after[symbol].entryDate == date && after[symbol].entryPrice > 0.0)
  {
    UnitPrice(price, p.quantity);
  }

  lemma UnitPrice(price: real, quantity: int)
    requires price > 0.0 && quantity > 0
    ensures price * quantity as real / quantity as real == price
  {
  }

  /** Between two days: entry prices are positive and entry dates before every day to come. */
  ghost predicate Entered(positions: map<string, Position>, days: seq<Day>, n: nat) {
    forall symbol :: symbol in positions ==>
      && positions[symbol].entryPrice > 0.0
      && forall m :: n <= m < |days| ==> positions[symbol].entryDate < days[m].date
  }

  lemma {:induction false} DaysEntered(cash: real, days: seq<Day>, rules: Rules, n: nat)
    requires TradableDays(days) && SaneRisk(rules.risk) && n <= |days|
    ensures Entered(AfterDays(cash, days, rules, n).positions, days, n)
  {
    hide Entered, AfterDay, TradableDays;
    if n == 0 {
      NothingEntered(days);
    } else {
      DaysEntered(cash, days, rules, n - 1);
      DayEntered(AfterDays(cash, days, rules, n - 1), days, rules, n - 1);
    }
  }

  lemma NothingEntered(days: seq<Day>)
    ensures Entered(map[], days, 0)
  {
  }

  lemma DayEntered(h: Holding, days: seq<Day>, rules: Rules, n: nat)
    requires TradableDays(days) && SaneRisk(rules.risk) && n < |days| && Entered(h.positions, days, n)
    ensures Entered(AfterDay(h, days[n], rules).positions, days, n + 1)
  {
    hide AfterIntents, RatiosSane, Marked, TradableDay, PositivePrices, StartNav, MustExits, SoldOn, Total;
    hide SoldNets, SoldAmounts;
    DayTerms(h, days[n], rules);
    IntentsOnlyAdd(AfterExits(h, days[n], rules), TermsOf(h, days[n], rules), |days[n].intents|);
  }

  /** A position is still there, untouched, at the end of a day if and only if it stays. */
  lemma DayKeepsExactly(h: Holding, day: Day, rules: Rules)
    requires TradableDay(day) && SaneRisk(rules.risk) && Entered(h.positions, [day], 0)
    ensures var after := AfterDay(h, day, rules).positions;
            forall symbol :: symbol in h.positions ==>
              ((symbol in after && after[symbol] == h.positions[symbol]) <==>
               Stays(h.positions[symbol], day, symbol, rules))
  {
    hide AfterIntents, AfterExits, RatiosSane, Marked, TradableDay, PositivePrices, StartNav, Stays;
    DayTerms(h, day, rules);
    ExitsKeepExactly(h, day, rules);
    IntentsOnlyAdd(AfterExits(h, day, rules), TermsOf(h, day, rules), |day.intents|);
    assert [day][0] == day;
  }

  /** Position `symbol` goes through day n exactly as the exit rules say. */
  ghost predicate KeptOn(cash: real, days: seq<Day>, rules: Rules, n: nat, symbol: string)
    requires TradableDays(days) && n < |days| && symbol in AfterDays(cash, days, rules, n).positions
  {
    var p, after := AfterDays(cash, days, rules, n).positions[symbol], AfterDays(cash, days, rules, n + 1).positions;
    p.entryPrice > 0.0 && ((symbol in after && after[symbol] == p) <==> Stays(p, days[n], symbol, rules))
  }

  /** On every day every position stays exactly as the exit rules say. */
  ghost predicate ExitsFollowTheRules(cash: real, days: seq<Day>, rules: Rules)
    requires TradableDays(days)
  {
    forall n, symbol :: 0 <= n < |days| && symbol in AfterDays(cash, days, rules, n).positions ==>
      KeptOn(cash, days, rules, n, symbol)
  }

  lemma EveryDayKeepsExactly(cash: real, days: seq<Day>, rules: Rules)
    requires TradableDays(days) && SaneRisk(rules.risk)
    ensures ExitsFollowTheRules(cash, days, rules)
  {
    hide KeptOn, AfterDays, TradableDays;
    forall n, symbol | 0 <= n < |days| && symbol in AfterDays(cash, days, rules, n).positions
      ensures KeptOn(cash, days, rules, n, symbol)
    {
      OneDayKeepsExactly(cash, days, rules, n, symbol);
    }
  }

  lemma OneDayKeepsExactly(cash: real, days: seq<Day>, rules: Rules, n: nat, symbol: string)
    requires TradableDays(days) && SaneRisk(rules.risk)
    requires n < |days| && symbol in AfterDays(cash, days, rules, n).positions
    ensures KeptOn(cash, days, rules, n, symbol)
  {
    hide Stays, AfterDay, TradableDay, PositivePrices;
    var h := AfterDays(cash, days, rules, n);
    DaysEntered(cash, days, rules, n);
    assert Entered(h.positions, [days[n]], 0);
    DayKeepsExactly(h, days[n], rules);
    assert AfterDays(cash, days, rules, n + 1) == AfterDay(h, days[n], rules);
  }

  // ----- entries -----

  /** What so many lots may cost at the worse of limit and open: 3/10000 more than the amount, and 5.00. */
  ghost function Outlay(lots: nat, limit: real, open: real): real {
    (lots * 100) as real * ((if limit > open then limit else open) * 1.0003) + 5.0
  }

  /** The outlay is within every limit of the day and of the account as it is. */
  ghost predicate Affordable(x: Session, terms: Terms, intent: Intent, outlay: real) {
    var nav, risk := SessionNav(x, terms), terms.risk;
    && outlay <= nav * intent.ratio && outlay <= nav * risk.maxSingleOrder && outlay <= nav * risk.maxSymbolPosition
    && (nav - x.cash) + outlay <= nav * risk.maxTotalPosition
    && x.cash - outlay >= nav * risk.minCashReserve
    && x.turnover + outlay <= terms.startNav * risk.maxDailyTurnover
  }

  lemma LotsBelow(y: real, lots: nat)
    requires y >= 0.0
    ensures lots * 100 <= y.Floor / LOT * LOT <==> (lots * 100) as real <= y
  {
    var n := y.Floor;
    assert n / 100 * 100 <= n < n / 100 * 100 + 100;
    assert lots * 100 <= n <==> lots <= n / 100;
  }

  lemma QuotientAtLeast(room: real, unit: real, n: real)
    requires unit > 0.0
    ensures n <= room / unit <==> n * unit <= room
  {
    var q := room / unit;
    assert q * unit == room;
    assert (q - n) * unit == room - n * unit;
    Scaled(q - n, unit);
  }

  lemma QuantityExactly(budget: real, limit: real, price: real, lots: nat)
    requires price > 0.0 && lots > 0
    ensures lots * 100 <= Quantity(budget, limit, price) <==> Outlay(lots, limit, price) <= budget
  {
    var unit := Max(limit, price) * (1.0 + FEE_RATE);
    Scaled(1.0 + FEE_RATE, Max(limit, price));
    assert unit > 0.0;
    var room := Max(0.0, budget - MIN_FEE);
    QuotientAtLeast(room, unit, 0.0);
    LotsBelow(room / unit, lots);
    QuotientAtLeast(room, unit, (lots * 100) as real);
    Scaled((lots * 100) as real, unit);
  }

  lemma BudgetExactly(x: Session, terms: Terms, intent: Intent, outlay: real)
    requires outlay > 0.0 && intent.ratio >= 0.0 && SaneRisk(terms.risk)
    ensures outlay <= Budget(SessionNav(x, terms), x.cash, terms.startNav, x.turnover, intent.ratio, terms.risk)
            <==> Affordable(x, terms, intent, outlay)
  {
    var nav := SessionNav(x, terms);
    hide SessionNav;
    hide Budget, SaneRisk;
    if outlay <= Budget(nav, x.cash, terms.startNav, x.turnover, intent.ratio, terms.risk) {
      BudgetLimits(outlay, nav, x.cash, terms.startNav, x.turnover, intent.ratio, terms.risk);
    } else if Affordable(x, terms, intent, outlay) {
      RatioReached(outlay, nav, intent.ratio, terms.risk);
      hide Ratio;
      BudgetReached(outlay, nav, x.cash, terms.startNav, x.turnover, intent.ratio, terms.risk);
    }
  }

  lemma BudgetReached(outlay: real, nav: real, cash: real, startNav: real, turnover: real, proposed: real, risk: Risk)
    requires outlay <= nav * Ratio(proposed, risk)
    requires outlay <= nav * risk.maxTotalPosition - (nav - cash)
    requires outlay <= cash - nav * risk.minCashReserve
    requires outlay <= startNav * risk.maxDailyTurnover - turnover
    ensures outlay <= Budget(nav, cash, startNav, turnover, proposed, risk)
  {
    hide Ratio, Min;
    BelowFour(outlay, nav * Ratio(proposed, risk), nav * risk.maxTotalPosition - (nav - cash),
        cash - nav * risk.minCashReserve, startNav * risk.maxDailyTurnover - turnover);
  }

  lemma RatioReached(outlay: real, nav: real, proposed: real, risk: Risk)
    requires outlay <= nav * proposed && outlay <= nav * risk.maxSingleOrder && outlay <= nav * risk.maxSymbolPosition
    ensures outlay <= nav * Ratio(proposed, risk)
  {
    var ratio := Ratio(proposed, risk);
    if ratio == proposed {
    } else if ratio == risk.maxSingleOrder {
    } else {
      assert ratio == risk.maxSymbolPosition;
    }
  }

  lemma BelowFour(x: real, a: real, b: real, c: real, d: real)
    requires x <= a && x <= b && x <= c && x <= d
    ensures x <= Min(Min(Min(a, b), c), d)
  {
  }

  /** The sized quantity takes in so many lots if and only if they are affordable. */
  lemma SizedExactly(x: Session, terms: Terms, intent: Intent, lots: nat)
    requires PositivePrices(terms.day) && SaneRisk(terms.risk) && intent.ratio >= 0.0 && lots > 0
    requires intent.symbol in terms.day.bars && Executable(terms.day.bars[intent.symbol])
    ensures lots * 100 <= SizedQuantity(x, terms, intent) <==>
            Affordable(x, terms, intent, Outlay(lots, intent.limit, terms.day.bars[intent.symbol].open))
  {
    var bar := terms.day.bars[intent.symbol];
    var outlay := Outlay(lots, intent.limit, bar.open);
    Scaled((lots * 100) as real, (if intent.limit > bar.open then intent.limit else bar.open) * 1.0003);
    hide Budget, Quantity, Affordable, Outlay, SessionNav;
    OutlayPositive(lots, intent.limit, bar.open);
    BudgetExactly(x, terms, intent, outlay);
    QuantityExactly(Budget(SessionNav(x, terms), x.cash, terms.startNav, x.turnover, intent.ratio, terms.risk),
        intent.limit, bar.open, lots);
  }

  lemma OutlayPositive(lots: nat, limit: real, open: real)
    requires open > 0.0
    ensures Outlay(lots, limit, open) > 0.0
  {
    var price := if limit > open then limit else open;
    if lots > 0 {
      Scaled((lots * 100) as real, price * 1.0003);
    }
  }

  /** An order is placed for the intent: nothing forbids it, and one lot is affordable. */
  ghost predicate Orderable(x: Session, terms: Terms, intent: Intent) {
    var risk := terms.risk;
    && intent.event !in x.used && intent.symbol !in x.positions && intent.board in risk.allowedBoards
    && intent.symbol in terms.day.bars
    && var bar := terms.day.bars[intent.symbol];
       && bar.volume > 0.0 && bar.high != bar.low
       && x.orders < risk.maxNewOrders && |x.positions| < risk.maxPositionCount
       && SessionNav(x, terms) > terms.startNav - terms.startNav * risk.dailyLossKill
       && Affordable(x, terms, intent, Outlay(1, intent.limit, bar.open))
  }

  /**
   An intent places an order if and only if it is orderable, and buys if and only if moreover the
   open is within its limit. What it buys is the largest number of lots that is affordable.
   */
  lemma IntentBuysExactly(x: Session, terms: Terms, intent: Intent)
    requires PositivePrices(terms.day) && SaneRisk(terms.risk) && intent.ratio >= 0.0
    ensures var after := AfterIntent(x, terms, intent);
            && after.orders == x.orders + (if Orderable(x, terms, intent) then 1 else 0)
            && if Orderable(x, terms, intent) && terms.day.bars[intent.symbol].open <= intent.limit then
                 && after.positions.Keys == x.positions.Keys + {intent.symbol} && after.used == x.used + {intent.event}
                 && var p, open := after.positions[intent.symbol], terms.day.bars[intent.symbol].open;
                    && p.volume % 100 == 0 && p.entryDate == terms.day.date && p.asset == intent.asset
                    && p.cost == open * p.volume as real && p.buyFees == Fee(Buy, p.cost, p.asset)
                    && after.cash == x.cash - p.cost - p.buyFees && after.turnover == x.turnover + p.cost
                    && (forall lots: nat :: lots > 0 ==>
                          (lots * 100 <= p.volume <==> Affordable(x, terms, intent, Outlay(lots, intent.limit, open))))
               else after == x.(orders := after.orders)
  {
    hide Affordable, Outlay, SessionNav, SizedQuantity, Fee;
    AdmitsExactly(x, terms, intent);
    if Admits(x, terms, intent) {
      SizedMeetsLimits(x, terms, intent);
      hide Admits, WithinLimits;
      forall lots: nat | lots > 0
        ensures lots * 100 <= SizedQuantity(x, terms, intent) <==>
                Affordable(x, terms, intent, Outlay(lots, intent.limit, terms.day.bars[intent.symbol].open))
      {
        SizedExactly(x, terms, intent, lots);
      }
      WholeLots(x, terms, intent);
    }
  }

  lemma AdmitsExactly(x: Session, terms: Terms, intent: Intent)
    requires PositivePrices(terms.day) && SaneRisk(terms.risk) && intent.ratio >= 0.0
    ensures Admits(x, terms, intent) <==> Orderable(x, terms, intent)
  {
    hide Affordable, Outlay, SessionNav, SizedQuantity;
    assert terms.startNav * (1.0 - terms.risk.dailyLossKill)
        == terms.startNav - terms.startNav * terms.risk.dailyLossKill;
    if intent.symbol in terms.day.bars && Executable(terms.day.bars[intent.symbol]) {
      SizedExactly(x, terms, intent, 1);
    }
  }

  lemma WholeLots(x: Session, terms: Terms, intent: Intent)
    requires PositivePrices(terms.day)
    requires intent.symbol in terms.day.bars && Executable(terms.day.bars[intent.symbol])
    ensures SizedQuantity(x, terms, intent) % 100 == 0
  {
    hide Budget, SessionNav;
  }

  // ----- valuation -----

  function AtCloses(volumes: map<string, int>, bars: map<string, Bar>): map<string, real> {
    map symbol | symbol in volumes && symbol in bars :: volumes[symbol] as real * bars[symbol].close
  }

  /** At the end of a day on which every position has a close, the account is worth its cash and those closes. */
  lemma ClosesValueTheDay(h: Holding, day: Day, rules: Rules)
    requires PositivePrices(day)
    requires forall symbol :: symbol in AfterDay(h, day, rules).positions ==>
               symbol in day.bars && day.bars[symbol].close > 0.0
    ensures var after := AfterDay(h, day, rules);
            StartNav(after) == after.cash + Total(AtCloses(HeldVolumes(after.positions), day.bars))
  {
    hide AtClose, Total;
    var after := AfterDay(h, day, rules);
    var byClose := AtCloses(HeldVolumes(after.positions), day.bars);
    forall symbol | symbol in after.positions
      ensures Value(after.positions[symbol], symbol, after.marks) == byClose[symbol]
    {
      assert !Unpriced(day, symbol);
      assert symbol in after.marks && after.marks[symbol] == day.bars[symbol].close;
    }
    hide AfterDay, Value;
    assert Values(after.positions, after.marks) == byClose;
  }

  /** A symbol without a close keeps its last mark; one that never had any is worth its entry price. */
  lemma LastMarkStays(h: Holding, day: Day, rules: Rules, symbol: string)
    requires PositivePrices(day) && symbol in AfterDay(h, day, rules).positions
    requires symbol !in day.bars || day.bars[symbol].close <= 0.0
    ensures var after := AfterDay(h, day, rules); var p := after.positions[symbol];
            Values(after.positions, after.marks)[symbol]
            == p.volume as real * if symbol in h.marks then h.marks[symbol] else p.entryPrice
  {
    hide AtClose;
  }
}
