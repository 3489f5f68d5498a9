/** What the purchases of the value-level replay satisfy, within a day and over all days. */
module ReplayLimits {
  import opened Ledger
  import opened ReplaySizing
  import opened ReplaySpec

  // ----- one purchase -----

  /** An admitted intent is sized within every limit at once, and the cash on hand covers amount and fee. */
  lemma SizedMeetsLimits(x: Session, terms: Terms, intent: Intent)
    requires PositivePrices(terms.day) && SaneRisk(terms.risk) && intent.ratio >= 0.0 && Admits(x, terms, intent)
    ensures var p := Sized(x, terms, intent);
            && WithinLimits(p, terms.startNav, terms.risk) && p.quantity > 0
            && p.amount + p.fee <= x.cash
            && p.event == intent.event && p.symbol == intent.symbol
            && p.nav == SessionNav(x, terms) && p.cashBefore == x.cash && p.turnoverBefore == x.turnover
  {
    hide Budget, Quantity, Fee, SessionNav, WithinLimits;
    var p, price := Sized(x, terms, intent), terms.day.bars[intent.symbol].open;
    SizedBuyWithinLimits(p, terms.startNav, terms.risk, intent.asset, intent.limit, price);
    AtLeastOneLot(p, terms.startNav, terms.risk);
  }

  lemma AtLeastOneLot(p: Purchase, startNav: real, risk: Risk)
    requires WithinLimits(p, startNav, risk)
    ensures p.quantity > 0
    ensures p.turnoverBefore + p.amount <= startNav * risk.maxDailyTurnover
  {
  }

  // ----- one day -----

  /** Every purchase meets the limits, and no event is bought twice. */
  ghost predicate MeetLimits(purchases: seq<Purchase>, startNav: real, risk: Risk) {
    && (forall i :: 0 <= i < |purchases| ==> WithinLimits(purchases[i], startNav, risk))
    && (forall i, j :: 0 <= i < j < |purchases| ==> purchases[i].event != purchases[j].event)
  }

  /** The events used up between `before` and `used` are exactly those purchased. */
  ghost predicate UsesUp(purchases: seq<Purchase>, before: set<int>, used: set<int>) {
    && before <= used
    && (forall i :: 0 <= i < |purchases| ==> purchases[i].event in used && purchases[i].event !in before)
    && (forall event :: event in used ==> event in before || exists i ::
       0 <= i < |purchases| && purchases[i].event == event)
  }

  lemma OneMorePurchase(purchases: seq<Purchase>, p: Purchase, startNav: real, risk: Risk, before: set<int>,
                        used: set<int>)
    requires MeetLimits(purchases, startNav, risk) && UsesUp(purchases, before, used)
    requires WithinLimits(p, startNav, risk) && p.event !in used
    ensures MeetLimits(purchases + [p], startNav, risk) && UsesUp(purchases + [p], before, used + {p.event})
  {
    hide WithinLimits;
    var all := purchases + [p];
    forall event | event in used + {p.event}
      ensures event in before || exists i :: 0 <= i < |all| && all[i].event == event
    {
      if event == p.event {
        assert all[|purchases|].event == event;
      } else if event !in before {
        var i :| 0 <= i < |purchases| && purchases[i].event == event;
        assert all[i].event == event;
      }
    }
  }

  ghost predicate RatiosSane(terms: Terms) {
    && PositivePrices(terms.day) && SaneRisk(terms.risk)
    && forall i :: 0 <= i < |terms.day.intents| ==> terms.day.intents[i].ratio >= 0.0
  }

  lemma {:induction false} PurchasesMeetLimits(x: Session, terms: Terms, n: nat)
    requires RatiosSane(terms) && n <= |terms.day.intents|
    ensures MeetLimits(Purchases(x, terms, n), terms.startNav, terms.risk)
    ensures UsesUp(Purchases(x, terms, n), x.used, AfterIntents(x, terms, n).used)
  {
    hide Admits, Sized, WithinLimits, MeetLimits, UsesUp;
    if n == 0 {
      NoPurchases(terms.startNav, terms.risk, x.used);
    } else {
      PurchasesMeetLimits(x, terms, n - 1);
      var before, intent := AfterIntents(x, terms, n - 1), terms.day.intents[n - 1];
      if Fills(before, terms, intent) {
        SizedMeetsLimits(before, terms, intent);
        AdmittedIsNew(before, terms, intent);
        OneMorePurchase(Purchases(x, terms, n - 1), Sized(before, terms, intent), terms.startNav, terms.risk, x.used,
            before.used);
      } else {
        assert Purchases(x, terms, n) == Purchases(x, terms, n - 1);
      }
    }
  }

  lemma NoPurchases(startNav: real, risk: Risk, used: set<int>)
    ensures MeetLimits([], startNav, risk) && UsesUp([], used, used)
  {
  }

  lemma AdmittedIsNew(x: Session, terms: Terms, intent: Intent)
    requires PositivePrices(terms.day) && Admits(x, terms, intent)
    ensures intent.event !in x.used && intent.symbol !in x.positions
    ensures x.orders < terms.risk.maxNewOrders && |x.positions| < terms.risk.maxPositionCount
  {
  }

  ghost function Spent(purchases: seq<Purchase>): real {
    if purchases == [] then 0.0
    else
      var last := purchases[|purchases| - 1];
      Spent(purchases[..|purchases| - 1]) + last.amount + last.fee
  }

  ghost function Turned(purchases: seq<Purchase>): real {
    if purchases == [] then 0.0 else Turned(purchases[..|purchases| - 1]) + purchases[|purchases| - 1].amount
  }

  /** All the cash the entries use is spent on the purchases, and all the turnover they add is theirs. */
  lemma {:induction false} PurchasesExplainTheDay(x: Session, terms: Terms, n: nat)
    requires RatiosSane(terms) && n <= |terms.day.intents|
    ensures AfterIntents(x, terms, n).cash == x.cash - Spent(Purchases(x, terms, n))
    ensures AfterIntents(x, terms, n).turnover == x.turnover + Turned(Purchases(x, terms, n))
  {
    hide Admits, Sized, WithinLimits;
    if n > 0 {
      PurchasesExplainTheDay(x, terms, n - 1);
      var before, intent := AfterIntents(x, terms, n - 1), terms.day.intents[n - 1];
      if Fills(before, terms, intent) {
        SizedMeetsLimits(before, terms, intent);
        var p := Sized(before, terms, intent);
        assert (Purchases(x, terms, n - 1) + [p])[..|Purchases(x, terms, n - 1)|] == Purchases(x, terms, n - 1);
      } else {
        assert Purchases(x, terms, n) == Purchases(x, terms, n - 1);
      }
    }
  }

  /** A filled intent leaves turnover, cash and positions within their limits; any other leaves them alone. */
  lemma OneIntentStays(x: Session, terms: Terms, intent: Intent)
    requires PositivePrices(terms.day) && SaneRisk(terms.risk) && intent.ratio >= 0.0
    ensures var after := AfterIntent(x, terms, intent);
            && (after.orders == x.orders || after.orders <= terms.risk.maxNewOrders)
            && (if Fills(x, terms, intent)
                then after.turnover <= terms.startNav * terms.risk.maxDailyTurnover && after.cash >= 0.0
                     && |after.positions| <= terms.risk.maxPositionCount
                else after.turnover == x.turnover && after.cash == x.cash && after.positions == x.positions)
  {
    hide Admits, Sized, WithinLimits;
    if Admits(x, terms, intent) {
      var p := Sized(x, terms, intent);
      AdmittedIsNew(x, terms, intent);
      SizedMeetsLimits(x, terms, intent);
      AtLeastOneLot(p, terms.startNav, terms.risk);
      OnePositionMore(x.positions, p.symbol, NewPosition(p.quantity, p.amount, p.fee, terms.day.date, intent.asset));
    }
  }

  lemma OnePositionMore(positions: map<string, Position>, symbol: string, p: Position)
    requires symbol !in positions
    ensures |positions[symbol := p]| == |positions| + 1
  {
    assert positions[symbol := p].Keys == positions.Keys + {symbol};
  }

  /** The day's turnover, cash, order count and number of positions stay within their limits once anything is bought. */
  lemma {:induction false} DayStaysWithinLimits(x: Session, terms: Terms, n: nat)
    requires RatiosSane(terms) && n <= |terms.day.intents|
    ensures var after := AfterIntents(x, terms, n);
            && (after.orders == x.orders || after.orders <= terms.risk.maxNewOrders)
            && (if Purchases(x, terms, n) != []
                then after.turnover <= terms.startNav * terms.risk.maxDailyTurnover && after.cash >= 0.0
                     && |after.positions| <= terms.risk.maxPositionCount
                else after.turnover == x.turnover && after.cash == x.cash && after.positions == x.positions)
  {
    hide Fills, Sized, AfterIntent;
    if n > 0 {
      DayStaysWithinLimits(x, terms, n - 1);
      OneIntentStays(AfterIntents(x, terms, n - 1), terms, terms.day.intents[n - 1]);
    }
  }

  // ----- all days -----

  lemma DayTerms(h: Holding, day: Day, rules: Rules)
    requires TradableDay(day) && SaneRisk(rules.risk)
    ensures RatiosSane(TermsOf(h, day, rules))
  {
  }

  /** On every day of the replay, every purchase meets the limits of that day. */
  lemma EveryPurchaseMeetsLimits(cash: real, days: seq<Day>, rules: Rules, n: nat)
    requires TradableDays(days) && SaneRisk(rules.risk) && n < |days|
    ensures MeetLimits(BuysOn(cash, days, rules, n), StartNav(AfterDays(cash, days, rules, n)), rules.risk)
    ensures UsesUp(BuysOn(cash, days, rules, n), AfterDays(cash, days, rules, n).used,
              AfterDays(cash, days, rules, n + 1).used)
  {
    hide MeetLimits, UsesUp, AfterExits, RatiosSane, TradableDay, Marked;
    var h, day := AfterDays(cash, days, rules, n), days[n];
    DayTerms(h, day, rules);
    PurchasesMeetLimits(AfterExits(h, day, rules), TermsOf(h, day, rules), |day.intents|);
    SameEvents(h, day, rules);
  }

  lemma SameEvents(h: Holding, day: Day, rules: Rules)
    ensures AfterExits(h, day, rules).used == h.used
  {
  }

  lemma {:induction false} EventsStayUsed(cash: real, days: seq<Day>, rules: Rules, m: nat, n: nat)
    requires TradableDays(days) && SaneRisk(rules.risk) && m <= n <= |days|
    ensures AfterDays(cash, days, rules, m).used <= AfterDays(cash, days, rules, n).used
  {
    hide AfterDays, BuysOn;
    if m < n {
      EventsStayUsed(cash, days, rules, m, n - 1);
      EveryPurchaseMeetsLimits(cash, days, rules, n - 1);
    }
  }

  /** No event is bought on two days. */
  lemma NoEventOnTwoDays(cash: real, days: seq<Day>, rules: Rules, d: nat, e: nat, i: nat, j: nat)
    requires TradableDays(days) && SaneRisk(rules.risk) && d < e < |days|
    requires i < |BuysOn(cash, days, rules, d)| && j < |BuysOn(cash, days, rules, e)|
    ensures BuysOn(cash, days, rules, d)[i].event != BuysOn(cash, days, rules, e)[j].event
  {
    hide AfterDays, BuysOn, MeetLimits;
    EveryPurchaseMeetsLimits(cash, days, rules, d);
    EveryPurchaseMeetsLimits(cash, days, rules, e);
    EventsStayUsed(cash, days, rules, d + 1, e);
  }

  ghost predicate EventsOnce(cash: real, days: seq<Day>, rules: Rules)
    requires TradableDays(days)
  {
    forall d, e, i, j :: (0 <= d < e < |days| && 0 <= i < |BuysOn(cash, days, rules, d)|
                          && 0 <= j < |BuysOn(cash, days, rules, e)|) ==>
      BuysOn(cash, days, rules, d)[i].event != BuysOn(cash, days, rules, e)[j].event
  }

  lemma NoEventTwice(cash: real, days: seq<Day>, rules: Rules)
    requires TradableDays(days) && SaneRisk(rules.risk)
    ensures EventsOnce(cash, days, rules)
  {
    hide BuysOn, AfterDays;
    forall d, e, i, j | 0 <= d < e < |days| && 0 <= i < |BuysOn(cash, days, rules, d)|
        && 0 <= j < |BuysOn(cash, days, rules, e)|
      ensures BuysOn(cash, days, rules, d)[i].event != BuysOn(cash, days, rules, e)[j].event
    {
      NoEventOnTwoDays(cash, days, rules, d, e, i, j);
    }
  }

  lemma DayKeepsFew(h: Holding, day: Day, rules: Rules)
    requires TradableDay(day) && SaneRisk(rules.risk)
    ensures |AfterDay(h, day, rules).positions| <= |h.positions|
              || |AfterDay(h, day, rules).positions| <= rules.risk.maxPositionCount
  {
    hide AfterIntents, AfterExits, RatiosSane, TradableDay, Marked;
    DayTerms(h, day, rules);
    DayStaysWithinLimits(AfterExits(h, day, rules), TermsOf(h, day, rules), |day.intents|);
    ExitsOnlyRemove(h, day, rules);
  }

  /** The number of positions never exceeds its limit. */
  lemma {:induction false} PositionsStayFew(cash: real, days: seq<Day>, rules: Rules, n: nat)
    requires TradableDays(days) && SaneRisk(rules.risk) && n <= |days|
    ensures var held := |AfterDays(cash, days, rules, n).positions|; held == 0 || held <= rules.risk.maxPositionCount
  {
    hide AfterDay, TradableDay;
    if n > 0 {
      PositionsStayFew(cash, days, rules, n - 1);
      DayKeepsFew(AfterDays(cash, days, rules, n - 1), days[n - 1], rules);
    }
  }

  lemma ExitsOnlyRemove(h: Holding, day: Day, rules: Rules)
    ensures |AfterExits(h, day, rules).positions| <= |h.positions|
  {
    var kept, sold := AfterExits(h, day, rules).positions, SoldOn(h.positions, day, rules);
    Fewer(kept.Keys, h.positions.Keys);
  }

  lemma Fewer(a: set<string>, b: set<string>)
    requires a <= b
    ensures |a| <= |b|
  {
    assert b == (b - a) + a;
  }
}
