/**
 The day loop of the offline replay, run against the broker object. The source
 lets a rejected fill or a ledger difference abort the run; here it is proved that neither can
 happen, and that the loop computes what the value-level replay says.
 */
module Replay {
  import opened Outcomes
  import opened Totals
  import opened Ledger
  import opened LedgerProofs
  import opened OfflineBrokers
  import opened ReplaySizing
  import opened ReplayLimits
  import Laws = ReplayLaws
  import opened ReplaySpec

  method NetValue(cash: real, positions: map<string, Position>, marks: map<string, real>) returns (nav: real)
    ensures nav == Nav(cash, positions, marks)
  {
    hide Value;
    nav := cash;
    var rest := positions.Keys;
    ghost var left := Values(positions, marks);
    while rest != {}
      invariant rest <= positions.Keys && left.Keys == rest
      invariant forall symbol :: symbol in left ==> left[symbol] == Value(positions[symbol], symbol, marks)
      invariant nav + Total(left) == Nav(cash, positions, marks)
      decreases |rest|
    {
      var symbol :| symbol in rest;
      nav := nav + Value(positions[symbol], symbol, marks);
      rest := rest - {symbol};
      TotalRemove(left, symbol);
      left := left - {symbol};
    }
  }

  // ----- what the loop relies on between two orders -----

  /**
   The account can trade on `date`: nothing is dated later, and today only the `sold`
   symbols have a sell order and only the `bought` symbols have a buy order or an entry.
   */
  ghost predicate Tradable(s: State, date: int, sold: set<string>, bought: set<string>) {
    && (forall key :: key in s.orders ==>
          key.DayKey? && (key.day < date || (key.day == date && key.symbol in if key.side.Sell? then sold else bought)))
    && (forall i :: 0 <= i < |s.fills| ==>
       s.fills[i].execId == FillOf(s.fills[i].orderKey) && s.fills[i].orderKey in s.orders)
    && (forall symbol :: symbol in s.positions ==>
          s.positions[symbol].entryDate < date || (s.positions[symbol].entryDate == date && symbol in bought))
  }

  lemma OrdersKeepTradable(s: State, after: State, date: int, sold: set<string>, bought: set<string>, key: OrderKey)
    requires Tradable(s, date, sold, bought)
    requires after.positions == s.positions && after.fills == s.fills && after.orders.Keys == s.orders.Keys + {key}
    requires key.DayKey? && key.day == date
    requires key.symbol in if key.side.Sell? then sold else bought
    ensures Tradable(after, date, sold, bought)
  {
  }

  lemma Commute(x: real, y: real)
    ensures x * y == y * x
  {
  }

  /** A fresh sell of a whole position held from an earlier day is always accepted, and closes it. */
  lemma SellAccepted(s: State, key: OrderKey, symbol: string, bar: Bar, date: int)
    requires key in s.orders && key !in set i | 0 <= i < |s.fills| :: s.fills[i].orderKey
    requires forall i :: 0 <= i < |s.fills| ==> s.fills[i].execId == FillOf(s.fills[i].orderKey)
    requires symbol in s.positions && s.positions[symbol].volume > 0 && s.positions[symbol].entryDate < date
    requires bar.open > 0.0
    requires s.orders[key]
               == Order(symbol, Sell, bar.open, s.positions[symbol].volume, 0, Submitted, date,
                   s.positions[symbol].asset)
    ensures var r := DoFill(s, key, FillOf(key), s.positions[symbol].volume, bar.open, date);
            && r.Accepted? && r.state.orders.Keys == s.orders.Keys && r.state.positions == s.positions - {symbol}
            && r.state.cash == s.cash + NetOfFee(SaleAmount(s.positions[symbol], bar), s.positions[symbol].asset)
            && r.state.fills == s.fills + [NewFill(s.orders[key], key, FillOf(key), s.positions[symbol].volume,
               bar.open, date)]
  {
    assert !Seen(s, FillOf(key));
    var f := NewFill(s.orders[key], key, FillOf(key), s.positions[symbol].volume, bar.open, date);
    assert f.amount == SaleAmount(s.positions[symbol], bar) by {
      Commute(bar.open, s.positions[symbol].volume as real);
    }
    assert f.amount - f.commission == NetOfFee(SaleAmount(s.positions[symbol], bar), s.positions[symbol].asset);
    assert OrderError(s, s.orders[key], s.positions[symbol].volume, bar.open, date).None?;
  }

  /** A fresh buy of an unheld symbol that the cash covers is always accepted. */
  lemma BuyAccepted(s: State, key: OrderKey, symbol: string, limit: real, quantity: int, price: real, date: int,
                    asset: string, amount: real, fee: real)
    requires key in s.orders && key !in set i | 0 <= i < |s.fills| :: s.fills[i].orderKey
    requires forall i :: 0 <= i < |s.fills| ==> s.fills[i].execId == FillOf(s.fills[i].orderKey)
    requires symbol !in s.positions && quantity > 0 && 0.0 < price <= limit
    requires s.orders[key] == Order(symbol, Buy, limit, quantity, 0, Submitted, date, asset)
    requires amount == price * quantity as real && fee == Fee(Buy, amount, asset) && amount + fee <= s.cash
    ensures var r := DoFill(s, key, FillOf(key), quantity, price, date);
            && r.Accepted? && r.state.orders.Keys == s.orders.Keys
            && r.state.positions == s.positions[symbol := NewPosition(quantity, amount, fee, date, asset)]
            && r.state.cash == s.cash - (amount + fee)
            && r.state.fills == s.fills + [NewFill(s.orders[key], key, FillOf(key), quantity, price, date)]
  {
    assert !Seen(s, FillOf(key));
    var f := NewFill(s.orders[key], key, FillOf(key), quantity, price, date);
    assert f.amount == amount by { Commute(price, quantity as real); }
    assert f.commission == fee;
    assert 0.0 + f.amount == amount && (0 + f.volume) as real == quantity as real;
    assert Bought(EmptyPosition(s.orders[key], price, date), f) == NewPosition(quantity, amount, fee, date, asset);
    assert OrderError(s, s.orders[key], quantity, price, date).None?;
  }

  lemma FillKeepsTradable(s: State, after: State, date: int, sold: set<string>, bought: set<string>, f: Fill)
    requires Tradable(s, date, sold, bought)
    requires after.orders.Keys == s.orders.Keys && after.fills == s.fills + [f]
    requires f.execId == FillOf(f.orderKey) && f.orderKey in s.orders
    requires forall symbol :: symbol in after.positions ==>
               (symbol in s.positions && after.positions[symbol] == s.positions[symbol])
               || (symbol in bought && after.positions[symbol].entryDate == date)
    ensures Tradable(after, date, sold, bought)
  {
  }

  lemma NewKeyHasNoFill(s: State, date: int, sold: set<string>, bought: set<string>, key: OrderKey)
    requires Tradable(s, date, sold, bought) && key !in s.orders
    ensures key !in set i | 0 <= i < |s.fills| :: s.fills[i].orderKey
  {
  }

  // ----- exits -----

  method HeldDays(openDates: seq<int>, entry: int, date: int) returns (days: nat)
    ensures days == Held(openDates, entry, date)
  {
    days := 0;
    for i := 0 to |openDates|
      invariant days == |set j | 0 <= j < i && entry < openDates[j] <= date|
    {
      ghost var before := set j | 0 <= j < i && entry < openDates[j] <= date;
      ghost var after := set j | 0 <= j < i + 1 && entry < openDates[j] <= date;
      if entry < openDates[i] <= date {
        days := days + 1;
        assert after == before + {i};
      } else {
        assert after == before;
      }
    }
  }

  /** Place a sell exactly when the exit rule fired, and fill it exactly when the bar is executable. */
  method SellOne(broker: OfflineBroker, day: Day, symbol: string, rules: Rules, turnover0: real, orders0: nat,
                 ghost used: set<int>, ghost sold: set<string>)
    returns (turnover: real, orders: nat)
    requires Inv(broker.Account()) && Tradable(broker.Account(), day.date, sold, {})
    requires symbol in broker.positions && symbol !in sold && PositivePrices(day)
    modifies broker
    ensures Inv(broker.Account()) && Tradable(broker.Account(), day.date, sold + {symbol}, {})
    ensures old(broker.fills) <= broker.fills
    ensures Session(broker.cash, broker.positions, turnover, orders, used)
            == AfterExit(Session(old(broker.cash), old(broker.positions), turnover0, orders0, used),
                old(broker.positions[symbol]), day, symbol, rules)
    ensures broker.marks == old(broker.marks)
  {
    hide Inv, Tradable, NetOfFee, SaleAmount;
    turnover, orders := turnover0, orders0;
    MoreSold(broker.Account(), day.date, sold, symbol);
    if symbol !in day.previousClose || symbol !in day.bars { return; }
    var p, bar := broker.positions[symbol], day.bars[symbol];
    var heldDays := HeldDays(rules.openDates, p.entryDate, day.date);
    if !ExitTriggered(p, day.previousClose[symbol], heldDays, rules.exits) { return; }
    PlaceSell(broker, day.date, symbol, bar, sold);
    orders := orders + 1;
    if Executable(bar) {
      turnover := turnover + SaleAmount(p, bar);
    }
  }

  lemma MoreSold(s: State, date: int, sold: set<string>, symbol: string)
    requires Tradable(s, date, sold, {})
    ensures Tradable(s, date, sold + {symbol}, {})
  {
  }

  /** Offer a whole position at the open; without an executable bar the order is cancelled. */
  method PlaceSell(broker: OfflineBroker, date: int, symbol: string, bar: Bar, ghost sold: set<string>)
    requires Inv(broker.Account()) && Tradable(broker.Account(), date, sold, {})
    requires symbol in broker.positions && symbol !in sold && (Executable(bar) ==> bar.open > 0.0)
    modifies broker
    ensures Inv(broker.Account()) && Tradable(broker.Account(), date, sold + {symbol}, {})
    ensures old(broker.fills) <= broker.fills
    ensures broker.positions == if Executable(bar) then old(broker.positions) - {symbol} else old(broker.positions)
    ensures !Executable(bar) ==> broker.cash == old(broker.cash)
    ensures Executable(bar) ==>
              var p := old(broker.positions[symbol]);
              broker.cash == old(broker.cash) + NetOfFee(SaleAmount(p, bar), p.asset)
    ensures broker.marks == old(broker.marks)
  {
    hide Inv, NetOfFee, SaleAmount;
    var p, price := broker.positions[symbol], bar.open;
    var key := DayKey(date, Sell, symbol);
    ghost var s0 := broker.Account();
    HeldVolume(s0, symbol);
    var _ := broker.Submit(key, symbol, Sell, price, p.volume, date, p.asset);
    ghost var s1 := broker.Account();
    StepKeepsInv(s0, SubmitOp(key, symbol, Sell, price, p.volume, date, p.asset));
    NewKeyHasNoFill(s0, date, sold, {}, key);
    OrdersKeepTradable(s0, s1, date, sold + {symbol}, {}, key);
    if !Executable(bar) {
      var _ := broker.Cancel(key);
      StepKeepsInv(s1, CancelOp(key));
      OrdersKeepTradable(s1, broker.Account(), date, sold + {symbol}, {}, key);
      return;
    }
    SellAccepted(s1, key, symbol, bar, date);
    var filled := broker.Fill(key, FillOf(key), p.volume, price, date);
    assert filled == Ok(true);
    StepKeepsInv(s1, FillOp(key, FillOf(key), p.volume, price, date));
    FillKeepsTradable(s1, broker.Account(), date, sold + {symbol}, {},
        NewFill(s1.orders[key], key, FillOf(key), p.volume, price, date));
  }

  lemma HeldVolume(s: State, symbol: string)
    requires Inv(s) && symbol in s.positions
    ensures s.positions[symbol].volume > 0
  {
    RecordedCosts(s, symbol);
  }

  /** The positions found to have to leave, and what the sold ones brought, before and after the fee. */
  datatype Tally = Tally(must: set<string>, amounts: map<string, real>, nets: map<string, real>)

  ghost predicate Tallied(t: Tally, start: map<string, Position>, day: Day, rules: Rules, rest: set<string>) {
    && (forall symbol :: symbol in t.must <==> symbol in MustExits(start, day, rules) && symbol !in rest)
    && (forall symbol :: symbol in t.amounts <==> symbol in SoldOn(start, day, rules) && symbol !in rest)
    && t.nets.Keys == t.amounts.Keys
    && (forall symbol :: symbol in t.amounts ==>
          t.amounts[symbol] == SoldAmounts(start, day, rules)[symbol]
              && t.nets[symbol] == SoldNets(start, day, rules)[symbol])
  }

  /** The session agrees with the tally of the positions outside `rest`. */
  ghost predicate Exiting(x: Session, t: Tally, h: Holding, day: Day, rules: Rules, rest: set<string>) {
    && Tallied(t, h.positions, day, rules, rest) && rest <= h.positions.Keys
    && x == Session(h.cash + Total(t.nets), h.positions - t.amounts.Keys, Total(t.amounts), |t.must|, h.used)
  }

  lemma ExitsBegin(h: Holding, day: Day, rules: Rules)
    ensures Exiting(Session(h.cash, h.positions, 0.0, 0, h.used), Tally({}, map[], map[]), h, day, rules,
              h.positions.Keys)
  {
    var none: map<string, real> := map[];
    assert Total(none) == 0.0 && h.positions - none.Keys == h.positions;
  }

  lemma StillHeld(x: Session, t: Tally, h: Holding, day: Day, rules: Rules, rest: set<string>, symbol: string)
    requires Exiting(x, t, h, day, rules, rest) && symbol in rest
    ensures symbol in h.positions && symbol in x.positions && x.positions[symbol] == h.positions[symbol]
  {
  }

  /** The session after visiting one position. */
  ghost function AfterExit(x: Session, p: Position, day: Day, symbol: string, rules: Rules): Session {
    if !MustExit(p, day, symbol, rules) then x
    else if !Executable(day.bars[symbol]) then x.(orders := x.orders + 1)
    else
      var amount := SaleAmount(p, day.bars[symbol]);
      Session(x.cash + NetOfFee(amount, p.asset), x.positions - {symbol}, x.turnover + amount, x.orders + 1, x.used)
  }

  /** The tally with one more position. */
  ghost function Next(t: Tally, p: Position, day: Day, symbol: string, rules: Rules): Tally {
    if !MustExit(p, day, symbol, rules) then t
    else if !Executable(day.bars[symbol]) then t.(must := t.must + {symbol})
    else
      var amount := SaleAmount(p, day.bars[symbol]);
      Tally(t.must + {symbol}, t.amounts[symbol := amount], t.nets[symbol := NetOfFee(amount, p.asset)])
  }

  lemma TallyOne(t: Tally, start: map<string, Position>, day: Day, rules: Rules, rest: set<string>, symbol: string)
    requires Tallied(t, start, day, rules, rest) && symbol in rest && symbol in start
    ensures Tallied(Next(t, start[symbol], day, symbol, rules), start, day, rules, rest - {symbol})
    ensures symbol !in t.must && symbol !in t.amounts && symbol !in t.nets
  {
    hide MustExit, NetOfFee, SaleAmount, Executable;
  }

  lemma OneExit(x: Session, t: Tally, h: Holding, day: Day, rules: Rules, rest: set<string>,
                symbol: string) returns (next: Tally)
    requires Exiting(x, t, h, day, rules, rest) && symbol in rest && symbol in h.positions
    ensures Exiting(AfterExit(x, h.positions[symbol], day, symbol, rules), next, h, day, rules, rest - {symbol})
  {
    hide Tallied, MustExit, NetOfFee, SaleAmount, Executable, Total;
    var p := h.positions[symbol];
    next := Next(t, p, day, symbol, rules);
    TallyOne(t, h.positions, day, rules, rest, symbol);
    assert |t.must + {symbol}| == |t.must| + 1;
    if MustExit(p, day, symbol, rules) && Executable(day.bars[symbol]) {
      TotalSet(t.amounts, symbol, SaleAmount(p, day.bars[symbol]));
      TotalSet(t.nets, symbol, NetOfFee(SaleAmount(p, day.bars[symbol]), p.asset));
      assert h.positions - next.amounts.Keys == h.positions - t.amounts.Keys - {symbol};
    }
  }

  lemma ExitsEnd(x: Session, t: Tally, h: Holding, day: Day, rules: Rules)
    requires Exiting(x, t, h, day, rules, {})
    ensures x == AfterExits(h, day, rules)
  {
    assert t.must == MustExits(h.positions, day, rules);
    assert t.amounts == SoldAmounts(h.positions, day, rules);
    assert t.nets == SoldNets(h.positions, day, rules);
    assert t.amounts.Keys == SoldOn(h.positions, day, rules);
  }

  /** Sell every position that must leave; positions are visited in any order. */
  method SellExits(broker: OfflineBroker, day: Day, rules: Rules,
                   ghost used: set<int>) returns (orders: nat, turnover: real)
    requires Inv(broker.Account()) && Tradable(broker.Account(), day.date, {}, {}) && PositivePrices(day)
    modifies broker
    ensures Inv(broker.Account()) && Tradable(broker.Account(), day.date, old(broker.positions).Keys, {})
    ensures old(broker.fills) <= broker.fills
    ensures Session(broker.cash, broker.positions, turnover, orders, used)
            == AfterExits(Holding(old(broker.cash), old(broker.positions), old(broker.marks), used), day, rules)
    ensures broker.marks == old(broker.marks)
  {
    hide Inv, Tradable, Exiting, AfterExit, AfterExits;
    orders, turnover := 0, 0.0;
    var symbols := broker.positions.Keys;
    var rest := symbols;
    ghost var h, t := Holding(broker.cash, broker.positions, broker.marks, used), Tally({}, map[], map[]);
    ExitsBegin(h, day, rules);
    assert symbols - rest == {};
    while rest != {}
      invariant rest <= symbols && broker.marks == old(broker.marks) && old(broker.fills) <= broker.fills
      invariant Exiting(Session(broker.cash, broker.positions, turnover, orders, used), t, h, day, rules, rest)
      invariant Inv(broker.Account()) && Tradable(broker.Account(), day.date, symbols - rest, {})
      decreases |rest|
    {
      var symbol := Pick(rest);
      ghost var x := Session(broker.cash, broker.positions, turnover, orders, used);
      StillHeld(x, t, h, day, rules, rest, symbol);
      t := OneExit(x, t, h, day, rules, rest, symbol);
      turnover, orders := SellOne(broker, day, symbol, rules, turnover, orders, used, symbols - rest);
      assert symbols - rest + {symbol} == symbols - (rest - {symbol});
      rest := rest - {symbol};
    }
    ExitsEnd(Session(broker.cash, broker.positions, turnover, orders, used), t, h, day, rules);
    assert symbols - rest == symbols;
  }

  /** The guards in front of every buy, then its size; None when the intent is passed over. */
  method SizeIntent(broker: OfflineBroker, terms: Terms, intent: Intent, turnover: real, orders: nat,
                    ghost used: set<int>)
    returns (sized: Option<Purchase>)
    requires PositivePrices(terms.day) && terms.marks == broker.marks && intent.event !in used
    ensures var x := Session(broker.cash, broker.positions, turnover, orders, used);
            && (sized.Some? <==> Admits(x, terms, intent))
            && (sized.Some? ==> sized.value == Sized(x, terms, intent))
  {
    hide Budget, Fee, Nav, Quantity;
    ghost var x := Session(broker.cash, broker.positions, turnover, orders, used);
    var symbol, risk := intent.symbol, terms.risk;
    if symbol in broker.positions || intent.board !in risk.allowedBoards { return None; }
    if symbol !in terms.day.bars || !Executable(terms.day.bars[symbol]) { return None; }
    var price := terms.day.bars[symbol].open;
    var nav := NetValue(broker.cash, broker.positions, broker.marks);
    if orders >= risk.maxNewOrders || nav <= terms.startNav * (1.0 - risk.dailyLossKill) { return None; }
    var budget := Budget(nav, broker.cash, terms.startNav, turnover, intent.ratio, risk);
    var quantity := Quantity(budget, intent.limit, price);
    assert nav == SessionNav(x, terms) && quantity == SizedQuantity(x, terms, intent);
    hide SessionNav, SizedQuantity;
    if quantity < LOT || |broker.positions| >= risk.maxPositionCount { return None; }
    var amount := price * quantity as real;
    var fee := Fee(Buy, amount, intent.asset);
    assert Sized(x, terms, intent).amount == amount;
    assert Sized(x, terms, intent).fee == fee;
    return Some(Purchase(intent.event, symbol, quantity, amount, fee, nav, broker.cash, turnover, intent.ratio));
  }

  /** One intent: an order if it is admitted, and a fill if the open is at or below its limit. */
  method BuyOne(broker: OfflineBroker, terms: Terms, intent: Intent, turnover0: real, orders0: nat,
                ghost used: set<int>, ghost sold: set<string>, ghost bought: set<string>)
    returns (filled: bool, turnover: real, orders: nat)
    requires Inv(broker.Account()) && Tradable(broker.Account(), terms.day.date, sold, bought)
    requires PositivePrices(terms.day) && SaneRisk(terms.risk) && terms.marks == broker.marks
    requires intent.ratio >= 0.0 && intent.symbol !in bought && intent.event !in used
    modifies broker
    ensures Inv(broker.Account()) && Tradable(broker.Account(), terms.day.date, sold, bought + {intent.symbol})
    ensures old(broker.fills) <= broker.fills && broker.marks == old(broker.marks)
    ensures var x := Session(old(broker.cash), old(broker.positions), turnover0, orders0, used);
            && (filled <==> Fills(x, terms, intent))
            && Session(broker.cash, broker.positions, turnover, orders, if filled then used + {intent.event} else used)
               == AfterIntent(x, terms, intent)
  {
    hide Inv, Sized, Admits, AfterIntent, WithinLimits, Fee;
    ghost var x := Session(broker.cash, broker.positions, turnover0, orders0, used);
    filled, turnover, orders := false, turnover0, orders0;
    AfterEither(x, terms, intent);
    var sized := SizeIntent(broker, terms, intent, turnover, orders, used);
    if sized.None? {
      MoreBought(broker.Account(), terms.day.date, sold, bought, bought + {intent.symbol});
      return;
    }
    var p := sized.value;
    var price := terms.day.bars[intent.symbol].open;
    SizedMeetsLimits(x, terms, intent);
    AdmittedIsNew(x, terms, intent);
    SizedAmounts(x, terms, intent);
    filled := PlaceBuy(broker, terms.day.date, intent.symbol, intent.limit, p.quantity, price, intent.asset, p.amount,
        p.fee, sold, bought);
    orders := orders + 1;
    if filled {
      turnover := turnover + p.amount;
    }
  }

  lemma AfterEither(x: Session, terms: Terms, intent: Intent)
    requires PositivePrices(terms.day) && SaneRisk(terms.risk) && intent.ratio >= 0.0
    ensures !Admits(x, terms, intent) ==> AfterIntent(x, terms, intent) == x
    ensures Admits(x, terms, intent) && !Fills(x, terms, intent) ==>
              AfterIntent(x, terms, intent) == x.(orders := x.orders + 1)
    ensures Fills(x, terms, intent) ==>
              var p := Sized(x, terms, intent);
              p.quantity > 0 && AfterIntent(x, terms, intent) == AfterPurchase(x, p, terms.day.date, intent.asset)
  {
    hide Admits, Sized, AfterPurchase;
    if Fills(x, terms, intent) {
      SizedMeetsLimits(x, terms, intent);
    }
  }

  lemma SizedAmounts(x: Session, terms: Terms, intent: Intent)
    requires PositivePrices(terms.day) && Admits(x, terms, intent)
    ensures var p, price := Sized(x, terms, intent), terms.day.bars[intent.symbol].open;
            price > 0.0 && p.amount == price * p.quantity as real && p.fee == Fee(Buy, p.amount, intent.asset)
  {
  }

  /** Submit a buy that the cash covers; it fills exactly when the price is within the limit. */
  method PlaceBuy(broker: OfflineBroker, date: int, symbol: string, limit: real, quantity: int, price: real,
                  asset: string,
                  ghost amount: real, ghost fee: real, ghost sold: set<string>, ghost bought: set<string>)
    returns (filled: bool)
    requires Inv(broker.Account()) && Tradable(broker.Account(), date, sold, bought)
    requires symbol !in bought && symbol !in broker.positions && quantity > 0 && price > 0.0
    requires amount == price * quantity as real && fee == Fee(Buy, amount, asset) && amount + fee <= broker.cash
    modifies broker
    ensures Inv(broker.Account()) && Tradable(broker.Account(), date, sold, bought + {symbol})
    ensures old(broker.fills) <= broker.fills
    ensures filled == (price <= limit) && broker.marks == old(broker.marks)
    ensures broker.cash == old(broker.cash) - if filled then amount + fee else 0.0
    ensures filled ==>
              broker.positions == old(broker.positions)[symbol := NewPosition(quantity, amount, fee, date, asset)]
    ensures !filled ==> broker.positions == old(broker.positions)
  {
    hide Inv, Fee;
    var key := DayKey(date, Buy, symbol);
    ghost var s0 := broker.Account();
    var _ := broker.Submit(key, symbol, Buy, limit, quantity, date, asset);
    ghost var s1 := broker.Account();
    StepKeepsInv(s0, SubmitOp(key, symbol, Buy, limit, quantity, date, asset));
    NewKeyHasNoFill(s0, date, sold, bought, key);
    OrdersKeepTradable(s0, s1, date, sold, bought + {symbol}, key);
    if price > limit {
      var _ := broker.Cancel(key);
      StepKeepsInv(s1, CancelOp(key));
      OrdersKeepTradable(s1, broker.Account(), date, sold, bought + {symbol}, key);
      return false;
    }
    BuyAccepted(s1, key, symbol, limit, quantity, price, date, asset, amount, fee);
    var outcome := broker.Fill(key, FillOf(key), quantity, price, date);
    assert outcome == Ok(true);
    StepKeepsInv(s1, FillOp(key, FillOf(key), quantity, price, date));
    FillKeepsTradable(s1, broker.Account(), date, sold, bought + {symbol},
        NewFill(s1.orders[key], key, FillOf(key), quantity, price, date));
    return true;
  }

  ghost function IntentSymbols(intents: seq<Intent>, n: nat): set<string>
    requires n <= |intents|
  {
    set i | 0 <= i < n :: intents[i].symbol
  }

  lemma MoreIntents(intents: seq<Intent>, n: nat)
    requires n < |intents| && DistinctSymbols(intents)
    ensures IntentSymbols(intents, n + 1) == IntentSymbols(intents, n) + {intents[n].symbol}
    ensures intents[n].symbol !in IntentSymbols(intents, n)
  {
    assert intents[n].symbol in IntentSymbols(intents, n + 1);
    forall symbol | symbol in IntentSymbols(intents, n) ensures symbol in IntentSymbols(intents, n + 1) {
      var i :| 0 <= i < n && intents[i].symbol == symbol;
      assert intents[i].symbol in IntentSymbols(intents, n + 1);
    }
  }

  lemma MoreBought(s: State, date: int, sold: set<string>, bought: set<string>, more: set<string>)
    requires Tradable(s, date, sold, bought) && bought <= more
    ensures Tradable(s, date, sold, more)
  {
  }

  lemma NoIntents(intents: seq<Intent>)
    ensures IntentSymbols(intents, 0) == {}
  {
  }

  /** The intents of a day in turn. */
  method BuyIntents(broker: OfflineBroker, terms: Terms, turnover0: real, orders0: nat, used0: set<int>,
                    ghost sold: set<string>)
    returns (used: set<int>, buys: nat, turnover: real, orders: nat)
    requires Inv(broker.Account()) && Tradable(broker.Account(), terms.day.date, sold, {})
    requires TradableDay(terms.day) && PositivePrices(terms.day) && SaneRisk(terms.risk) && terms.marks == broker.marks
    modifies broker
    ensures Inv(broker.Account())
    ensures Tradable(broker.Account(), terms.day.date, sold, IntentSymbols(terms.day.intents, |terms.day.intents|))
    ensures old(broker.fills) <= broker.fills && broker.marks == old(broker.marks)
    ensures var start := Session(old(broker.cash), old(broker.positions), turnover0, orders0, used0);
            && Session(broker.cash, broker.positions, turnover, orders, used)
               == AfterIntents(start, terms, |terms.day.intents|)
            && buys == |Purchases(start, terms, |terms.day.intents|)|
  {
    hide Inv, Tradable, PositivePrices, IntentSymbols, AfterIntent, Fills;
    var intents := terms.day.intents;
    used, buys, turnover, orders := used0, 0, turnover0, orders0;
    ghost var start := Session(broker.cash, broker.positions, turnover0, orders0, used0);
    assert IntentSymbols(intents, 0) == {} by { NoIntents(intents); }
    for i := 0 to |intents|
      invariant Inv(broker.Account()) && Tradable(broker.Account(), terms.day.date, sold, IntentSymbols(intents, i))
      invariant broker.marks == old(broker.marks) && old(broker.fills) <= broker.fills
      invariant Session(broker.cash, broker.positions, turnover, orders, used) == AfterIntents(start, terms, i)
      invariant buys == |Purchases(start, terms, i)|
    {
      var intent := intents[i];
      MoreIntents(intents, i);
      if intent.event in used {
        MoreBought(broker.Account(), terms.day.date, sold, IntentSymbols(intents, i), IntentSymbols(intents, i + 1));
        AlreadyUsed(AfterIntents(start, terms, i), terms, intent);
        continue;
      }
      var filled;
      filled, turnover, orders := BuyOne(broker, terms, intent, turnover, orders, used, sold,
          IntentSymbols(intents, i));
      if filled {
        buys := buys + 1;
        used := used + {intent.event};
      }
    }
  }

  lemma AlreadyUsed(x: Session, terms: Terms, intent: Intent)
    requires PositivePrices(terms.day) && intent.event in x.used
    ensures AfterIntent(x, terms, intent) == x && !Fills(x, terms, intent)
  {
  }

  // ----- the day and the run -----

  /** The marks after the positions outside `rest` are visited. */
  ghost predicate MarkedSoFar(marks: map<string, real>, missing: set<string>, start: map<string, real>,
                              positions: map<string, Position>, day: Day, rest: set<string>) {
    && (forall symbol :: symbol in missing <==> symbol in positions && symbol !in rest && Unpriced(day, symbol))
    && (forall symbol :: symbol in marks <==>
       symbol in start || (symbol in positions && symbol !in rest && !Unpriced(day, symbol)))
    && (forall symbol :: symbol in marks ==>
          marks[symbol] == if symbol in positions && symbol !in rest && !Unpriced(day, symbol)
              then day.bars[symbol].close else start[symbol])
  }

  lemma MarksBegin(start: map<string, real>, positions: map<string, Position>, day: Day)
    ensures MarkedSoFar(start, {}, start, positions, day, positions.Keys)
  {
  }

  lemma MarksEnd(marks: map<string, real>, missing: set<string>, start: map<string, real>,
                 positions: map<string, Position>, day: Day)
    requires MarkedSoFar(marks, missing, start, positions, day, {})
    ensures marks == Marked(start, positions, day) && missing == MissingOn(positions, day)
  {
    hide Unpriced;
  }

  lemma MarkOne(marks: map<string, real>, missing: set<string>, start: map<string, real>, positions: map<string,
                Position>, day: Day, rest: set<string>, symbol: string)
    requires MarkedSoFar(marks, missing, start, positions, day, rest) && symbol in rest && symbol in positions
    ensures Unpriced(day, symbol) ==> MarkedSoFar(marks, missing + {symbol}, start, positions, day, rest - {symbol})
    ensures !Unpriced(day, symbol) ==>
              MarkedSoFar(marks[symbol := day.bars[symbol].close], missing, start, positions, day, rest - {symbol})
  {
  }

  /** Mark every held symbol that has a positive close; the others are reported missing. */
  method MarkToClose(broker: OfflineBroker, day: Day) returns (missing: set<string>)
    modifies broker`marks
    ensures missing == MissingOn(broker.positions, day)
    ensures broker.marks == Marked(old(broker.marks), broker.positions, day)
  {
    hide MarkedSoFar, Marked, MissingOn;
    ghost var start := broker.marks;
    missing := {};
    var rest := broker.positions.Keys;
    MarksBegin(broker.marks, broker.positions, day);
    while rest != {}
      invariant rest <= broker.positions.Keys
      invariant MarkedSoFar(broker.marks, missing, start, broker.positions, day, rest)
      decreases |rest|
    {
      var symbol := Pick(rest);
      MarkOne(broker.marks, missing, start, broker.positions, day, rest, symbol);
      rest := rest - {symbol};
      if symbol !in day.bars || day.bars[symbol].close <= 0.0 {
        missing := missing + {symbol};
      } else {
        broker.marks := broker.marks[symbol := day.bars[symbol].close];
      }
    }
    MarksEnd(broker.marks, missing, start, broker.positions, day);
  }

  /** The report of a day that starts with `h`: a full valuation, or none if a held symbol has no close. */
  ghost predicate DayReported(report: DayReport, h: Holding, day: Day, rules: Rules)
    requires PositivePrices(day)
  {
    var after := AfterDay(h, day, rules);
    && report.date == day.date && report.buys == |DayBuys(h, day, rules)|
    && report.cash == after.cash && report.volumes == HeldVolumes(after.positions)
    && report.missing == MissingOn(after.positions, day)
    && report.nav == if MissingOn(after.positions, day) == {} then Some(StartNav(after)) else None
  }

  /** A day reports the volumes it ends with, what has no close, and a value only if nothing lacks one. */
  lemma ReportsTheHoldings(report: DayReport, h: Holding, day: Day, rules: Rules)
    requires PositivePrices(day) && DayReported(report, h, day, rules)
    ensures var after := AfterDay(h, day, rules);
            && report.cash == after.cash && report.volumes.Keys == after.positions.Keys
            && (forall symbol :: symbol in after.positions ==>
                  && report.volumes[symbol] == after.positions[symbol].volume
                  && (symbol in report.missing <==> symbol !in day.bars || day.bars[symbol].close <= 0.0))
            && report.missing <= after.positions.Keys && report.nav.Some? == (report.missing == {})
  {
    hide AfterDay, StartNav, DayBuys;
  }

  /** The reported value is the reported cash and every reported volume at the close of the day. */
  lemma ReportsTheCloses(report: DayReport, h: Holding, day: Day, rules: Rules)
    requires PositivePrices(day) && DayReported(report, h, day, rules) && report.nav.Some?
    ensures forall symbol :: symbol in report.volumes ==> symbol in day.bars
    ensures report.nav.value == report.cash + Total(Laws.AtCloses(report.volumes, day.bars))
  {
    hide Total, AfterDay, StartNav, DayBuys, Laws.AtCloses;
    ReportsTheHoldings(report, h, day, rules);
    var after := AfterDay(h, day, rules);
    forall symbol | symbol in after.positions ensures symbol in day.bars && day.bars[symbol].close > 0.0 {
      assert symbol !in report.missing;
    }
    Laws.ClosesValueTheDay(h, day, rules);
  }

  method ReplayDay(broker: OfflineBroker, day: Day, rules: Rules, used0: set<int>)
    returns (report: DayReport, used: set<int>)
    requires Inv(broker.Account()) && Tradable(broker.Account(), day.date, {}, {})
    requires TradableDay(day) && PositivePrices(day) && SaneRisk(rules.risk)
    modifies broker
    ensures Inv(broker.Account()) && DoneWith(broker.Account(), day.date) && old(broker.fills) <= broker.fills
    ensures Reconciles(broker.Account())
    ensures var h := Holding(old(broker.cash), old(broker.positions), old(broker.marks), used0);
            && Holding(broker.cash, broker.positions, broker.marks, used) == AfterDay(h, day, rules)
            && DayReported(report, h, day, rules)
  {
    hide Inv, Tradable, TradableDay, DoneWith, Nav, SoldOn, SoldAmounts, SoldNets, MustExits;
    hide AfterExits, AfterIntents, Purchases, Marked, Reconciles;
    ghost var h := Holding(broker.cash, broker.positions, broker.marks, used0);
    var start := NetValue(broker.cash, broker.positions, broker.marks);
    var terms := Terms(broker.marks, day, rules.risk, start);
    ghost var held := broker.positions.Keys;
    var orders, sold := SellExits(broker, day, rules, used0);
    var buys, turnover;
    MoreBought(broker.Account(), day.date, held, {}, {});
    used, buys, turnover, orders := BuyIntents(broker, terms, sold, orders, used0, held);
    DayEnds(broker.Account(), day.date, held, IntentSymbols(day.intents, |day.intents|));
    var missing := MarkToClose(broker, day);
    InvReconciles(broker.Account());
    var ledger := broker.Reconcile();
    assert ledger.Ok? by { ReconcilesMeans(broker.Account()); }
    var nav := None;
    if missing == {} {
      var value := NetValue(broker.cash, broker.positions, broker.marks);
      nav := Some(value);
    }
    report := DayReport(day.date, buys, nav, missing, ledger.value.0, ledger.value.1);
  }

  /** What the broker's reconciliation checks. */
  ghost predicate Reconciles(s: State) {
    Balanced(s) && HeldVolumes(s.positions) == JournalVolumes(s.fills)
  }

  lemma ReconcilesMeans(s: State)
    requires Reconciles(s)
    ensures Balanced(s) && HeldVolumes(s.positions) == JournalVolumes(s.fills)
  {
  }

  lemma InvReconciles(s: State)
    requires Inv(s)
    ensures Reconciles(s)
  {
    PositionsReconcile(s);
  }

  /** Nothing in the account is dated after `date`. */
  ghost predicate DoneWith(s: State, date: int) {
    forall next: int :: date < next ==> Tradable(s, next, {}, {})
  }

  lemma DayEnds(s: State, date: int, sold: set<string>, bought: set<string>)
    requires Tradable(s, date, sold, bought)
    ensures DoneWith(s, date)
  {
  }

  /**
   The accounts at the end of the first n days: each is the value-level one, reconciles, and
   continues the journal of the day before.
   */
  ghost predicate Ledgers(accounts: seq<State>, cash: real, days: seq<Day>, rules: Rules, n: nat)
    requires TradableDays(days) && n <= |days|
  {
    && |accounts| == n
    && (forall i :: 0 <= i < n ==> Inv(accounts[i]) && Reconciles(accounts[i]) && accounts[i].initial == cash)
    && (forall i :: 0 <= i < n ==> accounts[i].cash == AfterDays(cash, days, rules, i + 1).cash)
    && (forall i :: 0 <= i < n ==> accounts[i].positions == AfterDays(cash, days, rules, i + 1).positions)
    && (forall i, j :: 0 <= i < j < n ==> accounts[i].fills <= accounts[j].fills)
  }

  ghost predicate Reported(reports: seq<DayReport>, cash: real, days: seq<Day>, rules: Rules, n: nat)
    requires TradableDays(days) && n <= |days|
  {
    && |reports| == n
    && forall i :: 0 <= i < n ==> DayReported(reports[i], AfterDays(cash, days, rules, i), days[i], rules)
  }

  /** Between two days: the account is the value-level one, in order, and ready for day n. */
  ghost predicate Between(s: State, marks: map<string, real>, used: set<int>, cash: real, days: seq<Day>,
                          rules: Rules, n: nat)
    requires TradableDays(days) && n <= |days|
  {
    && Inv(s) && s.initial == cash
    && (n < |days| ==> Tradable(s, days[n].date, {}, {}))
    && Holding(s.cash, s.positions, marks, used) == AfterDays(cash, days, rules, n)
  }

  lemma BeforeFirstDay(cash: real, days: seq<Day>, rules: Rules)
    requires TradableDays(days)
    ensures Between(Opening(cash), map[], {}, cash, days, rules, 0)
    ensures Reported([], cash, days, rules, 0) && Ledgers([], cash, days, rules, 0)
  {
    OpeningInv(cash);
    OpeningTradable(cash);
  }

  lemma ReadyForDay(s: State, marks: map<string, real>, used: set<int>, cash: real, days: seq<Day>, rules: Rules,
                    n: nat)
    requires TradableDays(days) && n < |days| && Between(s, marks, used, cash, days, rules, n)
    ensures Inv(s) && Tradable(s, days[n].date, {}, {}) && TradableDay(days[n]) && PositivePrices(days[n])
    ensures s.initial == cash && Holding(s.cash, s.positions, marks, used) == AfterDays(cash, days, rules, n)
  {
  }

  lemma NextDay(s: State, marks: map<string, real>, used: set<int>, cash: real, days: seq<Day>, rules: Rules, n: nat)
    requires TradableDays(days) && n < |days|
    requires Inv(s) && s.initial == cash && DoneWith(s, days[n].date)
    requires Holding(s.cash, s.positions, marks, used) == AfterDay(AfterDays(cash, days, rules, n), days[n], rules)
    ensures Between(s, marks, used, cash, days, rules, n + 1)
  {
    hide Inv, Tradable, AfterDay;
  }

  lemma ReportDay(reports: seq<DayReport>, report: DayReport, cash: real, days: seq<Day>, rules: Rules, n: nat)
    requires TradableDays(days) && n < |days| && Reported(reports, cash, days, rules, n)
    requires DayReported(report, AfterDays(cash, days, rules, n), days[n], rules)
    ensures Reported(reports + [report], cash, days, rules, n + 1)
  {
    hide AfterDays, DayReported;
  }

  lemma KeepLedger(accounts: seq<State>, s: State, marks: map<string, real>, used: set<int>, cash: real,
                   days: seq<Day>, rules: Rules, n: nat)
    requires TradableDays(days) && n < |days| && Ledgers(accounts, cash, days, rules, n)
    requires Between(s, marks, used, cash, days, rules, n + 1) && Reconciles(s)
    requires n > 0 ==> accounts[n - 1].fills <= s.fills
    ensures Ledgers(accounts + [s], cash, days, rules, n + 1)
  {
    hide Inv, Tradable, AfterDays, Reconciles;
    var all := accounts + [s];
    forall i, j | 0 <= i < j < n + 1 ensures all[i].fills <= all[j].fills {
      assert i < n - 1 ==> accounts[i].fills <= accounts[n - 1].fills;
    }
  }

  /**
   The whole replay: over any calendar of increasing dates, positive prices and one intent per
   symbol and day, it computes exactly the value-level replay. No fill is rejected, and at the end
   of every day the account reconciles.
   */
  method Run(cash: real, days: seq<Day>, rules: Rules)
    returns (broker: OfflineBroker, reports: seq<DayReport>, ghost used: set<int>, ghost accounts: seq<State>)
    requires SaneRisk(rules.risk) && TradableDays(days)
    ensures fresh(broker) && Inv(broker.Account()) && broker.initial == cash
    ensures Holding(broker.cash, broker.positions, broker.marks, used) == AfterDays(cash, days, rules, |days|)
    ensures Reported(reports, cash, days, rules, |days|)
    ensures Ledgers(accounts, cash, days, rules, |days|)
    ensures days != [] ==> accounts[|days| - 1] == broker.Account()
    ensures forall n :: 0 <= n < |days| ==>
              MeetLimits(BuysOn(cash, days, rules, n), StartNav(AfterDays(cash, days, rules, n)), rules.risk)
    ensures EventsOnce(cash, days, rules)
    ensures Laws.ExitsFollowTheRules(cash, days, rules)
    ensures |broker.positions| == 0 || |broker.positions| <= rules.risk.maxPositionCount
  {
    hide Inv, TradableDay, Tradable, TradableDays, AfterDays, AfterDay, DayReported, Reported, Ledgers, Between;
    hide DoneWith, PositivePrices, Reconciles, MeetLimits, BuysOn, EventsOnce, Laws.ExitsFollowTheRules;
    broker := new OfflineBroker(cash);
    reports, accounts := [], [];
    var events: set<int> := {};
    BeforeFirstDay(cash, days, rules);
    for i := 0 to |days|
      invariant fresh(broker)
      invariant Between(broker.Account(), broker.marks, events, cash, days, rules, i)
      invariant Reported(reports, cash, days, rules, i) && Ledgers(accounts, cash, days, rules, i)
      invariant |reports| == |accounts| == i && (i > 0 ==> accounts[i - 1] == broker.Account())
    {
      ReadyForDay(broker.Account(), broker.marks, events, cash, days, rules, i);
      var report, nextEvents := ReplayDay(broker, days[i], rules, events);
      events := nextEvents;
      NextDay(broker.Account(), broker.marks, events, cash, days, rules, i);
      ReportDay(reports, report, cash, days, rules, i);
      KeepLedger(accounts, broker.Account(), broker.marks, events, cash, days, rules, i);
      reports, accounts := reports + [report], accounts + [broker.Account()];
    }
    used := events;
    AfterLastDay(broker.Account(), broker.marks, events, cash, days, rules);
    PositionsStayFew(cash, days, rules, |days|);
    NoEventTwice(cash, days, rules);
    Laws.EveryDayKeepsExactly(cash, days, rules);
    forall n | 0 <= n < |days|
      ensures MeetLimits(BuysOn(cash, days, rules, n), StartNav(AfterDays(cash, days, rules, n)), rules.risk)
    {
      EveryPurchaseMeetsLimits(cash, days, rules, n);
    }
  }

  lemma AfterLastDay(s: State, marks: map<string, real>, used: set<int>, cash: real, days: seq<Day>, rules: Rules)
    requires TradableDays(days) && Between(s, marks, used, cash, days, rules, |days|)
    ensures Inv(s) && s.initial == cash
    ensures Holding(s.cash, s.positions, marks, used) == AfterDays(cash, days, rules, |days|)
  {
  }

  lemma OpeningTradable(cash: real)
    ensures forall date: int :: Tradable(Opening(cash), date, {}, {})
  {
  }
}
