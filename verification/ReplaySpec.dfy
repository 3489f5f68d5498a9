/**
 The offline replay on values: what one day, and then all days, make of cash, positions and marks.
 Data the strategy would compute (the day's intents, the last close before the day) is input.
 Sells are sums over the positions that must leave, so their order plays no part.
 */
module ReplaySpec {
  import opened Outcomes
  import opened Totals
  import opened Ledger
  import opened ReplaySizing

  datatype Bar = Bar(open: real, high: real, low: real, close: real, volume: real)

  datatype Intent = Intent(event: int, symbol: string, board: string, limit: real, ratio: real, asset: string)

  datatype Exits = Exits(stopLoss: real, takeProfit: real, maxHolding: int)

  /** What stays fixed over the whole replay. */
  datatype Rules = Rules(exits: Exits, openDates: seq<int>, risk: Risk)

  datatype Day = Day(date: int, bars: map<string, Bar>, previousClose: map<string, real>, intents: seq<Intent>)

  datatype DayReport = DayReport(date: int, buys: nat, nav: Option<real>, missing: set<string>, cash: real,
      volumes: map<string, int>)

  // ----- valuation -----

  function Mark(p: Position, symbol: string, marks: map<string, real>): real {
    if symbol in marks then marks[symbol] else p.entryPrice
  }

  function Value(p: Position, symbol: string, marks: map<string, real>): real {
    p.volume as real * Mark(p, symbol, marks)
  }

  function Values(positions: map<string, Position>, marks: map<string, real>): map<string, real> {
    map symbol | symbol in positions :: Value(positions[symbol], symbol, marks)
  }

  ghost function Nav(cash: real, positions: map<string, Position>, marks: map<string, real>): real {
    cash + Total(Values(positions, marks))
  }

  // ----- exits -----

  predicate ExitTriggered(p: Position, lastClose: real, heldDays: int, exits: Exits) {
    var stop := p.entryPrice * (1.0 - exits.stopLoss);
    var take := p.entryPrice * (1.0 + exits.takeProfit);
    || (stop > 0.0 && lastClose <= stop)
    || (take > 0.0 && lastClose >= take)
    || (exits.maxHolding > 0 && heldDays >= exits.maxHolding)
  }

  /** Daily bars without volume or range cannot prove an execution. */
  predicate Executable(bar: Bar) {
    bar.volume > 0.0 && bar.high != bar.low
  }

  /** Every bar that can be traded on opens at a positive price. */
  ghost predicate PositivePrices(day: Day) {
    forall symbol :: symbol in day.bars && Executable(day.bars[symbol]) ==> day.bars[symbol].open > 0.0
  }

  ghost function Held(openDates: seq<int>, entry: int, date: int): nat {
    |set i | 0 <= i < |openDates| && entry < openDates[i] <= date|
  }

  /** There is a bar to trade on and the previous close fired one of the position's exit rules. */
  ghost predicate MustExit(p: Position, day: Day, symbol: string, rules: Rules): (must: bool)
    ensures must ==> symbol in day.bars
  {
    && symbol in day.previousClose && symbol in day.bars
    && ExitTriggered(p, day.previousClose[symbol], Held(rules.openDates, p.entryDate, day.date), rules.exits)
  }

  ghost function MustExits(positions: map<string, Position>, day: Day, rules: Rules): set<string> {
    set symbol | symbol in positions && MustExit(positions[symbol], day, symbol, rules)
  }

  ghost predicate Leaves(positions: map<string, Position>, day: Day, rules: Rules, symbol: string) {
    symbol in positions && MustExit(positions[symbol], day, symbol, rules) && Executable(day.bars[symbol])
  }

  ghost function SoldOn(positions: map<string, Position>, day: Day, rules: Rules): set<string> {
    set symbol | symbol in positions && Leaves(positions, day, rules, symbol)
  }

  /** What a whole position brings at the open. */
  function SaleAmount(p: Position, bar: Bar): real {
    p.volume as real * bar.open
  }

  ghost function SoldAmounts(positions: map<string, Position>, day: Day, rules: Rules): map<string, real> {
    map symbol | symbol in SoldOn(positions, day, rules) :: SaleAmount(positions[symbol], day.bars[symbol])
  }

  function NetOfFee(amount: real, asset: string): real {
    amount - Fee(Sell, amount, asset)
  }

  ghost function SoldNets(positions: map<string, Position>, day: Day, rules: Rules): map<string, real> {
    map symbol | symbol in SoldOn(positions, day, rules) ::
      NetOfFee(SaleAmount(positions[symbol], day.bars[symbol]), positions[symbol].asset)
  }

  // ----- entries -----

  /** What stays fixed while a day's intents are worked off. */
  datatype Terms = Terms(marks: map<string, real>, day: Day, risk: Risk, startNav: real)

  /** The account during a day, with the day's running turnover and order count and all events used so far. */
  datatype Session = Session(cash: real, positions: map<string, Position>, turnover: real, orders: nat, used: set<int>)

  ghost function SessionNav(x: Session, terms: Terms): real {
    Nav(x.cash, x.positions, terms.marks)
  }

  ghost function SizedQuantity(x: Session, terms: Terms, intent: Intent): int
    requires PositivePrices(terms.day)
    requires intent.symbol in terms.day.bars && Executable(terms.day.bars[intent.symbol])
  {
    var budget := Budget(SessionNav(x, terms), x.cash, terms.startNav, x.turnover, intent.ratio, terms.risk);
    Quantity(budget, intent.limit, terms.day.bars[intent.symbol].open)
  }

  /** The guards in front of every buy, in one condition. */
  ghost predicate Admits(x: Session, terms: Terms, intent: Intent): (admits: bool)
    requires PositivePrices(terms.day)
    ensures admits ==> intent.symbol in terms.day.bars && Executable(terms.day.bars[intent.symbol])
  {
    && intent.event !in x.used && intent.symbol !in x.positions && intent.board in terms.risk.allowedBoards
    && intent.symbol in terms.day.bars && Executable(terms.day.bars[intent.symbol])
    && x.orders < terms.risk.maxNewOrders
    && SessionNav(x, terms) > terms.startNav * (1.0 - terms.risk.dailyLossKill)
    && |x.positions| < terms.risk.maxPositionCount
    && SizedQuantity(x, terms, intent) >= LOT
  }

  /** The purchase an admitted intent asks for. */
  ghost function Sized(x: Session, terms: Terms, intent: Intent): Purchase
    requires PositivePrices(terms.day)
    requires intent.symbol in terms.day.bars && Executable(terms.day.bars[intent.symbol])
  {
    var quantity := SizedQuantity(x, terms, intent);
    var amount := terms.day.bars[intent.symbol].open * quantity as real;
    var fee := Fee(Buy, amount, intent.asset);
    Purchase(intent.event, intent.symbol, quantity, amount, fee, SessionNav(x, terms), x.cash, x.turnover, intent.ratio)
  }

  /** An admitted intent is filled when the open is within its limit. */
  ghost predicate Fills(x: Session, terms: Terms, intent: Intent)
    requires PositivePrices(terms.day)
  {
    Admits(x, terms, intent) && terms.day.bars[intent.symbol].open <= intent.limit
  }

  function NewPosition(quantity: int, amount: real, fee: real, date: int, asset: string): Position
    requires quantity > 0
  {
    Position(quantity, amount, date, asset, amount / quantity as real, fee, 0.0, amount)
  }

  ghost function AfterPurchase(x: Session, p: Purchase, date: int, asset: string): Session
    requires p.quantity > 0
  {
    Session(x.cash - (p.amount + p.fee),
            x.positions[p.symbol := NewPosition(p.quantity, p.amount, p.fee, date, asset)],
            x.turnover + p.amount, x.orders + 1, x.used + {p.event})
  }

  /** An order is placed for every admitted intent. */
  ghost function AfterIntent(x: Session, terms: Terms, intent: Intent): Session
    requires PositivePrices(terms.day)
  {
    if Fills(x, terms, intent) then AfterPurchase(x, Sized(x, terms, intent), terms.day.date, intent.asset)
    else if Admits(x, terms, intent) then x.(orders := x.orders + 1)
    else x
  }

  ghost function AfterIntents(x: Session, terms: Terms, n: nat): Session
    requires PositivePrices(terms.day) && n <= |terms.day.intents|
  {
    if n == 0 then x else AfterIntent(AfterIntents(x, terms, n - 1), terms, terms.day.intents[n - 1])
  }

  /** The purchases made for the first n intents, in order. */
  ghost function Purchases(x: Session, terms: Terms, n: nat): seq<Purchase>
    requires PositivePrices(terms.day) && n <= |terms.day.intents|
  {
    if n == 0 then []
    else
      var before, intent := AfterIntents(x, terms, n - 1), terms.day.intents[n - 1];
      Purchases(x, terms, n - 1) + if Fills(before, terms, intent) then [Sized(before, terms, intent)] else []
  }

  // ----- days -----

  ghost predicate DistinctSymbols(intents: seq<Intent>) {
    forall i, j :: 0 <= i < j < |intents| ==> intents[i].symbol != intents[j].symbol
  }

  ghost predicate TradableDay(day: Day) {
    && PositivePrices(day)
    && DistinctSymbols(day.intents)
    && forall i :: 0 <= i < |day.intents| ==> day.intents[i].ratio >= 0.0
  }

  ghost predicate Increasing(days: seq<Day>) {
    forall i, j :: 0 <= i < j < |days| ==> days[i].date < days[j].date
  }

  ghost predicate TradableDays(days: seq<Day>) {
    Increasing(days) && forall i :: 0 <= i < |days| ==> TradableDay(days[i]) && PositivePrices(days[i])
  }

  predicate Unpriced(day: Day, symbol: string) {
    symbol !in day.bars || day.bars[symbol].close <= 0.0
  }

  /** The symbols whose valuation the day cannot give. */
  ghost function MissingOn(positions: map<string, Position>, day: Day): set<string> {
    set symbol | symbol in positions && Unpriced(day, symbol)
  }

  /** Marks move to the close of every held symbol that has one. */
  ghost function Marked(marks: map<string, real>, positions: map<string, Position>, day: Day): map<string, real> {
    map symbol | symbol in marks.Keys + positions.Keys && (symbol in marks || !Unpriced(day, symbol)) ::
      if symbol in positions && !Unpriced(day, symbol) then day.bars[symbol].close else marks[symbol]
  }

  /** The account between two days. */
  datatype Holding = Holding(cash: real, positions: map<string, Position>, marks: map<string, real>, used: set<int>)

  ghost function StartNav(h: Holding): real {
    Nav(h.cash, h.positions, h.marks)
  }

  ghost function TermsOf(h: Holding, day: Day, rules: Rules): Terms {
    Terms(h.marks, day, rules.risk, StartNav(h))
  }

  /** After the exits of the day, before its entries. */
  ghost function AfterExits(h: Holding, day: Day, rules: Rules): Session {
    Session(h.cash + Total(SoldNets(h.positions, day, rules)),
            h.positions - SoldOn(h.positions, day, rules),
            Total(SoldAmounts(h.positions, day, rules)),
            |MustExits(h.positions, day, rules)|, h.used)
  }

  /** After the entries of the day, before its marks. */
  ghost function AtClose(h: Holding, day: Day, rules: Rules): Session
    requires PositivePrices(day)
  {
    AfterIntents(AfterExits(h, day, rules), TermsOf(h, day, rules), |day.intents|)
  }

  ghost function DayBuys(h: Holding, day: Day, rules: Rules): seq<Purchase>
    requires PositivePrices(day)
  {
    Purchases(AfterExits(h, day, rules), TermsOf(h, day, rules), |day.intents|)
  }

  ghost function AfterDay(h: Holding, day: Day, rules: Rules): Holding
    requires PositivePrices(day)
  {
    var x := AtClose(h, day, rules);
    Holding(x.cash, x.positions, Marked(h.marks, x.positions, day), x.used)
  }

  /** The account after the first n days. */
  ghost function AfterDays(cash: real, days: seq<Day>, rules: Rules, n: nat): Holding
    requires TradableDays(days) && n <= |days|
  {
    if n == 0 then Holding(cash, map[], map[], {})
    else AfterDay(AfterDays(cash, days, rules, n - 1), days[n - 1], rules)
  }

  /** The purchases of day n. */
  ghost function BuysOn(cash: real, days: seq<Day>, rules: Rules, n: nat): seq<Purchase>
    requires TradableDays(days) && n < |days|
  {
    DayBuys(AfterDays(cash, days, rules, n), days[n], rules)
  }
}
