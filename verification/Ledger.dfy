/**
 The offline broker's account ledger as a value: orders, open positions, the fill
 journal and the closed holding cycles, together with one function for each
 operation. The journal is the reference: whatever the running state says about
 cash, volumes, costs and profits must be recoverable from the journal alone.
 Money is exact (`real`), dates are day numbers.
 */
module Ledger {
  import opened Outcomes
  import opened Totals

  datatype Side = Buy | Sell

  datatype OrderStatus = Submitted | PartiallyFilled | Filled | Canceled

  /** The replay names its orders by day, side and symbol; other callers use free text. */
  datatype OrderKey = DayKey(day: int, side: Side, symbol: string) | TextKey(text: string)

  datatype ExecId = FillOf(key: OrderKey) | TextExec(text: string)

  datatype Order = Order(
    symbol: string, side: Side, limit: real, quantity: int,
    filled: int, status: OrderStatus, date: int, asset: string)

  datatype Position = Position(
    volume: nat, cost: real, entryDate: int, asset: string, entryPrice: real,
    buyFees: real, soldProceeds: real, initialCost: real)

  datatype Fill = Fill(
    execId: ExecId, orderKey: OrderKey, symbol: string, side: Side, volume: int,
    price: real, amount: real, commission: real, date: int)

  datatype ClosedCycle = ClosedCycle(symbol: string, entryDate: int, exitDate: int, netPnl: real)

  datatype State = State(
    initial: real, cash: real, positions: map<string, Position>,
    orders: map<OrderKey, Order>, fills: seq<Fill>, closed: seq<ClosedCycle>)

  datatype FillError =
    | UnknownOrder
    | OrderNotFillable
    | InvalidFillQuantity
    | InvalidFillPrice
    | LimitViolation
    | InsufficientCash
    | PyramidingDisabled
    | Oversell
    | T1Pending

  datatype FillResult = Duplicate | Rejected(error: FillError) | Accepted(state: State)

  const FEE_RATE: real := 0.0003
  const MIN_FEE: real := 5.0
  const STAMP_TAX: real := 0.0005

  // ----- fees -----

  function Max(a: real, b: real): real {
    if a < b then b else a
  }

  /** Round to cents, halves away from zero. */
  function RoundCents(x: real): (r: real)
    ensures x - 0.005 <= r <= x + 0.005
  {
    if x >= 0.0 then (x * 100.0 + 0.5).Floor as real / 100.0
    else -((-x * 100.0 + 0.5).Floor as real / 100.0)
  }

  function Fee(side: Side, amount: real, asset: string): real {
    RoundCents(Max(MIN_FEE, amount * FEE_RATE) + if side.Sell? && asset == "STOCK" then amount * STAMP_TAX else 0.0)
  }

  // ----- operations -----

  function Opening(cash: real): State {
    State(cash, cash, map[], map[], [], [])
  }

  function Submit(s: State, key: OrderKey, symbol: string, side: Side, limit: real, quantity: int, date: int,
                  asset: string): State {
    if key in s.orders then s
    else s.(orders := s.orders[key := Order(symbol, side, limit, quantity, 0, Submitted, date, asset)])
  }

  /** Cancelling an unknown key raises KeyError in the source, so nothing changes. */
  function Cancel(s: State, key: OrderKey): State {
    if key in s.orders && Fillable(s.orders[key])
    then s.(orders := s.orders[key := s.orders[key].(status := Canceled)])
    else s
  }

  predicate Fillable(o: Order) {
    o.status.Submitted? || o.status.PartiallyFilled?
  }

  /** The first check that fails, in the order the broker performs them. */
  function OrderError(s: State, o: Order, quantity: int, price: real, date: int): Option<FillError> {
    var amount := price * quantity as real;
    var fee := Fee(o.side, amount, o.asset);
    if !Fillable(o) then Some(OrderNotFillable)
    else if quantity <= 0 || quantity + o.filled > o.quantity then Some(InvalidFillQuantity)
    else if price <= 0.0 then Some(InvalidFillPrice)
    else if (o.side.Buy? && price > o.limit) || (o.side.Sell? && price < o.limit) then Some(LimitViolation)
    else if o.side.Buy? then
      if amount + fee > s.cash then Some(InsufficientCash)
      else if o.symbol in s.positions && s.positions[o.symbol].entryDate != date then Some(PyramidingDisabled)
      else None
    else if o.symbol !in s.positions || quantity > s.positions[o.symbol].volume then Some(Oversell)
    else if date <= s.positions[o.symbol].entryDate then Some(T1Pending)
    else None
  }

  function NewFill(o: Order, key: OrderKey, execId: ExecId, quantity: int, price: real, date: int): Fill {
    var amount := price * quantity as real;
    Fill(execId, key, o.symbol, o.side, quantity, price, amount, Fee(o.side, amount, o.asset), date)
  }

  function EmptyPosition(o: Order, price: real, date: int): Position {
    Position(0, 0.0, date, o.asset, price, 0.0, 0.0, 0.0)
  }

  function Bought(p: Position, f: Fill): Position
    requires f.volume > 0
  {
    p.(volume := p.volume + f.volume,
       cost := p.cost + f.amount,
       initialCost := p.initialCost + f.amount,
       buyFees := p.buyFees + f.commission,
       entryPrice := (p.cost + f.amount) / (p.volume + f.volume) as real)
  }

  function Sold(p: Position, f: Fill): Position
    requires 0 < f.volume <= p.volume
  {
    p.(volume := p.volume - f.volume, soldProceeds := p.soldProceeds + f.amount - f.commission)
  }

  function Pnl(p: Position): real {
    p.soldProceeds - p.initialCost - p.buyFees
  }

  function FilledOrder(o: Order, quantity: int): Order {
    o.(filled := o.filled + quantity, status := if o.filled + quantity == o.quantity then Filled else PartiallyFilled)
  }

  /** Cash, positions and closed cycles after an accepted fill `f` of order `o`. */
  function Booked(s: State, o: Order, f: Fill): State
    requires f.volume > 0
    requires o.side.Sell? ==> o.symbol in s.positions && f.volume <= s.positions[o.symbol].volume
  {
    if o.side.Buy? then
      var p := if o.symbol in s.positions then s.positions[o.symbol] else EmptyPosition(o, f.price, f.date);
      s.(positions := s.positions[o.symbol := Bought(p, f)], cash := s.cash - (f.amount + f.commission))
    else
      var p := Sold(s.positions[o.symbol], f);
      var cash := s.cash + (f.amount - f.commission);
      if p.volume == 0 then
        s.(positions := s.positions - {o.symbol}, cash := cash,
           closed := s.closed + [ClosedCycle(o.symbol, p.entryDate, f.date, Pnl(p))])
      else s.(positions := s.positions[o.symbol := p], cash := cash)
  }

  predicate Seen(s: State, execId: ExecId) {
    exists i :: 0 <= i < |s.fills| && s.fills[i].execId == execId
  }

  function DoFill(s: State, key: OrderKey, execId: ExecId, quantity: int, price: real, date: int): FillResult {
    if Seen(s, execId) then Duplicate
    else if key !in s.orders then Rejected(UnknownOrder)
    else
      var o := s.orders[key];
      var error := OrderError(s, o, quantity, price, date);
      if error.Some? then Rejected(error.value)
      else
        var f := NewFill(o, key, execId, quantity, price, date);
        Accepted(Booked(s, o, f).(orders := s.orders[key := FilledOrder(o, quantity)], fills := s.fills + [f]))
  }

  // ----- what the journal says -----

  function Sum(fills: seq<Fill>, measure: Fill -> real): real {
    if fills == [] then 0.0 else Sum(fills[..|fills| - 1], measure) + measure(fills[|fills| - 1])
  }

  function Count(fills: seq<Fill>, measure: Fill -> int): int {
    if fills == [] then 0 else Count(fills[..|fills| - 1], measure) + measure(fills[|fills| - 1])
  }

  function CashDelta(f: Fill): real {
    (if f.side.Buy? then -f.amount else f.amount) - f.commission
  }

  function BuyAmount(f: Fill): real {
    if f.side.Buy? then f.amount else 0.0
  }

  function BuyFee(f: Fill): real {
    if f.side.Buy? then f.commission else 0.0
  }

  function SellProceeds(f: Fill): real {
    if f.side.Sell? then f.amount - f.commission else 0.0
  }

  function VolumeDelta(f: Fill): int {
    if f.side.Buy? then f.volume else -f.volume
  }

  function BuyVolume(f: Fill): int {
    if f.side.Buy? then f.volume else 0
  }

  /** Net volume of one symbol over the whole journal. */
  function JournalVolume(fills: seq<Fill>, symbol: string): int {
    if fills == [] then 0
    else
      var last := fills[|fills| - 1];
      JournalVolume(fills[..|fills| - 1], symbol) + if last.symbol == symbol then VolumeDelta(last) else 0
  }

  /** Volume journalled against one order. */
  function OrderVolume(fills: seq<Fill>, key: OrderKey): int {
    if fills == [] then 0
    else
      var last := fills[|fills| - 1];
      OrderVolume(fills[..|fills| - 1], key) + if last.orderKey == key then last.volume else 0
  }

  function Symbols(fills: seq<Fill>): set<string> {
    set i | 0 <= i < |fills| :: fills[i].symbol
  }

  /** The non-zero volumes the journal implies, by symbol. */
  function JournalVolumes(fills: seq<Fill>): map<string, int> {
    map symbol | symbol in Symbols(fills) && JournalVolume(fills, symbol) != 0 :: JournalVolume(fills, symbol)
  }

  function HeldVolumes(positions: map<string, Position>): map<string, int> {
    map symbol | symbol in positions :: positions[symbol].volume
  }

  /** The fills of `symbol` since its net volume was last zero. */
  function OpenCycle(fills: seq<Fill>, symbol: string): seq<Fill> {
    if fills == [] then []
    else
      var last := fills[|fills| - 1];
      var before := OpenCycle(fills[..|fills| - 1], symbol);
      if last.symbol != symbol then before
      else if Count(before + [last], VolumeDelta) == 0 then []
      else before + [last]
  }

  /** The holding cycles whose net volume returned to zero, in the order they ended. */
  function ClosedCycles(fills: seq<Fill>): seq<seq<Fill>> {
    if fills == [] then []
    else
      var last := fills[|fills| - 1];
      var earlier := ClosedCycles(fills[..|fills| - 1]);
      var cycle := OpenCycle(fills[..|fills| - 1], last.symbol) + [last];
      if Count(cycle, VolumeDelta) == 0 then earlier + [cycle] else earlier
  }

  lemma Snoc(fills: seq<Fill>, f: Fill)
    ensures (fills + [f])[..|fills + [f]| - 1] == fills
    ensures (fills + [f])[|fills + [f]| - 1] == f
  {
  }

  lemma SumSnoc(fills: seq<Fill>, f: Fill, measure: Fill -> real)
    ensures Sum(fills + [f], measure) == Sum(fills, measure) + measure(f)
  {
    Snoc(fills, f);
  }

  lemma CountSnoc(fills: seq<Fill>, f: Fill, measure: Fill -> int)
    ensures Count(fills + [f], measure) == Count(fills, measure) + measure(f)
  {
    Snoc(fills, f);
  }

  /** Splitting the journal into cycles loses no volume: closed cycles net to zero. */
  lemma {:induction false} CyclesKeepVolume(fills: seq<Fill>, symbol: string)
    ensures JournalVolume(fills, symbol) == Count(OpenCycle(fills, symbol), VolumeDelta)
  {
    if fills != [] {
      var before, last := fills[..|fills| - 1], fills[|fills| - 1];
      CyclesKeepVolume(before, symbol);
      CountSnoc(OpenCycle(before, symbol), last, VolumeDelta);
    }
  }

  // ----- the invariant -----

  ghost predicate Balanced(s: State) {
    s.cash == s.initial + Sum(s.fills, CashDelta)
  }

  /** What one holding cycle of the journal must look like. */
  ghost predicate CycleShape(cycle: seq<Fill>, symbol: string, entryDate: int) {
    && cycle != [] && cycle[0].side.Buy?
    && forall i :: 0 <= i < |cycle| ==>
         && cycle[i].symbol == symbol
         && cycle[i].volume > 0
         && (cycle[i].side.Buy? ==> cycle[i].date == entryDate)
         && (cycle[i].side.Sell? ==> cycle[i].date > entryDate)
  }

  /** Every field of an open position but its entry price is a sum over its cycle. */
  ghost predicate Records(p: Position, cycle: seq<Fill>, symbol: string) {
    && CycleShape(cycle, symbol, p.entryDate)
    && p.volume == Count(cycle, VolumeDelta) > 0
    && p.cost == p.initialCost == Sum(cycle, BuyAmount)
    && p.buyFees == Sum(cycle, BuyFee)
    && p.soldProceeds == Sum(cycle, SellProceeds)
  }

  ghost predicate PositionsRecorded(s: State) {
    forall symbol ::
      if symbol in s.positions then Records(s.positions[symbol], OpenCycle(s.fills, symbol), symbol)
      else OpenCycle(s.fills, symbol) == []
  }

  ghost predicate ClosedRecord(c: ClosedCycle, cycle: seq<Fill>) {
    && CycleShape(cycle, c.symbol, c.entryDate)
    && Count(cycle, VolumeDelta) == 0
    && c.exitDate == cycle[|cycle| - 1].date
    && c.netPnl == Sum(cycle, CashDelta)
  }

  ghost predicate ClosedRecorded(s: State) {
    && |s.closed| == |ClosedCycles(s.fills)|
    && forall i :: 0 <= i < |s.closed| ==> ClosedRecord(s.closed[i], ClosedCycles(s.fills)[i])
  }

  ghost predicate OrderRecorded(o: Order, key: OrderKey, fills: seq<Fill>) {
    && o.filled == OrderVolume(fills, key)
    && (o.status.Submitted? ==> o.filled == 0)
    && (o.status.PartiallyFilled? ==> 0 < o.filled < o.quantity)
    && (o.status.Filled? ==> 0 < o.filled == o.quantity)
    && (o.status.Canceled? ==> o.filled == 0 || 0 < o.filled < o.quantity)
  }

  ghost predicate OrdersRecorded(s: State) {
    && (forall key :: key in s.orders ==> OrderRecorded(s.orders[key], key, s.fills))
    && (forall i :: 0 <= i < |s.fills| ==> s.fills[i].orderKey in s.orders)
  }

  ghost predicate ExecIdsUnique(fills: seq<Fill>) {
    forall i, j :: 0 <= i < j < |fills| ==> fills[i].execId != fills[j].execId
  }

  ghost predicate DatesSorted(fills: seq<Fill>) {
    forall i, j :: 0 <= i < j < |fills| ==> fills[i].date <= fills[j].date
  }

  ghost predicate EntryPriceOf(p: Position, cycle: seq<Fill>) {
    p.entryPrice * Count(cycle, BuyVolume) as real == Sum(cycle, BuyAmount)
  }

  /** With fill dates that never go back, the entry price is the volume-weighted buy price. */
  ghost predicate EntryPrices(s: State) {
    DatesSorted(s.fills) ==>
      forall symbol :: symbol in s.positions ==> EntryPriceOf(s.positions[symbol], OpenCycle(s.fills, symbol))
  }

  ghost function ClosedPnl(closed: seq<ClosedCycle>): real {
    if closed == [] then 0.0 else ClosedPnl(closed[..|closed| - 1]) + closed[|closed| - 1].netPnl
  }

  ghost function OpenPnls(positions: map<string, Position>): map<string, real> {
    map symbol | symbol in positions :: Pnl(positions[symbol])
  }

  /** Every cent gained or lost is in a closed cycle or an open position. */
  ghost predicate ProfitExplained(s: State) {
    s.cash - s.initial == ClosedPnl(s.closed) + Total(OpenPnls(s.positions))
  }

  /** The money side: cash, open positions and closed cycles are what the journal says. */
  ghost predicate Account(s: State) {
    && Balanced(s)
    && PositionsRecorded(s)
    && ClosedRecorded(s)
    && EntryPrices(s)
    && ProfitExplained(s)
  }

  /** The order side: fills per order, and one journal entry per execution id. */
  ghost predicate Journalled(s: State) {
    OrdersRecorded(s) && ExecIdsUnique(s.fills)
  }

  ghost predicate Inv(s: State) {
    Account(s) && Journalled(s)
  }
}
