/**
 What the broker's operations keep, over every sequence of submits, fills and
 cancels, and what the journal alone therefore proves about the account.
 */
module LedgerProofs {
  import opened Ledger
  import opened Totals

  // ----- one accepted fill -----

  /** How the cycles of the journal move when one fill is appended. */
  lemma CyclesSnoc(fills: seq<Fill>, f: Fill, symbol: string)
    ensures OpenCycle(fills + [f], symbol) ==
            if f.symbol != symbol then OpenCycle(fills, symbol)
            else if Count(OpenCycle(fills, symbol), VolumeDelta) + VolumeDelta(f) == 0 then []
            else OpenCycle(fills, symbol) + [f]
    ensures ClosedCycles(fills + [f]) ==
            if Count(OpenCycle(fills, f.symbol), VolumeDelta) + VolumeDelta(f) == 0
            then ClosedCycles(fills) + [OpenCycle(fills, f.symbol) + [f]]
            else ClosedCycles(fills)
  {
    Snoc(fills, f);
    CountSnoc(OpenCycle(fills, f.symbol), f, VolumeDelta);
  }

  /** All sums over a cycle that one fill extends. */
  lemma CycleSums(cycle: seq<Fill>, f: Fill)
    ensures Sum(cycle + [f], BuyAmount) == Sum(cycle, BuyAmount) + BuyAmount(f)
    ensures Sum(cycle + [f], BuyFee) == Sum(cycle, BuyFee) + BuyFee(f)
    ensures Sum(cycle + [f], SellProceeds) == Sum(cycle, SellProceeds) + SellProceeds(f)
    ensures Count(cycle + [f], VolumeDelta) == Count(cycle, VolumeDelta) + VolumeDelta(f)
  {
    SumSnoc(cycle, f, BuyAmount);
    SumSnoc(cycle, f, BuyFee);
    SumSnoc(cycle, f, SellProceeds);
    CountSnoc(cycle, f, VolumeDelta);
  }

  lemma {:induction false} CycleCash(cycle: seq<Fill>)
    ensures Sum(cycle, CashDelta) == Sum(cycle, SellProceeds) - Sum(cycle, BuyAmount) - Sum(cycle, BuyFee)
  {
    if cycle != [] {
      CycleCash(cycle[..|cycle| - 1]);
    }
  }

  /** What the broker's checks have established about a fill it is about to book. */
  predicate Checked(s: State, o: Order, f: Fill) {
    && f.symbol == o.symbol && f.side == o.side && f.volume > 0
    && (f.side.Buy? && f.symbol in s.positions ==> s.positions[f.symbol].entryDate == f.date)
    && (f.side.Sell? ==>
          f.symbol in s.positions && f.volume <= s.positions[f.symbol].volume
              && s.positions[f.symbol].entryDate < f.date)
  }

  lemma BuyExtends(p: Position, cycle: seq<Fill>, f: Fill)
    requires f.side.Buy? && f.volume > 0 && p.entryDate == f.date
    requires Records(p, cycle, f.symbol)
               || (cycle == [] && p == Position(0, 0.0, f.date, p.asset, p.entryPrice, 0.0, 0.0, 0.0))
    ensures Records(Bought(p, f), cycle + [f], f.symbol)
  {
    CycleSums(cycle, f);
  }

  lemma SellExtends(p: Position, cycle: seq<Fill>, f: Fill)
    requires f.side.Sell? && 0 < f.volume <= p.volume && p.entryDate < f.date
    requires Records(p, cycle, f.symbol)
    ensures CycleShape(cycle + [f], f.symbol, p.entryDate)
    ensures Count(cycle + [f], VolumeDelta) == p.volume - f.volume
    ensures Pnl(Sold(p, f)) == Sum(cycle + [f], CashDelta)
    ensures f.volume < p.volume ==> Records(Sold(p, f), cycle + [f], f.symbol)
  {
    CycleSums(cycle, f);
    CycleCash(cycle + [f]);
  }

  lemma BookedPosition(s: State, o: Order, f: Fill, symbol: string)
    requires PositionsRecorded(s) && Checked(s, o, f)
    ensures var after := Booked(s, o, f).positions;
            if symbol in after then Records(after[symbol], OpenCycle(s.fills + [f], symbol), symbol)
            else OpenCycle(s.fills + [f], symbol) == []
  {
    var cycle := OpenCycle(s.fills, symbol);
    assert if symbol in s.positions then Records(s.positions[symbol], cycle, symbol) else cycle == [];
    CyclesSnoc(s.fills, f, symbol);
    if f.symbol == symbol {
      if f.side.Buy? {
        var p := if symbol in s.positions then s.positions[symbol] else EmptyPosition(o, f.price, f.date);
        BuyExtends(p, cycle, f);
      } else {
        SellExtends(s.positions[symbol], cycle, f);
      }
    }
  }

  /** `after` has the cash, positions and cycles that booking `f` produces, and `f` in its journal. */
  predicate Books(s: State, o: Order, f: Fill, after: State)
    requires Checked(s, o, f)
  {
    var booked := Booked(s, o, f);
    && after.initial == s.initial && after.cash == booked.cash
    && after.positions == booked.positions && after.closed == booked.closed
    && after.fills == s.fills + [f]
  }

  lemma BookedPositions(s: State, o: Order, f: Fill, after: State)
    requires PositionsRecorded(s) && Checked(s, o, f) && Books(s, o, f, after)
    ensures PositionsRecorded(after)
  {
    forall symbol
      ensures if symbol in after.positions then Records(after.positions[symbol], OpenCycle(after.fills, symbol), symbol)
              else OpenCycle(after.fills, symbol) == []
    {
      BookedPosition(s, o, f, symbol);
    }
  }

  lemma BookedClosed(s: State, o: Order, f: Fill, after: State)
    requires PositionsRecorded(s) && ClosedRecorded(s) && Checked(s, o, f) && Books(s, o, f, after)
    ensures ClosedRecorded(after)
  {
    var cycle := OpenCycle(s.fills, f.symbol);
    assert if f.symbol in s.positions then Records(s.positions[f.symbol], cycle, f.symbol) else cycle == [];
    CyclesSnoc(s.fills, f, f.symbol);
    if f.side.Sell? {
      SellExtends(s.positions[f.symbol], cycle, f);
    }
  }

  lemma BookedOrders(s: State, key: OrderKey, f: Fill, after: State)
    requires OrdersRecorded(s) && key in s.orders && f.orderKey == key && Fillable(s.orders[key])
    requires 0 < f.volume <= s.orders[key].quantity - s.orders[key].filled
    requires after.orders == s.orders[key := FilledOrder(s.orders[key], f.volume)] && after.fills == s.fills + [f]
    ensures OrdersRecorded(after)
  {
    Snoc(s.fills, f);
    assert OrderRecorded(s.orders[key], key, s.fills);
    forall k | k in after.orders
      ensures OrderRecorded(after.orders[k], k, after.fills)
    {
      assert OrderRecorded(s.orders[k], k, s.fills);
    }
  }

  /** In a cycle that has seen no sell, the net volume is the bought volume. */
  lemma {:induction false} BuysOnly(cycle: seq<Fill>)
    requires forall i :: 0 <= i < |cycle| ==> cycle[i].side.Buy?
    ensures Count(cycle, BuyVolume) == Count(cycle, VolumeDelta)
  {
    if cycle != [] {
      BuysOnly(cycle[..|cycle| - 1]);
    }
  }

  /** Every fill of an open cycle is in the journal. */
  lemma {:induction false} CycleFromJournal(fills: seq<Fill>, symbol: string)
    ensures forall i :: 0 <= i < |OpenCycle(fills, symbol)| ==> OpenCycle(fills, symbol)[i] in fills
  {
    if fills != [] {
      CycleFromJournal(fills[..|fills| - 1], symbol);
    }
  }

  /** A buy into an open position comes before every sell of that position. */
  lemma BuyBeforeSells(fills: seq<Fill>, f: Fill, p: Position)
    requires DatesSorted(fills + [f]) && f.side.Buy? && p.entryDate == f.date
    requires Records(p, OpenCycle(fills, f.symbol), f.symbol)
    ensures Count(OpenCycle(fills, f.symbol), BuyVolume) == p.volume
  {
    var cycle := OpenCycle(fills, f.symbol);
    CycleFromJournal(fills, f.symbol);
    forall i | 0 <= i < |cycle| ensures cycle[i].side.Buy? {
      assert cycle[i] in fills;
      var j :| 0 <= j < |fills| && fills[j] == cycle[i];
      assert (fills + [f])[j].date <= (fills + [f])[|fills|].date;
    }
    BuysOnly(cycle);
  }

  lemma AveragePrice(p: Position, f: Fill)
    requires f.volume > 0
    ensures Bought(p, f).entryPrice * (p.volume + f.volume) as real == p.cost + f.amount
  {
  }

  lemma BuySetsEntryPrice(p: Position, cycle: seq<Fill>, f: Fill)
    requires f.side.Buy? && f.volume > 0
    requires p.volume == Count(cycle, BuyVolume) && p.cost == Sum(cycle, BuyAmount)
    ensures EntryPriceOf(Bought(p, f), cycle + [f])
  {
    SumSnoc(cycle, f, BuyAmount);
    CountSnoc(cycle, f, BuyVolume);
    AveragePrice(p, f);
  }

  lemma SellKeepsEntryPrice(p: Position, cycle: seq<Fill>, f: Fill)
    requires f.side.Sell? && 0 < f.volume <= p.volume && EntryPriceOf(p, cycle)
    ensures EntryPriceOf(Sold(p, f), cycle + [f])
  {
    hide Sum, Count;
    SumSnoc(cycle, f, BuyAmount);
    CountSnoc(cycle, f, BuyVolume);
  }

  lemma RecordedCosts(s: State, symbol: string)
    requires PositionsRecorded(s)
    ensures var cycle := OpenCycle(s.fills, symbol);
            if symbol in s.positions
            then s.positions[symbol].cost == Sum(cycle, BuyAmount)
                && s.positions[symbol].volume == Count(cycle, VolumeDelta) > 0
            else cycle == []
  {
    assert if symbol in s.positions then Records(s.positions[symbol], OpenCycle(s.fills, symbol), symbol)
           else OpenCycle(s.fills, symbol) == [];
  }

  lemma BookedEntryPrice(s: State, o: Order, f: Fill, after: State, symbol: string)
    requires PositionsRecorded(s) && Checked(s, o, f) && Books(s, o, f, after)
    requires symbol in s.positions ==> EntryPriceOf(s.positions[symbol], OpenCycle(s.fills, symbol))
    requires DatesSorted(after.fills) && symbol in after.positions
    ensures EntryPriceOf(after.positions[symbol], OpenCycle(after.fills, symbol))
  {
    var cycle := OpenCycle(s.fills, symbol);
    RecordedCosts(s, symbol);
    CyclesSnoc(s.fills, f, symbol);
    if symbol == f.symbol {
      if f.side.Sell? {
        SellKeepsEntryPrice(s.positions[symbol], cycle, f);
      } else if symbol in s.positions {
        assert Records(s.positions[symbol], cycle, symbol);
        BuyBeforeSells(s.fills, f, s.positions[symbol]);
        BuySetsEntryPrice(s.positions[symbol], cycle, f);
      } else {
        BuySetsEntryPrice(EmptyPosition(o, f.price, f.date), cycle, f);
      }
    }
  }

  lemma BookedEntryPrices(s: State, o: Order, f: Fill, after: State)
    requires PositionsRecorded(s) && EntryPrices(s) && Checked(s, o, f) && Books(s, o, f, after)
    ensures EntryPrices(after)
  {
    if DatesSorted(after.fills) {
      assert DatesSorted(s.fills) by {
        assert forall i :: 0 <= i < |s.fills| ==> after.fills[i] == s.fills[i];
      }
      forall symbol | symbol in after.positions
        ensures EntryPriceOf(after.positions[symbol], OpenCycle(after.fills, symbol))
      {
        BookedEntryPrice(s, o, f, after, symbol);
      }
    }
  }

  /** Changing one position changes the open profit by that position's change alone. */
  lemma PnlMoves(before: map<string, Position>, after: map<string, Position>, symbol: string)
    requires before - {symbol} == after - {symbol}
    ensures Total(OpenPnls(after)) - (if symbol in after then Pnl(after[symbol]) else 0.0)
         == Total(OpenPnls(before)) - (if symbol in before then Pnl(before[symbol]) else 0.0)
  {
    assert OpenPnls(before) - {symbol} == OpenPnls(before - {symbol});
    assert OpenPnls(after) - {symbol} == OpenPnls(after - {symbol});
    if symbol in before {
      TotalRemove(OpenPnls(before), symbol);
    } else {
      assert before - {symbol} == before;
    }
    if symbol in after {
      TotalRemove(OpenPnls(after), symbol);
    } else {
      assert after - {symbol} == after;
    }
  }

  lemma BuyPnl(p: Position, f: Fill)
    requires f.volume > 0
    ensures Pnl(Bought(p, f)) == Pnl(p) - f.amount - f.commission
  {
  }

  lemma SoldPnl(p: Position, f: Fill)
    requires 0 < f.volume <= p.volume
    ensures Pnl(Sold(p, f)) == Pnl(p) + f.amount - f.commission
    ensures Sold(p, f).volume == p.volume - f.volume
  {
  }

  lemma ClosedPnlSnoc(closed: seq<ClosedCycle>, c: ClosedCycle)
    ensures ClosedPnl(closed + [c]) == ClosedPnl(closed) + c.netPnl
  {
    assert (closed + [c])[..|closed + [c]| - 1] == closed;
  }

  lemma BookedProfit(s: State, o: Order, f: Fill, after: State)
    requires ProfitExplained(s) && Checked(s, o, f) && Books(s, o, f, after)
    ensures ProfitExplained(after)
  {
    hide Bought, Sold, OpenPnls, Total;
    PnlMoves(s.positions, after.positions, f.symbol);
    if f.side.Buy? {
      BuyPnl(if f.symbol in s.positions then s.positions[f.symbol] else EmptyPosition(o, f.price, f.date), f);
    } else {
      var p := s.positions[f.symbol];
      SoldPnl(p, f);
      if f.volume == p.volume {
        ClosedPnlSnoc(s.closed, ClosedCycle(f.symbol, Sold(p, f).entryDate, f.date, Pnl(Sold(p, f))));
      }
    }
  }

  lemma AcceptedBooks(s: State, key: OrderKey, execId: ExecId, quantity: int, price: real, date: int, after: State)
    requires DoFill(s, key, execId, quantity, price, date) == Accepted(after)
    ensures key in s.orders && !Seen(s, execId) && Fillable(s.orders[key])
    ensures 0 < quantity <= s.orders[key].quantity - s.orders[key].filled
    ensures var f := NewFill(s.orders[key], key, execId, quantity, price, date);
            && Checked(s, s.orders[key], f)
            && Books(s, s.orders[key], f, after)
            && after.orders == s.orders[key := FilledOrder(s.orders[key], quantity)]
  {
  }

  lemma BookedAccount(s: State, o: Order, f: Fill, after: State)
    requires Account(s) && Checked(s, o, f) && Books(s, o, f, after)
    ensures Account(after)
  {
    assert Balanced(after) by { SumSnoc(s.fills, f, CashDelta); }
    assert PositionsRecorded(after) by { BookedPositions(s, o, f, after); }
    assert ClosedRecorded(after) by { BookedClosed(s, o, f, after); }
    assert ProfitExplained(after) by { BookedProfit(s, o, f, after); }
    assert EntryPrices(after) by { BookedEntryPrices(s, o, f, after); }
  }

  lemma BookedJournal(s: State, key: OrderKey, f: Fill, after: State)
    requires Journalled(s) && key in s.orders && f.orderKey == key && Fillable(s.orders[key])
    requires 0 < f.volume <= s.orders[key].quantity - s.orders[key].filled && !Seen(s, f.execId)
    requires after.orders == s.orders[key := FilledOrder(s.orders[key], f.volume)] && after.fills == s.fills + [f]
    ensures Journalled(after)
  {
    BookedOrders(s, key, f, after);
  }

  lemma AcceptedKeepsInv(s: State, key: OrderKey, execId: ExecId, quantity: int, price: real, date: int)
    requires Inv(s)
    ensures var r := DoFill(s, key, execId, quantity, price, date); r.Accepted? ==> Inv(r.state)
  {
    hide Account, Journalled;
    var r := DoFill(s, key, execId, quantity, price, date);
    if r.Accepted? {
      AcceptedBooks(s, key, execId, quantity, price, date, r.state);
      var f := NewFill(s.orders[key], key, execId, quantity, price, date);
      BookedAccount(s, s.orders[key], f, r.state);
      BookedJournal(s, key, f, r.state);
    }
  }

  // ----- every sequence of operations -----

  datatype Op =
    | SubmitOp(key: OrderKey, symbol: string, side: Side, limit: real, quantity: int, date: int, asset: string)
    | FillOp(key: OrderKey, execId: ExecId, quantity: int, price: real, date: int)
    | CancelOp(key: OrderKey)

  /** A duplicate or rejected fill leaves the account as it was. */
  function Step(s: State, op: Op): State {
    match op
    case SubmitOp(key, symbol, side, limit, quantity, date, asset) => Submit(s, key, symbol, side, limit, quantity,
        date, asset)
    case FillOp(key, execId, quantity, price, date) =>
      var r := DoFill(s, key, execId, quantity, price, date);
      if r.Accepted? then r.state else s
    case CancelOp(key) => Cancel(s, key)
  }

  lemma OpeningInv(cash: real)
    ensures Inv(Opening(cash))
  {
  }

  lemma {:induction false} UnknownOrderHasNoFills(fills: seq<Fill>, key: OrderKey)
    requires forall i :: 0 <= i < |fills| ==> fills[i].orderKey != key
    ensures OrderVolume(fills, key) == 0
  {
    if fills != [] {
      UnknownOrderHasNoFills(fills[..|fills| - 1], key);
    }
  }

  lemma SubmitKeepsInv(s: State, key: OrderKey, symbol: string, side: Side, limit: real, quantity: int, date: int,
                       asset: string)
    requires Journalled(s)
    ensures Journalled(Submit(s, key, symbol, side, limit, quantity, date, asset))
  {
    if key !in s.orders {
      UnknownOrderHasNoFills(s.fills, key);
    }
  }

  lemma CancelKeepsInv(s: State, key: OrderKey)
    requires Journalled(s)
    ensures Journalled(Cancel(s, key))
  {
    if key in s.orders {
      assert OrderRecorded(s.orders[key], key, s.fills);
    }
  }

  lemma StepKeepsInv(s: State, op: Op)
    requires Inv(s)
    ensures Inv(Step(s, op))
  {
    hide Journalled;
    match op
    case SubmitOp(key, symbol, side, limit, quantity, date, asset) =>
      SubmitKeepsInv(s, key, symbol, side, limit, quantity, date, asset);
    case FillOp(key, execId, quantity, price, date) =>
      AcceptedKeepsInv(s, key, execId, quantity, price, date);
    case CancelOp(key) =>
      CancelKeepsInv(s, key);
  }

  /** A history of the account: `states[i + 1]` is `states[i]` after `ops[i]`, from a new account with `cash`. */
  ghost predicate IsRun(cash: real, states: seq<State>, ops: seq<Op>) {
    && |states| == |ops| + 1
    && states[0] == Opening(cash)
    && forall i :: 0 <= i < |ops| ==> states[i + 1] == Step(states[i], ops[i])
  }

  lemma {:induction false} RunInv(cash: real, states: seq<State>, ops: seq<Op>, i: nat)
    requires IsRun(cash, states, ops) && i < |states|
    ensures Inv(states[i]) && states[i].initial == cash
  {
    hide Inv;
    if i == 0 {
      OpeningInv(cash);
    } else {
      RunInv(cash, states, ops, i - 1);
      StepKeepsInv(states[i - 1], ops[i - 1]);
    }
  }

  // ----- what every reachable account satisfies -----

  lemma {:induction false} UnknownSymbolHasNoVolume(fills: seq<Fill>, symbol: string)
    requires symbol !in Symbols(fills)
    ensures JournalVolume(fills, symbol) == 0
  {
    if fills != [] {
      var before, last := fills[..|fills| - 1], fills[|fills| - 1];
      assert symbol != last.symbol;
      forall i | 0 <= i < |before| ensures before[i].symbol != symbol {
        assert fills[i].symbol in Symbols(fills);
      }
      UnknownSymbolHasNoVolume(before, symbol);
    }
  }

  lemma PositionsReconcile(s: State)
    requires PositionsRecorded(s)
    ensures HeldVolumes(s.positions) == JournalVolumes(s.fills)
  {
    forall symbol
      ensures symbol in s.positions <==> symbol in JournalVolumes(s.fills)
      ensures symbol in s.positions ==> s.positions[symbol].volume == JournalVolume(s.fills, symbol)
    {
      RecordedCosts(s, symbol);
      CyclesKeepVolume(s.fills, symbol);
      if symbol !in Symbols(s.fills) {
        UnknownSymbolHasNoVolume(s.fills, symbol);
      }
    }
  }

  /** Folding the journal gives exactly the running cash and the open volumes. */
  lemma JournalReconciles(cash: real, states: seq<State>, ops: seq<Op>, i: nat)
    requires IsRun(cash, states, ops) && i < |states|
    ensures states[i].cash == cash + Sum(states[i].fills, CashDelta)
    ensures HeldVolumes(states[i].positions) == JournalVolumes(states[i].fills)
  {
    RunInv(cash, states, ops, i);
    PositionsReconcile(states[i]);
  }

  /** All of the cash gained or lost is booked to a closed cycle or an open position. */
  lemma ProfitIsExplained(cash: real, states: seq<State>, ops: seq<Op>, i: nat)
    requires IsRun(cash, states, ops) && i < |states|
    ensures states[i].cash - cash == ClosedPnl(states[i].closed) + Total(OpenPnls(states[i].positions))
  {
    RunInv(cash, states, ops, i);
  }

  ghost predicate FillsPositive(fills: seq<Fill>) {
    forall i :: 0 <= i < |fills| ==> fills[i].volume > 0
  }

  lemma {:induction false} RunFillsPositive(cash: real, states: seq<State>, ops: seq<Op>, i: nat)
    requires IsRun(cash, states, ops) && i < |states|
    ensures FillsPositive(states[i].fills)
  {
    if i > 0 {
      RunFillsPositive(cash, states, ops, i - 1);
      assert states[i] == Step(states[i - 1], ops[i - 1]);
    }
  }

  lemma {:induction false} OrderVolumePositive(fills: seq<Fill>, key: OrderKey)
    requires FillsPositive(fills)
    ensures OrderVolume(fills, key) >= 0
    ensures (exists j :: 0 <= j < |fills| && fills[j].orderKey == key) ==> OrderVolume(fills, key) > 0
  {
    if fills != [] {
      OrderVolumePositive(fills[..|fills| - 1], key);
      forall j | 0 <= j < |fills| - 1 && fills[j].orderKey == key ensures OrderVolume(fills, key) > 0 {
        assert fills[..|fills| - 1][j].orderKey == key;
      }
    }
  }

  /** No order is filled beyond its quantity and no execution is journalled twice. */
  lemma NoOverfill(cash: real, states: seq<State>, ops: seq<Op>, i: nat, key: OrderKey)
    requires IsRun(cash, states, ops) && i < |states|
    requires exists j :: 0 <= j < |states[i].fills| && states[i].fills[j].orderKey == key
    ensures key in states[i].orders
    ensures OrderVolume(states[i].fills, key) == states[i].orders[key].filled
    ensures 0 < OrderVolume(states[i].fills, key) <= states[i].orders[key].quantity
    ensures ExecIdsUnique(states[i].fills)
  {
    RunInv(cash, states, ops, i);
    RunFillsPositive(cash, states, ops, i);
    OrderVolumePositive(states[i].fills, key);
    assert OrderRecorded(states[i].orders[key], key, states[i].fills);
  }

  /** Taking a cycle out of the journal keeps its order, and ends no later than the journal. */
  lemma {:induction false} OpenCycleSorted(fills: seq<Fill>, symbol: string)
    requires DatesSorted(fills)
    ensures DatesSorted(OpenCycle(fills, symbol))
    ensures forall i :: 0 <= i < |OpenCycle(fills, symbol)| ==>
              OpenCycle(fills, symbol)[i].date <= fills[|fills| - 1].date
  {
    if fills != [] {
      var before := fills[..|fills| - 1];
      assert DatesSorted(before) by {
        assert forall i :: 0 <= i < |before| ==> before[i] == fills[i];
      }
      OpenCycleSorted(before, symbol);
      var last := fills[|fills| - 1];
      assert before == [] || before[|before| - 1].date <= last.date;
      hide DatesSorted;
      SortedSnoc(OpenCycle(before, symbol), last);
    }
  }

  lemma SortedSnoc(fills: seq<Fill>, f: Fill)
    ensures DatesSorted(fills) && (forall i :: 0 <= i < |fills| ==> fills[i].date <= f.date) ==>
              DatesSorted(fills + [f])
    ensures DatesSorted([])
  {
  }

  lemma {:induction false} ClosedCyclesSorted(fills: seq<Fill>, i: nat)
    requires DatesSorted(fills) && i < |ClosedCycles(fills)|
    ensures DatesSorted(ClosedCycles(fills)[i])
  {
    var before := fills[..|fills| - 1];
    assert forall j :: 0 <= j < |before| ==> before[j] == fills[j];
    if i < |ClosedCycles(before)| {
      ClosedCyclesSorted(before, i);
    } else {
      OpenCycleSorted(before, fills[|fills| - 1].symbol);
    }
  }

  /** Buys on the entry date first, then only sells on strictly later dates. */
  ghost predicate BuysThenSells(cycle: seq<Fill>, symbol: string, entryDate: int) {
    && CycleShape(cycle, symbol, entryDate)
    && forall i, j :: 0 <= i < j < |cycle| && cycle[i].side.Sell? ==> cycle[j].side.Sell?
  }

  lemma SortedCycle(cycle: seq<Fill>, symbol: string, entryDate: int)
    requires CycleShape(cycle, symbol, entryDate) && DatesSorted(cycle)
    ensures BuysThenSells(cycle, symbol, entryDate)
  {
    forall i, j | 0 <= i < j < |cycle| && cycle[i].side.Sell?
      ensures cycle[j].side.Sell?
    {
      assert cycle[i].date <= cycle[j].date;
    }
  }

  /**
   With fill dates that never go back, every open cycle is a block of buys followed by later sells,
   and its entry price is the volume-weighted price of those buys.
   */
  lemma OpenCyclesAreBlocks(cash: real, states: seq<State>, ops: seq<Op>, i: nat, symbol: string)
    requires IsRun(cash, states, ops) && i < |states|
    requires DatesSorted(states[i].fills) && symbol in states[i].positions
    ensures var p, cycle := states[i].positions[symbol], OpenCycle(states[i].fills, symbol);
            && BuysThenSells(cycle, symbol, p.entryDate)
            && p.entryPrice * Count(cycle, BuyVolume) as real == Sum(cycle, BuyAmount)
  {
    RunInv(cash, states, ops, i);
    var s := states[i];
    assert Records(s.positions[symbol], OpenCycle(s.fills, symbol), symbol);
    OpenCycleSorted(s.fills, symbol);
    SortedCycle(OpenCycle(s.fills, symbol), symbol, s.positions[symbol].entryDate);
    assert EntryPriceOf(s.positions[symbol], OpenCycle(s.fills, symbol));
  }

  /** The same block shape for every closed cycle, whose booked profit is the cash it moved. */
  lemma ClosedCyclesAreBlocks(cash: real, states: seq<State>, ops: seq<Op>, i: nat, n: nat)
    requires IsRun(cash, states, ops) && i < |states|
    requires DatesSorted(states[i].fills) && n < |states[i].closed|
    ensures |ClosedCycles(states[i].fills)| == |states[i].closed|
    ensures var c, cycle := states[i].closed[n], ClosedCycles(states[i].fills)[n];
            && BuysThenSells(cycle, c.symbol, c.entryDate)
            && c.exitDate == cycle[|cycle| - 1].date > c.entryDate
            && Count(cycle, VolumeDelta) == 0
            && c.netPnl == Sum(cycle, CashDelta)
  {
    RunInv(cash, states, ops, i);
    var s := states[i];
    var c, cycle := s.closed[n], ClosedCycles(s.fills)[n];
    assert ClosedRecord(c, cycle);
    ClosedCyclesSorted(s.fills, n);
    SortedCycle(cycle, c.symbol, c.entryDate);
    if cycle[|cycle| - 1].side.Buy? {
      BuysHavePositiveVolume(cycle);
      assert false;
    }
  }

  lemma {:induction false} BuysHavePositiveVolume(cycle: seq<Fill>)
    requires cycle != []
    requires forall i :: 0 <= i < |cycle| ==> cycle[i].side.Buy? && cycle[i].volume > 0
    ensures Count(cycle, VolumeDelta) > 0
  {
    if |cycle| > 1 {
      BuysHavePositiveVolume(cycle[..|cycle| - 1]);
    } else {
      assert Count(cycle[..0], VolumeDelta) == 0;
    }
  }

  /** The fill `f` is booked by this step. */
  ghost predicate Makes(s: State, op: Op, f: Fill) {
    && op.FillOp?
    && DoFill(s, op.key, op.execId, op.quantity, op.price, op.date).Accepted?
    && f == NewFill(s.orders[op.key], op.key, op.execId, op.quantity, op.price, op.date)
  }

  lemma StepCash(s: State, op: Op)
    ensures (forall f :: !Makes(s, op, f)) ==> Step(s, op).cash == s.cash && Step(s, op).fills == s.fills
    ensures forall f :: Makes(s, op, f) ==>
              && Step(s, op).cash == s.cash + CashDelta(f)
              && Step(s, op).fills == s.fills + [f]
              && (f.side.Buy? ==> f.amount + f.commission <= s.cash)
  {
    if op.FillOp? {
      var r := DoFill(s, op.key, op.execId, op.quantity, op.price, op.date);
      if r.Accepted? {
        AcceptedBooks(s, op.key, op.execId, op.quantity, op.price, op.date, r.state);
        assert Makes(s, op, NewFill(s.orders[op.key], op.key, op.execId, op.quantity, op.price, op.date));
      }
    }
  }

  /** One step takes cash below zero exactly when it books a sell whose fee is not covered. */
  lemma CashTurnsNegative(s: State, op: Op)
    requires s.cash >= 0.0
    ensures Step(s, op).cash < 0.0 <==>
            exists f :: Makes(s, op, f) && f.side.Sell? && s.cash + f.amount < f.commission
  {
    StepCash(s, op);
  }

  /** Cash never goes below zero over a run whose sell amounts cover their fees. */
  lemma {:induction false} CashStaysNonNegative(cash: real, states: seq<State>, ops: seq<Op>, i: nat)
    requires IsRun(cash, states, ops) && i < |states| && cash >= 0.0
    requires forall j :: 0 <= j < |states[i].fills| && states[i].fills[j].side.Sell? ==>
               states[i].fills[j].commission <= states[i].fills[j].amount
    ensures states[i].cash >= 0.0
  {
    if i > 0 {
      var before, op := states[i - 1], ops[i - 1];
      assert states[i] == Step(before, op);
      StepCash(before, op);
      assert before.fills <= states[i].fills;
      assert forall j :: 0 <= j < |before.fills| ==> states[i].fills[j] == before.fills[j];
      CashStaysNonNegative(cash, states, ops, i - 1);
      if f :| Makes(before, op, f) {
        assert states[i].fills[|before.fills|] == f;
      }
    }
  }

  // ----- what does not hold without its condition -----

  /** After a buy the entry price is the average buy price exactly when the cycle has seen no sell. */
  lemma BuyAveragesExactly(p: Position, cycle: seq<Fill>, f: Fill)
    requires p.cost == Sum(cycle, BuyAmount) >= 0.0 && f.side.Buy? && f.volume > 0 && f.amount > 0.0
    ensures EntryPriceOf(Bought(p, f), cycle + [f]) <==> Count(cycle, BuyVolume) == p.volume
  {
    hide Bought, Sum, Count;
    SumSnoc(cycle, f, BuyAmount);
    CountSnoc(cycle, f, BuyVolume);
    AveragePrice(p, f);
    Proportional(Bought(p, f).entryPrice, p.volume + f.volume, Count(cycle + [f], BuyVolume),
        Sum(cycle + [f], BuyAmount));
  }

  lemma Proportional(x: real, n: int, m: int, total: real)
    requires x * n as real == total > 0.0
    ensures x * m as real == total <==> m == n
  {
    if x * m as real == total {
      assert x * (m - n) as real == 0.0;
      assert x != 0.0;
    }
  }

  /**
   A tiny sell can cost more than it brings: 105 buys 100 shares at 1, then selling one share at 1
   pays a fee of 5.
   */
  lemma CashCanTurnNegative(symbol: string, buy: OrderKey, sell: OrderKey, first: ExecId, second: ExecId)
    requires buy != sell && first != second
    ensures var s0 := Submit(Opening(105.0), buy, symbol, Buy, 1.0, 100, 1, "ETF");
            var r1 := DoFill(s0, buy, first, 100, 1.0, 1);
            && r1.Accepted? && r1.state.cash == 0.0
            && var s2 := Submit(r1.state, sell, symbol, Sell, 1.0, 1, 2, "ETF");
               var r2 := DoFill(s2, sell, second, 1, 1.0, 2);
               r2.Accepted? && r2.state.cash == -4.0
  {
    var o := Order(symbol, Buy, 1.0, 100, 0, Submitted, 1, "ETF");
    var s0 := Submit(Opening(105.0), buy, symbol, Buy, 1.0, 100, 1, "ETF");
    SpendAll(s0, buy, o, first);
    var s1 := DoFill(s0, buy, first, 100, 1.0, 1).state;
    var s2 := Submit(s1, sell, symbol, Sell, 1.0, 1, 2, "ETF");
    SellOne(s2, sell, Order(symbol, Sell, 1.0, 1, 0, Submitted, 2, "ETF"), second);
  }

  lemma SpendAll(s: State, key: OrderKey, o: Order, execId: ExecId)
    requires s.cash == 105.0 && s.positions == map[] && s.fills == [] && key in s.orders && s.orders[key] == o
    requires o == Order(o.symbol, Buy, 1.0, 100, 0, Submitted, 1, "ETF")
    ensures var r := DoFill(s, key, execId, 100, 1.0, 1);
            && r.Accepted? && r.state.cash == 0.0 && o.symbol in r.state.positions
            && r.state.positions[o.symbol].volume == 100 && r.state.positions[o.symbol].entryDate == 1
            && r.state.orders.Keys == s.orders.Keys && |r.state.fills| == 1 && r.state.fills[0].execId == execId
  {
    assert Fee(Buy, 100.0, "ETF") == 5.0;
    assert OrderError(s, o, 100, 1.0, 1).None?;
  }

  lemma SellOne(s: State, key: OrderKey, o: Order, execId: ExecId)
    requires s.cash == 0.0 && o.symbol in s.positions && !Seen(s, execId) && key in s.orders && s.orders[key] == o
    requires s.positions[o.symbol].volume == 100 && s.positions[o.symbol].entryDate == 1
    requires o == Order(o.symbol, Sell, 1.0, 1, 0, Submitted, 2, "ETF")
    ensures var r := DoFill(s, key, execId, 1, 1.0, 2);
            r.Accepted? && r.state.cash == -4.0
  {
    assert Fee(Sell, 1.0, "ETF") == 5.0;
    assert OrderError(s, o, 1, 1.0, 2).None?;
  }

  /** One accepted buy at price 1 of an ETF, for a position opened on day 1 or not yet open. */
  lemma BuyHundred(s: State, key: OrderKey, o: Order, execId: ExecId)
    requires key in s.orders && s.orders[key] == o && !Seen(s, execId) && Fillable(o)
    requires o.side.Buy? && o.limit == 1.0 && o.asset == "ETF" && o.filled + 100 <= o.quantity && s.cash >= 105.0
    requires o.symbol in s.positions ==> s.positions[o.symbol].entryDate == 1
    ensures var r := DoFill(s, key, execId, 100, 1.0, 1);
            && r.Accepted? && r.state.cash == s.cash - 105.0
            && r.state.orders == s.orders[key := FilledOrder(o, 100)]
               && r.state.fills == s.fills + [NewFill(o, key, execId, 100, 1.0, 1)]
            && o.symbol in r.state.positions
            && r.state.positions[o.symbol]
               == Bought(if o.symbol in s.positions then s.positions[o.symbol] else EmptyPosition(o, 1.0, 1),
                                                     NewFill(o, key, execId, 100, 1.0, 1))
  {
    assert Fee(Buy, 100.0, "ETF") == 5.0;
    assert OrderError(s, o, 100, 1.0, 1).None?;
  }

  lemma SellFifty(s: State, key: OrderKey, o: Order, execId: ExecId)
    requires key in s.orders && s.orders[key] == o && !Seen(s, execId)
    requires o == Order(o.symbol, Sell, 1.0, 50, 0, Submitted, 2, "ETF")
    requires o.symbol in s.positions && s.positions[o.symbol].volume == 100 && s.positions[o.symbol].entryDate == 1
    ensures var r := DoFill(s, key, execId, 50, 1.0, 2);
            && r.Accepted? && r.state.cash == s.cash + 45.0
            && r.state.orders == s.orders[key := FilledOrder(o, 50)]
               && r.state.fills == s.fills + [NewFill(o, key, execId, 50, 1.0, 2)]
            && r.state.positions
               == s.positions[o.symbol := Sold(s.positions[o.symbol], NewFill(o, key, execId, 50, 1.0, 2))]
  {
    assert Fee(Sell, 50.0, "ETF") == 5.0;
    assert OrderError(s, o, 50, 1.0, 2).None?;
  }

  /** Buying 100 on day 1, selling 50 on day 2 and booking a buy of day 1 late makes the entry price wrong. */
  lemma AverageCanBeWrong(symbol: string, buy: OrderKey, sell: OrderKey, first: ExecId, second: ExecId, third: ExecId)
    returns (states: seq<State>, ops: seq<Op>)
    requires buy != sell && first != second && first != third && second != third
    ensures IsRun(400.0, states, ops) && |states| == 6 && symbol in states[5].positions
    ensures !EntryPriceOf(states[5].positions[symbol], OpenCycle(states[5].fills, symbol))
  {
    ops := [SubmitOp(buy, symbol, Buy, 1.0, 200, 1, "ETF"), FillOp(buy, first, 100, 1.0, 1),
            SubmitOp(sell, symbol, Sell, 1.0, 50, 2, "ETF"), FillOp(sell, second, 50, 1.0, 2),
            FillOp(buy, third, 100, 1.0, 1)];
    var s1 := Step(Opening(400.0), ops[0]);
    BuyHundred(s1, buy, s1.orders[buy], first);
    var s2 := Step(s1, ops[1]);
    var s3 := Step(s2, ops[2]);
    SellFifty(s3, sell, s3.orders[sell], second);
    var s4 := Step(s3, ops[3]);
    var o := s4.orders[buy];
    BuyHundred(s4, buy, o, third);
    var s5 := Step(s4, ops[4]);
    states := [Opening(400.0), s1, s2, s3, s4, s5];
    LateBuyMisses(s4, s5, symbol, NewFill(o, buy, third, 100, 1.0, 1), states, ops);
  }

  lemma LateBuyMisses(s: State, after: State, symbol: string, f: Fill, states: seq<State>, ops: seq<Op>)
    requires IsRun(400.0, states, ops) && |states| == 6 && states[4] == s && DatesSorted(s.fills)
    requires symbol in s.positions && s.positions[symbol].volume == 50 && s.positions[symbol].entryPrice == 1.0
    requires s.positions[symbol].cost == 100.0
    requires f.symbol == symbol && f.side.Buy? && f.volume == 100 && f.amount == 100.0
    requires after.fills == s.fills + [f] && symbol in after.positions
    requires after.positions[symbol] == Bought(s.positions[symbol], f)
    ensures !EntryPriceOf(after.positions[symbol], OpenCycle(after.fills, symbol))
  {
    hide Bought, Step;
    RunInv(400.0, states, ops, 4);
    var p, cycle := s.positions[symbol], OpenCycle(s.fills, symbol);
    assert Records(p, cycle, symbol) && EntryPriceOf(p, cycle);
    assert Count(cycle, BuyVolume) == 100;
    BuyAveragesExactly(p, cycle, f);
    CyclesSnoc(s.fills, f, symbol);
  }
}
