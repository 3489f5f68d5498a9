/** When a fill is accepted and what it costs, on the fields of the account and in figures. */
module FillLaws {
  import opened Ledger
  import opened LedgerProofs

  /** `fee` is a whole number of cents, the nearest to `charge`, the larger one of two equally near. */
  predicate IsHalfUp(fee: real, charge: real) {
    fee * 100.0 == (fee * 100.0).Floor as real && 100.0 * charge - 0.5 < 100.0 * fee <= 100.0 * charge + 0.5
  }

  /** Three ten-thousandths of the amount, at least 5.00, and another five ten-thousandths on the sale of a stock. */
  ghost predicate FeeOf(fee: real, side: Side, amount: real, asset: string) {
    && IsHalfUp(fee, fee) && fee >= 5.0
    && (side.Buy? || asset != "STOCK" ==>
          if 3.0 * amount <= 50000.0 then fee == 5.0 else IsHalfUp(fee, 3.0 * amount / 10000.0))
    && (side.Sell? && asset == "STOCK" ==>
          IsHalfUp(fee, 5.0 * amount / 10000.0 + if 3.0 * amount <= 50000.0 then 5.0 else 3.0 * amount / 10000.0))
  }

  lemma RoundedHalfUp(x: real)
    requires x >= 0.0
    ensures IsHalfUp(RoundCents(x), x)
    ensures x >= 5.0 ==> RoundCents(x) >= 5.0
  {
    var n := (x * 100.0 + 0.5).Floor;
    assert RoundCents(x) * 100.0 == n as real;
  }

  lemma HalfUpUnique(a: real, b: real, charge: real)
    requires IsHalfUp(a, charge) && IsHalfUp(b, charge)
    ensures a == b
  {
    var m, n := (a * 100.0).Floor, (b * 100.0).Floor;
    assert m == n;
  }

  lemma FeeInFigures(side: Side, amount: real, asset: string)
    requires amount >= 0.0
    ensures FeeOf(Fee(side, amount, asset), side, amount, asset)
  {
    var charge := Max(MIN_FEE, amount * FEE_RATE) + if side.Sell? && asset == "STOCK" then amount * STAMP_TAX else 0.0;
    RoundedHalfUp(charge);
    if (side.Buy? || asset != "STOCK") && 3.0 * amount <= 50000.0 {
      assert charge == 5.0 && (charge * 100.0 + 0.5).Floor == 500;
    }
  }

  /** At most one charge has the property, so it says what the fee is. */
  lemma FeeUnique(a: real, b: real, side: Side, amount: real, asset: string)
    requires FeeOf(a, side, amount, asset) && FeeOf(b, side, amount, asset)
    ensures a == b
  {
    var proportional := if 3.0 * amount <= 50000.0 then 5.0 else 3.0 * amount / 10000.0;
    if side.Sell? && asset == "STOCK" {
      HalfUpUnique(a, b, 5.0 * amount / 10000.0 + proportional);
    } else if 3.0 * amount > 50000.0 {
      HalfUpUnique(a, b, proportional);
    }
  }

  /** Only the sale of a stock is taxed: 1000 shares at 100.00 cost 80.00 to sell, and 30.00 otherwise. */
  lemma StampTaxOnStockSales()
    ensures Fee(Sell, 100000.0, "STOCK") == 80.0
    ensures Fee(Buy, 100000.0, "STOCK") == 30.0 && Fee(Sell, 100000.0, "ETF") == 30.0
  {
    FeeInFigures(Sell, 100000.0, "STOCK");
    FeeInFigures(Buy, 100000.0, "STOCK");
    FeeInFigures(Sell, 100000.0, "ETF");
  }

  /** The journal entry of an accepted fill. */
  ghost predicate Journals(f: Fill, o: Order, key: OrderKey, execId: ExecId, quantity: int, price: real, date: int) {
    && f.execId == execId && f.orderKey == key && f.symbol == o.symbol && f.side == o.side && f.date == date
    && f.volume == quantity && f.price == price && f.amount == price * quantity as real
    && FeeOf(f.commission, f.side, f.amount, o.asset)
  }

  /** What an accepted fill adds to the journal, with its commission. */
  lemma AcceptedFillJournals(s: State, key: OrderKey, execId: ExecId, quantity: int, price: real, date: int)
    ensures var r := DoFill(s, key, execId, quantity, price, date);
            r.Accepted? ==>
              && key in s.orders && |r.state.fills| == |s.fills| + 1 && s.fills <= r.state.fills
              && Journals(r.state.fills[|s.fills|], s.orders[key], key, execId, quantity, price, date)
  {
    var r := DoFill(s, key, execId, quantity, price, date);
    if r.Accepted? {
      Product(price, quantity as real);
      hide Fee, FeeOf;
      FeeInFigures(s.orders[key].side, price * quantity as real, s.orders[key].asset);
    }
  }

  lemma Product(x: real, y: real)
    ensures x > 0.0 && y > 0.0 ==> x * y > 0.0
  {
  }

  /** What has to hold of a fill, apart from its order, so that it can be booked. */
  ghost predicate Covered(s: State, o: Order, quantity: int, price: real, date: int) {
    match o.side
    case Buy =>
      && price <= o.limit
      && price * quantity as real + Fee(Buy, price * quantity as real, o.asset) <= s.cash
      && (o.symbol in s.positions ==> s.positions[o.symbol].entryDate == date)
    case Sell =>
      && price >= o.limit && o.symbol in s.positions
      && quantity <= s.positions[o.symbol].volume && s.positions[o.symbol].entryDate < date
  }

  /**
   A fill is accepted if and only if its id is new, its order is open and has so much left, the price
   keeps the limit, and cash covers a buy of nothing or of today's position, or shares held since an
   earlier day cover a sale.
   */
  lemma AcceptedExactly(s: State, key: OrderKey, execId: ExecId, quantity: int, price: real, date: int)
    ensures DoFill(s, key, execId, quantity, price, date).Accepted? <==>
              && (forall i :: 0 <= i < |s.fills| ==> s.fills[i].execId != execId)
              && key in s.orders && s.orders[key].status in {Submitted, PartiallyFilled}
              && 0 < quantity <= s.orders[key].quantity - s.orders[key].filled && price > 0.0
              && Covered(s, s.orders[key], quantity, price, date)
    ensures DoFill(s, key, execId, quantity, price, date).Duplicate? <==>
              exists i :: 0 <= i < |s.fills| && s.fills[i].execId == execId
  {
    hide Fee;
  }

  /** In every reachable account every journalled commission is the fee of its amount and of its order's asset. */
  lemma {:induction false} EveryCommission(cash: real, states: seq<State>, ops: seq<Op>, n: nat)
    requires IsRun(cash, states, ops) && n < |states|
    ensures forall i :: 0 <= i < |states[n].fills| ==>
              var f := states[n].fills[i];
              && f.orderKey in states[n].orders && f.amount == f.price * f.volume as real
              && FeeOf(f.commission, f.side, f.amount, states[n].orders[f.orderKey].asset)
  {
    hide FeeOf, DoFill, Submit, Cancel;
    if n > 0 {
      EveryCommission(cash, states, ops, n - 1);
      var s, op := states[n - 1], ops[n - 1];
      assert states[n] == Step(s, op);
      AssetsStay(s, op);
      if op.FillOp? {
        AcceptedFillJournals(s, op.key, op.execId, op.quantity, op.price, op.date);
      }
    }
  }

  /** Orders are never removed and keep their asset; only an accepted fill adds to the journal. */
  lemma AssetsStay(s: State, op: Op)
    ensures forall key :: key in s.orders ==>
              key in Step(s, op).orders && Step(s, op).orders[key].asset == s.orders[key].asset
    ensures !op.FillOp? || !DoFill(s, op.key, op.execId, op.quantity, op.price, op.date).Accepted? ==>
              Step(s, op).fills == s.fills
  {
  }
}
