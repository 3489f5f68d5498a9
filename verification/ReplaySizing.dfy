/** How the replay sizes a buy, and why the rounded fee always fits the budget. */
module ReplaySizing {
  import opened Ledger

  /** The risk section of the replay's input. */
  datatype Risk = Risk(
    maxSingleOrder: real, maxSymbolPosition: real, maxTotalPosition: real, minCashReserve: real,
    maxDailyTurnover: real, dailyLossKill: real,
    maxPositionCount: int, maxNewOrders: int, allowedBoards: set<string>)

  const LOT := 100

  function Min(a: real, b: real): (r: real)
    ensures r <= a && r <= b && (r == a || r == b)
  {
    if b < a then b else a
  }

  function Ratio(proposed: real, risk: Risk): real {
    Min(Min(proposed, risk.maxSingleOrder), risk.maxSymbolPosition)
  }

  /** What one more buy may cost: the tightest of the four running limits. */
  function Budget(nav: real, cash: real, startNav: real, turnover: real, proposed: real, risk: Risk): (b: real) {
    var ratio := Ratio(proposed, risk);
    Min(Min(Min(nav * ratio, nav * risk.maxTotalPosition - (nav - cash)), cash - nav * risk.minCashReserve),
        startNav * risk.maxDailyTurnover - turnover)
  }

  /** Whole lots that the budget buys at the worse of limit and open price, keeping the minimum fee back. */
  function Quantity(budget: real, limit: real, price: real): int
    requires price > 0.0
  {
    (Max(0.0, budget - MIN_FEE) / (Max(limit, price) * (1.0 + FEE_RATE))).Floor / LOT * LOT
  }

  lemma FloorLots(x: real)
    requires x >= 0.0
    ensures 0 <= x.Floor / LOT * LOT && (x.Floor / LOT * LOT) as real <= x
    ensures x < (x.Floor / LOT * LOT + LOT) as real
  {
    var n := x.Floor;
    assert n / LOT * LOT <= n < n / LOT * LOT + LOT;
  }

  lemma MulMono(a: real, b: real, c: real)
    requires a <= b && c >= 0.0
    ensures a * c <= b * c && c * a <= c * b
  {
  }

  /** The amount bought, with the proportional fee on top, leaves the minimum fee in the budget. */
  lemma QuantityFits(budget: real, limit: real, price: real)
    requires price > 0.0 && Quantity(budget, limit, price) > 0
    ensures Quantity(budget, limit, price) % LOT == 0
    ensures price * Quantity(budget, limit, price) as real * (1.0 + FEE_RATE) + MIN_FEE <= budget
  {
    var unit := Max(limit, price) * (1.0 + FEE_RATE);
    var room := Max(0.0, budget - MIN_FEE);
    var q := Quantity(budget, limit, price);
    MulMono(price, Max(limit, price), 1.0 + FEE_RATE);
    assert unit >= price * (1.0 + FEE_RATE) > 0.0;
    FloorLots(room / unit);
    assert q as real * unit <= room by {
      MulMono(q as real, room / unit, unit);
    }
    assert q as real * (price * (1.0 + FEE_RATE)) <= q as real * unit by {
      MulMono(price * (1.0 + FEE_RATE), unit, q as real);
    }
    assert room > 0.0;
    assert price * q as real * (1.0 + FEE_RATE) == q as real * (price * (1.0 + FEE_RATE));
  }

  lemma MinFeeIsWholeCents()
    ensures RoundCents(MIN_FEE) == MIN_FEE
  {
    assert (MIN_FEE * 100.0 + 0.5).Floor == 500;
  }

  /** Half-up rounding costs at most half a cent, and nothing at all on the minimum fee. */
  lemma BuyFeeBound(amount: real, asset: string)
    requires amount > 0.0
    ensures 0.0 < Fee(Buy, amount, asset)
    ensures Fee(Buy, amount, asset) <= amount * FEE_RATE + MIN_FEE
  {
    if amount * FEE_RATE <= MIN_FEE {
      MinFeeIsWholeCents();
    }
  }

  /** A sized buy with its rounded fee never exceeds the budget. */
  lemma SizedBuyFits(budget: real, limit: real, price: real, asset: string)
    requires price > 0.0 && Quantity(budget, limit, price) > 0
    ensures var amount := price * Quantity(budget, limit, price) as real;
            amount > 0.0 && amount + Fee(Buy, amount, asset) <= budget
  {
    QuantityFits(budget, limit, price);
    BuyFeeBound(price * Quantity(budget, limit, price) as real, asset);
  }

  lemma QuotientBelow(room: real, unit: real, n: real)
    requires unit > 0.0 && room / unit < n
    ensures room < n * unit
  {
    var q := room / unit;
    assert q * unit == room;
    assert (n - q) * unit > 0.0;
  }

  /** The sizing gives up less than one lot: a further lot at the worse price would leave the budget. */
  lemma NextLotTooExpensive(budget: real, limit: real, price: real)
    requires price > 0.0 && budget >= MIN_FEE
    ensures (Quantity(budget, limit, price) + LOT) as real * (Max(limit, price) * (1.0 + FEE_RATE)) > budget - MIN_FEE
  {
    var unit := Max(limit, price) * (1.0 + FEE_RATE);
    MulMono(price, Max(limit, price), 1.0 + FEE_RATE);
    FloorLots((budget - MIN_FEE) / unit);
    QuotientBelow(budget - MIN_FEE, unit, (Quantity(budget, limit, price) + LOT) as real);
  }

  /** One executed buy, with the figures its budget was computed from. */
  datatype Purchase = Purchase(
    event: int, symbol: string, quantity: int, amount: real, fee: real,
    nav: real, cashBefore: real, turnoverBefore: real, proposed: real)

  predicate WithinLimits(p: Purchase, startNav: real, risk: Risk) {
    && p.quantity >= LOT && p.quantity % LOT == 0
    && p.amount + p.fee <= p.nav * p.proposed
    && p.amount + p.fee <= p.nav * risk.maxSingleOrder
    && p.amount + p.fee <= p.nav * risk.maxSymbolPosition
    && (p.nav - p.cashBefore) + p.amount <= p.nav * risk.maxTotalPosition
    && p.cashBefore - (p.amount + p.fee) >= p.nav * risk.minCashReserve
    && p.turnoverBefore + p.amount <= startNav * risk.maxDailyTurnover
  }

  predicate SaneRisk(risk: Risk) {
    risk.maxSingleOrder >= 0.0 && risk.maxSymbolPosition >= 0.0 && risk.minCashReserve >= 0.0
  }

  lemma PositiveFactor(nav: real, ratio: real)
    requires nav * ratio > 0.0 && ratio >= 0.0
    ensures nav > 0.0
  {
    if nav <= 0.0 {
      MulMono(nav, 0.0, ratio);
    }
  }

  lemma BudgetParts(outlay: real, nav: real, cash: real, startNav: real, turnover: real, proposed: real, risk: Risk)
    requires outlay <= Budget(nav, cash, startNav, turnover, proposed, risk)
    ensures outlay <= nav * Ratio(proposed, risk)
    ensures outlay <= nav * risk.maxTotalPosition - (nav - cash)
    ensures outlay <= cash - nav * risk.minCashReserve
    ensures outlay <= startNav * risk.maxDailyTurnover - turnover
  {
  }

  lemma UnderCap(outlay: real, nav: real, ratio: real, cap: real)
    requires 0.0 < outlay <= nav * ratio && 0.0 <= ratio <= cap
    ensures nav > 0.0 && outlay <= nav * cap
  {
    PositiveFactor(nav, ratio);
    MulMono(ratio, cap, nav);
  }

  lemma NonNegativeProduct(a: real, b: real)
    requires a > 0.0 && b >= 0.0
    ensures a * b >= 0.0
  {
  }

  /** A positive outlay inside the budget is inside each limit the budget was taken from. */
  lemma BudgetLimits(outlay: real, nav: real, cash: real, startNav: real, turnover: real, proposed: real, risk: Risk)
    requires 0.0 < outlay <= Budget(nav, cash, startNav, turnover, proposed, risk)
    requires proposed >= 0.0 && SaneRisk(risk)
    ensures outlay <= nav * proposed && outlay <= nav * risk.maxSingleOrder && outlay <= nav * risk.maxSymbolPosition
    ensures (nav - cash) + outlay <= nav * risk.maxTotalPosition
    ensures nav * risk.minCashReserve <= cash - outlay
    ensures turnover + outlay <= startNav * risk.maxDailyTurnover
    ensures outlay <= cash
  {
    hide Budget;
    var ratio := Ratio(proposed, risk);
    BudgetParts(outlay, nav, cash, startNav, turnover, proposed, risk);
    UnderCap(outlay, nav, ratio, proposed);
    UnderCap(outlay, nav, ratio, risk.maxSingleOrder);
    UnderCap(outlay, nav, ratio, risk.maxSymbolPosition);
    NonNegativeProduct(nav, risk.minCashReserve);
  }

  /** The quantity, amount and fee the replay computes for a buy at `price`. */
  predicate IsSized(p: Purchase, startNav: real, risk: Risk, asset: string, limit: real, price: real)
    requires price > 0.0
  {
    && p.quantity == Quantity(Budget(p.nav, p.cashBefore, startNav, p.turnoverBefore, p.proposed, risk), limit, price)
    && p.amount == price * p.quantity as real
    && p.fee == Fee(Buy, p.amount, asset)
  }

  /** Every sized buy meets all limits at once, and the cash on hand covers it. */
  lemma SizedBuyWithinLimits(p: Purchase, startNav: real, risk: Risk, asset: string, limit: real, price: real)
    requires price > 0.0 && p.proposed >= 0.0 && SaneRisk(risk)
    requires IsSized(p, startNav, risk, asset, limit, price) && p.quantity >= LOT
    ensures WithinLimits(p, startNav, risk)
    ensures p.amount + p.fee <= p.cashBefore
  {
    hide Budget, Fee;
    var budget := Budget(p.nav, p.cashBefore, startNav, p.turnoverBefore, p.proposed, risk);
    QuantityFits(budget, limit, price);
    SizedBuyFits(budget, limit, price, asset);
    BuyFeeBound(p.amount, asset);
    BudgetLimits(p.amount + p.fee, p.nav, p.cashBefore, startNav, p.turnoverBefore, p.proposed, risk);
  }
}
