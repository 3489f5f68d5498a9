/**
 Sizing an order in exact arithmetic. Decimal strings arrive as reals (None if they do not parse),
 risk ratios are rounded to eight decimals, and volumes are 64-bit integers.
 */
module TradingSizing {
  import opened Outcomes

  const MAX_INT64 := 0x7FFF_FFFF_FFFF_FFFF

  datatype UnitRule = UnitRule(minBuy: int, buyStep: int, minSell: int, sellStep: int, maxBuy: int, maxSell: int)

  datatype Side = Buy | Sell | OtherSide

  datatype Risk = Risk(maxSymbol: real, maxTotal: real, maxSingle: real, reserve: real)

  datatype Input = Input(side: Side, price: Option<real>, nav: Option<real>, cash: Option<real>,
                         requested: Option<real>, total: Option<real>, symbol: Option<real>, available: int,
                         proposed: Option<int>, rule: UnitRule, risk: Risk)

  datatype SizingError =
    | UnsupportedSide
    | InvalidRisk
    | InvalidNumber
    | BudgetExhausted
    | NoCash
    | Overflow
    | OffUnit
    | BelowMinimum
    | InvalidRule
    | NothingToSell

  // ----- board units -----

  predicate RuleValid(rule: UnitRule) {
    rule.minBuy > 0 && rule.buyStep > 0 && rule.minSell > 0 && rule.sellStep > 0
  }

  /** The maximum is absent or not below the minimum, as on every listed board. */
  predicate Lawful(rule: UnitRule) {
    (rule.maxBuy <= 0 || rule.maxBuy >= rule.minBuy) && (rule.maxSell <= 0 || rule.maxSell >= rule.minSell)
  }

  /** Integer division truncating toward zero. */
  function Quotient(a: int, b: int): int
    requires b > 0
  {
    if a >= 0 then a / b else -(-a / b)
  }

  function OnStep(volume: int, minimum: int, step: int): int
    requires step > 0
  {
    minimum + Quotient(volume - minimum, step) * step
  }

  function RoundBuyVolume(raw: int, rule: UnitRule): Result<int, SizingError> {
    if !RuleValid(rule) then Err(InvalidRule)
    else if raw < rule.minBuy then Err(BelowMinimum)
    else
      var volume := OnStep(raw, rule.minBuy, rule.buyStep);
      Ok(if rule.maxBuy > 0 && volume > rule.maxBuy then OnStep(rule.maxBuy, rule.minBuy, rule.buyStep) else volume)
  }

  ghost predicate OnGrid(volume: int, minimum: int, step: int) {
    exists k: nat :: IsPlace(volume, minimum, step, k)
  }

  predicate IsPlace(volume: int, minimum: int, step: int, k: nat) {
    volume == minimum + k * step
  }

  ghost predicate Buyable(volume: int, rule: UnitRule) {
    RuleValid(rule) && OnGrid(volume, rule.minBuy, rule.buyStep) && (rule.maxBuy > 0 ==> volume <= rule.maxBuy)
  }

  lemma StepsOrdered(a: int, b: int, step: int)
    requires step > 0 && a <= b
    ensures a * step <= b * step
  {
  }

  lemma Divided(x: nat, step: nat)
    requires step > 0
    ensures x / step * step <= x < (x / step + 1) * step
  {
  }

  lemma OnStepLargest(volume: int, minimum: int, step: int)
    requires step > 0 && volume >= minimum
    ensures minimum <= OnStep(volume, minimum, step) <= volume && OnGrid(OnStep(volume, minimum, step), minimum, step)
    ensures forall w :: OnGrid(w, minimum, step) && w <= volume ==> w <= OnStep(volume, minimum, step)
  {
    var q := (volume - minimum) / step;
    Divided(volume - minimum, step);
    StepsOrdered(0, q, step);
    assert IsPlace(OnStep(volume, minimum, step), minimum, step, q);
    forall w | OnGrid(w, minimum, step) && w <= volume ensures w <= OnStep(volume, minimum, step) {
      var k: nat :| IsPlace(w, minimum, step, k);
      if k <= q {
        StepsOrdered(k, q, step);
      } else {
        StepsOrdered(q + 1, k, step);
      }
    }
  }

  lemma GridAboveMinimum(volume: int, minimum: int, step: int)
    requires step > 0 && OnGrid(volume, minimum, step)
    ensures volume >= minimum
  {
    var k: nat :| IsPlace(volume, minimum, step, k);
    StepsOrdered(0, k, step);
  }

  /** Rounding a buy gives the largest buyable volume not above it, and fails only if there is none. */
  lemma RoundBuyIsLargest(raw: int, rule: UnitRule)
    requires Lawful(rule)
    ensures var r := RoundBuyVolume(raw, rule);
            && (r.Ok? ==> Buyable(r.value, rule) && r.value <= raw)
            && (r.Ok? ==> forall w :: Buyable(w, rule) && w <= raw ==> w <= r.value)
            && (r.Err? ==> forall w :: Buyable(w, rule) ==> w > raw)
  {
    hide OnGrid, OnStep;
    forall w | Buyable(w, rule) ensures w >= rule.minBuy {
      GridAboveMinimum(w, rule.minBuy, rule.buyStep);
    }
    if RuleValid(rule) && raw >= rule.minBuy {
      OnStepLargest(raw, rule.minBuy, rule.buyStep);
      if rule.maxBuy > 0 {
        OnStepLargest(rule.maxBuy, rule.minBuy, rule.buyStep);
      }
    }
  }

  /** Under every rule, rounding a buy never increases the volume. */
  lemma RoundBuyNeverIncreases(raw: int, rule: UnitRule)
    ensures RoundBuyVolume(raw, rule).Ok? ==> RoundBuyVolume(raw, rule).value <= raw
  {
    if RuleValid(rule) && raw >= rule.minBuy {
      Divided(raw - rule.minBuy, rule.buyStep);
      if rule.maxBuy >= rule.minBuy {
        Divided(rule.maxBuy - rule.minBuy, rule.buyStep);
      } else {
        StepsOrdered(0, (rule.minBuy - rule.maxBuy) / rule.buyStep, rule.buyStep);
      }
    }
  }

  /** Rounding a buy meets the board's rule exactly if the maximum is absent or not below the minimum. */
  lemma RoundBuyMeetsTheRuleExactly(raw: int, rule: UnitRule)
    requires RuleValid(rule) && raw >= rule.minBuy
    ensures var r := RoundBuyVolume(raw, rule);
            r.Ok? && (Buyable(r.value, rule) <==> rule.maxBuy <= 0 || rule.maxBuy >= rule.minBuy)
  {
    hide OnGrid, OnStep;
    var r := RoundBuyVolume(raw, rule);
    OnStepLargest(raw, rule.minBuy, rule.buyStep);
    if rule.maxBuy >= rule.minBuy {
      OnStepLargest(rule.maxBuy, rule.minBuy, rule.buyStep);
    }
    if Buyable(r.value, rule) {
      GridAboveMinimum(r.value, rule.minBuy, rule.buyStep);
    }
  }

  datatype Board = STAR | SHMain | SZMain | ChiNext | ETF | OtherBoard

  function BoardRule(board: Board): Option<UnitRule> {
    match board
    case STAR => Some(UnitRule(200, 1, 200, 1, 100000, 100000))
    case OtherBoard => None
    case SHMain => Some(UnitRule(100, 100, 100, 100, 1000000, 1000000))
    case SZMain => Some(UnitRule(100, 100, 100, 100, 1000000, 1000000))
    case ChiNext => Some(UnitRule(100, 100, 100, 100, 1000000, 1000000))
    case ETF => Some(UnitRule(100, 100, 100, 100, 1000000, 1000000))
  }

  lemma GridExactly(volume: int, minimum: int, step: int)
    requires minimum > 0 && step > 0
    ensures OnGrid(volume, minimum, step) <==> volume >= minimum && (volume - minimum) % step == 0
  {
    if volume >= minimum && (volume - minimum) % step == 0 {
      assert IsPlace(volume, minimum, step, (volume - minimum) / step);
    }
    if OnGrid(volume, minimum, step) {
      GridAboveMinimum(volume, minimum, step);
      var k: nat :| IsPlace(volume, minimum, step, k);
      MultipleOf(k, step);
    }
  }

  lemma MultipleOf(k: nat, step: int)
    requires step > 0
    ensures k * step % step == 0
  {
    Divided(k * step, step);
    var q := k * step / step;
    if q < k {
      StepsOrdered(q + 1, k, step);
    } else if k < q {
      StepsOrdered(k + 1, q, step);
    }
  }

  /** What can be bought: single shares from 200 to 100000 on the STAR board, else lots of 100 up to 1000000. */
  lemma BuyableOnBoards(board: Board, volume: int)
    ensures BoardRule(board).Some? <==> board != OtherBoard
    ensures board == STAR ==> (Buyable(volume, BoardRule(board).value) <==> 200 <= volume <= 100_000)
    ensures board != STAR && board != OtherBoard ==>
              (Buyable(volume, BoardRule(board).value) <==> 100 <= volume <= 1_000_000 && volume % 100 == 0)
  {
    hide OnGrid;
    GridExactly(volume, 200, 1);
    GridExactly(volume, 100, 100);
  }

  /** On every listed board a buy is refused exactly below the minimum, and otherwise meets the board's rule. */
  lemma EveryBoardRoundsWell(board: Board, raw: int)
    requires BoardRule(board).Some?
    ensures var rule := BoardRule(board).value; var r := RoundBuyVolume(raw, rule);
            && Lawful(rule) && RuleValid(rule)
            && (r.Err? <==> raw < rule.minBuy)
            && (r.Ok? ==> Buyable(r.value, rule) && rule.minBuy <= r.value <= raw)
  {
    hide OnGrid, OnStep;
    var rule := BoardRule(board).value;
    if raw >= rule.minBuy {
      RoundBuyMeetsTheRuleExactly(raw, rule);
      RoundBuyIsLargest(raw, rule);
      GridAboveMinimum(RoundBuyVolume(raw, rule).value, rule.minBuy, rule.buyStep);
    }
  }

  /** A maximum below the minimum makes rounding leave the allowed range. */
  lemma UnlawfulMaximum()
    ensures var rule := UnitRule(200, 1, 200, 1, 100, 0); RoundBuyVolume(200, rule) == Ok(100) && !Buyable(100, rule)
  {
    if OnGrid(100, 200, 1) {
      GridAboveMinimum(100, 200, 1);
    }
  }

  function RoundSellVolume(wanted: int, available: int, rule: UnitRule): Result<int, SizingError> {
    if !RuleValid(rule) then Err(InvalidRule)
    else if available <= 0 then Err(NothingToSell)
    else
      var target := if wanted <= 0 || wanted > available then available else wanted;
      if target == available && (rule.maxSell == 0 || target <= rule.maxSell) then Ok(target)
      else if available < rule.minSell then
        if target != available then Err(OffUnit) else Ok(available)
      else if target < rule.minSell then Err(BelowMinimum)
      else
        var volume := OnStep(target, rule.minSell, rule.sellStep);
        Ok(if rule.maxSell > 0 && volume > rule.maxSell then OnStep(rule.maxSell, rule.minSell, rule.sellStep)
            else volume)
  }

  /** A sale never exceeds what was asked for or is held, and leaves the steps only to clear the position. */
  lemma RoundSellFits(wanted: int, available: int, rule: UnitRule)
    requires Lawful(rule) && rule.maxSell >= 0 && 0 < wanted <= available
    ensures var r := RoundSellVolume(wanted, available, rule);
            r.Ok? ==> && 0 < r.value <= wanted
                      && (r.value == available || OnGrid(r.value, rule.minSell, rule.sellStep))
                      && (rule.maxSell > 0 ==> r.value <= rule.maxSell)
  {
    if RuleValid(rule) && wanted >= rule.minSell {
      OnStepLargest(wanted, rule.minSell, rule.sellStep);
      if rule.maxSell > 0 {
        OnStepLargest(rule.maxSell, rule.minSell, rule.sellStep);
      }
    }
  }

  /**
   A volume that may be sold: held, within the maximum, and on the steps or the whole position. A
   negative maximum is no maximum, except that a whole position above the minimum must be on the steps.
   */
  ghost predicate Sellable(volume: int, available: int, rule: UnitRule) {
    && RuleValid(rule) && 0 < volume <= available && (rule.maxSell > 0 ==> volume <= rule.maxSell)
    && (OnGrid(volume, rule.minSell, rule.sellStep)
        || (volume == available && (rule.maxSell >= 0 || available < rule.minSell)))
  }

  /** Rounding a sale gives the largest sellable volume not above what is wanted, and fails only if there is none. */
  lemma RoundSellIsLargest(wanted: int, available: int, rule: UnitRule)
    requires Lawful(rule) && wanted > 0
    ensures var r := RoundSellVolume(wanted, available, rule);
            && (r.Err? <==> forall w :: w <= wanted ==> !Sellable(w, available, rule))
            && (r.Ok? ==> Sellable(r.value, available, rule) && r.value <= wanted)
            && (r.Ok? ==> forall w :: Sellable(w, available, rule) && w <= wanted ==> w <= r.value)
  {
    var r := RoundSellVolume(wanted, available, rule);
    if RuleValid(rule) && available > 0 {
      var target := if wanted > available then available else wanted;
      var limit := if rule.maxSell > 0 && rule.maxSell < target then rule.maxSell else target;
      hide OnStep, OnGrid;
      forall w | Sellable(w, available, rule) && w <= wanted
        ensures w <= limit && (w >= rule.minSell || (w == available == target))
      {
        if OnGrid(w, rule.minSell, rule.sellStep) {
          GridAboveMinimum(w, rule.minSell, rule.sellStep);
        }
      }
      if limit >= rule.minSell {
        OnStepLargest(limit, rule.minSell, rule.sellStep);
        if target >= rule.minSell {
          OnStepLargest(target, rule.minSell, rule.sellStep);
        }
      }
      if r.Ok? {
        assert Sellable(r.value, available, rule) && r.value <= wanted;
      }
    }
  }

  // ----- the budget -----

  /** A ratio printed with eight decimals: the nearest one, ties to the even last digit. */
  function Eighth(v: real): real {
    var scaled := v * 100000000.0;
    var low := scaled.Floor;
    var part := scaled - low as real;
    (if part < 0.5 || (part == 0.5 && low % 2 == 0) then low else low + 1) as real / 100000000.0
  }

  lemma EighthIsNear(v: real)
    ensures -0.000000005 <= Eighth(v) - v <= 0.000000005
    ensures v >= 0.0 ==> Eighth(v) >= 0.0
  {
  }

  predicate RatiosValid(risk: Risk) {
    && 0.0 <= risk.maxSymbol <= 1.0 && 0.0 <= risk.maxTotal <= 1.0
    && 0.0 <= risk.maxSingle <= 1.0 && 0.0 <= risk.reserve <= 1.0
  }

  predicate IsPositive(v: Option<real>) {
    v.Some? && v.value > 0.0
  }

  /** The numbers of a buy parse and are in range. */
  predicate BuyWellFormed(input: Input) {
    && RatiosValid(input.risk) && IsPositive(input.nav) && IsPositive(input.cash) && IsPositive(input.price)
       && IsPositive(input.requested)
    && input.total.Some? && input.total.value >= 0.0 && input.symbol.Some? && input.symbol.value >= 0.0
  }

  /** The ratio limits on a buy worth `share` of net asset value. */
  ghost predicate ShareFits(input: Input, share: real)
    requires BuyWellFormed(input)
  {
    && share <= input.requested.value
    && share <= Eighth(input.risk.maxSingle)
    && input.symbol.value + share <= Eighth(input.risk.maxSymbol)
    && input.total.value + share <= Eighth(input.risk.maxTotal)
  }

  /** The cash left after paying `amount` covers the reserve. */
  ghost predicate CashFits(input: Input, amount: real)
    requires BuyWellFormed(input)
  {
    input.cash.value - amount >= input.nav.value * Eighth(input.risk.reserve)
  }

  function Share(amount: real, nav: real): real
    requires nav > 0.0
  {
    amount / nav
  }

  function Amount(input: Input, volume: int): real
    requires BuyWellFormed(input)
  {
    volume as real * input.price.value
  }

  /** Every limit a bought volume has to respect. */
  ghost predicate WithinLimits(input: Input, volume: int)
    requires BuyWellFormed(input)
  {
    var amount := Amount(input, volume);
    ShareFits(input, Share(amount, input.nav.value)) && CashFits(input, amount)
  }

  predicate IsLeast(r: real, values: seq<real>) {
    r in values && forall i :: 0 <= i < |values| ==> r <= values[i]
  }

  function RatioLimits(input: Input): seq<real>
    requires BuyWellFormed(input)
  {
    [input.requested.value, Eighth(input.risk.maxSingle),
     Eighth(input.risk.maxSymbol) - input.symbol.value, Eighth(input.risk.maxTotal) - input.total.value]
  }

  function AmountLimits(input: Input, effective: real): seq<real>
    requires BuyWellFormed(input)
  {
    [input.nav.value * effective, input.cash.value - input.nav.value * Eighth(input.risk.reserve)]
  }

  lemma SameSign(x: real, p: real)
    requires p > 0.0
    ensures x * p >= 0.0 <==> x >= 0.0
  {
  }

  lemma ShareBound(amount: real, nav: real, ratio: real)
    requires nav > 0.0
    ensures Share(amount, nav) <= ratio <==> amount <= nav * ratio
  {
    var share := amount / nav;
    assert share * nav == amount;
    assert nav * ratio - amount == (ratio - share) * nav;
    SameSign(ratio - share, nav);
  }

  lemma LeastRatio(input: Input, effective: real, share: real)
    requires BuyWellFormed(input) && IsLeast(effective, RatioLimits(input))
    ensures share <= effective <==> ShareFits(input, share)
  {
    hide Eighth;
    var limits := RatioLimits(input);
    assert effective <= limits[0] && effective <= limits[1] && effective <= limits[2] && effective <= limits[3];
    assert effective == limits[0] || effective == limits[1] || effective == limits[2] || effective == limits[3];
  }

  lemma LeastAmount(input: Input, effective: real, budget: real, amount: real)
    requires BuyWellFormed(input) && IsLeast(budget, AmountLimits(input, effective))
    ensures amount <= budget <==> amount <= input.nav.value * effective && CashFits(input, amount)
  {
    hide Eighth;
    var amounts := AmountLimits(input, effective);
    assert budget <= amounts[0] && budget <= amounts[1];
    assert budget == amounts[0] || budget == amounts[1];
  }

  /** Staying within the budget is the same as respecting every limit. */
  lemma BudgetIsTheLimits(input: Input, effective: real, budget: real, volume: int)
    requires BuyWellFormed(input)
    requires IsLeast(effective, RatioLimits(input)) && IsLeast(budget, AmountLimits(input, effective))
    ensures Amount(input, volume) <= budget <==> WithinLimits(input, volume)
  {
    hide Eighth, IsLeast, RatioLimits, AmountLimits, ShareFits, CashFits, Share, Amount;
    var amount := Amount(input, volume);
    ShareBound(amount, input.nav.value, effective);
    LeastRatio(input, effective, Share(amount, input.nav.value));
    LeastAmount(input, effective, budget, amount);
  }

  lemma WholeUnits(budget: real, price: real, volume: int)
    requires price > 0.0
    ensures volume as real * price <= budget <==> volume <= (budget / price).Floor
  {
    var raw := budget / price;
    assert raw * price == budget;
    assert budget - volume as real * price == (raw - volume as real) * price;
    SameSign(raw - volume as real, price);
  }

  method Minimum(values: seq<real>) returns (v: real)
    requires values != []
    ensures IsLeast(v, values)
  {
    v := values[0];
    for i := 1 to |values|
      invariant v in values && forall j :: 0 <= j < i ==> v <= values[j]
    {
      if values[i] < v {
        v := values[i];
      }
    }
  }

  // ----- the volume -----

  /** A volume the order may have: buyable in board units, within every limit and not above the proposal. */
  ghost predicate Admissible(input: Input, volume: int) {
    && Buyable(volume, input.rule) && BuyWellFormed(input) && WithinLimits(input, volume)
    && (input.proposed.Some? ==> volume <= input.proposed.value)
  }

  /** The whole budget buys more units than fit in 64 bits. */
  ghost predicate Overflows(input: Input) {
    BuyWellFormed(input) && WithinLimits(input, MAX_INT64 + 1)
  }

  /** Why a buy is refused: no admissible volume, a budget beyond 64 bits, or a proposal off the board's units. */
  ghost predicate Refusable(input: Input) {
    (forall w :: !Admissible(input, w)) || Overflows(input)
        || (input.proposed.Some? && !Buyable(input.proposed.value, input.rule))
  }

  lemma Settled(input: Input, units: int, volume: int)
    requires Lawful(input.rule) && BuyWellFormed(input) && units <= MAX_INT64
    requires forall w: int :: w <= units <==> WithinLimits(input, w)
    requires input.proposed.Some? ==> Buyable(input.proposed.value, input.rule)
    requires volume == if input.proposed.Some? && input.proposed.value < units then input.proposed.value else units
    ensures var r := RoundBuyVolume(volume, input.rule);
            && (r.Err? <==> Refusable(input))
            && (r.Ok? ==> Admissible(input, r.value) && forall w :: Admissible(input, w) ==> w <= r.value)
  {
    hide WithinLimits, Buyable, RoundBuyVolume, Lawful, BuyWellFormed;
    RoundBuyIsLargest(volume, input.rule);
    var r := RoundBuyVolume(volume, input.rule);
    assert r.Ok? ==> Admissible(input, r.value);
    assert !WithinLimits(input, MAX_INT64 + 1);
  }

  lemma NoneAdmissible(input: Input)
    requires forall w :: !Admissible(input, w)
    ensures Refusable(input)
  {
  }

  lemma Refused(input: Input)
    ensures !BuyWellFormed(input) ==> Refusable(input)
    ensures BuyWellFormed(input) && WithinLimits(input, MAX_INT64 + 1) ==> Refusable(input)
    ensures input.proposed.Some? && !Buyable(input.proposed.value, input.rule) ==> Refusable(input)
  {
  }

  /** A buy stays within every limit under any rule; under a lawful one it gets the largest admissible volume. */
  method BuyVolume(input: Input) returns (r: Result<int, SizingError>)
    ensures r.Ok? ==> BuyWellFormed(input) && WithinLimits(input, r.value)
    ensures r.Ok? && input.proposed.Some? ==> r.value <= input.proposed.value
    ensures r.Ok? ==> input.total.Some? && input.total.value >= 0.0 && input.symbol.Some? && input.symbol.value >= 0.0
    ensures r.Ok? ==> input.nav.Some? && input.nav.value > 0.0 && input.cash.Some? && input.cash.value > 0.0
    ensures r.Ok? ==> input.price.Some? && input.price.value > 0.0
    ensures r.Ok? ==> input.requested.Some? && input.requested.value > 0.0
    ensures Lawful(input.rule) ==> (r.Err? <==> Refusable(input))
    ensures Lawful(input.rule) && r.Ok? ==> Admissible(input, r.value)
    ensures Lawful(input.rule) && r.Ok? ==> forall w :: Admissible(input, w) ==> w <= r.value
  {
    hide WithinLimits, Buyable, RoundBuyVolume, Lawful, Eighth, IsLeast, Refusable, Admissible;
    Refused(input);
    if !RatiosValid(input.risk) {
      return Err(InvalidRisk);
    }
    if !BuyWellFormed(input) {
      return Err(InvalidNumber);
    }
    var effective := Minimum(RatioLimits(input));
    if effective <= 0.0 {
      NoBudget(input, effective);
      NoneAdmissible(input);
      return Err(BudgetExhausted);
    }
    var budget := Minimum(AmountLimits(input, effective));
    if budget <= 0.0 {
      NoAmount(input, effective, budget);
      NoneAdmissible(input);
      return Err(NoCash);
    }
    var units := (budget / input.price.value).Floor;
    forall w: int ensures w <= units <==> WithinLimits(input, w) {
      BudgetIsTheLimits(input, effective, budget, w);
      WholeUnits(budget, input.price.value, w);
    }
    if units > MAX_INT64 {
      return Err(Overflow);
    }
    var volume := units;
    if input.proposed.Some? {
      var v := RoundBuyVolume(input.proposed.value, input.rule);
      if Lawful(input.rule) {
        RoundedIsSame(input.proposed.value, input.rule);
      }
      if v != Ok(input.proposed.value) {
        return Err(OffUnit);
      }
      if v.value < volume {
        volume := v.value;
      }
    }
    if Lawful(input.rule) {
      Settled(input, units, volume);
    }
    RoundBuyNeverIncreases(volume, input.rule);
    r := RoundBuyVolume(volume, input.rule);
  }

  /** What the limits mean for the ratios as configured: none is exceeded by more than half of an eighth decimal. */
  lemma LimitsInFigures(input: Input, volume: int)
    requires BuyWellFormed(input) && WithinLimits(input, volume)
    ensures var share := volume as real * input.price.value / input.nav.value;
            && share <= input.requested.value
            && share <= input.risk.maxSingle + 0.000000005
            && input.symbol.value + share <= input.risk.maxSymbol + 0.000000005
            && input.total.value + share <= input.risk.maxTotal + 0.000000005
    ensures input.cash.value - volume as real * input.price.value
            >= input.nav.value * (input.risk.reserve - 0.000000005)
  {
    EighthIsNear(input.risk.maxSingle);
    EighthIsNear(input.risk.maxSymbol);
    EighthIsNear(input.risk.maxTotal);
    EighthIsNear(input.risk.reserve);
    hide Eighth;
    var share := volume as real * input.price.value / input.nav.value;
    assert share == Share(Amount(input, volume), input.nav.value);
    assert ShareFits(input, share);
    hide Share, WithinLimits;
    Grows(input.nav.value, input.risk.reserve - 0.000000005, Eighth(input.risk.reserve));
  }

  lemma Grows(nav: real, a: real, b: real)
    requires nav > 0.0 && a <= b
    ensures nav * a <= nav * b
  {
    SameSign(b - a, nav);
  }

  lemma RoundedIsSame(volume: int, rule: UnitRule)
    requires Lawful(rule)
    ensures RoundBuyVolume(volume, rule) == Ok(volume) <==> Buyable(volume, rule)
  {
    RoundBuyIsLargest(volume, rule);
  }

  lemma BuyablePositive(volume: int, rule: UnitRule)
    requires Buyable(volume, rule)
    ensures volume >= 1
  {
    GridAboveMinimum(volume, rule.minBuy, rule.buyStep);
  }

  lemma PositiveAmount(volume: int, price: real, nav: real)
    requires volume >= 1 && price > 0.0 && nav > 0.0
    ensures volume as real * price > 0.0 && Share(volume as real * price, nav) > 0.0
  {
    SameSign(volume as real - 1.0, price);
    var share := volume as real * price / nav;
    assert share * nav == volume as real * price;
  }

  lemma NoBudget(input: Input, effective: real)
    requires BuyWellFormed(input) && IsLeast(effective, RatioLimits(input)) && effective <= 0.0
    ensures forall w :: !Admissible(input, w)
  {
    hide Buyable, Eighth, IsLeast, RatioLimits;
    forall w ensures !Admissible(input, w) {
      if Buyable(w, input.rule) {
        BuyablePositive(w, input.rule);
        PositiveAmount(w, input.price.value, input.nav.value);
        LeastRatio(input, effective, Share(Amount(input, w), input.nav.value));
      }
    }
  }

  lemma NoAmount(input: Input, effective: real, budget: real)
    requires BuyWellFormed(input) && IsLeast(effective, RatioLimits(input))
    requires IsLeast(budget, AmountLimits(input, effective)) && budget <= 0.0
    ensures forall w :: !Admissible(input, w)
  {
    hide Buyable, WithinLimits, IsLeast, RatioLimits, AmountLimits;
    forall w ensures !Admissible(input, w) {
      if Buyable(w, input.rule) {
        BuyablePositive(w, input.rule);
        PositiveAmount(w, input.price.value, input.nav.value);
        BudgetIsTheLimits(input, effective, budget, w);
      }
    }
  }

  /** What is wanted of a sale: all that is available, or less if so proposed. */
  function Wanted(input: Input): int {
    if input.proposed.Some? && input.proposed.value < input.available then input.proposed.value else input.available
  }

  /** A volume the sale may have: sellable and not above the proposal. */
  ghost predicate Offerable(input: Input, volume: int) {
    Sellable(volume, input.available, input.rule) && (input.proposed.Some? ==> volume <= input.proposed.value)
  }

  /** Sells the largest volume that may be offered, and fails only if there is none. */
  method SellVolume(input: Input) returns (r: Result<int, SizingError>)
    ensures Lawful(input.rule) ==> (r.Err? <==> forall w :: !Offerable(input, w))
    ensures Lawful(input.rule) && r.Ok? ==>
              Offerable(input, r.value) && forall w :: Offerable(input, w) ==> w <= r.value
    ensures r == if Wanted(input) <= 0 then Err(NothingToSell)
              else RoundSellVolume(Wanted(input), input.available, input.rule)
    ensures r.Ok? && Lawful(input.rule) && input.rule.maxSell >= 0 ==>
              0 < r.value <= input.available && (input.proposed.Some? ==> r.value <= input.proposed.value)
  {
    var volume := input.available;
    if input.proposed.Some? && input.proposed.value < volume {
      volume := input.proposed.value;
    }
    if volume <= 0 {
      return Err(NothingToSell);
    }
    if Lawful(input.rule) && input.rule.maxSell >= 0 {
      RoundSellFits(volume, input.available, input.rule);
    }
    if Lawful(input.rule) {
      RoundSellIsLargest(volume, input.available, input.rule);
      assert forall w :: Offerable(input, w) <==> Sellable(w, input.available, input.rule) && w <= volume;
    }
    r := RoundSellVolume(volume, input.available, input.rule);
  }

  method TradingVolume(input: Input) returns (r: Result<int, SizingError>)
    ensures input.side == Buy && r.Ok? ==> BuyWellFormed(input) && WithinLimits(input, r.value)
    ensures input.side == Buy && Lawful(input.rule) ==> (r.Err? <==> Refusable(input))
    ensures input.side == Buy && Lawful(input.rule) && r.Ok? ==>
              Admissible(input, r.value) && forall w :: Admissible(input, w) ==> w <= r.value
    ensures input.side == Sell && r.Ok? && Lawful(input.rule) && input.rule.maxSell >= 0 ==>
              0 < r.value <= input.available && (input.proposed.Some? ==> r.value <= input.proposed.value)
    ensures input.side == Sell && Lawful(input.rule) ==> (r.Err? <==> forall w :: !Offerable(input, w))
    ensures input.side == Sell && Lawful(input.rule) && r.Ok? ==>
              Offerable(input, r.value) && forall w :: Offerable(input, w) ==> w <= r.value
    ensures input.side == Sell ==>
              r == if Wanted(input) <= 0 then Err(NothingToSell)
                  else RoundSellVolume(Wanted(input), input.available, input.rule)
    ensures input.side == OtherSide ==> r.Err?
  {
    match input.side {
      case Sell => r := SellVolume(input);
      case Buy => r := BuyVolume(input);
      case OtherSide => r := Err(UnsupportedSide);
    }
  }
}
