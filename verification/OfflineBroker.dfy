/** The broker object of the offline replay: the ledger updated in place, one method per operation. */
module OfflineBrokers {
  import opened Outcomes
  import opened Ledger
  import opened LedgerProofs

  class OfflineBroker {
    const initial: real
    var cash: real
    var positions: map<string, Position>
    var orders: map<OrderKey, Order>
    var fills: seq<Fill>
    var closed: seq<ClosedCycle>
    var marks: map<string, real>

    function Account(): State
      reads this
    {
      State(initial, cash, positions, orders, fills, closed)
    }

    constructor (cash: real)
      ensures Account() == Opening(cash) && marks == map[]
    {
      this.initial := cash;
      this.cash := cash;
      positions := map[];
      orders := map[];
      fills := [];
      closed := [];
      marks := map[];
    }

    method Submit(key: OrderKey, symbol: string, side: Side, limit: real, quantity: int, date: int, asset: string)
      returns (order: Order)
      modifies this`orders
      ensures Account() == Ledger.Submit(old(Account()), key, symbol, side, limit, quantity, date, asset)
      ensures key in orders && order == orders[key]
    {
      if key in orders {
        return orders[key];
      }
      order := Order(symbol, side, limit, quantity, 0, Submitted, date, asset);
      orders := orders[key := order];
    }

    /** False for an unknown key, where the source raises KeyError. */
    method Cancel(key: OrderKey) returns (known: bool)
      modifies this`orders
      ensures known == (key in old(orders))
      ensures Account() == Ledger.Cancel(old(Account()), key)
    {
      known := key in orders;
      if known {
        var o := orders[key];
        if o.status.Submitted? || o.status.PartiallyFilled? {
          orders := orders[key := o.(status := Canceled)];
        }
      }
    }

    method AlreadyJournalled(execId: ExecId) returns (seen: bool)
      ensures seen == Seen(Account(), execId)
    {
      for i := 0 to |fills|
        invariant forall j :: 0 <= j < i ==> fills[j].execId != execId
      {
        if fills[i].execId == execId {
          return true;
        }
      }
      return false;
    }

    /** The broker's checks, in their order; nothing is written before all of them pass. */
    method Check(o: Order, quantity: int, price: real, date: int) returns (error: Option<FillError>)
      ensures error == OrderError(Account(), o, quantity, price, date)
    {
      if !(o.status.Submitted? || o.status.PartiallyFilled?) { return Some(OrderNotFillable); }
      if quantity <= 0 || quantity + o.filled > o.quantity { return Some(InvalidFillQuantity); }
      if price <= 0.0 { return Some(InvalidFillPrice); }
      if (o.side.Buy? && price > o.limit) || (o.side.Sell? && price < o.limit) { return Some(LimitViolation); }
      var amount := price * quantity as real;
      var fee := Fee(o.side, amount, o.asset);
      if o.side.Buy? {
        if amount + fee > cash { return Some(InsufficientCash); }
        if o.symbol in positions && positions[o.symbol].entryDate != date { return Some(PyramidingDisabled); }
      } else {
        if o.symbol !in positions || quantity > positions[o.symbol].volume { return Some(Oversell); }
        if date <= positions[o.symbol].entryDate { return Some(T1Pending); }
      }
      return None;
    }

    method BookBuy(o: Order, f: Ledger.Fill)
      requires o.side.Buy? && f.volume > 0
      modifies this`cash, this`positions
      ensures Account() == Booked(old(Account()), o, f)
    {
      var pos := if o.symbol in positions then positions[o.symbol]
                 else Position(0, 0.0, f.date, o.asset, f.price, 0.0, 0.0, 0.0);
      pos := pos.(volume := pos.volume + f.volume, cost := pos.cost + f.amount);
      pos := pos.(initialCost := pos.initialCost + f.amount, buyFees := pos.buyFees + f.commission);
      pos := pos.(entryPrice := pos.cost / pos.volume as real);
      positions := positions[o.symbol := pos];
      cash := cash - (f.amount + f.commission);
    }

    method BookSell(o: Order, f: Ledger.Fill)
      requires o.side.Sell? && o.symbol in positions && 0 < f.volume <= positions[o.symbol].volume
      modifies this`cash, this`positions, this`closed
      ensures Account() == Booked(old(Account()), o, f)
    {
      cash := cash + (f.amount - f.commission);
      var pos := positions[o.symbol];
      pos := pos.(soldProceeds := pos.soldProceeds + f.amount - f.commission, volume := pos.volume - f.volume);
      if pos.volume == 0 {
        closed := closed + [ClosedCycle(o.symbol, pos.entryDate, f.date,
            pos.soldProceeds - pos.initialCost - pos.buyFees)];
        positions := positions - {o.symbol};
      } else {
        positions := positions[o.symbol := pos];
      }
    }

    /** Ok(true) books the fill, Ok(false) is a repeated execution id; both that and an error change nothing. */
    method Fill(key: OrderKey, execId: ExecId, quantity: int, price: real, date: int)
      returns (r: Result<bool, FillError>)
      modifies this`cash, this`positions, this`orders, this`fills, this`closed
      ensures match DoFill(old(Account()), key, execId, quantity, price, date)
              case Duplicate => r == Ok(false) && Account() == old(Account())
              case Rejected(error) => r == Err(error) && Account() == old(Account())
              case Accepted(after) => r == Ok(true) && Account() == after
    {
      hide Booked, Fee;
      var seen := AlreadyJournalled(execId);
      if seen { return Ok(false); }
      if key !in orders { return Err(UnknownOrder); }
      var o := orders[key];
      var error := Check(o, quantity, price, date);
      if error.Some? { return Err(error.value); }
      var amount := price * quantity as real;
      var f := Ledger.Fill(execId, key, o.symbol, o.side, quantity, price, amount, Fee(o.side, amount, o.asset), date);
      if o.side.Buy? {
        BookBuy(o, f);
      } else {
        BookSell(o, f);
      }
      orders := orders[key := o.(filled := o.filled + quantity,
                                 status := if o.filled + quantity == o.quantity then Filled else PartiallyFilled)];
      fills := fills + [f];
      return Ok(true);
    }

    /** Refold the journal; an error exactly when it disagrees with the running cash or volumes. */
    method Reconcile() returns (r: Result<(real, map<string, int>), string>)
      ensures r.Ok? <==> Balanced(Account()) && HeldVolumes(positions) == JournalVolumes(fills)
      ensures r.Ok? ==> r.value == (cash, HeldVolumes(positions))
    {
      hide VolumesOf, Sum, JournalVolume, Symbols;
      var expectedCash := initial;
      var volumes: map<string, int> := map[];
      NothingFolded();
      for i := 0 to |fills|
        invariant expectedCash == initial + Sum(fills[..i], CashDelta)
        invariant VolumesOf(volumes, fills[..i])
      {
        var f := fills[i];
        expectedCash := expectedCash + (if f.side.Buy? then -f.amount else f.amount) - f.commission;
        Refolded(volumes, fills, i);
        var before := if f.symbol in volumes then volumes[f.symbol] else 0;
        volumes := volumes[f.symbol := before + if f.side.Buy? then f.volume else -f.volume];
      }
      assert fills[..|fills|] == fills;
      var actual := map symbol | symbol in positions :: positions[symbol].volume as int;
      var expected := map symbol | symbol in volumes && volumes[symbol] != 0 :: volumes[symbol];
      assert actual == HeldVolumes(positions);
      NonZeroVolumes(volumes, fills);
      if expectedCash != cash || actual != expected {
        return Err("LEDGER_DIFF");
      }
      return Ok((cash, actual));
    }
  }

  /** The running net volumes after part of the journal. */
  ghost predicate VolumesOf(volumes: map<string, int>, fills: seq<Fill>) {
    && volumes.Keys == Symbols(fills)
    && forall symbol :: symbol in volumes ==> volumes[symbol] == JournalVolume(fills, symbol)
  }

  lemma NothingFolded()
    ensures Sum([], CashDelta) == 0.0 && VolumesOf(map[], [])
  {
  }

  lemma NonZeroVolumes(volumes: map<string, int>, fills: seq<Fill>)
    requires VolumesOf(volumes, fills)
    ensures (map symbol | symbol in volumes && volumes[symbol] != 0 :: volumes[symbol]) == JournalVolumes(fills)
  {
  }

  lemma Refolded(volumes: map<string, int>, fills: seq<Fill>, i: nat)
    requires i < |fills| && VolumesOf(volumes, fills[..i])
    ensures var f := fills[i];
            var before := if f.symbol in volumes then volumes[f.symbol] else 0;
            VolumesOf(volumes[f.symbol := before + VolumeDelta(f)], fills[..i + 1])
    ensures Sum(fills[..i + 1], CashDelta) == Sum(fills[..i], CashDelta) + CashDelta(fills[i])
  {
    ExtendPrefix(fills, i);
    hide Symbols, JournalVolume;
  }

  /** What one more journal entry adds to each fold. */
  lemma ExtendPrefix(fills: seq<Fill>, i: nat)
    requires i < |fills|
    ensures Sum(fills[..i + 1], CashDelta) == Sum(fills[..i], CashDelta) + CashDelta(fills[i])
    ensures Symbols(fills[..i + 1]) == Symbols(fills[..i]) + {fills[i].symbol}
    ensures forall symbol :: JournalVolume(fills[..i + 1], symbol)
              == JournalVolume(fills[..i], symbol) + if fills[i].symbol == symbol then VolumeDelta(fills[i]) else 0
    ensures fills[i].symbol !in Symbols(fills[..i]) ==> JournalVolume(fills[..i], fills[i].symbol) == 0
  {
    assert fills[..i + 1] == fills[..i] + [fills[i]];
    Snoc(fills[..i], fills[i]);
    var after := fills[..i + 1];
    assert forall j :: 0 <= j < i ==> after[j] == fills[..i][j];
    assert forall symbol :: symbol in Symbols(after) ==> symbol in Symbols(fills[..i]) + {fills[i].symbol};
    forall symbol | symbol in Symbols(fills[..i]) + {fills[i].symbol} ensures symbol in Symbols(after) {
      if symbol == fills[i].symbol {
        assert after[i].symbol == symbol;
      } else {
        var j :| 0 <= j < i && fills[..i][j].symbol == symbol;
        assert after[j].symbol == symbol;
      }
    }
    if fills[i].symbol !in Symbols(fills[..i]) {
      UnknownSymbolHasNoVolume(fills[..i], fills[i].symbol);
    }
  }
}
