/**
 * The simulator itself: the object whose methods update positions, pending orders, fills and equity in place. Each
 * method is proved to move the object's book as `BacktestModel` says.
 */
module Backtest {
  import opened Outcomes
  import opened Aggregation
  import opened BarExecution
  import opened BacktestModel

  type Outcome = Result<(), SimError>

  // A method's outcome and the book it leaves are those of its specification.
  ghost predicate Yields(r: Outcome, now: Book, spec: Result<Book, SimError>) {
    if spec.Success? then r == Success(()) && now == spec.value else r == Failure(spec.error)
  }

  // Filling an order does not look at the other pending orders.
  lemma FillIgnoresPending(m: Market, b: Book, p: PendingOrder, c: Candle, pending: seq<PendingOrder>)
    ensures var r, s := FillOrder(m, b, p, c), FillOrder(m, b.(pending := pending), p, c);
      if r.Success? then s == Success(r.value.(pending := pending)) && r.value.pending == b.pending else s == r
  {
    hide EntryPrice;
    var spec := SpecOf(m, p.order, c);
    var price := EntryPrice(spec, p.order, c);
    if price.Success? {
      SettleIgnoresPending(m, b, p, c, price.value, spec, pending);
      hide Settle;
    }
  }

  lemma SettleIgnoresPending(
    m: Market, b: Book, p: PendingOrder, c: Candle, price: real, spec: Option<FuturesSpec>,
    pending: seq<PendingOrder>)
    ensures var r, s := Settle(m, b, p, c, price, spec), Settle(m, b.(pending := pending), p, c, price, spec);
      if r.Success? then s == Success(r.value.(pending := pending)) && r.value.pending == b.pending else s == r
  {
    hide ExitPnl, Opened, Weighted;
  }

  lemma {:induction false} DrainedStays(
    m: Market, b: Book, symbol: string, c: Candle, isLong: bool, k: nat, n: nat)
    requires k <= n && TakePartials(m, b, symbol, c, isLong, k).Success?
    requires symbol !in TakePartials(m, b, symbol, c, isLong, k).value.positions
    ensures TakePartials(m, b, symbol, c, isLong, n) == TakePartials(m, b, symbol, c, isLong, k)
  {
    hide TakePartial, TakesLevel;
    if k < n {
      DrainedStays(m, b, symbol, c, isLong, k, n - 1);
    }
  }

  lemma {:induction false} SweepFailsEarly(m: Market, b: Book, pending: seq<PendingOrder>, c: Candle, k: nat)
    requires k <= |pending| && Sweep(m, b, pending[..k], c).Failure?
    ensures Sweep(m, b, pending, c) == Sweep(m, b, pending[..k], c)
  {
    if k == |pending| {
      assert pending[..k] == pending;
    } else {
      assert pending[..|pending| - 1][..k] == pending[..k];
      SweepFailsEarly(m, b, pending[..|pending| - 1], c, k);
    }
  }

  lemma {:induction false} StepsFailEarly(
    m: Market, equity: real, events: seq<Candle>, decisions: seq<Decision>, k: nat)
    requires |decisions| == |events| && k <= |events| && Steps(m, equity, events[..k], decisions[..k]).Failure?
    ensures Steps(m, equity, events, decisions) == Steps(m, equity, events[..k], decisions[..k])
  {
    hide Step;
    if k == |events| {
      assert events[..k] == events && decisions[..k] == decisions;
    } else {
      var n := |events| - 1;
      assert events[..n][..k] == events[..k] && decisions[..n][..k] == decisions[..k];
      StepsFailEarly(m, equity, events[..n], decisions[..n], k);
    }
  }

  lemma {:induction false} ClosingFailsEarly(m: Market, b: Book, order: seq<string>, k: nat)
    requires k <= |order| && CloseAll(m, b, order[..k]).Failure?
    ensures CloseAll(m, b, order) == CloseAll(m, b, order[..k])
  {
    if k == |order| {
      assert order[..k] == order;
    } else {
      assert order[..|order| - 1][..k] == order[..k];
      ClosingFailsEarly(m, b, order[..|order| - 1], k);
    }
  }

  class BacktestSimulator {
    const market: Market
    var positions: map<string, Position>
    var pendingOrders: seq<PendingOrder>
    var closedTrades: seq<ClosedTrade>
    var currentEquity: real
    var lastCandleBySymbol: map<string, Candle>
    // The repository tables the run writes, and the number of the next position.
    var orders: map<nat, OrderStatus>
    var nextOrderId: nat
    var fills: seq<Fill>
    var nextPositionId: nat
    ghost var entries: seq<Entry>

    ghost function View(): Book
      reads this
    {
      Book(positions, pendingOrders, orders, nextOrderId, nextPositionId, entries, fills, closedTrades, currentEquity,
           lastCandleBySymbol)
    }

    constructor (market: Market, accountEquity: real)
      ensures View() == Start(accountEquity) && this.market == market
    {
      this.market := market;
      positions, pendingOrders, closedTrades, currentEquity := map[], [], [], accountEquity;
      lastCandleBySymbol, orders, nextOrderId, fills, nextPositionId, entries := map[], map[], 0, [], 0, [];
    }

    method ClosePosition(p: Position, exitPrice: real, exitAt: int, reason: ExitReason, orderId: nat)
      returns (r: Outcome)
      modifies this
      ensures Yields(r, View(), Close(market, old(View()), p, exitPrice, exitAt, reason, orderId))
    {
      hide ExitPnl;
      var quantityAbs := Abs(p.quantity);
      if !(quantityAbs > 0.0) {
        return Success(());
      }
      var rate := market.fx(p.symbol, exitAt);
      if rate.None? {
        return Failure(MissingFx(p.symbol));
      }
      var pnl := ExitPnl(market, p, quantityAbs, exitPrice, rate.value);
      fills := fills + [FillOf(p, quantityAbs, exitPrice, exitAt, orderId, reason, pnl)];
      positions := positions - {p.symbol};
      closedTrades := closedTrades + [ClosedTrade(p.symbol, p.strategy, p.side, pnl.netPnl, exitAt)];
      currentEquity := currentEquity + pnl.netPnl;
      return Success(());
    }

    method ClosePartialPosition(p: Position, k: nat, exitAt: int) returns (r: Outcome)
      requires p.partials.Some? && k < |p.partials.value|
      modifies this
      ensures Yields(r, View(), TakePartial(market, old(View()), p, k, exitAt))
    {
      hide ExitPnl;
      var level := p.partials.value[k];
      var position := p.(partials := Some(p.partials.value[k := level.(executed := true)]));
      positions := positions[p.symbol := position];
      var remainingAbs := Abs(p.quantity);
      var closeQtyAbs := PartialQuantity(p, level.fraction);
      if !(closeQtyAbs > 0.0) {
        return Success(());
      }
      var rate := market.fx(position.symbol, exitAt);
      if rate.None? {
        return Failure(MissingFx(position.symbol));
      }
      var pnl := ExitPnl(market, position, closeQtyAbs, level.price, rate.value);
      fills := fills + [FillOf(position, closeQtyAbs, level.price, exitAt, position.orderId, PartialTakeProfit, pnl)];
      var left := remainingAbs - closeQtyAbs;
      if left == 0.0 {
        positions := positions - {position.symbol};
      } else {
        positions := positions[position.symbol := position.(quantity := if position.IsLong() then left else -left)];
      }
      closedTrades :=
        closedTrades + [ClosedTrade(position.symbol, position.strategy, position.side, pnl.netPnl, exitAt)];
      currentEquity := currentEquity + pnl.netPnl;
      return Success(());
    }

    method ProcessContractTransition(c: Candle) returns (r: Outcome)
      modifies this
      ensures Yields(r, View(), Transition(market, old(View()), c))
    {
      hide Close, Slipped;
      if market.futures(c.symbol) && c.symbol in lastCandleBySymbol
         && lastCandleBySymbol[c.symbol].conid != c.conid {
        var previous := lastCandleBySymbol[c.symbol];
        if c.symbol in positions {
          var p := positions[c.symbol];
          var price := Slipped(p.futuresSpec, previous.close, if p.IsLong() then Sell else Buy);
          if price.Failure? {
            return Failure(price.error);
          }
          var expiry := market.lastTradeAt(previous.conid);
          var reason := if expiry.Some? && c.ts >= expiry.value then Expiry else ContractRoll;
          var closed := ClosePosition(p, price.value, previous.ts, reason, p.orderId);
          if closed.Failure? {
            return closed;
          }
        }
        CancelPending(c.symbol);
      }
      lastCandleBySymbol := lastCandleBySymbol[c.symbol := c];
      return Success(());
    }

    method CancelPending(symbol: string)
      modifies this
      ensures View() == old(View()).(pending := WithoutSymbol(old(pendingOrders), symbol),
                                     orders := CancelledFor(old(pendingOrders), symbol, old(orders)))
    {
      var keep: seq<PendingOrder> := [];
      var i := 0;
      while i < |pendingOrders|
        invariant 0 <= i <= |pendingOrders| && pendingOrders == old(pendingOrders)
        invariant keep == WithoutSymbol(pendingOrders[..i], symbol)
        invariant View() == old(View()).(orders := CancelledFor(pendingOrders[..i], symbol, old(orders)))
      {
        assert pendingOrders[..i + 1][..i] == pendingOrders[..i];
        var pending := pendingOrders[i];
        if pending.order.instrument == symbol {
          orders := orders[pending.id := Cancelled];
        } else {
          keep := keep + [pending];
        }
        i := i + 1;
      }
      assert pendingOrders[..i] == pendingOrders;
      pendingOrders := keep;
    }

    method FillPending(pending: PendingOrder, c: Candle) returns (r: Outcome)
      modifies this
      ensures Yields(r, View(), FillOrder(market, old(View()), pending, c))
    {
      hide Close, EntryPrice, Opened;
      var o := pending.order;
      var spec := SpecOf(market, o, c);
      if spec.Some? && !WholeContracts(o.quantity) {
        return Failure(NotWholeContracts);
      }
      var price := EntryPrice(spec, o, c);
      if price.Failure? {
        return Failure(price.error);
      }
      var existing := if o.instrument in positions then Some(positions[o.instrument]) else None;
      if o.effect.CloseOrReduce? {
        if existing.Some? {
          r := ClosePosition(existing.value, price.value, c.ts, ManagedExit, pending.id);
          if r.Failure? {
            return;
          }
        }
      } else if Adds(existing, o) {
        if spec.Some? && existing.Some? {
          return Failure(Pyramiding);
        }
        var rate := market.fx(o.instrument, c.ts);
        if rate.None? {
          return Failure(MissingFx(o.instrument));
        }
        var position := Opened(market, existing, nextPositionId, pending, c, price.value, rate.value, spec);
        positions := positions[position.symbol := position];
        if existing.None? {
          nextPositionId := nextPositionId + 1;
        }
        entries := entries + [Entry(position.id, Abs(o.quantity))];
      } else {
        r := ClosePosition(existing.value, price.value, c.ts, OppositeSignal, pending.id);
        if r.Failure? {
          return;
        }
      }
      orders := orders[pending.id := Filled];
      return Success(());
    }

    method ProcessPendingOrders(c: Candle) returns (r: Outcome)
      modifies this
      ensures Yields(r, View(), Sweep(market, old(View()), old(pendingOrders), c))
    {
      hide FillOrder, Touched;
      ghost var before, all := View(), pendingOrders;
      var todo := pendingOrders;
      var remaining: seq<PendingOrder> := [];
      var i := 0;
      while i < |todo|
        invariant 0 <= i <= |todo| && todo == all
        invariant var swept := Sweep(market, before, todo[..i], c);
          swept.Success? && swept.value == View().(pending := remaining)
      {
        assert todo[..i + 1][..i] == todo[..i];
        var pending := todo[i];
        FillIgnoresPending(market, View(), pending, c, remaining);
        if Waits(pending, c) {
          remaining := remaining + [pending];
        } else if Touched(market, pending.order, c) {
          r := FillPending(pending, c);
          if r.Failure? {
            SweepFailsEarly(market, before, todo, c, i + 1);
            return;
          }
        } else if pending.remaining - 1 <= 0 {
          orders := orders[pending.id := Cancelled];
        } else {
          remaining := remaining + [pending.(remaining := pending.remaining - 1)];
        }
        i := i + 1;
      }
      assert todo[..i] == todo;
      pendingOrders := remaining;
      return Success(());
    }

    method TakeReachedPartials(p: Position, c: Candle) returns (r: Outcome)
      modifies this
      ensures Yields(r, View(), TakePartials(market, old(View()), p.symbol, c, p.IsLong(), Levels(p)))
    {
      hide TakePartial;
      ghost var before := View();
      var isLong, i := p.IsLong(), 0;
      while i < Levels(p)
        invariant 0 <= i <= Levels(p)
        invariant TakePartials(market, before, p.symbol, c, isLong, i) == Success(View())
      {
        if p.symbol !in positions {
          DrainedStays(market, before, p.symbol, c, isLong, i, Levels(p));
          return Success(());
        }
        var position := positions[p.symbol];
        if TakesLevel(position, i, c, isLong) {
          r := ClosePartialPosition(position, i, c.ts);
          if r.Failure? {
            PartialsFailEarly(market, before, p.symbol, c, isLong, i + 1, Levels(p));
            return;
          }
        }
        i := i + 1;
      }
      return Success(());
    }

    method ProcessBracketExit(c: Candle) returns (r: Outcome)
      modifies this
      ensures Yields(r, View(), BracketExit(market, old(View()), c))
    {
      hide Close, Slipped, Trail, TakePartials, LockOneR, BreakEven, StopExitReference;
      if c.symbol !in positions {
        return Success(());
      }
      var p := positions[c.symbol];
      if StopTouched(p, c) {
        var side := if p.IsLong() then Sell else Buy;
        var reference := if p.futuresSpec.Some?
                         then StopExitReference(side, p.stop.value, c.open, p.futuresSpec.value.tickSize)
                         else p.stop.value;
        var price := Slipped(p.futuresSpec, reference, side);
        if price.Failure? {
          return Failure(price.error);
        }
        r := ClosePosition(p, price.value, c.ts, StopHit, p.orderId);
        return;
      }
      if p.entryAt == c.ts {
        return Success(());
      }
      var moved := LockOneR(BreakEven(p, c), c);
      MovingKeepsHolding(p, c);
      positions := positions[p.symbol := moved];
      r := TakeReachedPartials(moved, c);
      if r.Failure? || p.symbol !in positions {
        return;
      }
      var left := positions[p.symbol];
      if left.takeProfit.Some? && Reached(c, left.takeProfit.value, left.IsLong()) {
        r := ClosePosition(left, left.takeProfit.value, c.ts, TakeProfit, left.orderId);
        return;
      }
      var trailed := Trail(left, c);
      positions := positions[trailed.symbol := trailed];
      return Success(());
    }

    method ProposeOrder(c: Candle, d: Decision) returns (r: Outcome)
      modifies this
      ensures Yields(r, View(), Propose(market, old(View()), c, d))
    {
      if HasPending(pendingOrders, c.symbol) || d.Rejected? || d.order.quantity <= 0.0 {
        return Success(());
      }
      var o := d.order;
      if market.futures(o.instrument) {
        if o.conid != Some(c.conid) {
          return Failure(WrongContract);
        }
        if market.specFor(c.conid).None? {
          return Failure(MissingSpec);
        }
        if !WholeContracts(o.quantity) {
          return Failure(NotWholeContracts);
        }
        var direction := if o.side.Sell? then -1 else 1;
        if o.instrument in positions && Sign(positions[o.instrument].quantity) == direction {
          return Failure(Pyramiding);
        }
        if !o.orderType.MKT? && o.entry.None? {
          return Failure(MissingEntry);
        }
      }
      pendingOrders := pendingOrders + [PendingOrder(nextOrderId, o, market.orderTtl, c.ts)];
      orders := orders[nextOrderId := Proposed];
      nextOrderId := nextOrderId + 1;
      return Success(());
    }

    method StepCandle(c: Candle, d: Decision) returns (r: Outcome)
      modifies this
      ensures Yields(r, View(), Step(market, old(View()), c, d))
    {
      hide Transition, Sweep, BracketExit, Propose;
      r := ProcessContractTransition(c);
      if r.Failure? {
        return;
      }
      r := ProcessPendingOrders(c);
      if r.Failure? {
        return;
      }
      r := ProcessBracketExit(c);
      if r.Failure? {
        return;
      }
      r := ProposeOrder(c, d);
    }

    method CloseOpenPositionsAtDatasetEnd(order: seq<string>) returns (r: Outcome)
      modifies this
      ensures Yields(r, View(), CloseAll(market, old(View()), order))
    {
      hide Close, Slipped;
      ghost var before := View();
      var i := 0;
      while i < |order|
        invariant 0 <= i <= |order|
        invariant CloseAll(market, before, order[..i]) == Success(View())
      {
        assert order[..i + 1][..i] == order[..i];
        if order[i] in positions {
          var p := positions[order[i]];
          var listed := p.symbol in lastCandleBySymbol;
          var price := Slipped(p.futuresSpec, if listed then lastCandleBySymbol[p.symbol].close else p.averageCost,
                               if p.IsLong() then Sell else Buy);
          if price.Failure? {
            ClosingFailsEarly(market, before, order, i + 1);
            return Failure(price.error);
          }
          var expiry := if p.conid.Some? then market.lastTradeAt(p.conid.value) else None;
          var reason := if expiry.Some? && market.datasetEnd.Some? && market.datasetEnd.value >= expiry.value
                        then Expiry else DatasetEnd;
          r := ClosePosition(p, price.value, if listed then lastCandleBySymbol[p.symbol].ts else p.entryAt, reason,
                             p.orderId);
          if r.Failure? {
            ClosingFailsEarly(market, before, order, i + 1);
            return;
          }
        }
        i := i + 1;
      }
      assert order[..i] == order;
      return Success(());
    }

    // The event loop over the merged candles, then the close-out and the report.
    method Run(events: seq<Candle>, decisions: seq<Decision>, order: seq<string>)
      returns (r: Result<Totals, SimError>)
      requires |decisions| == |events| && View() == Start(currentEquity)
      modifies this
      ensures var stepped := Steps(market, old(currentEquity), events, decisions);
        var closed := if stepped.Success? then CloseAll(market, stepped.value, order) else stepped;
        if closed.Success? then r == Success(TotalsOf(closed.value.trades)) && View() == closed.value
        else r == Failure(closed.error)
    {
      hide Step, CloseAll;
      ghost var equity := currentEquity;
      var i := 0;
      while i < |events|
        invariant 0 <= i <= |events|
        invariant Steps(market, equity, events[..i], decisions[..i]) == Success(View())
      {
        assert events[..i + 1][..i] == events[..i] && decisions[..i + 1][..i] == decisions[..i];
        var stepped := StepCandle(events[i], decisions[i]);
        if stepped.Failure? {
          StepsFailEarly(market, equity, events, decisions, i + 1);
          return Failure(stepped.error);
        }
        i := i + 1;
      }
      assert events[..i] == events && decisions[..i] == decisions;
      var closed := CloseOpenPositionsAtDatasetEnd(order);
      if closed.Failure? {
        return Failure(closed.error);
      }
      return Success(TotalsOf(closedTrades));
    }
  }

  lemma {:induction false} PartialsFailEarly(
    m: Market, b: Book, symbol: string, c: Candle, isLong: bool, k: nat, n: nat)
    requires k <= n && TakePartials(m, b, symbol, c, isLong, k).Failure?
    ensures TakePartials(m, b, symbol, c, isLong, n) == TakePartials(m, b, symbol, c, isLong, k)
  {
    hide TakePartial, TakesLevel;
    if k < n {
      PartialsFailEarly(m, b, symbol, c, isLong, k, n - 1);
    }
  }

  lemma MovingKeepsHolding(p: Position, c: Candle)
    ensures var moved := LockOneR(BreakEven(p, c), c); moved.symbol == p.symbol && moved.quantity == p.quantity
  {
    hide LocksAt, AtR;
  }
}
