/** Conservation over whole runs: every step of the simulator keeps the books balanced, and the final report adds up. */
module BacktestConservation {
  import opened Outcomes
  import opened Aggregation
  import opened BarExecution
  import opened BacktestModel
  import opened BacktestLedger

  ghost predicate PositiveOrders(pending: seq<PendingOrder>) {
    forall p :: p in pending ==> p.order.quantity > 0.0
  }

  ghost predicate Sound(start: real, b: Book) {
    Balanced(start, b) && PositiveOrders(b.pending)
  }

  // ----- one candle

  lemma WithoutSymbolMembers(pending: seq<PendingOrder>, symbol: string)
    ensures forall p :: p in WithoutSymbol(pending, symbol) <==> p in pending && p.order.instrument != symbol
  {
    if pending != [] {
      var init, last := pending[..|pending| - 1], pending[|pending| - 1];
      WithoutSymbolMembers(init, symbol);
      assert pending == init + [last];
    }
  }

  lemma RollExitBalances(m: Market, start: real, b: Book, p: Position, previous: Candle, c: Candle)
    requires Balanced(start, b) && Owns(b, p)
    ensures var r := RollExit(m, b, p, previous, c);
      r.Success? ==> Balanced(start, r.value) && r.value.pending == b.pending
  {
    hide Close, Slipped, Balanced;
    var price := Slipped(p.futuresSpec, previous.close, if p.IsLong() then Sell else Buy);
    if price.Success? {
      var expiry := m.lastTradeAt(previous.conid);
      var reason := if expiry.Some? && c.ts >= expiry.value then Expiry else ContractRoll;
      CloseBalances(m, start, b, p, price.value, previous.ts, reason, p.orderId);
    }
  }

  lemma TransitionKeepsSound(m: Market, start: real, b: Book, c: Candle)
    requires Sound(start, b)
    ensures var r := Transition(m, b, c); r.Success? ==> Sound(start, r.value)
  {
    hide RollExit, Balanced;
    var r := Transition(m, b, c);
    if r.Success? {
      if !Rolls(m, b, c) {
        SameLedgerBalances(start, b, r.value);
      } else {
        var closed := if c.symbol in b.positions then RollExit(m, b, b.positions[c.symbol], b.last[c.symbol], c)
                      else Success(b);
        if c.symbol in b.positions {
          HeldIsOwned(start, b, c.symbol);
          RollExitBalances(m, start, b, b.positions[c.symbol], b.last[c.symbol], c);
        }
        SameLedgerBalances(start, closed.value, r.value);
        WithoutSymbolMembers(closed.value.pending, c.symbol);
      }
    }
  }

  lemma OpenedPuts(
    m: Market, start: real, b: Book, pending: PendingOrder, c: Candle, price: real, rate: real,
    spec: Option<FuturesSpec>)
    requires Balanced(start, b) && pending.order.quantity > 0.0
    requires Adds(Held(b, pending.order.instrument), pending.order)
    ensures var existing := Held(b, pending.order.instrument);
      Puts(b, existing, Opened(m, existing, b.nextPositionId, pending, c, price, rate, spec), pending.order.quantity)
  {
    var existing := Held(b, pending.order.instrument);
    if existing.Some? {
      assert PositionBalances(b, pending.order.instrument, existing.value);
    }
  }

  lemma SettleBalances(
    m: Market, start: real, b: Book, pending: PendingOrder, c: Candle, price: real, spec: Option<FuturesSpec>)
    requires Balanced(start, b) && pending.order.quantity > 0.0
    ensures var r := Settle(m, b, pending, c, price, spec);
      r.Success? ==> Balanced(start, r.value) && r.value.pending == b.pending
  {
    hide Close, Balanced, Opened;
    var o := pending.order;
    var existing := Held(b, o.instrument);
    if existing.Some? {
      HeldIsOwned(start, b, o.instrument);
    }
    if o.effect.CloseOrReduce? {
      if existing.Some? {
        CloseBalances(m, start, b, existing.value, price, c.ts, ManagedExit, pending.id);
      }
    } else if Adds(existing, o) {
      var rate := m.fx(o.instrument, c.ts);
      if rate.Some? {
        OpenedPuts(m, start, b, pending, c, price, rate.value, spec);
        var position := Opened(m, existing, b.nextPositionId, pending, c, price, rate.value, spec);
        OpenedBalances(start, b, existing, position, o.quantity);
      }
    } else {
      CloseBalances(m, start, b, existing.value, price, c.ts, OppositeSignal, pending.id);
    }
  }

  lemma SweepOneKeepsSound(m: Market, start: real, b: Book, p: PendingOrder, c: Candle)
    requires Sound(start, b) && p.order.quantity > 0.0
    ensures var r := SweepOne(m, b, p, c); r.Success? ==> Sound(start, r.value)
  {
    hide Settle, EntryPrice, Touched, Balanced;
    var r := SweepOne(m, b, p, c);
    if r.Success? {
      if !Waits(p, c) && Touched(m, p.order, c) {
        var spec := SpecOf(m, p.order, c);
        var price := EntryPrice(spec, p.order, c);
        SettleBalances(m, start, b, p, c, price.value, spec);
        SameLedgerBalances(start, Settle(m, b, p, c, price.value, spec).value, r.value);
      } else {
        SameLedgerBalances(start, b, r.value);
      }
    }
  }

  lemma {:induction false} SweepKeepsSound(m: Market, start: real, b: Book, pending: seq<PendingOrder>, c: Candle)
    requires Balanced(start, b) && PositiveOrders(pending)
    ensures var r := Sweep(m, b, pending, c); r.Success? ==> Sound(start, r.value)
  {
    if pending == [] {
      SameLedgerBalances(start, b, b.(pending := []));
    } else {
      var init, last := pending[..|pending| - 1], pending[|pending| - 1];
      assert last in pending;
      SweepKeepsSound(m, start, b, init, c);
      var swept := Sweep(m, b, init, c);
      if swept.Success? {
        SweepOneKeepsSound(m, start, swept.value, last, c);
      }
    }
  }

  lemma StopExitBalances(m: Market, start: real, b: Book, p: Position, c: Candle)
    requires Balanced(start, b) && Owns(b, p) && p.stop.Some?
    ensures var r := StopExit(m, b, p, c); r.Success? ==> Balanced(start, r.value) && r.value.pending == b.pending
  {
    hide Close, Slipped, Balanced, StopExitReference;
    var side := if p.IsLong() then Sell else Buy;
    var reference := if p.futuresSpec.Some?
                     then StopExitReference(side, p.stop.value, c.open, p.futuresSpec.value.tickSize)
                     else p.stop.value;
    var price := Slipped(p.futuresSpec, reference, side);
    if price.Success? {
      CloseBalances(m, start, b, p, price.value, c.ts, StopHit, p.orderId);
    }
  }

  lemma TakePartialBalances(m: Market, start: real, b: Book, p: Position, k: nat, at: int)
    requires Balanced(start, b) && Owns(b, p) && p.partials.Some? && k < |p.partials.value|
    ensures var r := TakePartial(m, b, p, k, at);
      r.Success? ==> Balanced(start, r.value) && r.value.pending == b.pending
  {
    hide Exit, Balanced;
    var level := p.partials.value[k];
    var spent := p.(partials := Some(p.partials.value[k := level.(executed := true)]));
    WithPositionBalances(start, b, p, spent);
    var quantity := PartialQuantity(p, level.fraction);
    if quantity > 0.0 {
      ExitBalances(
        m, start, WithPosition(b, spent), spent, quantity, level.price, at, PartialTakeProfit, spent.orderId);
    }
  }

  lemma {:induction false} TakePartialsBalances(
    m: Market, start: real, b: Book, symbol: string, c: Candle, isLong: bool, n: nat)
    requires Balanced(start, b)
    ensures var r := TakePartials(m, b, symbol, c, isLong, n);
      r.Success? ==> Balanced(start, r.value) && r.value.pending == b.pending
  {
    hide TakePartial, Balanced;
    if n > 0 {
      TakePartialsBalances(m, start, b, symbol, c, isLong, n - 1);
      var taken := TakePartials(m, b, symbol, c, isLong, n - 1);
      if taken.Success? && symbol in taken.value.positions {
        var p := taken.value.positions[symbol];
        HeldIsOwned(start, taken.value, symbol);
        if TakesLevel(p, n - 1, c, isLong) {
          TakePartialBalances(m, start, taken.value, p, n - 1, c.ts);
        }
      }
    }
  }

  lemma TargetOrTrailBalances(m: Market, start: real, b: Book, p: Position, c: Candle)
    requires Balanced(start, b) && Owns(b, p)
    ensures var r := TargetOrTrail(m, b, p, c); r.Success? ==> Balanced(start, r.value) && r.value.pending == b.pending
  {
    hide Close, Balanced;
    if p.takeProfit.Some? && Reached(c, p.takeProfit.value, p.IsLong()) {
      CloseBalances(m, start, b, p, p.takeProfit.value, c.ts, TakeProfit, p.orderId);
    } else {
      WithPositionBalances(start, b, p, Trail(p, c));
    }
  }

  lemma BracketKeepsSound(m: Market, start: real, b: Book, c: Candle)
    requires Sound(start, b)
    ensures var r := BracketExit(m, b, c); r.Success? ==> Sound(start, r.value)
  {
    hide StopExit, TargetOrTrail, TakePartials, Balanced, Trail;
    if c.symbol in b.positions {
      var p := b.positions[c.symbol];
      HeldIsOwned(start, b, c.symbol);
      if StopTouched(p, c) {
        StopExitBalances(m, start, b, p, c);
      } else if p.entryAt != c.ts {
        var moved := LockOneR(BreakEven(p, c), c);
        WithPositionBalances(start, b, p, moved);
        TakePartialsBalances(m, start, WithPosition(b, moved), p.symbol, c, p.IsLong(), Levels(moved));
        var taken := TakePartials(m, WithPosition(b, moved), p.symbol, c, p.IsLong(), Levels(moved));
        if taken.Success? && p.symbol in taken.value.positions {
          HeldIsOwned(start, taken.value, p.symbol);
          TargetOrTrailBalances(m, start, taken.value, taken.value.positions[p.symbol], c);
        }
      }
    }
  }

  lemma StepKeepsSound(m: Market, start: real, b: Book, c: Candle, d: Decision)
    requires Sound(start, b)
    ensures var r := Step(m, b, c, d); r.Success? ==> Sound(start, r.value)
  {
    hide Transition, Sweep, BracketExit, Propose, Balanced;
    TransitionKeepsSound(m, start, b, c);
    var rolled := Transition(m, b, c);
    if rolled.Success? {
      SweepKeepsSound(m, start, rolled.value, rolled.value.pending, c);
      var swept := Sweep(m, rolled.value, rolled.value.pending, c);
      if swept.Success? {
        BracketKeepsSound(m, start, swept.value, c);
        var processed := BracketExit(m, swept.value, c);
        if processed.Success? {
          ProposeKeepsSound(m, start, processed.value, c, d);
        }
      }
    }
  }

  lemma ProposeKeepsSound(m: Market, start: real, b: Book, c: Candle, d: Decision)
    requires Sound(start, b)
    ensures var r := Propose(m, b, c, d); r.Success? ==> Sound(start, r.value)
  {
    var r := Propose(m, b, c, d);
    if r.Success? {
      SameLedgerBalances(start, b, r.value);
    }
  }

  // ----- whole runs

  lemma StartIsSound(equity: real)
    ensures Sound(equity, Start(equity))
  {
  }

  // Every reachable book is balanced, whatever the candles and whatever the signal engine decides.
  lemma {:induction false} RunsConserve(m: Market, equity: real, events: seq<Candle>, decisions: seq<Decision>)
    requires |decisions| == |events|
    ensures var r := Steps(m, equity, events, decisions); r.Success? ==> Sound(equity, r.value)
  {
    if events == [] {
      StartIsSound(equity);
    } else {
      var n := |events| - 1;
      RunsConserve(m, equity, events[..n], decisions[..n]);
      var b := Steps(m, equity, events[..n], decisions[..n]);
      if b.Success? {
        StepKeepsSound(m, equity, b.value, events[n], decisions[n]);
      }
    }
  }

  lemma EndExitBalances(m: Market, start: real, b: Book, p: Position)
    requires Balanced(start, b) && Owns(b, p)
    ensures var r := EndExit(m, b, p);
      r.Success? ==> Balanced(start, r.value) && r.value.positions == b.positions - {p.symbol}
  {
    hide Close, Slipped, Balanced;
    var r := EndExit(m, b, p);
    if r.Success? {
      var price := Slipped(p.futuresSpec, EndPrice(b, p), if p.IsLong() then Sell else Buy).value;
      var expiry := if p.conid.Some? then m.lastTradeAt(p.conid.value) else None;
      var reason := if expiry.Some? && m.datasetEnd.Some? && m.datasetEnd.value >= expiry.value
                    then Expiry else DatasetEnd;
      CloseBalances(m, start, b, p, price, EndTime(b, p), reason, p.orderId);
    }
  }

  lemma {:induction false} CloseAllBalances(m: Market, start: real, b: Book, order: seq<string>)
    requires Balanced(start, b)
    ensures var r := CloseAll(m, b, order);
      r.Success? ==> Balanced(start, r.value) && forall s :: s in r.value.positions ==> s in b.positions && s !in order
  {
    hide EndExit, Balanced;
    if order != [] {
      var init, symbol := order[..|order| - 1], order[|order| - 1];
      CloseAllBalances(m, start, b, init);
      var closed := CloseAll(m, b, init);
      if closed.Success? && symbol in closed.value.positions {
        HeldIsOwned(start, closed.value, symbol);
        EndExitBalances(m, start, closed.value, closed.value.positions[symbol]);
      }
      assert forall s :: s in order ==> s in init || s == symbol;
    }
  }

  lemma {:induction false} TradesSumToFills(trades: seq<ClosedTrade>, fills: seq<Fill>)
    requires TradesAreFills(trades, fills)
    ensures SumPnl(trades) == SumNet(fills)
  {
    if fills != [] {
      var n := |fills| - 1;
      assert Matches(trades[n], fills[n]);
      assert TradesAreFills(trades[..n], fills[..n]) by {
        forall i | 0 <= i < n
          ensures Matches(trades[..n][i], fills[..n][i])
        {
          assert Matches(trades[i], fills[i]);
        }
      }
      TradesSumToFills(trades[..n], fills[..n]);
    }
  }

  function WinningFills(fills: seq<Fill>): nat {
    if fills == [] then 0
    else WinningFills(fills[..|fills| - 1]) + (if fills[|fills| - 1].netPnl > 0.0 then 1 else 0)
  }

  lemma {:induction false} WinsAreWinningFills(trades: seq<ClosedTrade>, fills: seq<Fill>)
    requires TradesAreFills(trades, fills)
    ensures Wins(trades) == WinningFills(fills)
  {
    if fills != [] {
      var n := |fills| - 1;
      assert Matches(trades[n], fills[n]);
      assert TradesAreFills(trades[..n], fills[..n]) by {
        forall i | 0 <= i < n
          ensures Matches(trades[..n][i], fills[..n][i])
        {
          assert Matches(trades[i], fills[i]);
        }
      }
      WinsAreWinningFills(trades[..n], fills[..n]);
    }
  }

  // After a run nothing is open, everything ever put on has been taken off, and the reported total, trade and win
  // counts are those of the fills; the total is the change in equity.
  lemma FinishedRunsAddUp(
    m: Market, equity: real, events: seq<Candle>, decisions: seq<Decision>, order: seq<string>)
    requires |decisions| == |events|
    requires var r := Steps(m, equity, events, decisions);
      r.Success? ==> forall s :: s in r.value.positions ==> s in order
    ensures var r := Steps(m, equity, events, decisions);
      r.Success? && CloseAll(m, r.value, order).Success? ==>
        var b, totals := CloseAll(m, r.value, order).value, TotalsOf(CloseAll(m, r.value, order).value.trades);
        && b.positions == map[]
        && (forall id: nat :: PutOn(b.entries, id) == TakenOff(b.fills, id))
        && totals.totalPnl == SumNet(b.fills) == b.equity - equity
        && totals.trades == |b.fills|
        && totals.wins == WinningFills(b.fills)
  {
    RunsConserve(m, equity, events, decisions);
    var r := Steps(m, equity, events, decisions);
    if r.Success? && CloseAll(m, r.value, order).Success? {
      CloseAllBalances(m, equity, r.value, order);
      var b := CloseAll(m, r.value, order).value;
      assert b.positions == map[];
      TradesSumToFills(b.trades, b.fills);
      WinsAreWinningFills(b.trades, b.fills);
      forall id: nat
        ensures PutOn(b.entries, id) == TakenOff(b.fills, id)
      {
        assert !IsOpen(b, id);
      }
    }
  }
}
