/**
 * What every fill earns and pays, in every run: the signed price move times its size, and a commission for each of its
 * two sides; and what a position pays in all.
 */
module BacktestProfit {
  import opened Outcomes
  import opened Aggregation
  import opened BarExecution
  import opened BacktestModel
  import opened BacktestLedger
  import opened BacktestConservation
  import opened BacktestStops

  // ----- one exit

  // The commission of one side of a stock trade: with a rate per share, that and the share of the notional passed
  // through, but never less than the minimum; otherwise a flat share of the notional.
  predicate Charges(plan: CommissionPlan, shares: real, notional: real, charge: real) {
    var size, value := if shares < 0.0 then -shares else shares, if notional < 0.0 then -notional else notional;
    var asked := size * plan.perShare + value * plan.passthroughBps / 10000.0;
    charge == if plan.perShare > 0.0 then (if plan.minPerSide < asked then asked else plan.minPerSide)
              else value * plan.flatBps / 10000.0
  }

  // How far the price moved the way of a long or a short.
  function Move(side: Side, entry: real, exit: real): real {
    if side.Buy? then exit - entry else entry - exit
  }

  function Times(move: real, quantity: real, multiplier: real, rate: real): real {
    move * quantity * multiplier * rate
  }

  function ValueOf(price: real, quantity: real, multiplier: real, rate: real): real {
    price * quantity * multiplier * rate
  }

  // A futures fill: its move in money, and the contract's charge for both sides of every contract.
  predicate EarnsInFutures(spec: FuturesSpec, f: Fill, rate: real) {
    && f.grossPnl == Times(Move(f.side, f.entryPrice, f.exitPrice), f.quantity, spec.multiplier, rate)
    && f.commission == 2.0 * (f.quantity * spec.commissionPerContractPerSide)
  }

  // A stock fill: its move in the base currency, and a charge for each of its two notionals, the entry's at the entry's
  // rate.
  ghost predicate EarnsInStock(m: Market, f: Fill, rate: real, entryRate: real) {
    var multiplier := m.priceMultiplier(f.symbol);
    && f.grossPnl == Times(Move(f.side, f.entryPrice, f.exitPrice), f.quantity, multiplier, rate)
    && exists opening, closing ::
         && Charges(m.commission, f.quantity, ValueOf(f.entryPrice, f.quantity, multiplier, entryRate), opening)
         && Charges(m.commission, f.quantity, ValueOf(f.exitPrice, f.quantity, multiplier, rate), closing)
         && f.commission == opening + closing
  }

  lemma FuturesExitEarns(m: Market, p: Position, quantity: real, price: real, rate: real, spec: FuturesSpec, f: Fill)
    requires p.futuresSpec == Some(spec) && p.quantity != 0.0 && (p.side.Buy? <==> p.quantity > 0.0)
    requires f.side == p.side && f.entryPrice == p.averageCost && f.exitPrice == price && f.quantity == quantity
    requires var pnl := ExitPnl(m, p, quantity, price, rate);
      f.grossPnl == pnl.grossPnl && f.commission == pnl.commission
    ensures EarnsInFutures(spec, f, rate)
  {
    var direction := if p.IsLong() then 1 else -1;
    assert direction as real * (price - p.averageCost) == Move(f.side, f.entryPrice, f.exitPrice);
    DirectedMove(
      direction, price - p.averageCost, Move(f.side, f.entryPrice, f.exitPrice), quantity, spec.multiplier, rate);
  }

  lemma DirectedMove(direction: int, change: real, move: real, quantity: real, multiplier: real, rate: real)
    requires direction as real * change == move
    ensures direction as real * change * quantity * multiplier * rate == Times(move, quantity, multiplier, rate)
  {
  }

  lemma ChargesFor(plan: CommissionPlan, shares: real, notional: real)
    ensures Charges(plan, shares, notional, CommissionForSide(plan, shares, notional))
  {
  }

  lemma SameAmount(price: real, quantity: real, multiplier: real, rate: real)
    ensures Amount(price, quantity, multiplier, rate) == ValueOf(price, quantity, multiplier, rate)
  {
  }

  lemma MovedAmount(move: real, quantity: real, multiplier: real, rate: real)
    ensures Amount(move, quantity, multiplier, rate) == Times(move, quantity, multiplier, rate)
  {
  }

  lemma StockExitEarns(m: Market, p: Position, quantity: real, price: real, rate: real, f: Fill)
    requires p.futuresSpec.None? && p.quantity != 0.0 && (p.side.Buy? <==> p.quantity > 0.0)
    requires p.priceMultiplier == m.priceMultiplier(p.symbol) && f.symbol == p.symbol
    requires f.side == p.side && f.entryPrice == p.averageCost && f.exitPrice == price && f.quantity == quantity
    requires var pnl := ExitPnl(m, p, quantity, price, rate);
      f.grossPnl == pnl.grossPnl && f.commission == pnl.commission
    ensures EarnsInStock(m, f, rate, p.fxToBaseAtEntry)
  {
    var entered := Amount(p.averageCost, quantity, p.priceMultiplier, p.fxToBaseAtEntry);
    var left := Amount(price, quantity, p.priceMultiplier, rate);
    ChargesFor(m.commission, quantity, entered);
    ChargesFor(m.commission, quantity, left);
    SameAmount(p.averageCost, quantity, p.priceMultiplier, p.fxToBaseAtEntry);
    SameAmount(price, quantity, p.priceMultiplier, rate);
    MovedAmount(if p.IsLong() then price - p.averageCost else p.averageCost - price, quantity, p.priceMultiplier, rate);
    hide CommissionForSide, Charges, Amount, ValueOf, Times;
  }

  // ----- every fill of every run

  // The position's terms are the market's; entered by one fill, its rate is that of its entry.
  ghost predicate Termed(m: Market, entries: seq<Entry>, p: Position) {
    && p.priceMultiplier == m.priceMultiplier(p.symbol)
    && (EntryCount(entries, p.id) <= 1 ==> m.fx(p.symbol, p.entryAt) == Some(p.fxToBaseAtEntry))
  }

  // The fill earns by the rate of its exit and, of a position entered by one fill, by the rate of its entry.
  ghost predicate Earned(m: Market, entries: seq<Entry>, f: Fill) {
    m.fx(f.symbol, f.exitAt).Some? && f.netPnl == f.grossPnl - f.commission
    && match f.futuresSpec
       case Some(spec) => EarnsInFutures(spec, f, m.fx(f.symbol, f.exitAt).value)
       case None =>
         exists entryRate ::
           && EarnsInStock(m, f, m.fx(f.symbol, f.exitAt).value, entryRate)
           && (EntryCount(entries, f.positionId) <= 1 ==> m.fx(f.symbol, f.entryAt) == Some(entryRate))
  }

  ghost predicate Honest(m: Market, b: Book) {
    && (forall s :: s in b.positions ==> Termed(m, b.entries, b.positions[s]))
    && (forall i :: 0 <= i < |b.fills| ==> Earned(m, b.entries, b.fills[i]))
  }

  lemma ExitEarns(
    m: Market, b: Book, p: Position, quantity: real, price: real, at: int, reason: ExitReason, orderId: nat)
    requires PositionBalances(b, p.symbol, p) && Termed(m, b.entries, p) && m.fx(p.symbol, at).Some?
    ensures var pnl := ExitPnl(m, p, quantity, price, m.fx(p.symbol, at).value);
      Earned(m, b.entries, FillOf(p, quantity, price, at, orderId, reason, pnl))
  {
    var rate := m.fx(p.symbol, at).value;
    var pnl := ExitPnl(m, p, quantity, price, rate);
    var f := FillOf(p, quantity, price, at, orderId, reason, pnl);
    PnlNets(m, p, quantity, price, rate);
    match p.futuresSpec
    case Some(spec) => FuturesExitEarns(m, p, quantity, price, rate, spec, f);
    case None => StockExitEarns(m, p, quantity, price, rate, f);
    hide ExitPnl, EarnsInFutures, EarnsInStock, EntryCount;
  }

  lemma RecordingIsHonest(m: Market, start: real, b: Book, p: Position, f: Fill)
    requires Honest(m, b) && Owns(b, p) && Earned(m, b.entries, f)
    ensures Honest(m, Recorded(b, p, f))
  {
    hide Earned, EntryCount;
  }

  lemma ExitIsHonest(
    m: Market, start: real, b: Book, p: Position, quantity: real, price: real, at: int, reason: ExitReason,
    orderId: nat)
    requires Balanced(start, b) && Honest(m, b) && Owns(b, p)
    ensures var r := Exit(m, b, p, quantity, price, at, reason, orderId); r.Success? ==> Honest(m, r.value)
  {
    assert PositionBalances(b, p.symbol, p);
    if m.fx(p.symbol, at).Some? {
      ExitEarns(m, b, p, quantity, price, at, reason, orderId);
      var pnl := ExitPnl(m, p, quantity, price, m.fx(p.symbol, at).value);
      RecordingIsHonest(m, start, b, p, FillOf(p, quantity, price, at, orderId, reason, pnl));
    }
    hide Balanced, Honest, ExitPnl, FillOf, Recorded;
  }

  lemma CloseIsHonest(
    m: Market, start: real, b: Book, p: Position, price: real, at: int, reason: ExitReason, orderId: nat)
    requires Balanced(start, b) && Honest(m, b) && Owns(b, p)
    ensures var r := Close(m, b, p, price, at, reason, orderId); r.Success? ==> Honest(m, r.value)
  {
    hide Balanced, Honest, Exit;
    ExitIsHonest(m, start, b, p, Abs(p.quantity), price, at, reason, orderId);
  }

  // A position with its bracket changed has the same terms.
  predicate SameTerms(p: Position, q: Position) {
    && q.id == p.id && q.symbol == p.symbol && q.priceMultiplier == p.priceMultiplier && q.entryAt == p.entryAt
    && q.fxToBaseAtEntry == p.fxToBaseAtEntry
  }

  lemma WithPositionIsHonest(m: Market, b: Book, p: Position, q: Position)
    requires Honest(m, b) && Owns(b, p) && SameTerms(p, q)
    ensures Honest(m, WithPosition(b, q))
  {
    hide Earned, EntryCount;
  }

  lemma SameIsHonest(m: Market, b: Book, after: Book)
    requires Honest(m, b) && after.positions == b.positions && after.fills == b.fills && after.entries == b.entries
    ensures Honest(m, after)
  {
    hide Earned, EntryCount;
  }

  lemma RollIsHonest(m: Market, start: real, b: Book, c: Candle)
    requires Balanced(start, b) && Honest(m, b)
    ensures var r := Transition(m, b, c); r.Success? ==> Honest(m, r.value)
  {
    var r := Transition(m, b, c);
    hide Balanced, Honest, Close, Slipped, WithoutSymbol, CancelledFor;
    if r.Success? {
      if Rolls(m, b, c) && c.symbol in b.positions {
        HeldIsOwned(start, b, c.symbol);
        var p, previous := b.positions[c.symbol], b.last[c.symbol];
        var expiry := m.lastTradeAt(previous.conid);
        var reason := if expiry.Some? && c.ts >= expiry.value then Expiry else ContractRoll;
        var price := Slipped(p.futuresSpec, previous.close, if p.IsLong() then Sell else Buy).value;
        CloseIsHonest(m, start, b, p, price, previous.ts, reason, p.orderId);
        SameIsHonest(m, Close(m, b, p, price, previous.ts, reason, p.orderId).value, r.value);
      } else {
        SameIsHonest(m, b, r.value);
      }
    }
  }

  // ----- orders

  lemma MoreEntriesEarn(m: Market, entries: seq<Entry>, e: Entry, f: Fill)
    requires Earned(m, entries, f)
    ensures Earned(m, entries + [e], f)
  {
    AppendEntry(entries, e, f.positionId);
    hide EarnsInStock, EarnsInFutures, EntryCount;
  }

  lemma OpeningIsHonest(m: Market, start: real, b: Book, existing: Option<Position>, q: Position, quantity: real)
    requires Balanced(start, b) && Honest(m, b) && existing == Held(b, q.symbol)
    requires q.id == (if existing.Some? then existing.value.id else b.nextPositionId)
    requires existing.Some? ==> EntryCount(b.entries, q.id) > 0
    requires q.priceMultiplier == m.priceMultiplier(q.symbol)
    requires existing.None? ==> m.fx(q.symbol, q.entryAt) == Some(q.fxToBaseAtEntry)
    ensures Honest(m, WithOpened(b, existing, q, quantity))
  {
    var after := WithOpened(b, existing, q, quantity);
    forall i | 0 <= i < |after.fills|
      ensures Earned(m, after.entries, after.fills[i])
    {
      MoreEntriesEarn(m, b.entries, Entry(q.id, quantity), b.fills[i]);
    }
    forall s | s in after.positions
      ensures Termed(m, after.entries, after.positions[s])
    {
      AppendEntry(b.entries, Entry(q.id, quantity), after.positions[s].id);
    }
    hide Earned, EntryCount, Balanced;
  }

  // Every open position has had an entry.
  ghost predicate AllEntered(b: Book) {
    forall s :: s in b.positions ==> EntryCount(b.entries, b.positions[s].id) > 0
  }

  lemma {:induction false} PutOnNeedsEntry(entries: seq<Entry>, id: nat)
    ensures EntryCount(entries, id) == 0 ==> PutOn(entries, id) == 0.0
  {
    if entries != [] {
      PutOnNeedsEntry(entries[..|entries| - 1], id);
    }
  }

  lemma {:induction false} TakenIsNotNegative(fills: seq<Fill>, id: nat)
    requires forall i :: 0 <= i < |fills| ==> fills[i].quantity > 0.0
    ensures TakenOff(fills, id) >= 0.0
  {
    if fills != [] {
      TakenIsNotNegative(fills[..|fills| - 1], id);
    }
  }

  lemma BalancedIsEntered(start: real, b: Book)
    requires Balanced(start, b)
    ensures AllEntered(b)
  {
    assert forall i :: 0 <= i < |b.fills| ==> Matches(b.trades[i], b.fills[i]);
    forall s | s in b.positions
      ensures EntryCount(b.entries, b.positions[s].id) > 0
    {
      var p := b.positions[s];
      assert PositionBalances(b, s, p);
      TakenIsNotNegative(b.fills, p.id);
      PutOnNeedsEntry(b.entries, p.id);
    }
  }

  lemma SettleIsHonest(
    m: Market, start: real, b: Book, pending: PendingOrder, c: Candle, price: real, spec: Option<FuturesSpec>)
    requires Balanced(start, b) && Honest(m, b)
    ensures var r := Settle(m, b, pending, c, price, spec); r.Success? ==> Honest(m, r.value)
  {
    var o := pending.order;
    var existing := Held(b, o.instrument);
    BalancedIsEntered(start, b);
    if existing.Some? {
      HeldIsOwned(start, b, o.instrument);
      CloseIsHonest(m, start, b, existing.value, price, c.ts, ManagedExit, pending.id);
      CloseIsHonest(m, start, b, existing.value, price, c.ts, OppositeSignal, pending.id);
    }
    var rate := m.fx(o.instrument, c.ts);
    if rate.Some? {
      var q := Opened(m, existing, b.nextPositionId, pending, c, price, rate.value, spec);
      OpenedTerms(m, existing, b.nextPositionId, pending, c, price, rate.value, spec);
      hide Opened, Balanced, Honest, Close, EntryCount;
      OpeningIsHonest(m, start, b, existing, q, Abs(o.quantity));
    }
    hide Balanced, Honest, Close;
  }

  lemma OpenedTerms(
    m: Market, existing: Option<Position>, newId: nat, pending: PendingOrder, c: Candle, price: real, rate: real,
    spec: Option<FuturesSpec>)
    ensures var q := Opened(m, existing, newId, pending, c, price, rate, spec);
      && q.symbol == pending.order.instrument && q.priceMultiplier == m.priceMultiplier(q.symbol)
      && q.id == (if existing.Some? then existing.value.id else newId)
      && (existing.None? ==> q.fxToBaseAtEntry == rate && q.entryAt == c.ts)
  {
  }

  lemma {:induction false} SweepIsHonest(m: Market, start: real, b: Book, pending: seq<PendingOrder>, c: Candle)
    requires Balanced(start, b) && Honest(m, b) && PositiveOrders(pending)
    ensures var r := Sweep(m, b, pending, c); r.Success? ==> Honest(m, r.value)
  {
    hide Balanced, Honest, Settle, EntryPrice, Touched;
    var r := Sweep(m, b, pending, c);
    if pending == [] {
      SameIsHonest(m, b, b.(pending := []));
    } else if r.Success? {
      var init, last := pending[..|pending| - 1], pending[|pending| - 1];
      assert last in pending;
      SweepIsHonest(m, start, b, init, c);
      SweepKeepsSound(m, start, b, init, c);
      var swept := Sweep(m, b, init, c).value;
      if !Waits(last, c) && Touched(m, last.order, c) {
        var spec := SpecOf(m, last.order, c);
        var price := EntryPrice(spec, last.order, c).value;
        SettleIsHonest(m, start, swept, last, c, price, spec);
        SameIsHonest(m, Settle(m, swept, last, c, price, spec).value, r.value);
      } else {
        SameIsHonest(m, swept, r.value);
      }
    }
  }

  // ----- brackets

  lemma RungIsHonest(m: Market, start: real, b: Book, p: Position, k: nat, at: int)
    requires Balanced(start, b) && Honest(m, b) && Owns(b, p) && p.partials.Some? && k < |p.partials.value|
    ensures var r := TakePartial(m, b, p, k, at); r.Success? ==> Honest(m, r.value)
  {
    var level := p.partials.value[k];
    var spent := p.(partials := Some(p.partials.value[k := level.(executed := true)]));
    WithPositionIsHonest(m, b, p, spent);
    WithPositionBalances(start, b, p, spent);
    hide Balanced, Honest, Exit, PartialQuantity;
    ExitIsHonest(m, start, WithPosition(b, spent), spent, PartialQuantity(p, level.fraction), level.price, at,
                 PartialTakeProfit, spent.orderId);
  }

  lemma {:induction false} LadderIsHonest(
    m: Market, start: real, b: Book, symbol: string, c: Candle, isLong: bool, n: nat)
    requires Balanced(start, b) && Honest(m, b)
    ensures var r := TakePartials(m, b, symbol, c, isLong, n); r.Success? ==> Honest(m, r.value)
  {
    hide TakePartial, Balanced, Honest;
    if n > 0 {
      LadderIsHonest(m, start, b, symbol, c, isLong, n - 1);
      TakePartialsBalances(m, start, b, symbol, c, isLong, n - 1);
      var taken := TakePartials(m, b, symbol, c, isLong, n - 1);
      if taken.Success? && symbol in taken.value.positions {
        HeldIsOwned(start, taken.value, symbol);
        var p := taken.value.positions[symbol];
        if TakesLevel(p, n - 1, c, isLong) {
          RungIsHonest(m, start, taken.value, p, n - 1, c.ts);
        }
      }
    }
  }

  lemma BracketIsHonest(m: Market, start: real, b: Book, c: Candle)
    requires Balanced(start, b) && Honest(m, b)
    ensures var r := BracketExit(m, b, c); r.Success? ==> Honest(m, r.value)
  {
    hide Balanced, Honest, StopExit, TargetOrTrail, TakePartials, LockOneR, BreakEven, Trail;
    if c.symbol in b.positions {
      HeldIsOwned(start, b, c.symbol);
      var p := b.positions[c.symbol];
      if StopTouched(p, c) {
        StopIsHonest(m, start, b, p, c);
      } else if p.entryAt != c.ts {
        var moved := LockOneR(BreakEven(p, c), c);
        MovedTerms(p, c);
        WithPositionIsHonest(m, b, p, moved);
        WithPositionBalances(start, b, p, moved);
        LadderIsHonest(m, start, WithPosition(b, moved), p.symbol, c, p.IsLong(), Levels(moved));
        TakePartialsBalances(m, start, WithPosition(b, moved), p.symbol, c, p.IsLong(), Levels(moved));
        var taken := TakePartials(m, WithPosition(b, moved), p.symbol, c, p.IsLong(), Levels(moved));
        if taken.Success? && p.symbol in taken.value.positions {
          HeldIsOwned(start, taken.value, p.symbol);
          TargetIsHonest(m, start, taken.value, taken.value.positions[p.symbol], c);
        }
      }
    }
  }

  lemma MovedTerms(p: Position, c: Candle)
    ensures var moved := LockOneR(BreakEven(p, c), c); SameTerms(p, moved) && SameHolding(p, moved)
    ensures SameTerms(p, Trail(p, c))
  {
    hide LocksAt, AtR, Activates, TrailedStop;
  }

  lemma StopIsHonest(m: Market, start: real, b: Book, p: Position, c: Candle)
    requires Balanced(start, b) && Honest(m, b) && Owns(b, p) && p.stop.Some?
    ensures var r := StopExit(m, b, p, c); r.Success? ==> Honest(m, r.value)
  {
    var r := StopExit(m, b, p, c);
    if r.Success? {
      var side := if p.IsLong() then Sell else Buy;
      var reference := if p.futuresSpec.Some?
                       then StopExitReference(side, p.stop.value, c.open, p.futuresSpec.value.tickSize)
                       else p.stop.value;
      CloseIsHonest(m, start, b, p, Slipped(p.futuresSpec, reference, side).value, c.ts, StopHit, p.orderId);
    }
    hide Balanced, Honest, Close, Slipped, StopExitReference;
  }

  lemma TargetIsHonest(m: Market, start: real, b: Book, p: Position, c: Candle)
    requires Balanced(start, b) && Honest(m, b) && Owns(b, p)
    ensures var r := TargetOrTrail(m, b, p, c); r.Success? ==> Honest(m, r.value)
  {
    if p.takeProfit.Some? {
      CloseIsHonest(m, start, b, p, p.takeProfit.value, c.ts, TakeProfit, p.orderId);
    }
    MovedTerms(p, c);
    WithPositionIsHonest(m, b, p, Trail(p, c));
    hide Balanced, Honest, Close, Trail;
  }

  // ----- whole runs

  lemma StepIsHonest(m: Market, start: real, b: Book, c: Candle, d: Decision)
    requires Sound(start, b) && Honest(m, b)
    ensures var r := Step(m, b, c, d); r.Success? ==> Honest(m, r.value)
  {
    hide Transition, Sweep, BracketExit, Propose, Balanced, Honest;
    var r := Step(m, b, c, d);
    if r.Success? {
      var rolled := Transition(m, b, c).value;
      RollIsHonest(m, start, b, c);
      TransitionKeepsSound(m, start, b, c);
      SweepIsHonest(m, start, rolled, rolled.pending, c);
      SweepKeepsSound(m, start, rolled, rolled.pending, c);
      var swept := Sweep(m, rolled, rolled.pending, c).value;
      BracketIsHonest(m, start, swept, c);
      ProposingIsHonest(m, BracketExit(m, swept, c).value, c, d);
    }
  }

  lemma ProposingIsHonest(m: Market, b: Book, c: Candle, d: Decision)
    requires Honest(m, b)
    ensures var r := Propose(m, b, c, d); r.Success? ==> Honest(m, r.value)
  {
    hide Honest;
    var r := Propose(m, b, c, d);
    if r.Success? {
      SameIsHonest(m, b, r.value);
    }
  }

  // In every reachable book every fill earned its signed move at the rate of its exit and paid for both of its sides.
  lemma {:induction false} RunsEarnAsStated(m: Market, equity: real, events: seq<Candle>, decisions: seq<Decision>)
    requires |decisions| == |events|
    ensures var r := Steps(m, equity, events, decisions); r.Success? ==> Honest(m, r.value)
  {
    if events != [] {
      var n := |events| - 1;
      RunsEarnAsStated(m, equity, events[..n], decisions[..n]);
      RunsConserve(m, equity, events[..n], decisions[..n]);
      var b := Steps(m, equity, events[..n], decisions[..n]);
      hide Step, Honest, Balanced;
      if b.Success? {
        StepIsHonest(m, equity, b.value, events[n], decisions[n]);
      }
    }
  }

  lemma {:induction false} CloseOutIsHonest(m: Market, start: real, b: Book, order: seq<string>)
    requires Balanced(start, b) && Honest(m, b)
    ensures var r := CloseAll(m, b, order); r.Success? ==> Honest(m, r.value)
  {
    hide EndExit, Balanced, Honest;
    if order != [] {
      var init, symbol := order[..|order| - 1], order[|order| - 1];
      CloseOutIsHonest(m, start, b, init);
      CloseAllBalances(m, start, b, init);
      var closed := CloseAll(m, b, init);
      if closed.Success? && symbol in closed.value.positions {
        HeldIsOwned(start, closed.value, symbol);
        EndIsHonest(m, start, closed.value, closed.value.positions[symbol]);
      }
    }
  }

  lemma EndIsHonest(m: Market, start: real, b: Book, p: Position)
    requires Balanced(start, b) && Honest(m, b) && Owns(b, p)
    ensures var r := EndExit(m, b, p); r.Success? ==> Honest(m, r.value)
  {
    var r := EndExit(m, b, p);
    if r.Success? {
      var price := Slipped(p.futuresSpec, EndPrice(b, p), if p.IsLong() then Sell else Buy).value;
      var expiry := if p.conid.Some? then m.lastTradeAt(p.conid.value) else None;
      var reason := if expiry.Some? && m.datasetEnd.Some? && m.datasetEnd.value >= expiry.value
                    then Expiry else DatasetEnd;
      CloseIsHonest(m, start, b, p, price, EndTime(b, p), reason, p.orderId);
    }
    hide Balanced, Honest, Close, Slipped;
  }

  // ----- what a position pays in all

  function Paid(fills: seq<Fill>, id: nat): real {
    if fills == [] then 0.0
    else Paid(fills[..|fills| - 1], id)
         + if fills[|fills| - 1].positionId == id then fills[|fills| - 1].commission else 0.0
  }

  ghost predicate AllUnder(spec: FuturesSpec, fills: seq<Fill>, id: nat) {
    forall i :: 0 <= i < |fills| && fills[i].positionId == id ==>
      && fills[i].futuresSpec == Some(spec)
      && fills[i].commission == 2.0 * (fills[i].quantity * spec.commissionPerContractPerSide)
  }

  lemma {:induction false} PaidIsTwice(spec: FuturesSpec, fills: seq<Fill>, id: nat)
    requires AllUnder(spec, fills, id)
    ensures Paid(fills, id) == 2.0 * (TakenOff(fills, id) * spec.commissionPerContractPerSide)
  {
    if fills != [] {
      var init, f := fills[..|fills| - 1], fills[|fills| - 1];
      assert forall i :: 0 <= i < |init| ==> init[i] == fills[i];
      PaidIsTwice(spec, init, id);
      AddsUp(TakenOff(init, id), f.quantity, spec.commissionPerContractPerSide);
    }
  }

  lemma AddsUp(a: real, b: real, charge: real)
    ensures 2.0 * ((a + b) * charge) == 2.0 * (a * charge) + 2.0 * (b * charge)
  {
  }

  // All fills of the position are of one futures contract.
  ghost predicate FillsAreOf(fills: seq<Fill>, id: nat, spec: FuturesSpec) {
    forall i :: 0 <= i < |fills| && fills[i].positionId == id ==> fills[i].futuresSpec == Some(spec)
  }

  lemma ClosedPaysBothSides(m: Market, start: real, b: Book, id: nat, spec: FuturesSpec)
    requires Balanced(start, b) && Honest(m, b) && !IsOpen(b, id)
    requires FillsAreOf(b.fills, id, spec)
    ensures Paid(b.fills, id) == spec.commissionPerContractPerSide * (PutOn(b.entries, id) + TakenOff(b.fills, id))
  {
    assert PutOn(b.entries, id) == TakenOff(b.fills, id);
    HonestIsUnder(m, b, id, spec);
    hide Balanced, Honest, AllUnder, FillsAreOf, IsOpen, Paid, PutOn, TakenOff;
    PaidIsTwice(spec, b.fills, id);
    BothSides(TakenOff(b.fills, id), spec.commissionPerContractPerSide);
  }

  lemma HonestIsUnder(m: Market, b: Book, id: nat, spec: FuturesSpec)
    requires Honest(m, b)
    requires FillsAreOf(b.fills, id, spec)
    ensures AllUnder(spec, b.fills, id)
  {
    hide EarnsInStock, EntryCount, Times, Move, Termed;
    forall i | 0 <= i < |b.fills| && b.fills[i].positionId == id
      ensures b.fills[i].commission == 2.0 * (b.fills[i].quantity * spec.commissionPerContractPerSide)
    {
      assert Earned(m, b.entries, b.fills[i]);
    }
  }

  // After a whole backtest, every futures position has paid the charge of one side for every contract put on and every
  // contract taken off; and every fill earned as stated.
  lemma FinishedPositionsPayBothSides(
    m: Market, equity: real, events: seq<Candle>, decisions: seq<Decision>, order: seq<string>, b: Book, closed: Book,
    id: nat, spec: FuturesSpec)
    requires |decisions| == |events| && Steps(m, equity, events, decisions) == Success(b)
    requires CloseAll(m, b, order) == Success(closed) && !IsOpen(closed, id) && FillsAreOf(closed.fills, id, spec)
    ensures Honest(m, closed)
    ensures Paid(closed.fills, id)
         == spec.commissionPerContractPerSide * (PutOn(closed.entries, id) + TakenOff(closed.fills, id))
  {
    hide Balanced, Honest, IsOpen, FillsAreOf, Paid, PutOn, TakenOff, PositiveOrders;
    RunsEarnAsStated(m, equity, events, decisions);
    RunsConserve(m, equity, events, decisions);
    hide Steps, CloseAll;
    CloseOutIsHonest(m, equity, b, order);
    CloseAllBalances(m, equity, b, order);
    ClosedPaysBothSides(m, equity, closed, id, spec);
  }

  lemma BothSides(taken: real, charge: real)
    ensures 2.0 * (taken * charge) == charge * (taken + taken)
  {
  }
}
