/**
 * The tick grid: on a validated dataset every futures price the simulator stores or fills at is a whole number of
 * ticks, so nothing in the processing of a candle can raise. The one way to fail is an opening fill in a currency
 * without a rate, which validation rules out for futures.
 */
module BacktestGrid {
  import opened Outcomes
  import opened Aggregation
  import opened BarExecution
  import opened BacktestModel
  import opened BacktestOrders

  // On the grid of a futures contract; any price will do for a stock.
  predicate Gridded(spec: Option<FuturesSpec>, price: real) {
    spec.Some? ==> OnGrid(price, spec.value.tickSize)
  }

  predicate MaybeGridded(spec: Option<FuturesSpec>, price: Option<real>) {
    price.Some? ==> Gridded(spec, price.value)
  }

  predicate LevelsGridded(spec: Option<FuturesSpec>, partials: Option<seq<Partial>>) {
    partials.Some? ==> forall i :: 0 <= i < |partials.value| ==> Gridded(spec, partials.value[i].price)
  }

  predicate PositionGridded(p: Position) {
    && Gridded(p.futuresSpec, p.averageCost) && MaybeGridded(p.futuresSpec, p.stop)
    && MaybeGridded(p.futuresSpec, p.initialStop) && MaybeGridded(p.futuresSpec, p.takeProfit)
    && LevelsGridded(p.futuresSpec, p.partials)
  }

  predicate CandleGridded(spec: Option<FuturesSpec>, c: Candle) {
    Gridded(spec, c.open) && Gridded(spec, c.high) && Gridded(spec, c.low) && Gridded(spec, c.close)
  }

  // What `validateFuturesDataset` establishes of a candle that the simulator goes on to rely on.
  predicate Validated(m: Market, c: Candle) {
    m.futures(c.symbol) ==>
      m.specFor(c.conid).Some? && CandleGridded(m.specFor(c.conid), c) && m.fx(c.symbol, c.ts).Some?
  }

  // A rate once known stays known: the lookup takes the latest one not after the date.
  ghost predicate FxPersists(m: Market) {
    forall s, t, u {:trigger m.fx(s, t), m.fx(s, u)} :: t <= u && m.fx(s, t).Some? ==> m.fx(s, u).Some?
  }

  predicate HeldWell(m: Market, b: Book, s: string, p: Position) {
    && p.symbol == s && s in b.last && p.entryAt <= b.last[s].ts && m.fx(s, p.entryAt).Some?
    && p.futuresSpec == (if m.futures(s) then m.specFor(b.last[s].conid) else None)
    && PositionGridded(p)
  }

  ghost predicate LastWell(m: Market, b: Book) {
    forall s :: s in b.last ==> b.last[s].symbol == s && Validated(m, b.last[s])
  }

  ghost predicate AllHeldWell(m: Market, b: Book) {
    forall s :: s in b.positions ==> HeldWell(m, b, s, b.positions[s])
  }

  ghost predicate FillsGridded(fills: seq<Fill>) {
    forall f :: f in fills ==> Gridded(f.futuresSpec, f.entryPrice) && Gridded(f.futuresSpec, f.exitPrice)
  }

  ghost predicate BookWell(m: Market, b: Book) {
    LastWell(m, b) && AllHeldWell(m, b) && FillsGridded(b.fills)
  }

  // A pending futures order is for the current contract, in whole contracts, and does not add to what is held.
  predicate PendingWell(m: Market, b: Book, o: Order) {
    && o.instrument in b.last
    && (m.futures(o.instrument) ==>
         && o.conid == Some(b.last[o.instrument].conid) && WholeContracts(o.quantity)
         && (o.instrument in b.positions ==>
              Sign(b.positions[o.instrument].quantity) != (if o.side.Sell? then -1 else 1)))
  }

  ghost predicate Waiting(m: Market, b: Book, pending: seq<PendingOrder>) {
    Apart(pending) && forall p :: p in pending ==> PendingWell(m, b, p.order)
  }

  // Positions only left or reduced, on the same candles.
  ghost predicate Shrinks(b: Book, after: Book) {
    && after.last == b.last
    && forall s :: s in after.positions ==>
         s in b.positions && Sign(after.positions[s].quantity) == Sign(b.positions[s].quantity)
  }

  lemma ShrinkingKeepsWaiting(m: Market, b: Book, after: Book, pending: seq<PendingOrder>)
    requires Waiting(m, b, pending) && Shrinks(b, after)
    ensures Waiting(m, after, pending)
  {
    forall p | p in pending
      ensures PendingWell(m, after, p.order)
    {
      assert PendingWell(m, b, p.order);
    }
  }

  // ----- prices

  lemma SnappedIsGridded(spec: Option<FuturesSpec>, price: real, side: Side, instruction: Instruction)
    ensures Gridded(spec, Snapped(spec, price, side, instruction))
  {
    if spec.Some? {
      NormalizationIsConservative(price, spec.value.tickSize, side, instruction);
    }
  }

  lemma SlippedIsGridded(spec: Option<FuturesSpec>, reference: real, side: Side)
    requires Gridded(spec, reference)
    ensures var r := Slipped(spec, reference, side); r.Success? && Gridded(spec, r.value)
  {
    if spec.Some? {
      SlippageIsAdverse(reference, side, spec.value);
    }
  }

  lemma EntryIsGridded(spec: Option<FuturesSpec>, o: Order, c: Candle)
    requires CandleGridded(spec, c)
    ensures var r := EntryPrice(spec, o, c); r.Success? && Gridded(spec, r.value)
  {
    SnappedIsGridded(spec, OrElse(o.entry, c.open), o.side, InstructionOf(o.orderType));
    hide Gridded, Snapped, Slipped;
    if spec.None? {
      StocksAreGridded(EntryReference(spec, o, c));
    }
    SlippedIsGridded(spec, EntryReference(spec, o, c), o.side);
  }

  lemma StocksAreGridded(price: real)
    ensures Gridded(None, price)
  {
  }

  lemma ReflectedIsGridded(spec: Option<FuturesSpec>, a: real, b: real)
    requires Gridded(spec, a) && Gridded(spec, b)
    ensures Gridded(spec, a + (a - b))
  {
    if spec.Some? {
      GridSum(a, b, -1, spec.value.tickSize);
      assert a + (-1) as real * b == a - b;
      GridSum(a, a - b, 1, spec.value.tickSize);
      assert a + 1 as real * (a - b) == a + (a - b);
    }
  }

  lemma OneRIsGridded(p: Position)
    requires p.initialStop.Some? && PositionGridded(p)
    ensures Gridded(p.futuresSpec, AtR(p, Risk(p), 1.0))
  {
    ReflectedIsGridded(p.futuresSpec, p.averageCost, p.initialStop.value);
    assert AtR(p, Risk(p), 1.0) == p.averageCost + (p.averageCost - p.initialStop.value);
  }

  // ----- leaving a position

  lemma RecordedShrinks(b: Book, p: Position, f: Fill)
    requires p.symbol in b.positions && b.positions[p.symbol] == p && 0.0 < f.quantity <= Abs(p.quantity)
    ensures Shrinks(b, Recorded(b, p, f)) && SameOrders(b, Recorded(b, p, f))
  {
  }

  lemma RecordedIsWell(m: Market, b: Book, p: Position, f: Fill)
    requires BookWell(m, b) && p.symbol in b.positions && b.positions[p.symbol] == p
    requires Gridded(f.futuresSpec, f.entryPrice) && Gridded(f.futuresSpec, f.exitPrice)
    ensures BookWell(m, Recorded(b, p, f))
  {
    hide Gridded, LevelsGridded, Validated;
    var after := Recorded(b, p, f);
    forall s | s in after.positions
      ensures HeldWell(m, after, s, after.positions[s])
    {
      assert HeldWell(m, b, s, b.positions[s]);
    }
  }

  lemma ExitIsWell(
    m: Market, b: Book, p: Position, quantity: real, price: real, at: int, reason: ExitReason, orderId: nat)
    requires FxPersists(m) && BookWell(m, b) && p.symbol in b.positions && b.positions[p.symbol] == p
    requires p.entryAt <= at && Gridded(p.futuresSpec, price) && 0.0 < quantity <= Abs(p.quantity)
    ensures var r := Exit(m, b, p, quantity, price, at, reason, orderId);
      r.Success? && BookWell(m, r.value) && Shrinks(b, r.value) && SameOrders(b, r.value)
  {
    hide ExitPnl, Gridded, LevelsGridded, Recorded, Shrinks, SameOrders;
    assert HeldWell(m, b, p.symbol, p);
    assert m.fx(p.symbol, p.entryAt).Some? && m.fx(p.symbol, at).Some?;
    var pnl := ExitPnl(m, p, quantity, price, m.fx(p.symbol, at).value);
    var f := FillOf(p, quantity, price, at, orderId, reason, pnl);
    RecordedShrinks(b, p, f);
    RecordedIsWell(m, b, p, f);
  }

  lemma CloseIsWell(m: Market, b: Book, p: Position, price: real, at: int, reason: ExitReason, orderId: nat)
    requires FxPersists(m) && BookWell(m, b) && p.symbol in b.positions && b.positions[p.symbol] == p
    requires p.entryAt <= at && Gridded(p.futuresSpec, price) && p.quantity != 0.0
    ensures var r := Close(m, b, p, price, at, reason, orderId);
      && r.Success? && BookWell(m, r.value) && Shrinks(b, r.value) && SameOrders(b, r.value)
      && r.value.positions == b.positions - {p.symbol}
  {
    ExitIsWell(m, b, p, Abs(p.quantity), price, at, reason, orderId);
    hide ExitPnl;
  }

  ghost predicate AllSized(b: Book) {
    forall s :: s in b.positions ==> b.positions[s].quantity != 0.0
  }

  // ----- contract transition

  lemma RollExitIsWell(m: Market, b: Book, p: Position, previous: Candle, c: Candle)
    requires FxPersists(m) && BookWell(m, b) && p.symbol in b.positions && b.positions[p.symbol] == p
    requires p.quantity != 0.0 && p.symbol in b.last && previous == b.last[p.symbol]
    ensures var r := RollExit(m, b, p, previous, c);
      && r.Success? && BookWell(m, r.value) && Shrinks(b, r.value) && SameOrders(b, r.value)
      && r.value.positions == b.positions - {p.symbol}
  {
    assert HeldWell(m, b, p.symbol, p) && Validated(m, previous);
    var side := if p.IsLong() then Sell else Buy;
    SlippedIsGridded(p.futuresSpec, previous.close, side);
    var price := Slipped(p.futuresSpec, previous.close, side).value;
    var expiry := m.lastTradeAt(previous.conid);
    var reason := if expiry.Some? && c.ts >= expiry.value then Expiry else ContractRoll;
    CloseIsWell(m, b, p, price, previous.ts, reason, p.orderId);
    hide Close, Slipped;
  }

  // Time does not go back within a symbol.
  predicate Follows(b: Book, c: Candle) {
    c.symbol in b.last ==> b.last[c.symbol].ts <= c.ts
  }

  // The latest candle moves on: nothing is left on the outgoing contract.
  lemma AdvanceIsWell(m: Market, b: Book, c: Candle)
    requires BookWell(m, b) && Validated(m, c) && Follows(b, c)
    requires Rolls(m, b, c) ==> c.symbol !in b.positions
    ensures BookWell(m, b.(last := b.last[c.symbol := c]))
  {
    hide PositionGridded, Gridded;
    var after := b.(last := b.last[c.symbol := c]);
    forall s | s in after.positions
      ensures HeldWell(m, after, s, after.positions[s])
    {
      assert HeldWell(m, b, s, b.positions[s]);
    }
  }

  lemma AdvanceKeepsWaiting(m: Market, b: Book, c: Candle, pending: seq<PendingOrder>)
    requires Waiting(m, b, pending)
    requires Rolls(m, b, c) ==> forall p :: p in pending ==> p.order.instrument != c.symbol
    ensures Waiting(m, b.(last := b.last[c.symbol := c]), pending)
  {
    var after := b.(last := b.last[c.symbol := c]);
    forall p | p in pending
      ensures PendingWell(m, after, p.order)
    {
      assert PendingWell(m, b, p.order);
    }
  }

  ghost predicate Ready(m: Market, b: Book, c: Candle) {
    && BookWell(m, b) && Waiting(m, b, b.pending) && AllSized(b) && c.symbol in b.last && b.last[c.symbol] == c
  }

  lemma TransitionIsWell(m: Market, b: Book, c: Candle)
    requires FxPersists(m) && BookWell(m, b) && Waiting(m, b, b.pending) && AllSized(b)
    requires Validated(m, c) && Follows(b, c)
    ensures var r := Transition(m, b, c); r.Success? && Ready(m, r.value, c)
  {
    if !Rolls(m, b, c) {
      AdvanceIsWell(m, b, c);
      AdvanceKeepsWaiting(m, b, c, b.pending);
    } else {
      var closed := b;
      if c.symbol in b.positions {
        assert HeldWell(m, b, c.symbol, b.positions[c.symbol]);
        RollExitIsWell(m, b, b.positions[c.symbol], b.last[c.symbol], c);
        closed := RollExit(m, b, b.positions[c.symbol], b.last[c.symbol], c).value;
      }
      hide RollExit, BookWell, PendingWell;
      ShrinkingKeepsWaiting(m, b, closed, b.pending);
      var kept := WithoutSymbol(closed.pending, c.symbol);
      WithoutSymbolIsApart(closed.pending, c.symbol);
      AdvanceIsWell(m, closed, c);
      AdvanceKeepsWaiting(m, closed, c, kept);
      var after := Transition(m, b, c).value;
      SameBooks(m, closed.(last := closed.last[c.symbol := c]), after, kept);
    }
  }

  lemma SameBooks(m: Market, a: Book, b: Book, pending: seq<PendingOrder>)
    requires a.positions == b.positions && a.last == b.last && a.fills == b.fills
    ensures BookWell(m, a) ==> BookWell(m, b)
    ensures Waiting(m, a, pending) ==> Waiting(m, b, pending)
  {
    forall s | s in b.positions
      ensures HeldWell(m, a, s, b.positions[s]) ==> HeldWell(m, b, s, b.positions[s])
    {
    }
  }

  // ----- filling an order

  lemma PartialsAreGridded(o: Order, spec: Option<FuturesSpec>)
    ensures LevelsGridded(spec, PendingPartials(o, spec))
  {
    if o.partials != [] {
      var sorted := SortLevels(o.partials, o.side.Buy?);
      forall i | 0 <= i < |sorted|
        ensures Gridded(spec, Snapped(spec, sorted[i].price, o.side.Opposite(), Limit))
      {
        SnappedIsGridded(spec, sorted[i].price, o.side.Opposite(), Limit);
      }
    }
  }

  lemma OpenedIsGridded(
    m: Market, existing: Option<Position>, newId: nat, pending: PendingOrder, c: Candle, price: real, rate: real,
    spec: Option<FuturesSpec>)
    requires Gridded(spec, price) && (existing.Some? ==> spec.None?)
    ensures PositionGridded(Opened(m, existing, newId, pending, c, price, rate, spec))
  {
    var o := pending.order;
    if existing.None? {
      if o.stop.Some? {
        SnappedIsGridded(spec, o.stop.value, o.side.Opposite(), Stop);
      }
      if o.takeProfit.Some? {
        SnappedIsGridded(spec, o.takeProfit.value, o.side.Opposite(), Limit);
      }
      PartialsAreGridded(o, spec);
      hide Gridded, Snapped, PendingPartials, Weighted;
    }
  }

  lemma OpenedIsWell(
    m: Market, b: Book, existing: Option<Position>, pending: PendingOrder, c: Candle, price: real, rate: real,
    spec: Option<FuturesSpec>)
    requires BookWell(m, b) && pending.order.instrument == c.symbol && existing == Held(b, c.symbol)
    requires c.symbol in b.last && b.last[c.symbol] == c && m.fx(c.symbol, c.ts) == Some(rate)
    requires spec == (if m.futures(c.symbol) then m.specFor(c.conid) else None)
    requires Gridded(spec, price) && (existing.Some? ==> spec.None?)
    ensures var position := Opened(m, existing, b.nextPositionId, pending, c, price, rate, spec);
      BookWell(m, WithOpened(b, existing, position, Abs(pending.order.quantity)))
  {
    OpenedIsGridded(m, existing, b.nextPositionId, pending, c, price, rate, spec);
    if existing.Some? {
      assert HeldWell(m, b, c.symbol, existing.value);
    }
    hide Gridded, PositionGridded, PendingPartials, Weighted, Snapped;
    var position := Opened(m, existing, b.nextPositionId, pending, c, price, rate, spec);
    var after := WithOpened(b, existing, position, Abs(pending.order.quantity));
    forall s | s in after.positions
      ensures HeldWell(m, after, s, after.positions[s])
    {
      if s != c.symbol {
        assert HeldWell(m, b, s, b.positions[s]);
      }
    }
  }

  ghost predicate OnlyFxCanFail(m: Market, c: Candle, r: Result<Book, SimError>) {
    r.Failure? ==> r.error == MissingFx(c.symbol) && !m.futures(c.symbol) && m.fx(c.symbol, c.ts).None?
  }

  // Nothing outside `symbol` is touched.
  ghost predicate SameElsewhere(b: Book, after: Book, symbol: string) {
    && after.last == b.last && SameOrders(b, after)
    && forall s :: s != symbol ==>
         (s in after.positions <==> s in b.positions) && (s in b.positions ==> after.positions[s] == b.positions[s])
  }

  lemma OpeningSettlesWell(
    m: Market, b: Book, pending: PendingOrder, c: Candle, price: real, spec: Option<FuturesSpec>)
    requires BookWell(m, b) && AllSized(b) && pending.order.quantity > 0.0 && pending.order.instrument == c.symbol
    requires c.symbol in b.last && b.last[c.symbol] == c && PendingWell(m, b, pending.order)
    requires spec == (if m.futures(c.symbol) then m.specFor(c.conid) else None)
    requires Gridded(spec, price) && Validated(m, c) && Adds(Held(b, c.symbol), pending.order)
    ensures var r := OpenOrAddTo(m, b, Held(b, c.symbol), pending, c, price, spec);
      && OnlyFxCanFail(m, c, r)
      && (r.Success? ==> BookWell(m, r.value) && AllSized(r.value) && SameElsewhere(b, r.value, c.symbol))
  {
    var existing := Held(b, c.symbol);
    assert existing.Some? ==> spec.None?;
    var rate := m.fx(c.symbol, c.ts);
    if rate.Some? {
      OpenedIsWell(m, b, existing, pending, c, price, rate.value, spec);
    }
    hide BookWell, Gridded, PendingPartials, Weighted, Snapped;
  }

  lemma SettleIsWell(m: Market, b: Book, pending: PendingOrder, c: Candle, price: real, spec: Option<FuturesSpec>)
    requires FxPersists(m) && BookWell(m, b) && AllSized(b) && pending.order.quantity > 0.0
    requires pending.order.instrument == c.symbol && PendingWell(m, b, pending.order)
    requires c.symbol in b.last && b.last[c.symbol] == c && Validated(m, c)
    requires spec == (if m.futures(c.symbol) then m.specFor(c.conid) else None) && Gridded(spec, price)
    ensures var r := Settle(m, b, pending, c, price, spec);
      && OnlyFxCanFail(m, c, r)
      && (r.Success? ==> BookWell(m, r.value) && AllSized(r.value) && SameElsewhere(b, r.value, c.symbol))
  {
    var existing := Held(b, c.symbol);
    if existing.Some? {
      assert HeldWell(m, b, c.symbol, existing.value);
      CloseIsWell(m, b, existing.value, price, c.ts, ManagedExit, pending.id);
      CloseIsWell(m, b, existing.value, price, c.ts, OppositeSignal, pending.id);
    }
    if Adds(existing, pending.order) {
      OpeningSettlesWell(m, b, pending, c, price, spec);
    }
    hide Close, OpenOrAddTo, BookWell;
  }

  lemma FillIsWell(m: Market, b: Book, p: PendingOrder, c: Candle)
    requires FxPersists(m) && BookWell(m, b) && AllSized(b) && p.order.quantity > 0.0
    requires p.order.instrument == c.symbol && PendingWell(m, b, p.order)
    requires c.symbol in b.last && b.last[c.symbol] == c
    ensures var r := FillOrder(m, b, p, c);
      && OnlyFxCanFail(m, c, r)
      && (r.Success? ==>
           && BookWell(m, r.value) && AllSized(r.value) && r.value.last == b.last && r.value.pending == b.pending
           && forall s :: s != c.symbol ==>
                (s in r.value.positions <==> s in b.positions)
                && (s in b.positions ==> r.value.positions[s] == b.positions[s]))
  {
    assert Validated(m, c);
    var spec := SpecOf(m, p.order, c);
    assert spec == if m.futures(c.symbol) then m.specFor(c.conid) else None;
    assert CandleGridded(spec, c);
    EntryIsGridded(spec, p.order, c);
    var price := EntryPrice(spec, p.order, c).value;
    SettleIsWell(m, b, p, c, price, spec);
    var settled := Settle(m, b, p, c, price, spec);
    hide Settle, EntryPrice, BookWell, Gridded;
    if settled.Success? {
      SameBooks(m, settled.value, Executed(settled.value, p.id), []);
    }
  }

  lemma WaitingElsewhere(m: Market, b: Book, after: Book, symbol: string, pending: seq<PendingOrder>)
    requires Waiting(m, b, pending) && after.last == b.last
    requires forall p :: p in pending ==> p.order.instrument != symbol
    requires forall s :: s != symbol ==>
               (s in after.positions <==> s in b.positions)
               && (s in b.positions ==> after.positions[s] == b.positions[s])
    ensures Waiting(m, after, pending)
  {
    forall p | p in pending
      ensures PendingWell(m, after, p.order)
    {
      assert PendingWell(m, b, p.order);
    }
  }

  ghost predicate Positive(pending: seq<PendingOrder>) {
    forall p :: p in pending ==> p.order.quantity > 0.0
  }

  lemma SweepOneIsWell(m: Market, b: Book, p: PendingOrder, rest: seq<PendingOrder>, c: Candle)
    requires FxPersists(m) && BookWell(m, b) && AllSized(b) && Positive(b.pending + [p] + rest)
    requires Waiting(m, b, b.pending + [p] + rest) && c.symbol in b.last && b.last[c.symbol] == c
    ensures var r := SweepOne(m, b, p, c);
      && OnlyFxCanFail(m, c, r)
      && (r.Success? ==>
           && BookWell(m, r.value) && AllSized(r.value) && Waiting(m, r.value, r.value.pending + rest)
           && Positive(r.value.pending + rest) && r.value.last == b.last)
  {
    var all := b.pending + [p] + rest;
    assert all[|b.pending|] == p;
    assert PendingWell(m, b, p.order);
    WithoutOne(m, b, b.pending, p, rest);
    var r := SweepOne(m, b, p, c);
    if Waits(p, c) {
      SameBooks(m, b, r.value, all);
    } else if Touched(m, p.order, c) {
      FillIsWell(m, b, p, c);
      hide FillOrder, BookWell, PendingWell;
      if r.Success? {
        WaitingElsewhere(m, b, r.value, c.symbol, b.pending + rest);
      }
    } else if p.remaining - 1 <= 0 {
      SameBooks(m, b, r.value, b.pending + rest);
    } else {
      var aged := p.(remaining := p.remaining - 1);
      WithAnother(m, b, b.pending, p, aged, rest);
      SameBooks(m, b, r.value, b.pending + [aged] + rest);
    }
  }

  lemma WithoutOne(m: Market, b: Book, kept: seq<PendingOrder>, p: PendingOrder, rest: seq<PendingOrder>)
    requires Waiting(m, b, kept + [p] + rest) && Positive(kept + [p] + rest)
    ensures Waiting(m, b, kept + rest) && Positive(kept + rest) && p.order.quantity > 0.0
    ensures forall q :: q in kept + rest ==> q.order.instrument != p.order.instrument
  {
    hide PendingWell;
    var all, fewer := kept + [p] + rest, kept + rest;
    assert all[|kept|] == p;
    forall i | 0 <= i < |fewer|
      ensures fewer[i] == all[if i < |kept| then i else i + 1]
    {
    }
    forall q | q in fewer
      ensures q in all && q.order.instrument != p.order.instrument
    {
      var i :| 0 <= i < |fewer| && fewer[i] == q;
      var j := if i < |kept| then i else i + 1;
      assert all[j] == q && j != |kept|;
    }
  }

  lemma WithAnother(
    m: Market, b: Book, kept: seq<PendingOrder>, p: PendingOrder, q: PendingOrder, rest: seq<PendingOrder>)
    requires Waiting(m, b, kept + [p] + rest) && Positive(kept + [p] + rest) && p.id == q.id && p.order == q.order
    ensures Waiting(m, b, kept + [q] + rest) && Positive(kept + [q] + rest)
  {
    hide PendingWell;
    var all, renewed := kept + [p] + rest, kept + [q] + rest;
    assert all[|kept|] == p && renewed[|kept|] == q;
    forall i | 0 <= i < |all|
      ensures all[i].id == renewed[i].id && all[i].order == renewed[i].order && all[i] in all
    {
    }
    forall r | r in renewed
      ensures PendingWell(m, b, r.order) && r.order.quantity > 0.0
    {
      var i :| 0 <= i < |renewed| && renewed[i] == r;
      assert all[i].order == r.order && all[i] in all;
    }
  }

  lemma {:induction false} SweepIsWell(
    m: Market, b: Book, done: seq<PendingOrder>, rest: seq<PendingOrder>, c: Candle)
    requires FxPersists(m) && BookWell(m, b) && AllSized(b) && Positive(done + rest)
    requires Waiting(m, b, done + rest) && c.symbol in b.last && b.last[c.symbol] == c
    ensures var r := Sweep(m, b, done, c);
      && OnlyFxCanFail(m, c, r)
      && (r.Success? ==>
           && BookWell(m, r.value) && AllSized(r.value) && Waiting(m, r.value, r.value.pending + rest)
           && Positive(r.value.pending + rest) && r.value.last == b.last)
  {
    hide BookWell, PendingWell, SweepOne;
    if done == [] {
      assert [] + rest == done + rest == rest;
      SameBooks(m, b, b.(pending := []), rest);
    } else {
      var init, last := done[..|done| - 1], done[|done| - 1];
      assert init + ([last] + rest) == done + rest;
      SweepIsWell(m, b, init, [last] + rest, c);
      var swept := Sweep(m, b, init, c);
      if swept.Success? {
        assert swept.value.pending + ([last] + rest) == swept.value.pending + [last] + rest;
        SweepOneIsWell(m, swept.value, last, rest, c);
      }
    }
  }

  // ----- brackets

  // What a bracket step leaves: well-kept books, with positions only left or reduced.
  ghost predicate Kept(m: Market, b: Book, r: Result<Book, SimError>) {
    r.Success? && BookWell(m, r.value) && Shrinks(b, r.value) && SameOrders(b, r.value)
  }

  ghost predicate InBook(m: Market, b: Book, p: Position, c: Candle) {
    && FxPersists(m) && BookWell(m, b) && p.symbol in b.positions && b.positions[p.symbol] == p && p.quantity != 0.0
    && p.symbol == c.symbol && c.symbol in b.last && b.last[c.symbol] == c
  }

  lemma InBookFacts(m: Market, b: Book, p: Position, c: Candle)
    requires InBook(m, b, p, c)
    ensures p.entryAt <= c.ts && PositionGridded(p) && CandleGridded(p.futuresSpec, c)
  {
    assert HeldWell(m, b, c.symbol, p) && Validated(m, c);
  }

  lemma StopExitIsWell(m: Market, b: Book, p: Position, c: Candle)
    requires InBook(m, b, p, c) && p.stop.Some?
    ensures Kept(m, b, StopExit(m, b, p, c))
  {
    InBookFacts(m, b, p, c);
    var side := if p.IsLong() then Sell else Buy;
    if p.futuresSpec.Some? {
      StopReferenceIsWorst(side, p.stop.value, c.open, p.futuresSpec.value.tickSize);
    }
    var reference := if p.futuresSpec.Some?
                     then StopExitReference(side, p.stop.value, c.open, p.futuresSpec.value.tickSize)
                     else p.stop.value;
    SlippedIsGridded(p.futuresSpec, reference, side);
    var price := Slipped(p.futuresSpec, reference, side).value;
    hide StopExitReference, Slipped, Close, BookWell;
    CloseIsWell(m, b, p, price, c.ts, StopHit, p.orderId);
  }

  // A changed bracket on the same holding, still on the grid.
  ghost predicate Rebracketed(p: Position, q: Position) {
    && q.symbol == p.symbol && q.quantity == p.quantity && q.futuresSpec == p.futuresSpec && q.entryAt == p.entryAt
    && PositionGridded(q)
  }

  lemma RebracketingIsWell(m: Market, b: Book, p: Position, q: Position, c: Candle)
    requires InBook(m, b, p, c) && Rebracketed(p, q)
    ensures Kept(m, b, Success(WithPosition(b, q))) && InBook(m, WithPosition(b, q), q, c)
  {
    hide PositionGridded, Validated, Gridded;
    var after := WithPosition(b, q);
    forall s | s in after.positions
      ensures HeldWell(m, after, s, after.positions[s])
    {
      assert HeldWell(m, b, s, b.positions[s]);
    }
  }

  lemma LocksAreGridded(p: Position, c: Candle)
    requires PositionGridded(p)
    ensures Rebracketed(p, LockOneR(BreakEven(p, c), c))
  {
    hide Gridded, LevelsGridded;
    var q := BreakEven(p, c);
    if q.initialStop.Some? {
      OneRIsGridded(q);
    }
    hide AtR, LocksAt;
  }

  lemma TrailIsGridded(p: Position, c: Candle)
    requires PositionGridded(p)
    ensures Rebracketed(p, Trail(p, c))
  {
    hide PositionGridded, Watermark, Trailed, Activated, Marked;
    if p.trailingStopPct.Some? {
      var mark := Watermark(p, c);
      var pct := p.trailingStopPct.value;
      MarkIsGridded(p, mark);
      ActivationIsGridded(Marked(p, mark), mark);
      TrailingIsGridded(Activated(Marked(p, mark), mark), mark, pct);
    }
  }

  lemma MarkIsGridded(p: Position, mark: real)
    requires PositionGridded(p)
    ensures Rebracketed(p, Marked(p, mark))
  {
    hide Gridded, LevelsGridded;
  }

  lemma ActivationIsGridded(p: Position, mark: real)
    requires PositionGridded(p)
    ensures Rebracketed(p, Activated(p, mark))
  {
    hide Gridded, LevelsGridded, Activates;
  }

  lemma TrailingIsGridded(p: Position, mark: real, pct: real)
    requires PositionGridded(p)
    ensures Rebracketed(p, Trailed(p, mark, pct))
  {
    SnappedIsGridded(p.futuresSpec, mark * (1.0 - pct / 100.0), Sell, Stop);
    SnappedIsGridded(p.futuresSpec, mark * (1.0 + pct / 100.0), Buy, Stop);
    hide Gridded, LevelsGridded, Snapped;
  }

  lemma TakePartialIsWell(m: Market, b: Book, p: Position, k: nat, c: Candle)
    requires InBook(m, b, p, c) && p.partials.Some? && k < |p.partials.value|
    ensures Kept(m, b, TakePartial(m, b, p, k, c.ts))
  {
    InBookFacts(m, b, p, c);
    var level := p.partials.value[k];
    var spent := p.(partials := Some(p.partials.value[k := level.(executed := true)]));
    assert Gridded(p.futuresSpec, level.price);
    assert Rebracketed(p, spent) by {
      hide Gridded;
    }
    RebracketingIsWell(m, b, p, spent, c);
    var quantity := PartialQuantity(p, level.fraction);
    if quantity > 0.0 {
      ExitIsWell(
        m, WithPosition(b, spent), spent, quantity, level.price, c.ts, PartialTakeProfit, spent.orderId);
    }
    hide Exit, BookWell, Gridded, PositionGridded;
  }

  lemma KeptTwice(m: Market, b: Book, r: Result<Book, SimError>, s: Result<Book, SimError>)
    requires Kept(m, b, r) && Kept(m, r.value, s)
    ensures Kept(m, b, s)
  {
    hide BookWell;
  }

  lemma HeldIsInBook(m: Market, b: Book, symbol: string, c: Candle)
    requires FxPersists(m) && BookWell(m, b) && AllSized(b) && symbol in b.positions && symbol == c.symbol
    requires c.symbol in b.last && b.last[c.symbol] == c
    ensures InBook(m, b, b.positions[symbol], c)
  {
    assert HeldWell(m, b, symbol, b.positions[symbol]);
  }

  lemma ShrunkIsSized(b: Book, after: Book)
    requires AllSized(b) && Shrinks(b, after)
    ensures AllSized(after)
  {
  }

  lemma {:induction false} PartialsAreWell(m: Market, b: Book, c: Candle, isLong: bool, n: nat)
    requires FxPersists(m) && BookWell(m, b) && AllSized(b) && c.symbol in b.last && b.last[c.symbol] == c
    ensures Kept(m, b, TakePartials(m, b, c.symbol, c, isLong, n))
  {
    hide BookWell, TakePartial, InBook;
    if n > 0 {
      PartialsAreWell(m, b, c, isLong, n - 1);
      var taken := TakePartials(m, b, c.symbol, c, isLong, n - 1);
      ShrunkIsSized(b, taken.value);
      if c.symbol in taken.value.positions && TakesLevel(taken.value.positions[c.symbol], n - 1, c, isLong) {
        HeldIsInBook(m, taken.value, c.symbol, c);
        TakePartialIsWell(m, taken.value, taken.value.positions[c.symbol], n - 1, c);
        KeptTwice(m, b, taken, TakePartial(m, taken.value, taken.value.positions[c.symbol], n - 1, c.ts));
      }
    }
  }

  lemma TargetOrTrailIsWell(m: Market, b: Book, p: Position, c: Candle)
    requires InBook(m, b, p, c)
    ensures Kept(m, b, TargetOrTrail(m, b, p, c))
  {
    InBookFacts(m, b, p, c);
    if p.takeProfit.Some? && Reached(c, p.takeProfit.value, p.IsLong()) {
      CloseIsWell(m, b, p, p.takeProfit.value, c.ts, TakeProfit, p.orderId);
    } else {
      TrailIsGridded(p, c);
      RebracketingIsWell(m, b, p, Trail(p, c), c);
    }
    hide Close, Trail, BookWell;
  }

  lemma ManagedIsWell(m: Market, b: Book, p: Position, c: Candle)
    requires InBook(m, b, p, c) && AllSized(b)
    ensures Kept(m, b, Managed(m, b, p, c))
  {
    InBookFacts(m, b, p, c);
    LocksAreGridded(p, c);
    var moved := LockOneR(BreakEven(p, c), c);
    RebracketingIsWell(m, b, p, moved, c);
    hide LockOneR, BreakEven, BookWell, TargetOrTrail, TakePartials, PositionGridded, Validated;
    var rebracketed := WithPosition(b, moved);
    ShrunkIsSized(b, rebracketed);
    PartialsAreWell(m, rebracketed, c, p.IsLong(), Levels(moved));
    var taken := TakePartials(m, rebracketed, p.symbol, c, p.IsLong(), Levels(moved));
    KeptTwice(m, b, Success(rebracketed), taken);
    ShrunkIsSized(b, taken.value);
    if p.symbol in taken.value.positions {
      HeldIsInBook(m, taken.value, p.symbol, c);
      TargetOrTrailIsWell(m, taken.value, taken.value.positions[p.symbol], c);
      KeptTwice(m, b, taken, TargetOrTrail(m, taken.value, taken.value.positions[p.symbol], c));
    }
  }

  lemma BracketIsWell(m: Market, b: Book, c: Candle)
    requires FxPersists(m) && BookWell(m, b) && AllSized(b) && c.symbol in b.last && b.last[c.symbol] == c
    ensures Kept(m, b, BracketExit(m, b, c))
  {
    hide StopExit, Managed, BookWell;
    if c.symbol in b.positions {
      HeldIsInBook(m, b, c.symbol, c);
      var p := b.positions[c.symbol];
      if StopTouched(p, c) {
        StopExitIsWell(m, b, p, c);
      } else if p.entryAt != c.ts {
        ManagedIsWell(m, b, p, c);
      }
    }
  }

  // ----- one candle, and whole runs

  ghost predicate Well(m: Market, b: Book) {
    BookWell(m, b) && Waiting(m, b, b.pending) && AllSized(b) && Positive(b.pending)
  }

  // On a validated candle nothing raises but an opening fill without a rate, and the books stay on the grid.
  lemma ProcessingIsWell(m: Market, b: Book, c: Candle)
    requires FxPersists(m) && Well(m, b) && Live(b, b.pending) && Validated(m, c) && Follows(b, c)
    ensures var r := Process(m, b, c);
      && OnlyFxCanFail(m, c, r)
      && (r.Success? ==> Well(m, r.value) && c.symbol in r.value.last && r.value.last[c.symbol] == c)
  {
    TransitionIsWell(m, b, c);
    TransitionOrders(m, b, c);
    hide Transition, Sweep, BracketExit, BookWell, PendingWell, Live;
    var rolled := Transition(m, b, c).value;
    assert rolled.pending + [] == rolled.pending;
    SweepIsWell(m, rolled, rolled.pending, [], c);
    var swept := Sweep(m, rolled, rolled.pending, c);
    if swept.Success? {
      assert swept.value.pending + [] == swept.value.pending;
      BracketIsWell(m, swept.value, c);
      var after := BracketExit(m, swept.value, c).value;
      ShrunkIsSized(swept.value, after);
      ShrinkingKeepsWaiting(m, swept.value, after, swept.value.pending);
    }
  }

  lemma ProposalIsWell(m: Market, b: Book, c: Candle, d: Decision)
    requires Well(m, b) && c.symbol in b.last && b.last[c.symbol] == c && Answers(c, d)
    requires Live(b, b.pending)
    ensures var r := Propose(m, b, c, d); r.Success? ==> Well(m, r.value)
  {
    hide BookWell;
    var r := Propose(m, b, c, d);
    if r.Success? && r.value != b {
      SameBooks(m, b, r.value, b.pending);
      var stored := PendingOrder(b.nextOrderId, d.order, m.orderTtl, c.ts);
      Adding(b, stored, r.value);
      forall p | p in r.value.pending
        ensures PendingWell(m, r.value, p.order) && p.order.quantity > 0.0
      {
        assert p in b.pending ==> PendingWell(m, b, p.order);
      }
    }
  }

  ghost predicate AllValidated(m: Market, events: seq<Candle>) {
    forall e :: e in events ==> Validated(m, e)
  }

  // The latest candle of each symbol is one of the events so far.
  ghost predicate LastSeen(b: Book, events: seq<Candle>) {
    forall s :: s in b.last ==> b.last[s] in events && b.last[s].symbol == s
  }

  // Who is to blame for a run that raised on a candle: a currency without a rate at an opening fill of a stock, or a
  // signal engine that asked for something a futures order may not be.
  ghost predicate Blames(m: Market, b: Book, c: Candle, d: Decision, e: SimError) {
    || (e == MissingFx(c.symbol) && !m.futures(c.symbol) && m.fx(c.symbol, c.ts).None?)
    || (d.Proposal? && m.futures(c.symbol) && Process(m, b, c).Success?
        && OrderFault(m, Process(m, b, c).value, d.order, c) == Some(e))
  }

  lemma SeenFollows(b: Book, events: seq<Candle>, c: Candle)
    requires LastSeen(b, events) && InOrder(events + [c])
    ensures Follows(b, c)
  {
    var all := events + [c];
    if c.symbol in b.last {
      var i :| 0 <= i < |events| && events[i] == b.last[c.symbol];
      assert all[i] == events[i] && all[|events|] == c;
    }
  }

  lemma ProcessKeepsLast(m: Market, b: Book, c: Candle)
    requires FxPersists(m) && Well(m, b) && Live(b, b.pending) && Validated(m, c) && Follows(b, c)
    ensures var r := Process(m, b, c); r.Success? ==> r.value.last == b.last[c.symbol := c]
  {
    TransitionIsWell(m, b, c);
    TransitionLast(m, b, c);
    TransitionOrders(m, b, c);
    hide Transition, Sweep, BracketExit, BookWell, PendingWell, Live;
    var rolled := Transition(m, b, c).value;
    assert rolled.pending + [] == rolled.pending;
    SweepIsWell(m, rolled, rolled.pending, [], c);
    var swept := Sweep(m, rolled, rolled.pending, c);
    if swept.Success? {
      BracketIsWell(m, swept.value, c);
    }
  }

  lemma TransitionLast(m: Market, b: Book, c: Candle)
    requires FxPersists(m) && Well(m, b) && Validated(m, c) && Follows(b, c)
    ensures Transition(m, b, c).Success? ==> Transition(m, b, c).value.last == b.last[c.symbol := c]
  {
    if Rolls(m, b, c) && c.symbol in b.positions {
      assert HeldWell(m, b, c.symbol, b.positions[c.symbol]);
      RollExitIsWell(m, b, b.positions[c.symbol], b.last[c.symbol], c);
    }
    hide RollExit;
  }

  lemma StepIsWell(m: Market, b: Book, c: Candle, d: Decision, events: seq<Candle>)
    requires FxPersists(m) && Well(m, b) && Live(b, b.pending) && AllAged(m, events, b.pending) && LastSeen(b, events)
    requires Validated(m, c) && Answers(c, d) && InOrder(events + [c])
    ensures var r := Step(m, b, c, d);
      && (r.Failure? ==> Blames(m, b, c, d, r.error))
      && (r.Success? ==> Well(m, r.value) && LastSeen(r.value, events + [c]))
  {
    SeenFollows(b, events, c);
    ProcessingIsWell(m, b, c);
    ProcessKeepsLast(m, b, c);
    ProcessingKeepsLive(m, b, c, events);
    var processed := Process(m, b, c);
    if processed.Success? {
      ProposalIsWell(m, processed.value, c, d);
    }
    hide Process, Well, Live;
  }

  lemma ProcessingKeepsLive(m: Market, b: Book, c: Candle, events: seq<Candle>)
    requires Live(b, b.pending) && AllAged(m, events, b.pending)
    ensures var r := Process(m, b, c); r.Success? ==> Live(r.value, r.value.pending)
  {
    TransitionOrders(m, b, c);
    hide Transition, Sweep, BracketExit;
    var rolled := Transition(m, b, c);
    if rolled.Success? {
      assert rolled.value.pending + [] == rolled.value.pending;
      SweepFates(m, rolled.value, rolled.value.pending, [], c, events);
      var swept := Sweep(m, rolled.value, rolled.value.pending, c);
      if swept.Success? {
        assert swept.value.pending + [] == swept.value.pending;
        BracketKeepsOrders(m, swept.value, c);
      }
    }
  }

  ghost predicate Runnable(m: Market, events: seq<Candle>, decisions: seq<Decision>)
    requires |decisions| == |events|
  {
    FxPersists(m) && AllValidated(m, events) && InOrder(events) && AllAnswer(events, decisions)
  }

  lemma RunnableStep(m: Market, events: seq<Candle>, decisions: seq<Decision>, n: nat)
    requires |decisions| == |events| && n < |events| && Runnable(m, events, decisions)
    ensures Runnable(m, events[..n], decisions[..n]) && Runnable(m, events[..n + 1], decisions[..n + 1])
    ensures events[..n] + [events[n]] == events[..n + 1] && InOrder(events[..n] + [events[n]])
    ensures Validated(m, events[n]) && Answers(events[n], decisions[n])
  {
    hide Validated, Answers;
    assert events[..n] + [events[n]] == events[..n + 1];
  }

  // Every reachable book of a run over validated candles is on the grid.
  lemma {:induction false} RunsStayOnGrid(m: Market, equity: real, events: seq<Candle>, decisions: seq<Decision>)
    requires |decisions| == |events| && Runnable(m, events, decisions)
    ensures var r := Steps(m, equity, events, decisions); r.Success? ==> Well(m, r.value) && LastSeen(r.value, events)
  {
    if events != [] {
      var n := |events| - 1;
      assert events[..n + 1] == events;
      RunnableStep(m, events, decisions, n);
      RunsStayOnGrid(m, equity, events[..n], decisions[..n]);
      RunsKeepOrders(m, equity, events[..n], decisions[..n]);
      hide Well, Live, Step, InOrder, AllAged, AllAnswer, AllValidated, LastSeen, Blames;
      var b := Steps(m, equity, events[..n], decisions[..n]);
      if b.Success? {
        StepIsWell(m, b.value, events[n], decisions[n], events[..n]);
      }
    }
  }

  // The run reached candle `k`, which raised `e` through no fault of the simulator.
  ghost predicate RaisedAt(
    m: Market, equity: real, events: seq<Candle>, decisions: seq<Decision>, k: nat, e: SimError)
    requires |decisions| == |events| && k < |events|
  {
    && Steps(m, equity, events[..k], decisions[..k]).Success?
    && Blames(m, Steps(m, equity, events[..k], decisions[..k]).value, events[k], decisions[k], e)
  }

  lemma RaisedInPrefix(
    m: Market, equity: real, events: seq<Candle>, decisions: seq<Decision>, n: nat, k: nat, e: SimError)
    requires |decisions| == |events| && k < n <= |events| && RaisedAt(m, equity, events[..n], decisions[..n], k, e)
    ensures RaisedAt(m, equity, events, decisions, k, e)
  {
    hide Steps, Blames;
    assert events[..n][..k] == events[..k] && decisions[..n][..k] == decisions[..k];
  }

  // A run that raises does so at some candle, and there the blame is not the simulator's.
  lemma {:induction false} RunsRaiseOnlyFor(m: Market, equity: real, events: seq<Candle>, decisions: seq<Decision>)
    requires |decisions| == |events| && Runnable(m, events, decisions)
    ensures var r := Steps(m, equity, events, decisions);
      r.Failure? ==> exists k :: 0 <= k < |events| && RaisedAt(m, equity, events, decisions, k, r.error)
  {
    var r := Steps(m, equity, events, decisions);
    if r.Failure? {
      var n := |events| - 1;
      var before := Steps(m, equity, events[..n], decisions[..n]);
      assert events[..n + 1] == events;
      RunnableStep(m, events, decisions, n);
      RunsKeepOrders(m, equity, events[..n], decisions[..n]);
      hide Step, Blames, Well, Live, InOrder, AllAged, AllAnswer, AllValidated, LastSeen;
      if before.Failure? {
        RunsRaiseOnlyFor(m, equity, events[..n], decisions[..n]);
        hide RaisedAt;
        var k :| 0 <= k < n && RaisedAt(m, equity, events[..n], decisions[..n], k, r.error);
        RaisedInPrefix(m, equity, events, decisions, n, k, r.error);
      } else {
        RunsStayOnGrid(m, equity, events[..n], decisions[..n]);
        StepIsWell(m, before.value, events[n], decisions[n], events[..n]);
        assert RaisedAt(m, equity, events, decisions, n, r.error);
      }
    }
  }

  lemma EndExitIsWell(m: Market, b: Book, p: Position)
    requires FxPersists(m) && BookWell(m, b)
    requires p.symbol in b.positions && b.positions[p.symbol] == p && p.quantity != 0.0
    ensures Kept(m, b, EndExit(m, b, p))
  {
    assert HeldWell(m, b, p.symbol, p) && Validated(m, b.last[p.symbol]);
    var side := if p.IsLong() then Sell else Buy;
    SlippedIsGridded(p.futuresSpec, EndPrice(b, p), side);
    var price := Slipped(p.futuresSpec, EndPrice(b, p), side).value;
    var expiry := if p.conid.Some? then m.lastTradeAt(p.conid.value) else None;
    var reason := if expiry.Some? && m.datasetEnd.Some? && m.datasetEnd.value >= expiry.value
                  then Expiry else DatasetEnd;
    CloseIsWell(m, b, p, price, EndTime(b, p), reason, p.orderId);
    hide Close, Slipped, BookWell;
  }

  // Closing what is left at the end of the dataset never raises, and fills on the grid.
  lemma {:induction false} ClosingIsWell(m: Market, b: Book, order: seq<string>)
    requires FxPersists(m) && BookWell(m, b) && AllSized(b)
    ensures Kept(m, b, CloseAll(m, b, order))
  {
    hide EndExit, BookWell;
    if order != [] {
      var init, symbol := order[..|order| - 1], order[|order| - 1];
      ClosingIsWell(m, b, init);
      var closed := CloseAll(m, b, init);
      ShrunkIsSized(b, closed.value);
      if symbol in closed.value.positions {
        HeldSymbol(m, closed.value, symbol);
        EndExitIsWell(m, closed.value, closed.value.positions[symbol]);
        KeptTwice(m, b, closed, EndExit(m, closed.value, closed.value.positions[symbol]));
      }
    }
  }

  lemma HeldSymbol(m: Market, b: Book, symbol: string)
    requires BookWell(m, b) && symbol in b.positions
    ensures b.positions[symbol].symbol == symbol
  {
    assert HeldWell(m, b, symbol, b.positions[symbol]);
  }
}
