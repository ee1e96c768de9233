/**
 * What an order does when a candle reaches it, told on the order's and the candle's own prices: which candles reach it,
 * the price it fills at, and the position, exit or refusal that comes of it.
 */
module BacktestEntries {
  import opened Outcomes
  import opened Aggregation
  import opened BarExecution
  import opened TickRules
  import opened BacktestModel
  import opened BacktestLedger
  import opened BacktestConservation
  import opened BacktestFills
  import opened BacktestBrackets

  // ----- which candles reach an order

  // The contract's specification for a futures symbol: of the order's own contract, or of the candle's.
  function Specified(m: Market, o: Order, c: Candle): Option<FuturesSpec> {
    if m.futures(o.instrument) then m.specFor(if o.conid.Some? then o.conid.value else c.conid) else None
  }

  // Where a price of the order is placed: as it is in stocks, on its level of the grid in futures.
  ghost predicate Placed(spec: Option<FuturesSpec>, price: real, side: Side, instruction: Instruction, level: real) {
    match spec
    case None => level == price
    case Some(sp) => PlacedAt(price, sp.tickSize, side, instruction, level)
  }

  // The candle traded at the order's level, on the side a limit or a stop waits for.
  predicate Reaches(o: Order, c: Candle, level: real) {
    match o.orderType
    case MKT => true
    case LMT => if o.side.Buy? then c.low <= level else c.high >= level
    case STP => if o.side.Buy? then c.high >= level else c.low <= level
  }

  lemma SnappedIff(spec: Option<FuturesSpec>, price: real, side: Side, instruction: Instruction, level: real)
    ensures level == Snapped(spec, price, side, instruction) <==> Placed(spec, price, side, instruction, level)
  {
    if spec.Some? {
      NormalizesTo(price, spec.value.tickSize, side, instruction, level);
    }
    hide NormalizeInstructionPrice, PlacedAt;
  }

  // A market order is reached by any candle, any other by one that trades at its level.
  lemma TouchedIff(m: Market, o: Order, c: Candle)
    ensures Touched(m, o, c) <==>
            || o.orderType.MKT?
            || (o.entry.Some?
                && exists level :: Placed(Specified(m, o, c), o.entry.value, o.side, InstructionOf(o.orderType), level)
                     && Reaches(o, c, level))
    ensures InstructionOf(LMT) == Limit && InstructionOf(STP) == Stop
  {
    if o.entry.Some? && !o.orderType.MKT? {
      var spec, instruction := Specified(m, o, c), InstructionOf(o.orderType);
      var level := Snapped(spec, o.entry.value, o.side, instruction);
      forall other
        ensures Placed(spec, o.entry.value, o.side, instruction, other) <==> other == level
      {
        SnappedIff(spec, o.entry.value, o.side, instruction, other);
      }
      assert spec == SpecOf(m, o, c);
      hide Snapped, Placed, SpecOf, Specified;
      assert Placed(spec, o.entry.value, o.side, instruction, level);
      assert Touched(m, o, c) <==> Reaches(o, c, level);
    }
  }

  // ----- the price it fills at

  // A stock fills at its entry, or at the open without one. In futures a market order fills at the open with slippage,
  // a limit at its level, a stop at the worse of its level and the open with slippage; slippage needs a price on the
  // grid.
  ghost predicate FillsAt(spec: Option<FuturesSpec>, o: Order, c: Candle, price: real) {
    var entry := if o.entry.Some? then o.entry.value else c.open;
    match spec
    case None => price == entry
    case Some(sp) =>
      match o.orderType
      case MKT => Slips(sp, o.side, c.open, price)
      case LMT => PlacedAt(entry, sp.tickSize, o.side, Limit, price)
      case STP =>
        exists level :: PlacedAt(entry, sp.tickSize, o.side, Stop, level) && StopFillsAt(sp, o, c, level, price)
  }

  ghost predicate StopFillsAt(sp: FuturesSpec, o: Order, c: Candle, level: real, price: real) {
    Slips(sp, o.side, if o.side.Buy? == (level < c.open) then c.open else level, price)
  }

  ghost predicate Slips(sp: FuturesSpec, side: Side, reference: real, price: real) {
    var slippage := sp.slippageTicks as real * sp.tickSize;
    Ticked(reference, sp.tickSize) && price == if side.Buy? then reference + slippage else reference - slippage
  }

  lemma SlippedIff(sp: FuturesSpec, side: Side, reference: real, price: real)
    ensures Slipped(Some(sp), reference, side) == Success(price) <==> Slips(sp, side, reference, price)
  {
    SlipsBy(reference, side, sp);
    hide ApplyAdverseSlippage, Ticked;
  }

  lemma EntryPriceIff(spec: Option<FuturesSpec>, o: Order, c: Candle, price: real)
    ensures EntryPrice(spec, o, c) == Success(price) <==> FillsAt(spec, o, c, price)
  {
    if spec.Some? {
      match o.orderType
      case MKT => SlippedIff(spec.value, o.side, c.open, price);
      case LMT => SnappedIff(spec, if o.entry.Some? then o.entry.value else c.open, o.side, Limit, price);
      case STP => StopFillsIff(spec.value, o, c, price);
      hide Slipped, Slips, PlacedAt, NormalizeInstructionPrice;
    }
  }

  lemma StopFillsIff(sp: FuturesSpec, o: Order, c: Candle, price: real)
    requires o.orderType.STP?
    ensures EntryPrice(Some(sp), o, c) == Success(price) <==> FillsAt(Some(sp), o, c, price)
  {
    var entry := if o.entry.Some? then o.entry.value else c.open;
    var level := Snapped(Some(sp), entry, o.side, Stop);
    forall other
      ensures PlacedAt(entry, sp.tickSize, o.side, Stop, other) <==> other == level
    {
      SnappedIff(Some(sp), entry, o.side, Stop, other);
    }
    var reference := if o.side.Buy? == (level < c.open) then c.open else level;
    SlippedIff(sp, o.side, reference, price);
    hide Slipped, Slips, PlacedAt, Snapped;
    assert PlacedAt(entry, sp.tickSize, o.side, Stop, level);
    assert EntryPrice(Some(sp), o, c) == Slipped(Some(sp), reference, o.side);
    assert StopFillsAt(sp, o, c, level, price) <==> Slips(sp, o.side, reference, price);
    hide StopFillsAt;
    if FillsAt(Some(sp), o, c, price) {
      var other :| PlacedAt(entry, sp.tickSize, o.side, Stop, other) && StopFillsAt(sp, o, c, other, price);
      assert other == level;
    }
  }

  // ----- the position it makes

  ghost predicate PlacedIfAny(
    spec: Option<FuturesSpec>, ordered: Option<real>, side: Side, instruction: Instruction, placed: Option<real>)
  {
    (ordered.Some? <==> placed.Some?)
    && (ordered.Some? ==> Placed(spec, ordered.value, side, instruction, placed.value))
  }

  // The levels of the order in the order the price reaches them, none of them taken yet.
  ghost predicate LadderOf(spec: Option<FuturesSpec>, o: Order, ladder: Option<seq<Partial>>) {
    (ladder.Some? <==> o.partials != [])
    && (ladder.Some? ==>
         exists sorted: seq<Level> ::
           && multiset(sorted) == multiset(o.partials) && InReachOrder(sorted, o.side.Buy?)
           && |ladder.value| == |sorted|
           && forall i :: 0 <= i < |sorted| ==>
                && ladder.value[i].fraction == sorted[i].fraction && !ladder.value[i].executed
                && Placed(spec, sorted[i].price, if o.side.Buy? then Sell else Buy, Limit, ladder.value[i].price))
  }

  // The sides an order's brackets are on are those that leave its position.
  ghost predicate OpensAs(
    m: Market, id: nat, pending: PendingOrder, c: Candle, price: real, rate: real, spec: Option<FuturesSpec>,
    q: Position)
  {
    var o := pending.order;
    var exit := if o.side.Buy? then Sell else Buy;
    && q.id == id && q.symbol == o.instrument && q.conid == o.conid && q.side == o.side && q.strategy == o.strategy
    && q.quantity == (if o.side.Buy? then o.quantity else -o.quantity) && q.originalQuantityAbs == o.quantity
    && q.averageCost == price && q.entryAt == c.ts && q.orderId == pending.id && q.futuresSpec == spec
    && q.priceMultiplier == m.priceMultiplier(o.instrument) && q.fxToBaseAtEntry == rate
    && PlacedIfAny(spec, o.stop, exit, Stop, q.stop) && q.initialStop == q.stop
    && PlacedIfAny(spec, o.takeProfit, exit, Limit, q.takeProfit) && LadderOf(spec, o, q.partials)
    && q.trailingStopPct == o.trailingStopPct && q.trailingStopActivationR == o.trailingStopActivationR
    && (q.trailActivated <==> !(o.trailingStopActivationR.Some? && o.trailingStopActivationR.value > 0.0))
    && q.peakPrice == (if o.side.Buy? then Some(price) else None)
    && q.troughPrice == (if o.side.Buy? then None else Some(price))
  }

  // More of the same side: sizes add, the cost and the rate are averaged by size and by notional, the order brings its
  // own stop and target, and what the position already has of a ladder, a trail and an initial stop stays.
  ghost predicate AddsAs(
    m: Market, p: Position, pending: PendingOrder, c: Candle, price: real, rate: real, spec: Option<FuturesSpec>,
    q: Position)
  {
    var o := pending.order;
    var exit := if o.side.Buy? then Sell else Buy;
    && q.id == p.id && q.symbol == o.instrument && q.conid == o.conid && q.side == o.side && q.strategy == o.strategy
    && q.quantity == p.quantity + (if o.side.Buy? then o.quantity else -o.quantity)
    && q.originalQuantityAbs == p.originalQuantityAbs + o.quantity
    && Weighs(p, o.quantity, price, m.priceMultiplier(o.instrument), rate, q)
    && q.priceMultiplier == m.priceMultiplier(o.instrument)
    && q.entryAt == p.entryAt && q.orderId == pending.id && q.futuresSpec == spec
    && PlacedIfAny(spec, o.stop, exit, Stop, q.stop)
    && q.initialStop == (if p.initialStop.Some? then p.initialStop else q.stop)
    && PlacedIfAny(spec, o.takeProfit, exit, Limit, q.takeProfit)
    && (if p.partials.Some? then q.partials == p.partials else LadderOf(spec, o, q.partials))
    && q.trailingStopPct == (if p.trailingStopPct.Some? then p.trailingStopPct else o.trailingStopPct)
    && q.trailingStopActivationR
       == (if p.trailingStopActivationR.Some? then p.trailingStopActivationR else o.trailingStopActivationR)
    && q.trailActivated == p.trailActivated
    && q.peakPrice == (if p.peakPrice.Some? then Some(if p.peakPrice.value < price then price else p.peakPrice.value)
                       else if o.side.Buy? then Some(price) else None)
    && q.troughPrice
       == (if p.troughPrice.Some? then Some(if price < p.troughPrice.value then price else p.troughPrice.value)
           else if o.side.Buy? then None else Some(price))
  }

  // The average cost is weighed by quantity, the entry rate by notional.
  predicate Weighs(p: Position, quantity: real, price: real, multiplier: real, rate: real, q: Position) {
    var held := if p.quantity > 0.0 then p.quantity else -p.quantity;
    var carried, added := Size(p.averageCost * held * p.priceMultiplier), Size(price * quantity * multiplier);
    && q.averageCost * (held + quantity) == p.averageCost * held + price * quantity
    && (carried + added > 0.0 ==> q.fxToBaseAtEntry * (carried + added) == p.fxToBaseAtEntry * carried + rate * added)
    && (carried + added <= 0.0 ==> q.fxToBaseAtEntry == rate)
  }

  function Size(x: real): real {
    if x < 0.0 then -x else x
  }

  lemma LadderIsOf(spec: Option<FuturesSpec>, o: Order)
    ensures LadderOf(spec, o, PendingPartials(o, spec))
  {
    if o.partials != [] {
      var sorted := SortLevels(o.partials, o.side.Buy?);
      LaddersAreSorted(o.partials, o.side.Buy?);
      var ladder := PendingPartials(o, spec);
      forall i | 0 <= i < |sorted|
        ensures Placed(spec, sorted[i].price, if o.side.Buy? then Sell else Buy, Limit, ladder.value[i].price)
      {
        SnappedIff(spec, sorted[i].price, o.side.Opposite(), Limit, ladder.value[i].price);
      }
      hide Snapped, Placed, SortLevels;
    }
  }

  lemma BracketsArePlaced(
    m: Market, existing: Option<Position>, id: nat, pending: PendingOrder, c: Candle, price: real, rate: real,
    spec: Option<FuturesSpec>)
    ensures var o, q := pending.order, Opened(m, existing, id, pending, c, price, rate, spec);
      var exit := if o.side.Buy? then Sell else Buy;
      PlacedIfAny(spec, o.stop, exit, Stop, q.stop) && PlacedIfAny(spec, o.takeProfit, exit, Limit, q.takeProfit)
  {
    var o, q := pending.order, Opened(m, existing, id, pending, c, price, rate, spec);
    if o.stop.Some? {
      SnappedIff(spec, o.stop.value, o.side.Opposite(), Stop, q.stop.value);
    }
    if o.takeProfit.Some? {
      SnappedIff(spec, o.takeProfit.value, o.side.Opposite(), Limit, q.takeProfit.value);
    }
    hide Snapped, Placed, PendingPartials, Weighted;
  }

  lemma NewPositionIs(
    m: Market, id: nat, pending: PendingOrder, c: Candle, price: real, rate: real, spec: Option<FuturesSpec>)
    requires pending.order.quantity > 0.0
    ensures OpensAs(m, id, pending, c, price, rate, spec, Opened(m, None, id, pending, c, price, rate, spec))
  {
    LadderIsOf(spec, pending.order);
    BracketsArePlaced(m, None, id, pending, c, price, rate, spec);
    hide LadderOf, PlacedIfAny, PendingPartials, Snapped;
  }

  lemma AddedPositionIs(
    m: Market, p: Position, id: nat, pending: PendingOrder, c: Candle, price: real, rate: real,
    spec: Option<FuturesSpec>)
    requires pending.order.quantity > 0.0 && p.quantity != 0.0
    requires (p.quantity > 0.0) == pending.order.side.Buy?
    ensures AddsAs(m, p, pending, c, price, rate, spec, Opened(m, Some(p), id, pending, c, price, rate, spec))
  {
    LadderIsOf(spec, pending.order);
    BracketsArePlaced(m, Some(p), id, pending, c, price, rate, spec);
    AddedWeighs(m, p, id, pending, c, price, rate, spec);
    hide LadderOf, PlacedIfAny, PendingPartials, Snapped, Weighted, Notional, Weighs;
  }

  lemma AddedWeighs(
    m: Market, p: Position, id: nat, pending: PendingOrder, c: Candle, price: real, rate: real,
    spec: Option<FuturesSpec>)
    requires pending.order.quantity > 0.0 && p.quantity != 0.0
    requires (p.quantity > 0.0) == pending.order.side.Buy?
    ensures Weighs(p, pending.order.quantity, price, m.priceMultiplier(pending.order.instrument), rate,
                   Opened(m, Some(p), id, pending, c, price, rate, spec))
  {
    var o := pending.order;
    var q := Opened(m, Some(p), id, pending, c, price, rate, spec);
    hide PendingPartials, Snapped, Weighted;
    var held := if p.quantity > 0.0 then p.quantity else -p.quantity;
    assert Abs(p.quantity) == held && Abs(SignedQuantity(o.side, o.quantity)) == o.quantity;
    AverageWeighs(q.averageCost, p.averageCost, held, price, o.quantity);
    NotionalsWeigh(p, o.quantity, price, m.priceMultiplier(o.instrument), rate, q.fxToBaseAtEntry);
  }

  lemma AverageWeighs(average: real, a: real, weightA: real, b: real, weightB: real)
    requires weightA + weightB > 0.0 && average == Weighted(a, weightA, b, weightB)
    ensures average * (weightA + weightB) == a * weightA + b * weightB
  {
    WeightedTotal(a, weightA, b, weightB);
  }

  lemma NotionalsWeigh(p: Position, quantity: real, price: real, multiplier: real, rate: real, weighed: real)
    requires weighed == Weighted(p.fxToBaseAtEntry, Abs(Notional(p.averageCost, Abs(p.quantity), p.priceMultiplier)),
                                 rate, Abs(Notional(price, quantity, multiplier)))
    ensures var held := if p.quantity > 0.0 then p.quantity else -p.quantity;
      var carried, added := Size(p.averageCost * held * p.priceMultiplier), Size(price * quantity * multiplier);
      && (carried + added > 0.0 ==> weighed * (carried + added) == p.fxToBaseAtEntry * carried + rate * added)
      && (carried + added <= 0.0 ==> weighed == rate)
  {
    var carried := Abs(Notional(p.averageCost, Abs(p.quantity), p.priceMultiplier));
    var added := Abs(Notional(price, quantity, multiplier));
    if carried + added > 0.0 {
      AverageWeighs(weighed, p.fxToBaseAtEntry, carried, rate, added);
    }
  }

  // ----- what filling does

  // The book after a due order met a candle that reached it: the order is filled and no longer waits. A reducing order
  // takes a held position off whole; an opening one makes a position, adds to one of its side, or takes one of the
  // other side off whole. Each leaves every other symbol alone.
  ghost predicate FilledInto(m: Market, b: Book, pending: PendingOrder, c: Candle, after: Book) {
    var o := pending.order;
    var spec := Specified(m, o, c);
    && after.orders == b.orders[pending.id := Filled] && after.pending == b.pending && after.last == b.last
    && after.nextOrderId == b.nextOrderId
    && exists price :: FillsAt(spec, o, c, price) && FilledAt(m, b, pending, c, spec, price, after)
  }

  ghost predicate FilledAt(
    m: Market, b: Book, pending: PendingOrder, c: Candle, spec: Option<FuturesSpec>, price: real, after: Book)
  {
    var o := pending.order;
    if o.instrument !in b.positions then
      if o.effect == CloseOrReduce then
        after.fills == b.fills && after.positions == b.positions && after.entries == b.entries
      else
        && m.fx(o.instrument, c.ts).Some? && after.fills == b.fills
        && after.entries == b.entries + [Entry(b.nextPositionId, o.quantity)]
        && after.nextPositionId == b.nextPositionId + 1
        && o.instrument in after.positions
        && after.positions == b.positions[o.instrument := after.positions[o.instrument]]
        && OpensAs(m, b.nextPositionId, pending, c, price, m.fx(o.instrument, c.ts).value, spec,
                   after.positions[o.instrument])
    else
      var p := b.positions[o.instrument];
      if o.effect == OpenOrAdd && (p.quantity > 0.0) == o.side.Buy? then
        && spec.None? && m.fx(o.instrument, c.ts).Some? && after.fills == b.fills
        && after.entries == b.entries + [Entry(p.id, o.quantity)] && after.nextPositionId == b.nextPositionId
        && o.instrument in after.positions
        && after.positions == b.positions[o.instrument := after.positions[o.instrument]]
        && AddsAs(m, p, pending, c, price, m.fx(o.instrument, c.ts).value, spec, after.positions[o.instrument])
      else
        && TakesAll(b, after, p, if o.effect == CloseOrReduce then ManagedExit else OppositeSignal, c.ts)
        && after.fills[|b.fills|].exitPrice == price && after.fills[|b.fills|].orderId == pending.id
        && after.positions == b.positions - {o.instrument} && after.entries == b.entries
  }

  lemma FillsAsStated(m: Market, start: real, b: Book, pending: PendingOrder, c: Candle)
    requires Balanced(start, b) && pending.order.quantity > 0.0
    requires !Waits(pending, c) && Touched(m, pending.order, c) && SweepOne(m, b, pending, c).Success?
    ensures FilledInto(m, b, pending, c, SweepOne(m, b, pending, c).value)
  {
    var o := pending.order;
    var spec := Specified(m, o, c);
    assert spec == SpecOf(m, o, c);
    var price := EntryPrice(spec, o, c).value;
    EntryPriceIff(spec, o, c, price);
    var after := SweepOne(m, b, pending, c).value;
    var settled := Settle(m, b, pending, c, price, spec).value;
    if o.instrument in b.positions {
      HeldIsOwned(start, b, o.instrument);
    }
    hide Balanced, Touched, EntryPrice, SpecOf, Specified, FillsAt, FilledAt;
    SettlesAsStated(m, b, pending, c, spec, price);
    SameSettled(m, b, pending, c, spec, price, settled, after);
  }

  // Filling raises exactly for a futures order of no whole number of contracts or at no price on the grid, for adding to
  // a held futures position, and without a rate, unless there is nothing to reduce.
  lemma FillSucceedsIff(m: Market, start: real, b: Book, pending: PendingOrder, c: Candle)
    requires Balanced(start, b) && pending.order.quantity > 0.0
    requires !Waits(pending, c) && Touched(m, pending.order, c)
    ensures var o := pending.order;
      var spec := Specified(m, o, c);
      SweepOne(m, b, pending, c).Success? <==>
        && (spec.Some? ==> o.quantity.Floor as real == o.quantity) && (exists price :: FillsAt(spec, o, c, price))
        && (m.fx(o.instrument, c.ts).Some? || (o.effect == CloseOrReduce && o.instrument !in b.positions))
        && (spec.Some? && o.effect == OpenOrAdd && o.instrument in b.positions ==>
             (b.positions[o.instrument].quantity > 0.0) != o.side.Buy?)
  {
    var o := pending.order;
    var spec := Specified(m, o, c);
    assert spec == SpecOf(m, o, c);
    var r := EntryPrice(spec, o, c);
    forall price
      ensures r == Success(price) <==> FillsAt(spec, o, c, price)
    {
      EntryPriceIff(spec, o, c, price);
    }
    if o.instrument in b.positions {
      HeldIsOwned(start, b, o.instrument);
    }
    hide Balanced, Touched, EntryPrice, SpecOf, Specified, FillsAt, Opened, ExitPnl;
    assert r.Success? ==> FillsAt(spec, o, c, r.value);
    if r.Success? {
      SettleSucceedsIff(m, b, pending, c, spec, r.value);
    }
    hide Settle;
  }

  lemma SettleSucceedsIff(
    m: Market, b: Book, pending: PendingOrder, c: Candle, spec: Option<FuturesSpec>, price: real)
    requires var o := pending.order;
      && o.quantity > 0.0
      && (o.instrument in b.positions ==>
           b.positions[o.instrument].symbol == o.instrument && b.positions[o.instrument].quantity != 0.0)
    ensures var o := pending.order;
      Settle(m, b, pending, c, price, spec).Success? <==>
        && (m.fx(o.instrument, c.ts).Some? || (o.effect == CloseOrReduce && o.instrument !in b.positions))
        && (spec.Some? && o.effect == OpenOrAdd && o.instrument in b.positions ==>
             (b.positions[o.instrument].quantity > 0.0) != o.side.Buy?)
  {
    hide Opened, ExitPnl;
  }

  lemma SameSettled(
    m: Market, b: Book, pending: PendingOrder, c: Candle, spec: Option<FuturesSpec>, price: real, settled: Book,
    after: Book)
    requires FilledAt(m, b, pending, c, spec, price, settled) && after == Executed(settled, pending.id)
    ensures FilledAt(m, b, pending, c, spec, price, after)
  {
    hide OpensAs, AddsAs;
  }

  lemma SettlesAsStated(
    m: Market, b: Book, pending: PendingOrder, c: Candle, spec: Option<FuturesSpec>, price: real)
    requires pending.order.quantity > 0.0 && Settle(m, b, pending, c, price, spec).Success?
    requires pending.order.instrument in b.positions ==>
               b.positions[pending.order.instrument].symbol == pending.order.instrument
               && b.positions[pending.order.instrument].quantity != 0.0
    ensures var after := Settle(m, b, pending, c, price, spec).value;
      && FilledAt(m, b, pending, c, spec, price, after)
      && after.orders == b.orders && after.pending == b.pending && after.last == b.last
      && after.nextOrderId == b.nextOrderId
  {
    var o := pending.order;
    var existing := Held(b, o.instrument);
    var rate := m.fx(o.instrument, c.ts);
    if rate.Some? {
      if existing.None? {
        NewPositionIs(m, b.nextPositionId, pending, c, price, rate.value, spec);
      } else if (existing.value.quantity > 0.0) == o.side.Buy? {
        AddedPositionIs(m, existing.value, b.nextPositionId, pending, c, price, rate.value, spec);
      }
    }
    OpenedSymbolAndId(m, existing, b.nextPositionId, pending, c, price, OrElse(rate, 0.0), spec);
    if existing.Some? {
      ClosesAsStated(m, b, existing.value, price, c.ts, ManagedExit, pending.id);
      ClosesAsStated(m, b, existing.value, price, c.ts, OppositeSignal, pending.id);
    }
    hide Opened, OpensAs, AddsAs, Close, TakesAll;
    assert Abs(o.quantity) == o.quantity;
  }

  lemma ClosesAsStated(m: Market, b: Book, p: Position, price: real, at: int, reason: ExitReason, orderId: nat)
    requires Owns(b, p) && p.quantity != 0.0
    ensures var r := Close(m, b, p, price, at, reason, orderId);
      r.Success? ==>
        && TakesAll(b, r.value, p, reason, at) && r.value.positions == b.positions - {p.symbol}
        && r.value.fills[|b.fills|].exitPrice == price && r.value.fills[|b.fills|].orderId == orderId
        && r.value.entries == b.entries && r.value.orders == b.orders && r.value.pending == b.pending
        && r.value.last == b.last && r.value.nextOrderId == b.nextOrderId
  {
    hide ExitPnl;
  }

  lemma OpenedSymbolAndId(
    m: Market, existing: Option<Position>, newId: nat, pending: PendingOrder, c: Candle, price: real, rate: real,
    spec: Option<FuturesSpec>)
    ensures var q := Opened(m, existing, newId, pending, c, price, rate, spec);
      q.symbol == pending.order.instrument && q.id == if existing.Some? then existing.value.id else newId
  {
  }

  // ----- rolls

  // A futures symbol whose candle is of another contract than its last one: a position leaves whole at the last close,
  // less the slippage and at its time, as expired when the last trade of its contract has passed; the symbol's orders
  // no longer wait. On any candle the symbol's last one is remembered.
  ghost predicate RolledInto(m: Market, b: Book, c: Candle, after: Book) {
    && after.last == b.last[c.symbol := c] && after.entries == b.entries && after.nextOrderId == b.nextOrderId
    && if m.futures(c.symbol) && c.symbol in b.last && b.last[c.symbol].conid != c.conid then
         var previous := b.last[c.symbol];
         var expiry := m.lastTradeAt(previous.conid);
         && (forall p :: p in after.pending <==> p in b.pending && p.order.instrument != c.symbol)
         && (if c.symbol in b.positions then
               var p := b.positions[c.symbol];
               && TakesAll(b, after, p,
                           if expiry.Some? && expiry.value <= c.ts then Expiry else ContractRoll, previous.ts)
               && Leaves(p, previous.close, after.fills[|b.fills|].exitPrice)
               && after.positions == b.positions - {c.symbol}
             else after.fills == b.fills && after.positions == b.positions)
       else after.fills == b.fills && after.positions == b.positions && after.pending == b.pending
            && after.orders == b.orders
  }

  lemma SlippedLeaves(p: Position, reference: real)
    requires p.quantity != 0.0
    ensures var price := Slipped(p.futuresSpec, reference, if p.IsLong() then Sell else Buy);
      price.Success? ==> Leaves(p, reference, price.value)
  {
    if p.futuresSpec.Some? {
      SlipsBy(reference, if p.IsLong() then Sell else Buy, p.futuresSpec.value);
    }
    hide ApplyAdverseSlippage, Ticked;
  }

  lemma RollsAsStated(m: Market, start: real, b: Book, c: Candle)
    requires Balanced(start, b) && Transition(m, b, c).Success?
    ensures RolledInto(m, b, c, Transition(m, b, c).value)
  {
    WithoutSymbolMembers(b.pending, c.symbol);
    if Rolls(m, b, c) && c.symbol in b.positions {
      HeldIsOwned(start, b, c.symbol);
      RollTakesAll(m, b, b.positions[c.symbol], b.last[c.symbol], c);
    }
    hide RollExit, TakesAll, Leaves, Balanced, WithoutSymbol, CancelledFor, Owns;
  }

  lemma RollTakesAll(m: Market, b: Book, p: Position, previous: Candle, c: Candle)
    requires Owns(b, p) && p.quantity != 0.0 && RollExit(m, b, p, previous, c).Success?
    ensures var after, expiry := RollExit(m, b, p, previous, c).value, m.lastTradeAt(previous.conid);
      && TakesAll(b, after, p, if expiry.Some? && expiry.value <= c.ts then Expiry else ContractRoll, previous.ts)
      && Leaves(p, previous.close, after.fills[|b.fills|].exitPrice) && after.positions == b.positions - {p.symbol}
      && after.entries == b.entries && after.orders == b.orders && after.pending == b.pending
      && after.last == b.last && after.nextOrderId == b.nextOrderId
  {
    var expiry := m.lastTradeAt(previous.conid);
    var reason := if expiry.Some? && c.ts >= expiry.value then Expiry else ContractRoll;
    var price := Slipped(p.futuresSpec, previous.close, if p.IsLong() then Sell else Buy);
    SlippedLeaves(p, previous.close);
    if price.Success? {
      ClosesAsStated(m, b, p, price.value, previous.ts, reason, p.orderId);
    }
    hide Close, Slipped, TakesAll, Leaves, Owns;
  }

  // ----- the end of the dataset

  // What is left of a symbol leaves whole at its last candle, as expired when the dataset reaches past the last trade
  // of the position's contract.
  lemma EndsAsStated(m: Market, start: real, b: Book, p: Position)
    requires Balanced(start, b) && Owns(b, p) && p.symbol in b.last && EndExit(m, b, p).Success?
    ensures var after, last := EndExit(m, b, p).value, b.last[p.symbol];
      var expiry := if p.conid.Some? then m.lastTradeAt(p.conid.value) else None;
      && TakesAll(b, after, p, if expiry.Some? && m.datasetEnd.Some? && expiry.value <= m.datasetEnd.value then Expiry
                               else DatasetEnd, last.ts)
      && Leaves(p, last.close, after.fills[|b.fills|].exitPrice) && after.positions == b.positions - {p.symbol}
  {
    HeldIsOwned(start, b, p.symbol);
    var expiry := if p.conid.Some? then m.lastTradeAt(p.conid.value) else None;
    var reason := if expiry.Some? && m.datasetEnd.Some? && m.datasetEnd.value >= expiry.value then Expiry
                  else DatasetEnd;
    var price := Slipped(p.futuresSpec, b.last[p.symbol].close, if p.IsLong() then Sell else Buy).value;
    SlippedLeaves(p, b.last[p.symbol].close);
    ClosesAsStated(m, b, p, price, b.last[p.symbol].ts, reason, p.orderId);
    hide Close, Slipped, TakesAll, Leaves, Balanced;
  }

  // ----- new orders

  // Why a futures order may not be stored: another contract than the candle's, none known, no whole number of
  // contracts, more of a held side, or a limit or stop without a price.
  predicate Unfit(m: Market, b: Book, o: Order, c: Candle) {
    m.futures(o.instrument)
    && (|| o.conid != Some(c.conid) || m.specFor(c.conid).None?
        || !(o.quantity > 0.0 && o.quantity.Floor as real == o.quantity)
        || (o.instrument in b.positions && b.positions[o.instrument].quantity != 0.0
            && (b.positions[o.instrument].quantity > 0.0) == o.side.Buy?)
        || (o.orderType != MKT && o.entry.None?))
  }

  // A decision changes nothing when an order of the symbol waits, nothing was decided, or it is for no quantity; else
  // an unfit order raises, and any other waits from then on with its whole time to live.
  lemma ProposesAsStated(m: Market, start: real, b: Book, c: Candle, d: Decision)
    requires Balanced(start, b)
    ensures var r := Propose(m, b, c, d);
      var waits := exists p :: p in b.pending && p.order.instrument == c.symbol;
      var asks := !waits && d.Proposal? && d.order.quantity > 0.0;
      && (r.Failure? <==> asks && Unfit(m, b, d.order, c))
      && (!asks ==> r == Success(b))
      && (asks && r.Success? ==>
           r.value == b.(
             pending := b.pending + [PendingOrder(b.nextOrderId, d.order, m.orderTtl, c.ts)],
             orders := b.orders[b.nextOrderId := Proposed], nextOrderId := b.nextOrderId + 1))
  {
    if d.Proposal? && d.order.instrument in b.positions {
      HeldIsOwned(start, b, d.order.instrument);
    }
    hide Balanced;
  }

  // ----- the report

  // The totals of a run: the trades' profits added up, their number, the ones that won, and their share.
  lemma TotalsAreOf(trades: seq<ClosedTrade>)
    ensures var t := TotalsOf(trades);
      && t.trades == |trades| && t.wins == |set i | 0 <= i < |trades| && trades[i].pnl > 0.0|
      && (trades != [] ==> t.winRate * |trades| as real == t.wins as real) && (trades == [] ==> t.winRate == 0.0)
  {
    WinsAreCounted(trades);
    if trades != [] {
      MulDiv(Wins(trades) as real, |trades| as real);
    }
  }

  lemma {:induction false} WinsAreCounted(trades: seq<ClosedTrade>)
    ensures Wins(trades) == |set i | 0 <= i < |trades| && trades[i].pnl > 0.0|
  {
    if trades != [] {
      var n := |trades| - 1;
      WinsAreCounted(trades[..n]);
      var init := set i | 0 <= i < n && trades[..n][i].pnl > 0.0;
      assert (set i | 0 <= i < |trades| && trades[i].pnl > 0.0) == if trades[n].pnl > 0.0 then init + {n} else init;
    }
  }
}
