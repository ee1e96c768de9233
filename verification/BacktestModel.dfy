/**
 * The backtest simulator as a state machine over a `Book`: what one candle does to the open positions, the pending
 * orders, the recorded fills and the equity. A thrown error of the source is a `Failure`.
 */
module BacktestModel {
  import opened Outcomes
  import opened Aggregation
  import opened BarExecution

  datatype OrderType = MKT | LMT | STP

  datatype Effect = OpenOrAdd | CloseOrReduce

  datatype Strategy = MomentumBreakdownShort | MomentumBreakoutLong | OtherStrategy(name: string)

  datatype ExitReason =
    | StopHit | TakeProfit | PartialTakeProfit | ContractRoll | Expiry | DatasetEnd | ManagedExit | OppositeSignal

  datatype Level = Level(fraction: real, price: real)

  datatype Partial = Partial(fraction: real, price: real, executed: bool)

  datatype Order = Order(
    instrument: string, conid: Option<nat>, side: Side, effect: Effect, orderType: OrderType, quantity: real,
    entry: Option<real>, stop: Option<real>, takeProfit: Option<real>, partials: seq<Level>,
    trailingStopPct: Option<real>, trailingStopActivationR: Option<real>, strategy: Strategy)

  // What the signal engine answers; `Rejected` is a hold or a failed risk check.
  datatype Decision = Rejected | Proposal(order: Order)

  datatype OrderStatus = Proposed | Filled | Cancelled

  datatype PendingOrder = PendingOrder(id: nat, order: Order, remaining: int, generatedAt: int)

  // `id` numbers the positions in the order they were opened; adding to a position keeps it.
  datatype Position = Position(
    id: nat, symbol: string, conid: Option<nat>, quantity: real, originalQuantityAbs: real, averageCost: real,
    stop: Option<real>, initialStop: Option<real>, takeProfit: Option<real>, partials: Option<seq<Partial>>,
    trailingStopPct: Option<real>, trailingStopActivationR: Option<real>, trailActivated: bool,
    peakPrice: Option<real>, troughPrice: Option<real>, entryAt: int, orderId: nat, strategy: Strategy, side: Side,
    priceMultiplier: real, fxToBaseAtEntry: real, futuresSpec: Option<FuturesSpec>)
  {
    predicate IsLong() {
      quantity > 0.0
    }
  }

  datatype Entry = Entry(positionId: nat, quantity: real)

  datatype Fill = Fill(
    positionId: nat, orderId: nat, symbol: string, side: Side, quantity: real, entryPrice: real, exitPrice: real,
    entryAt: int, exitAt: int, grossPnl: real, commission: real, netPnl: real, reason: ExitReason,
    futuresSpec: Option<FuturesSpec>)

  datatype ClosedTrade = ClosedTrade(symbol: string, strategy: Strategy, side: Side, pnl: real, exitedAt: int)

  datatype CommissionPlan = CommissionPlan(perShare: real, minPerSide: real, passthroughBps: real, flatBps: real)

  // The options and tables a run reads. `fx` is the rate of a symbol's currency at an instant, if one is known.
  datatype Market = Market(
    futures: string -> bool, specFor: nat -> Option<FuturesSpec>, lastTradeAt: nat -> Option<int>,
    fx: (string, int) -> Option<real>, priceMultiplier: string -> real, commission: CommissionPlan, orderTtl: int,
    datasetEnd: Option<int>)

  // `last` is each symbol's latest candle; `entries` remembers every quantity put on.
  datatype Book = Book(
    positions: map<string, Position>, pending: seq<PendingOrder>, orders: map<nat, OrderStatus>, nextOrderId: nat,
    nextPositionId: nat, entries: seq<Entry>, fills: seq<Fill>, trades: seq<ClosedTrade>, equity: real,
    last: map<string, Candle>)

  datatype SimError =
    | MissingFx(symbol: string) | OffTickGrid(price: real) | Pyramiding | WrongContract | MissingSpec
    | NotWholeContracts | MissingEntry

  // ----- small helpers

  function OrElse<T>(a: Option<T>, b: T): T {
    if a.Some? then a.value else b
  }

  function FirstOf<T>(a: Option<T>, b: Option<T>): Option<T> {
    if a.Some? then a else b
  }

  function Abs(x: real): real {
    if x < 0.0 then -x else x
  }

  function Sign(x: real): int {
    if x > 0.0 then 1 else if x < 0.0 then -1 else 0
  }

  function SignedQuantity(side: Side, quantity: real): real {
    if side.Sell? then -Abs(quantity) else Abs(quantity)
  }

  function Held(b: Book, symbol: string): Option<Position> {
    if symbol in b.positions then Some(b.positions[symbol]) else None
  }

  predicate WholeContracts(quantity: real) {
    IsInteger(quantity) && quantity > 0.0
  }

  predicate HasPending(pending: seq<PendingOrder>, symbol: string) {
    exists p :: p in pending && p.order.instrument == symbol
  }

  function SpecOf(m: Market, o: Order, c: Candle): Option<FuturesSpec> {
    if m.futures(o.instrument) then m.specFor(OrElse(o.conid, c.conid)) else None
  }

  function Snapped(spec: Option<FuturesSpec>, price: real, side: Side, instruction: Instruction): real {
    if spec.Some? then NormalizeInstructionPrice(price, spec.value.tickSize, side, instruction) else price
  }

  function Slipped(spec: Option<FuturesSpec>, reference: real, side: Side): Result<real, SimError> {
    if spec.None? then Success(reference)
    else
      match ApplyAdverseSlippage(reference, side, spec.value)
      case Success(price) => Success(price)
      case Failure(e) => Failure(OffTickGrid(e.reference))
  }

  function InstructionOf(orderType: OrderType): Instruction {
    if orderType.STP? then Stop else Limit
  }

  // ----- leaving a position

  function CommissionForSide(plan: CommissionPlan, shares: real, notional: real): real {
    if plan.perShare > 0.0
    then Max(plan.minPerSide, Abs(shares) * plan.perShare + Abs(notional) * plan.passthroughBps / 10000.0)
    else Abs(notional) * plan.flatBps / 10000.0
  }

  function Amount(price: real, quantity: real, multiplier: real, rate: real): real {
    price * quantity * multiplier * rate
  }

  function ExitPnl(m: Market, p: Position, quantity: real, price: real, rate: real): RoundTrip {
    if p.futuresSpec.Some? then
      FuturesRoundTripPnl(if p.IsLong() then 1 else -1, quantity, p.averageCost, price, rate, p.futuresSpec.value)
    else
      var gain := if p.IsLong() then price - p.averageCost else p.averageCost - price;
      var gross := Amount(gain, quantity, p.priceMultiplier, rate);
      var commission :=
        CommissionForSide(m.commission, quantity, Amount(p.averageCost, quantity, p.priceMultiplier, p.fxToBaseAtEntry))
        + CommissionForSide(m.commission, quantity, Amount(price, quantity, p.priceMultiplier, rate));
      RoundTrip(gross, commission, gross - commission)
  }

  function FillOf(p: Position, quantity: real, price: real, at: int, orderId: nat, reason: ExitReason, pnl: RoundTrip)
    : Fill
  {
    Fill(p.id, orderId, p.symbol, p.side, quantity, p.averageCost, price, p.entryAt, at, pnl.grossPnl, pnl.commission,
         pnl.netPnl, reason, p.futuresSpec)
  }

  // Books a fill against position `p`: the fill, the trade, the equity, and what is left of the position.
  function Recorded(b: Book, p: Position, fill: Fill): Book {
    var left := Abs(p.quantity) - fill.quantity;
    var rest := p.(quantity := if p.IsLong() then left else -left);
    b.(positions := if left == 0.0 then b.positions - {p.symbol} else b.positions[p.symbol := rest],
       fills := b.fills + [fill],
       trades := b.trades + [ClosedTrade(p.symbol, p.strategy, p.side, fill.netPnl, fill.exitAt)],
       equity := b.equity + fill.netPnl)
  }

  function Exit(
    m: Market, b: Book, p: Position, quantity: real, price: real, at: int, reason: ExitReason, orderId: nat)
    : Result<Book, SimError>
  {
    match m.fx(p.symbol, at)
    case None => Failure(MissingFx(p.symbol))
    case Some(rate) =>
      Success(Recorded(b, p, FillOf(p, quantity, price, at, orderId, reason, ExitPnl(m, p, quantity, price, rate))))
  }

  function Close(m: Market, b: Book, p: Position, price: real, at: int, reason: ExitReason, orderId: nat)
    : Result<Book, SimError>
  {
    if Abs(p.quantity) > 0.0 then Exit(m, b, p, Abs(p.quantity), price, at, reason, orderId) else Success(b)
  }

  // ----- contract transition

  function WithoutSymbol(pending: seq<PendingOrder>, symbol: string): seq<PendingOrder> {
    if pending == [] then []
    else
      var init, p := WithoutSymbol(pending[..|pending| - 1], symbol), pending[|pending| - 1];
      if p.order.instrument == symbol then init else init + [p]
  }

  function CancelledFor(pending: seq<PendingOrder>, symbol: string, orders: map<nat, OrderStatus>)
    : map<nat, OrderStatus>
  {
    if pending == [] then orders
    else
      var init, p := CancelledFor(pending[..|pending| - 1], symbol, orders), pending[|pending| - 1];
      if p.order.instrument == symbol then init[p.id := Cancelled] else init
  }

  predicate Rolls(m: Market, b: Book, c: Candle) {
    m.futures(c.symbol) && c.symbol in b.last && b.last[c.symbol].conid != c.conid
  }

  function RollExit(m: Market, b: Book, p: Position, previous: Candle, c: Candle): Result<Book, SimError> {
    var price :- Slipped(p.futuresSpec, previous.close, if p.IsLong() then Sell else Buy);
    var expiry := m.lastTradeAt(previous.conid);
    var reason := if expiry.Some? && c.ts >= expiry.value then Expiry else ContractRoll;
    Close(m, b, p, price, previous.ts, reason, p.orderId)
  }

  function Transition(m: Market, b: Book, c: Candle): Result<Book, SimError> {
    if !Rolls(m, b, c) then Success(b.(last := b.last[c.symbol := c]))
    else
      var closed :- if c.symbol in b.positions then RollExit(m, b, b.positions[c.symbol], b.last[c.symbol], c)
                    else Success(b);
      Success(closed.(pending := WithoutSymbol(closed.pending, c.symbol),
                      orders := CancelledFor(closed.pending, c.symbol, closed.orders),
                      last := closed.last[c.symbol := c]))
  }

  // ----- pending orders

  predicate Touched(m: Market, o: Order, c: Candle) {
    if o.orderType.MKT? then true
    else if o.entry.None? then false
    else
      var entry := Snapped(SpecOf(m, o, c), o.entry.value, o.side, InstructionOf(o.orderType));
      if o.orderType.STP? == o.side.Buy? then c.high >= entry else c.low <= entry
  }

  function EntryReference(spec: Option<FuturesSpec>, o: Order, c: Candle): real {
    if spec.None? then OrElse(o.entry, c.open)
    else if o.orderType.MKT? then c.open
    else
      var snapped := Snapped(spec, OrElse(o.entry, c.open), o.side, InstructionOf(o.orderType));
      if o.orderType.LMT? then snapped
      else if o.side.Buy? then Max(snapped, c.open) else Min(snapped, c.open)
  }

  function EntryPrice(spec: Option<FuturesSpec>, o: Order, c: Candle): Result<real, SimError> {
    var reference := EntryReference(spec, o, c);
    if o.orderType.LMT? then Success(reference) else Slipped(spec, reference, o.side)
  }

  // Inserts a level into a list already in the order the price reaches it, after its equals.
  function InsertLevel(levels: seq<Level>, level: Level, isLong: bool): seq<Level> {
    if levels == [] then [level]
    else
      var init, top := levels[..|levels| - 1], levels[|levels| - 1];
      if (if isLong then top.price > level.price else top.price < level.price)
      then InsertLevel(init, level, isLong) + [top] else levels + [level]
  }

  function SortLevels(levels: seq<Level>, isLong: bool): seq<Level> {
    if levels == [] then []
    else InsertLevel(SortLevels(levels[..|levels| - 1], isLong), levels[|levels| - 1], isLong)
  }

  function PendingPartials(o: Order, spec: Option<FuturesSpec>): Option<seq<Partial>> {
    if o.partials == [] then None
    else
      var sorted := SortLevels(o.partials, o.side.Buy?);
      Some(seq(|sorted|, i requires 0 <= i < |sorted| =>
        Partial(sorted[i].fraction, Snapped(spec, sorted[i].price, o.side.Opposite(), Limit), false)))
  }

  function Notional(price: real, quantity: real, multiplier: real): real {
    price * quantity * multiplier
  }

  function Weighted(a: real, weightA: real, b: real, weightB: real): real {
    if weightA + weightB > 0.0 then (a * weightA + b * weightB) / (weightA + weightB) else b
  }

  predicate Gated(activationR: Option<real>) {
    activationR.Some? && activationR.value > 0.0
  }

  // The position after an opening fill: a new one, or `existing` with the order's quantity added.
  function Opened(
    m: Market, existing: Option<Position>, newId: nat, pending: PendingOrder, c: Candle, price: real, rate: real,
    spec: Option<FuturesSpec>): Position
  {
    var o := pending.order;
    var quantity := SignedQuantity(o.side, o.quantity);
    var multiplier := m.priceMultiplier(o.instrument);
    var stop := if o.stop.Some? then Some(Snapped(spec, o.stop.value, o.side.Opposite(), Stop)) else None;
    var target :=
      if o.takeProfit.Some? then Some(Snapped(spec, o.takeProfit.value, o.side.Opposite(), Limit)) else None;
    var added := Abs(Notional(price, Abs(quantity), multiplier));
    match existing
    case None =>
      Position(newId, o.instrument, o.conid, quantity, Abs(quantity), price, stop, stop, target,
               PendingPartials(o, spec), o.trailingStopPct, o.trailingStopActivationR,
               !Gated(o.trailingStopActivationR), if quantity > 0.0 then Some(price) else None,
               if quantity < 0.0 then Some(price) else None, c.ts, pending.id, o.strategy,
               if quantity < 0.0 then Sell else Buy, multiplier, rate, spec)
    case Some(p) =>
      var carried := Abs(Notional(p.averageCost, Abs(p.quantity), p.priceMultiplier));
      Position(p.id, o.instrument, o.conid, p.quantity + quantity, p.originalQuantityAbs + Abs(quantity),
               Weighted(p.averageCost, Abs(p.quantity), price, Abs(quantity)), stop, FirstOf(p.initialStop, stop),
               target, FirstOf(p.partials, PendingPartials(o, spec)), FirstOf(p.trailingStopPct, o.trailingStopPct),
               FirstOf(p.trailingStopActivationR, o.trailingStopActivationR), p.trailActivated,
               if p.peakPrice.Some? then Some(Max(p.peakPrice.value, price))
               else if quantity > 0.0 then Some(price) else None,
               if p.troughPrice.Some? then Some(Min(p.troughPrice.value, price))
               else if quantity < 0.0 then Some(price) else None,
               p.entryAt, pending.id, o.strategy, if quantity < 0.0 then Sell else Buy, multiplier,
               Weighted(p.fxToBaseAtEntry, carried, rate, added), spec)
  }

  function WithOpened(b: Book, existing: Option<Position>, position: Position, quantity: real): Book {
    b.(positions := b.positions[position.symbol := position],
       nextPositionId := if existing.None? then b.nextPositionId + 1 else b.nextPositionId,
       entries := b.entries + [Entry(position.id, quantity)])
  }

  function Executed(b: Book, orderId: nat): Book {
    b.(orders := b.orders[orderId := Filled])
  }

  predicate Adds(existing: Option<Position>, o: Order) {
    existing.None? || Sign(existing.value.quantity) == Sign(SignedQuantity(o.side, o.quantity))
  }

  function OpenOrAddTo(
    m: Market, b: Book, existing: Option<Position>, pending: PendingOrder, c: Candle, price: real,
    spec: Option<FuturesSpec>): Result<Book, SimError>
  {
    if spec.Some? && existing.Some? then Failure(Pyramiding)
    else
      match m.fx(pending.order.instrument, c.ts)
      case None => Failure(MissingFx(pending.order.instrument))
      case Some(rate) =>
        var position := Opened(m, existing, b.nextPositionId, pending, c, price, rate, spec);
        Success(WithOpened(b, existing, position, Abs(pending.order.quantity)))
  }

  // What an order does to the book at its fill price.
  function Settle(
    m: Market, b: Book, pending: PendingOrder, c: Candle, price: real, spec: Option<FuturesSpec>)
    : Result<Book, SimError>
  {
    var o := pending.order;
    var existing := Held(b, o.instrument);
    if o.effect.CloseOrReduce? then
      if existing.None? then Success(b) else Close(m, b, existing.value, price, c.ts, ManagedExit, pending.id)
    else if Adds(existing, o) then OpenOrAddTo(m, b, existing, pending, c, price, spec)
    else Close(m, b, existing.value, price, c.ts, OppositeSignal, pending.id)
  }

  function FillOrder(m: Market, b: Book, pending: PendingOrder, c: Candle): Result<Book, SimError> {
    var spec := SpecOf(m, pending.order, c);
    if spec.Some? && !WholeContracts(pending.order.quantity) then Failure(NotWholeContracts)
    else
      var price :- EntryPrice(spec, pending.order, c);
      var settled :- Settle(m, b, pending, c, price, spec);
      Success(Executed(settled, pending.id))
  }

  predicate Waits(p: PendingOrder, c: Candle) {
    p.order.instrument != c.symbol || c.ts <= p.generatedAt
  }

  // One pending order meets a candle; `b.pending` collects the orders that stay.
  function SweepOne(m: Market, b: Book, p: PendingOrder, c: Candle): Result<Book, SimError> {
    if Waits(p, c) then Success(b.(pending := b.pending + [p]))
    else if Touched(m, p.order, c) then FillOrder(m, b, p, c)
    else if p.remaining - 1 <= 0 then Success(b.(orders := b.orders[p.id := Cancelled]))
    else Success(b.(pending := b.pending + [p.(remaining := p.remaining - 1)]))
  }

  function Sweep(m: Market, b: Book, pending: seq<PendingOrder>, c: Candle): Result<Book, SimError> {
    if pending == [] then Success(b.(pending := []))
    else
      var swept :- Sweep(m, b, pending[..|pending| - 1], c);
      SweepOne(m, swept, pending[|pending| - 1], c)
  }

  // ----- brackets

  predicate StopTouched(p: Position, c: Candle) {
    p.stop.Some? && if p.IsLong() then c.low <= p.stop.value else c.high >= p.stop.value
  }

  predicate Reached(c: Candle, price: real, isLong: bool) {
    if isLong then c.high >= price else c.low <= price
  }

  function StopExit(m: Market, b: Book, p: Position, c: Candle): Result<Book, SimError>
    requires p.stop.Some?
  {
    var side := if p.IsLong() then Sell else Buy;
    var reference := if p.futuresSpec.Some?
                     then StopExitReference(side, p.stop.value, c.open, p.futuresSpec.value.tickSize)
                     else p.stop.value;
    var price :- Slipped(p.futuresSpec, reference, side);
    Close(m, b, p, price, c.ts, StopHit, p.orderId)
  }

  // The price `multiple` initial risks beyond the average cost, on the winning side.
  function AtR(p: Position, risk: real, multiple: real): real {
    if p.IsLong() then p.averageCost + risk * multiple else p.averageCost - risk * multiple
  }

  function Risk(p: Position): real
    requires p.initialStop.Some?
  {
    if p.IsLong() then p.averageCost - p.initialStop.value else p.initialStop.value - p.averageCost
  }

  // The stop still at its initial level, untouched by this candle, and the price `multiple` risks in the money.
  predicate LocksAt(p: Position, c: Candle, multiple: real) {
    && p.initialStop.Some? && p.stop == p.initialStop && Risk(p) > 0.0
    && Reached(c, AtR(p, Risk(p), multiple), p.IsLong())
    && !(if p.IsLong() then c.low <= p.initialStop.value else c.high >= p.initialStop.value)
  }

  function BreakEven(p: Position, c: Candle): Position {
    if p.strategy.MomentumBreakdownShort? && LocksAt(p, c, 1.0) then p.(stop := Some(p.averageCost)) else p
  }

  function LockOneR(p: Position, c: Candle): Position {
    if p.strategy.MomentumBreakoutLong? && LocksAt(p, c, 3.0) then p.(stop := Some(AtR(p, Risk(p), 1.0))) else p
  }

  function WithPosition(b: Book, p: Position): Book {
    b.(positions := b.positions[p.symbol := p])
  }

  function Share(p: Position, fraction: real): real {
    p.originalQuantityAbs * fraction
  }

  function PartialQuantity(p: Position, fraction: real): real {
    Min(Share(p, fraction).Floor as real, Abs(p.quantity))
  }

  // Takes level `k` of the ladder: it is spent even when it is too small to close anything.
  function TakePartial(m: Market, b: Book, p: Position, k: nat, at: int): Result<Book, SimError>
    requires p.partials.Some? && k < |p.partials.value|
  {
    var level := p.partials.value[k];
    var spent := p.(partials := Some(p.partials.value[k := level.(executed := true)]));
    var quantity := PartialQuantity(p, level.fraction);
    if quantity > 0.0
    then Exit(m, WithPosition(b, spent), spent, quantity, level.price, at, PartialTakeProfit, spent.orderId)
    else Success(WithPosition(b, spent))
  }

  predicate TakesLevel(p: Position, k: nat, c: Candle, isLong: bool) {
    && p.partials.Some? && k < |p.partials.value| && !p.partials.value[k].executed
    && Reached(c, p.partials.value[k].price, isLong)
  }

  // The first `n` levels of the ladder, until the position is drained.
  function TakePartials(m: Market, b: Book, symbol: string, c: Candle, isLong: bool, n: nat): Result<Book, SimError> {
    if n == 0 then Success(b)
    else
      var taken :- TakePartials(m, b, symbol, c, isLong, n - 1);
      if symbol in taken.positions && TakesLevel(taken.positions[symbol], n - 1, c, isLong)
      then TakePartial(m, taken, taken.positions[symbol], n - 1, c.ts) else Success(taken)
  }

  function Levels(p: Position): nat {
    if p.partials.Some? then |p.partials.value| else 0
  }

  // A stop pulled up (long) or down (short) to `level`, never back.
  function Tightened(stop: Option<real>, level: real, isLong: bool): Option<real> {
    Some(if stop.None? then level else if isLong then Max(stop.value, level) else Min(stop.value, level))
  }

  function Watermark(p: Position, c: Candle): real {
    if p.IsLong() then Max(OrElse(p.peakPrice, c.high), c.high) else Min(OrElse(p.troughPrice, c.low), c.low)
  }

  predicate Activates(p: Position, mark: real) {
    && !p.trailActivated && Gated(p.trailingStopActivationR) && p.initialStop.Some? && Risk(p) > 0.0
    && var level := AtR(p, Risk(p), p.trailingStopActivationR.value);
       if p.IsLong() then mark >= level else mark <= level
  }

  function Activated(p: Position, mark: real): Position {
    if Activates(p, mark)
    then p.(trailActivated := true, stop := Tightened(p.stop, p.averageCost, p.IsLong())) else p
  }

  function TrailedStop(p: Position, mark: real, pct: real): real {
    if p.IsLong() then Snapped(p.futuresSpec, mark * (1.0 - pct / 100.0), Sell, Stop)
    else Snapped(p.futuresSpec, mark * (1.0 + pct / 100.0), Buy, Stop)
  }

  function Trailed(p: Position, mark: real, pct: real): Position {
    if p.trailActivated then p.(stop := Tightened(p.stop, TrailedStop(p, mark, pct), p.IsLong())) else p
  }

  function Marked(p: Position, mark: real): Position {
    if p.IsLong() then p.(peakPrice := Some(mark)) else p.(troughPrice := Some(mark))
  }

  function Trail(p: Position, c: Candle): Position {
    if p.trailingStopPct.None? || p.trailingStopPct.value <= 0.0 then p
    else
      var mark := Watermark(p, c);
      Trailed(Activated(Marked(p, mark), mark), mark, p.trailingStopPct.value)
  }

  // The end of a candle for a position that survived its ladder: the target, or the trail.
  function TargetOrTrail(m: Market, b: Book, p: Position, c: Candle): Result<Book, SimError> {
    if p.takeProfit.Some? && Reached(c, p.takeProfit.value, p.IsLong())
    then Close(m, b, p, p.takeProfit.value, c.ts, TakeProfit, p.orderId)
    else Success(WithPosition(b, Trail(p, c)))
  }

  function Managed(m: Market, b: Book, p: Position, c: Candle): Result<Book, SimError> {
    var moved := LockOneR(BreakEven(p, c), c);
    var taken :- TakePartials(m, WithPosition(b, moved), p.symbol, c, p.IsLong(), Levels(moved));
    if p.symbol in taken.positions then TargetOrTrail(m, taken, taken.positions[p.symbol], c) else Success(taken)
  }

  function BracketExit(m: Market, b: Book, c: Candle): Result<Book, SimError> {
    if c.symbol !in b.positions then Success(b)
    else
      var p := b.positions[c.symbol];
      if StopTouched(p, c) then StopExit(m, b, p, c)
      else if p.entryAt == c.ts then Success(b)
      else Managed(m, b, p, c)
  }

  // ----- new orders

  // The checks a futures order must pass before it is stored.
  function OrderFault(m: Market, b: Book, o: Order, c: Candle): Option<SimError> {
    if !m.futures(o.instrument) then None
    else if o.conid != Some(c.conid) then Some(WrongContract)
    else if m.specFor(c.conid).None? then Some(MissingSpec)
    else if !WholeContracts(o.quantity) then Some(NotWholeContracts)
    else if o.instrument in b.positions
            && Sign(b.positions[o.instrument].quantity) == (if o.side.Sell? then -1 else 1) then Some(Pyramiding)
    else if !o.orderType.MKT? && o.entry.None? then Some(MissingEntry)
    else None
  }

  function Stored(m: Market, b: Book, o: Order, c: Candle): Book {
    b.(pending := b.pending + [PendingOrder(b.nextOrderId, o, m.orderTtl, c.ts)],
       orders := b.orders[b.nextOrderId := Proposed],
       nextOrderId := b.nextOrderId + 1)
  }

  function Propose(m: Market, b: Book, c: Candle, d: Decision): Result<Book, SimError> {
    if HasPending(b.pending, c.symbol) || d.Rejected? || d.order.quantity <= 0.0 then Success(b)
    else
      match OrderFault(m, b, d.order, c)
      case Some(e) => Failure(e)
      case None => Success(Stored(m, b, d.order, c))
  }

  // ----- runs

  // What a candle does before the signal engine is asked.
  function Process(m: Market, b: Book, c: Candle): Result<Book, SimError> {
    var rolled :- Transition(m, b, c);
    var swept :- Sweep(m, rolled, rolled.pending, c);
    BracketExit(m, swept, c)
  }

  function Step(m: Market, b: Book, c: Candle, d: Decision): Result<Book, SimError> {
    var processed :- Process(m, b, c);
    Propose(m, processed, c, d)
  }

  function Start(equity: real): Book {
    Book(map[], [], map[], 0, 0, [], [], [], equity, map[])
  }

  function Steps(m: Market, equity: real, events: seq<Candle>, decisions: seq<Decision>): Result<Book, SimError>
    requires |decisions| == |events|
  {
    if events == [] then Success(Start(equity))
    else
      var n := |events| - 1;
      var b :- Steps(m, equity, events[..n], decisions[..n]);
      Step(m, b, events[n], decisions[n])
  }

  function EndPrice(b: Book, p: Position): real {
    if p.symbol in b.last then b.last[p.symbol].close else p.averageCost
  }

  function EndTime(b: Book, p: Position): int {
    if p.symbol in b.last then b.last[p.symbol].ts else p.entryAt
  }

  function EndExit(m: Market, b: Book, p: Position): Result<Book, SimError> {
    var price :- Slipped(p.futuresSpec, EndPrice(b, p), if p.IsLong() then Sell else Buy);
    var expiry := if p.conid.Some? then m.lastTradeAt(p.conid.value) else None;
    var reason := if expiry.Some? && m.datasetEnd.Some? && m.datasetEnd.value >= expiry.value
                  then Expiry else DatasetEnd;
    Close(m, b, p, price, EndTime(b, p), reason, p.orderId)
  }

  // Closes what is left, symbol by symbol in the given order.
  function CloseAll(m: Market, b: Book, order: seq<string>): Result<Book, SimError> {
    if order == [] then Success(b)
    else
      var closed :- CloseAll(m, b, order[..|order| - 1]);
      var symbol := order[|order| - 1];
      if symbol in closed.positions then EndExit(m, closed, closed.positions[symbol]) else Success(closed)
  }

  datatype Totals = Totals(totalPnl: real, trades: nat, wins: nat, winRate: real)

  function SumPnl(trades: seq<ClosedTrade>): real {
    if trades == [] then 0.0 else SumPnl(trades[..|trades| - 1]) + trades[|trades| - 1].pnl
  }

  function Wins(trades: seq<ClosedTrade>): nat {
    if trades == [] then 0
    else Wins(trades[..|trades| - 1]) + (if trades[|trades| - 1].pnl > 0.0 then 1 else 0)
  }

  function TotalsOf(trades: seq<ClosedTrade>): Totals {
    var wins := Wins(trades);
    Totals(SumPnl(trades), |trades|, wins, if trades == [] then 0.0 else wins as real / |trades| as real)
  }
}
