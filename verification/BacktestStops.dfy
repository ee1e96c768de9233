/**
 * The stop ratchet: between entry fills a stop only ever tightens and an activated gate is never given back, through
 * break-even moves, profit locks, trailing and partial exits in any order.
 */
module BacktestStops {
  import opened Outcomes
  import opened Aggregation
  import opened BarExecution
  import opened BacktestModel
  import opened BacktestLedger
  import opened BacktestConservation

  // `q`'s stop is no further from the market than `p`'s.
  predicate NotLooser(p: Position, q: Position) {
    p.stop.Some? ==> q.stop.Some? && if p.IsLong() then q.stop.value >= p.stop.value else q.stop.value <= p.stop.value
  }

  // An activated gated trail protects at least the average cost.
  predicate GateHolds(p: Position) {
    Gated(p.trailingStopActivationR) && p.trailActivated ==>
      p.stop.Some? && if p.IsLong() then p.stop.value >= p.averageCost else p.stop.value <= p.averageCost
  }

  function Mark(p: Position): Option<real> {
    if p.IsLong() then p.peakPrice else p.troughPrice
  }

  // A gated trail is active exactly when the best price seen has reached its multiple of the initial risk.
  predicate GateIsExact(p: Position) {
    Gated(p.trailingStopActivationR) && p.trailingStopPct.Some? && p.trailingStopPct.value > 0.0 && p.initialStop.Some?
    && Risk(p) > 0.0 ==>
      var level := AtR(p, Risk(p), p.trailingStopActivationR.value);
      p.trailActivated <==> Mark(p).Some? && if p.IsLong() then Mark(p).value >= level else Mark(p).value <= level
  }

  // Without a trail, a stop is where the order put it, or the strategy's lock moved it: to the average cost for a
  // breakdown short, one initial risk beyond it for a breakout long.
  predicate StopIsPlaced(p: Position) {
    p.trailingStopPct.None? || p.trailingStopPct.value <= 0.0 ==>
      || p.stop == p.initialStop
      || (p.initialStop.Some? && Risk(p) > 0.0 && p.stop.Some?
          && (p.strategy.MomentumBreakdownShort? || p.strategy.MomentumBreakoutLong?)
          && p.stop.value == if p.strategy.MomentumBreakdownShort? then p.averageCost else AtR(p, Risk(p), 1.0))
  }

  // The same position without an entry fill in between.
  predicate Ratchets(p: Position, q: Position) {
    Tightens(p, q) && (GateIsExact(p) ==> GateIsExact(q)) && (StopIsPlaced(p) ==> StopIsPlaced(q))
  }

  predicate Tightens(p: Position, q: Position) {
    && q.id == p.id && q.symbol == p.symbol && q.originalQuantityAbs == p.originalQuantityAbs
    && Sign(q.quantity) == Sign(p.quantity) && q.averageCost == p.averageCost && q.futuresSpec == p.futuresSpec
    && NotLooser(p, q) && (GateHolds(p) ==> GateHolds(q))
  }

  // No entry fills, and every position left has only ratcheted.
  ghost predicate Steady(b: Book, after: Book) {
    && after.entries == b.entries && after.nextPositionId == b.nextPositionId
    && forall s :: s in after.positions ==> s in b.positions && Ratchets(b.positions[s], after.positions[s])
  }

  lemma SteadyTwice(a: Book, b: Book, c: Book)
    requires Steady(a, b) && Steady(b, c)
    ensures Steady(a, c)
  {
  }

  // ----- each move

  lemma LocksRatchet(p: Position, c: Candle)
    ensures Ratchets(p, LockOneR(BreakEven(p, c), c))
  {
    BreakEvenRatchets(p, c);
    LockRatchets(BreakEven(p, c), c);
    hide BreakEven, LockOneR;
  }

  lemma LocksKeepHolding(p: Position, c: Candle)
    ensures SameHolding(p, LockOneR(BreakEven(p, c), c)) && LockOneR(BreakEven(p, c), c).symbol == p.symbol
  {
    hide LocksAt, AtR;
  }

  lemma BreakEvenRatchets(p: Position, c: Candle)
    ensures Ratchets(p, BreakEven(p, c))
  {
  }

  lemma LockRatchets(p: Position, c: Candle)
    ensures Ratchets(p, LockOneR(p, c))
  {
  }

  lemma TrailRatchets(p: Position, c: Candle)
    ensures Ratchets(p, Trail(p, c))
  {
    if p.trailingStopPct.Some? {
      var mark := Watermark(p, c);
      var pct := p.trailingStopPct.value;
      MarkTightens(p, mark);
      ActivationTightens(Marked(p, mark), mark);
      TrailingTightens(Activated(Marked(p, mark), mark), mark, pct);
      if GateIsExact(p) {
        TrailIsExact(p, c);
      }
      TrailIsTrailed(p, c);
      hide Marked, Watermark, Activated, Trailed, GateIsExact, StopIsPlaced;
    }
  }

  lemma TrailIsTrailed(p: Position, c: Candle)
    requires p.trailingStopPct.Some?
    ensures StopIsPlaced(p) ==> StopIsPlaced(Trail(p, c))
  {
    hide TrailedStop, Activates;
  }

  lemma TrailIsExact(p: Position, c: Candle)
    requires GateIsExact(p)
    ensures GateIsExact(Trail(p, c))
  {
    hide TrailedStop;
  }

  lemma MarkTightens(p: Position, mark: real)
    ensures Tightens(p, Marked(p, mark))
  {
  }

  lemma ActivationTightens(p: Position, mark: real)
    ensures Tightens(p, Activated(p, mark))
  {
    hide Activates;
  }

  lemma TrailingTightens(p: Position, mark: real, pct: real)
    ensures Tightens(p, Trailed(p, mark, pct))
  {
    hide TrailedStop;
  }

  // ----- each phase of a candle

  lemma ExitIsSteady(
    m: Market, b: Book, p: Position, quantity: real, price: real, at: int, reason: ExitReason, orderId: nat)
    requires p.symbol in b.positions && b.positions[p.symbol] == p && 0.0 < quantity <= Abs(p.quantity)
    ensures var r := Exit(m, b, p, quantity, price, at, reason, orderId); r.Success? ==> Steady(b, r.value)
  {
    hide ExitPnl;
  }

  lemma CloseIsSteady(m: Market, b: Book, p: Position, price: real, at: int, reason: ExitReason, orderId: nat)
    requires p.symbol in b.positions && b.positions[p.symbol] == p
    ensures var r := Close(m, b, p, price, at, reason, orderId); r.Success? ==> Steady(b, r.value)
  {
    if Abs(p.quantity) > 0.0 {
      ExitIsSteady(m, b, p, Abs(p.quantity), price, at, reason, orderId);
    }
    hide Exit;
  }

  lemma TransitionIsSteady(m: Market, start: real, b: Book, c: Candle)
    requires Balanced(start, b)
    ensures var r := Transition(m, b, c); r.Success? ==> Steady(b, r.value)
  {
    if Rolls(m, b, c) && c.symbol in b.positions {
      HeldIsOwned(start, b, c.symbol);
      var p, previous := b.positions[c.symbol], b.last[c.symbol];
      var price := Slipped(p.futuresSpec, previous.close, if p.IsLong() then Sell else Buy);
      if price.Success? {
        var expiry := m.lastTradeAt(previous.conid);
        var reason := if expiry.Some? && c.ts >= expiry.value then Expiry else ContractRoll;
        CloseIsSteady(m, b, p, price.value, previous.ts, reason, p.orderId);
      }
    }
    hide Close, Slipped;
  }

  lemma RebracketIsSteady(b: Book, p: Position, q: Position)
    requires p.symbol in b.positions && b.positions[p.symbol] == p && Ratchets(p, q)
    ensures Steady(b, WithPosition(b, q))
  {
    SteadyItself(b);
    assert q.symbol == p.symbol;
    hide Ratchets;
  }

  lemma TakePartialIsSteady(m: Market, b: Book, p: Position, k: nat, at: int)
    requires p.symbol in b.positions && b.positions[p.symbol] == p && p.partials.Some? && k < |p.partials.value|
    ensures var r := TakePartial(m, b, p, k, at); r.Success? ==> Steady(b, r.value)
  {
    var level := p.partials.value[k];
    var spent := p.(partials := Some(p.partials.value[k := level.(executed := true)]));
    RebracketIsSteady(b, p, spent);
    var quantity := PartialQuantity(p, level.fraction);
    if quantity > 0.0 {
      ExitIsSteady(m, WithPosition(b, spent), spent, quantity, level.price, at, PartialTakeProfit, spent.orderId);
    }
    hide Exit, Ratchets;
    var r := TakePartial(m, b, p, k, at);
    if r.Success? {
      SteadyTwice(b, WithPosition(b, spent), r.value);
    }
  }

  lemma {:induction false} PartialsAreSteady(
    m: Market, start: real, b: Book, symbol: string, c: Candle, isLong: bool, n: nat)
    requires Balanced(start, b)
    ensures var r := TakePartials(m, b, symbol, c, isLong, n); r.Success? ==> Steady(b, r.value)
  {
    hide TakePartial, Balanced;
    if n > 0 {
      PartialsAreSteady(m, start, b, symbol, c, isLong, n - 1);
      TakePartialsBalances(m, start, b, symbol, c, isLong, n - 1);
      var taken := TakePartials(m, b, symbol, c, isLong, n - 1);
      if taken.Success? && symbol in taken.value.positions {
        HeldIsOwned(start, taken.value, symbol);
        var p := taken.value.positions[symbol];
        if TakesLevel(p, n - 1, c, isLong) {
          TakePartialIsSteady(m, taken.value, p, n - 1, c.ts);
          var r := TakePartial(m, taken.value, p, n - 1, c.ts);
          if r.Success? {
            SteadyTwice(b, taken.value, r.value);
          }
        }
      }
    }
  }

  lemma TargetOrTrailIsSteady(m: Market, b: Book, p: Position, c: Candle)
    requires p.symbol in b.positions && b.positions[p.symbol] == p
    ensures var r := TargetOrTrail(m, b, p, c); r.Success? ==> Steady(b, r.value)
  {
    if p.takeProfit.Some? {
      CloseIsSteady(m, b, p, p.takeProfit.value, c.ts, TakeProfit, p.orderId);
    }
    TrailRatchets(p, c);
    hide Close, Trail;
    RebracketIsSteady(b, p, Trail(p, c));
  }

  lemma ManagedIsSteady(m: Market, start: real, b: Book, p: Position, c: Candle)
    requires Balanced(start, b) && p.symbol in b.positions && b.positions[p.symbol] == p
    ensures var r := Managed(m, b, p, c); r.Success? ==> Steady(b, r.value)
  {
    hide LockOneR, BreakEven, TargetOrTrail, TakePartials, Balanced, Ratchets, SameHolding;
    var moved := LockOneR(BreakEven(p, c), c);
    LocksRatchet(p, c);
    LocksKeepHolding(p, c);
    WithPositionBalances(start, b, p, moved);
    RebracketIsSteady(b, p, moved);
    assert Owns(WithPosition(b, moved), moved);
    PartialsAreSteady(m, start, WithPosition(b, moved), p.symbol, c, p.IsLong(), Levels(moved));
    TakePartialsBalances(m, start, WithPosition(b, moved), p.symbol, c, p.IsLong(), Levels(moved));
    var taken := TakePartials(m, WithPosition(b, moved), p.symbol, c, p.IsLong(), Levels(moved));
    if taken.Success? {
      SteadyTwice(b, WithPosition(b, moved), taken.value);
      if p.symbol in taken.value.positions {
        HeldIsOwned(start, taken.value, p.symbol);
        TargetOrTrailIsSteady(m, taken.value, taken.value.positions[p.symbol], c);
        var r := TargetOrTrail(m, taken.value, taken.value.positions[p.symbol], c);
        if r.Success? {
          SteadyTwice(b, taken.value, r.value);
        }
      }
    }
  }

  lemma StopExitIsSteady(m: Market, b: Book, p: Position, c: Candle)
    requires p.symbol in b.positions && b.positions[p.symbol] == p && p.stop.Some?
    ensures var r := StopExit(m, b, p, c); r.Success? ==> Steady(b, r.value)
  {
    var side := if p.IsLong() then Sell else Buy;
    var reference := if p.futuresSpec.Some?
                     then StopExitReference(side, p.stop.value, c.open, p.futuresSpec.value.tickSize)
                     else p.stop.value;
    var price := Slipped(p.futuresSpec, reference, side);
    if price.Success? {
      CloseIsSteady(m, b, p, price.value, c.ts, StopHit, p.orderId);
    }
    hide Close, Slipped, StopExitReference;
  }

  lemma BracketIsSteady(m: Market, start: real, b: Book, c: Candle)
    requires Balanced(start, b)
    ensures var r := BracketExit(m, b, c); r.Success? ==> Steady(b, r.value)
  {
    hide StopExit, Managed, Balanced;
    if c.symbol in b.positions {
      HeldIsOwned(start, b, c.symbol);
      var p := b.positions[c.symbol];
      if StopTouched(p, c) {
        StopExitIsSteady(m, b, p, c);
      } else if p.entryAt != c.ts {
        ManagedIsSteady(m, start, b, p, c);
      }
    }
  }

  // ----- across entry fills

  function EntryCount(entries: seq<Entry>, id: nat): nat {
    if entries == [] then 0
    else EntryCount(entries[..|entries| - 1], id) + if entries[|entries| - 1].positionId == id then 1 else 0
  }

  lemma AppendEntry(entries: seq<Entry>, e: Entry, id: nat)
    ensures EntryCount(entries + [e], id) == EntryCount(entries, id) + if e.positionId == id then 1 else 0
  {
    assert (entries + [e])[..|entries|] == entries;
  }

  // An older position in the later book is the same one, with at least as much put on; with exactly as much, it has
  // only ratcheted.
  predicate Continues(p: Position, q: Position) {
    q.id == p.id && q.originalQuantityAbs >= p.originalQuantityAbs
    && (q.originalQuantityAbs == p.originalQuantityAbs ==> Ratchets(p, q))
  }

  ghost predicate Evolves(b: Book, after: Book) {
    && b.nextPositionId <= after.nextPositionId
    && forall s :: s in after.positions && after.positions[s].id < b.nextPositionId ==>
         s in b.positions && Continues(b.positions[s], after.positions[s])
  }

  lemma SteadyEvolves(b: Book, after: Book)
    requires Steady(b, after)
    ensures Evolves(b, after)
  {
    hide Ratchets;
    forall s | s in after.positions
      ensures s in b.positions && Continues(b.positions[s], after.positions[s])
    {
      assert Ratchets(b.positions[s], after.positions[s]);
      RatchetsContinue(b.positions[s], after.positions[s]);
    }
  }

  lemma RatchetsContinue(p: Position, q: Position)
    requires Ratchets(p, q)
    ensures Continues(p, q)
  {
  }

  lemma ContinuesTwice(p: Position, q: Position, r: Position)
    requires Continues(p, q) && Continues(q, r)
    ensures Continues(p, r)
  {
  }

  lemma EvolvesTwice(a: Book, b: Book, c: Book)
    requires Evolves(a, b) && Evolves(b, c)
    ensures Evolves(a, c)
  {
    hide Continues;
    forall s | s in c.positions && c.positions[s].id < a.nextPositionId
      ensures s in a.positions && Continues(a.positions[s], c.positions[s])
    {
      assert s in b.positions && Continues(b.positions[s], c.positions[s]);
      ContinuesKeepsId(b.positions[s], c.positions[s]);
      ContinuesTwice(a.positions[s], b.positions[s], c.positions[s]);
    }
  }

  lemma ContinuesKeepsId(p: Position, q: Position)
    requires Continues(p, q)
    ensures p.id == q.id
  {
  }

  // What holds of a position entered by one fill, from then on.
  predicate EnteredOnce(p: Position) {
    GateHolds(p) && GateIsExact(p) && StopIsPlaced(p)
  }

  // Every position entered by a single fill keeps its gate; every numbered position has had an entry.
  ghost predicate GatesHold(b: Book) {
    && (forall s :: s in b.positions ==>
         EntryCount(b.entries, b.positions[s].id) > 0
         && (EntryCount(b.entries, b.positions[s].id) == 1 ==>
              EnteredOnce(b.positions[s]))
         && (b.positions[s].futuresSpec.Some? ==> EntryCount(b.entries, b.positions[s].id) == 1))
    && forall id: nat :: id >= b.nextPositionId ==> EntryCount(b.entries, id) == 0
  }

  lemma SteadyKeepsGates(b: Book, after: Book)
    requires GatesHold(b) && Steady(b, after)
    ensures GatesHold(after)
  {
    hide GateHolds, GateIsExact, StopIsPlaced, NotLooser, EntryCount;
    forall s | s in after.positions
      ensures EntryCount(b.entries, after.positions[s].id) == 1 ==>
                EnteredOnce(after.positions[s])
    {
      assert Ratchets(b.positions[s], after.positions[s]);
    }
  }

  lemma OpeningEvolves(
    m: Market, start: real, b: Book, pending: PendingOrder, c: Candle, price: real, rate: real,
    spec: Option<FuturesSpec>)
    requires Balanced(start, b) && pending.order.quantity > 0.0
    requires var existing := Held(b, pending.order.instrument);
      Adds(existing, pending.order) && (spec.Some? ==> existing.None?)
    ensures var existing := Held(b, pending.order.instrument);
      var q := Opened(m, existing, b.nextPositionId, pending, c, price, rate, spec);
      var after := WithOpened(b, existing, q, Abs(pending.order.quantity));
      Evolves(b, after) && (GatesHold(b) ==> GatesHold(after))
  {
    var o := pending.order;
    var existing := Held(b, o.instrument);
    var q := Opened(m, existing, b.nextPositionId, pending, c, price, rate, spec);
    assert existing.Some? ==> q.id == existing.value.id && q.originalQuantityAbs > existing.value.originalQuantityAbs;
    assert existing.None? ==> q.id == b.nextPositionId && EnteredOnce(q);
    assert q.symbol == o.instrument && (q.futuresSpec.Some? ==> existing.None?);
    hide Opened, GateHolds, GateIsExact, StopIsPlaced, NotLooser;
    EnteringEvolves(start, b, existing, q, Abs(o.quantity));
  }

  lemma EnteringEvolves(start: real, b: Book, existing: Option<Position>, q: Position, quantity: real)
    requires Balanced(start, b) && existing == Held(b, q.symbol)
    requires existing.Some? ==>
               q.id == existing.value.id && q.originalQuantityAbs > existing.value.originalQuantityAbs
               && q.futuresSpec.None?
    requires existing.None? ==> q.id == b.nextPositionId && EnteredOnce(q)
    ensures var after := WithOpened(b, existing, q, quantity);
      Evolves(b, after) && (GatesHold(b) ==> GatesHold(after))
  {
    forall s | s in b.positions
      ensures b.positions[s].id < b.nextPositionId && (s != q.symbol ==> b.positions[s].id != q.id)
      ensures Continues(b.positions[s], b.positions[s])
    {
      assert PositionBalances(b, s, b.positions[s]);
      RatchetsItself(b.positions[s]);
    }
    hide GateHolds, GateIsExact, StopIsPlaced, Ratchets, EntryCount, Balanced;
    var after := WithOpened(b, existing, q, quantity);
    if GatesHold(b) {
      EnteringKeepsGates(b, existing, q, quantity);
    }
    hide GatesHold;
  }

  lemma EnteringKeepsGates(b: Book, existing: Option<Position>, q: Position, quantity: real)
    requires GatesHold(b) && existing == Held(b, q.symbol)
    requires existing.Some? ==> q.id == existing.value.id && q.futuresSpec.None?
    requires existing.None? ==> q.id == b.nextPositionId && EnteredOnce(q)
    requires forall s :: s in b.positions ==>
               b.positions[s].id < b.nextPositionId && (s != q.symbol ==> b.positions[s].id != q.id)
    ensures GatesHold(WithOpened(b, existing, q, quantity))
  {
    var after := WithOpened(b, existing, q, quantity);
    forall id: nat
      ensures EntryCount(after.entries, id) == EntryCount(b.entries, id) + if q.id == id then 1 else 0
    {
      AppendEntry(b.entries, Entry(q.id, quantity), id);
    }
    hide GateHolds, GateIsExact, StopIsPlaced, EntryCount;
  }

  lemma RatchetsItself(p: Position)
    ensures Ratchets(p, p) && Continues(p, p)
  {
  }

  lemma SteadyItself(b: Book)
    ensures Steady(b, b)
  {
    forall s | s in b.positions
      ensures Ratchets(b.positions[s], b.positions[s])
    {
      RatchetsItself(b.positions[s]);
    }
  }

  lemma SettleEvolves(
    m: Market, start: real, b: Book, pending: PendingOrder, c: Candle, price: real, spec: Option<FuturesSpec>)
    requires Balanced(start, b) && pending.order.quantity > 0.0
    ensures var r := Settle(m, b, pending, c, price, spec);
      r.Success? ==> Evolves(b, r.value) && (GatesHold(b) ==> GatesHold(r.value))
  {
    hide Close, Opened, Balanced, Evolves, GatesHold, Steady, WithOpened;
    var o := pending.order;
    var existing := Held(b, o.instrument);
    var r := Settle(m, b, pending, c, price, spec);
    SteadyItself(b);
    if r.Success? {
      if !o.effect.CloseOrReduce? && Adds(existing, o) {
        OpeningEvolves(m, start, b, pending, c, price, m.fx(o.instrument, c.ts).value, spec);
      } else {
        if existing.Some? {
          HeldIsOwned(start, b, o.instrument);
          CloseIsSteady(m, b, existing.value, price, c.ts, ManagedExit, pending.id);
          CloseIsSteady(m, b, existing.value, price, c.ts, OppositeSignal, pending.id);
        }
        assert Steady(b, r.value);
        SteadyEvolves(b, r.value);
        if GatesHold(b) {
          SteadyKeepsGates(b, r.value);
        }
      }
    }
  }

  // The relation a phase of the candle keeps.
  ghost predicate Moves(b: Book, after: Book) {
    Evolves(b, after) && (GatesHold(b) ==> GatesHold(after))
  }

  lemma MovesTwice(a: Book, b: Book, c: Book)
    requires Moves(a, b) && Moves(b, c)
    ensures Moves(a, c)
  {
    hide GatesHold, Evolves;
    EvolvesTwice(a, b, c);
  }

  lemma SteadyMoves(b: Book, after: Book)
    requires Steady(b, after)
    ensures Moves(b, after)
  {
    hide GatesHold, Evolves, Steady;
    SteadyEvolves(b, after);
    if GatesHold(b) {
      SteadyKeepsGates(b, after);
    }
  }

  lemma SameMoves(b: Book, after: Book)
    requires SameLedger(b, after)
    ensures Moves(b, after)
  {
    SteadyItself(b);
    assert Steady(b, after);
    SteadyMoves(b, after);
  }

  lemma SweepOneMoves(m: Market, start: real, b: Book, p: PendingOrder, c: Candle)
    requires Balanced(start, b) && p.order.quantity > 0.0
    ensures var r := SweepOne(m, b, p, c); r.Success? ==> Moves(b, r.value)
  {
    hide Settle, EntryPrice, Touched, Balanced, Moves;
    var r := SweepOne(m, b, p, c);
    if r.Success? {
      if !Waits(p, c) && Touched(m, p.order, c) {
        var spec := SpecOf(m, p.order, c);
        var price := EntryPrice(spec, p.order, c).value;
        SettleMoves(m, start, b, p, c, price, spec);
        var settled := Settle(m, b, p, c, price, spec).value;
        SameMoves(settled, r.value);
        MovesTwice(b, settled, r.value);
      } else {
        SameMoves(b, r.value);
      }
    }
  }

  lemma SettleMoves(
    m: Market, start: real, b: Book, pending: PendingOrder, c: Candle, price: real, spec: Option<FuturesSpec>)
    requires Balanced(start, b) && pending.order.quantity > 0.0
    ensures var r := Settle(m, b, pending, c, price, spec); r.Success? ==> Moves(b, r.value)
  {
    SettleEvolves(m, start, b, pending, c, price, spec);
    hide Settle, Balanced, Evolves, GatesHold;
  }

  lemma {:induction false} SweepMoves(m: Market, start: real, b: Book, pending: seq<PendingOrder>, c: Candle)
    requires Balanced(start, b) && PositiveOrders(pending)
    ensures var r := Sweep(m, b, pending, c); r.Success? ==> Moves(b, r.value)
  {
    hide SweepOne, Balanced, Moves;
    if pending == [] {
      SameMoves(b, b.(pending := []));
    } else {
      var init, last := pending[..|pending| - 1], pending[|pending| - 1];
      assert last in pending;
      SweepMoves(m, start, b, init, c);
      SweepKeepsSound(m, start, b, init, c);
      var swept := Sweep(m, b, init, c);
      if swept.Success? {
        SweepOneMoves(m, start, swept.value, last, c);
        var r := SweepOne(m, swept.value, last, c);
        if r.Success? {
          MovesTwice(b, swept.value, r.value);
        }
      }
    }
  }

  lemma StepMoves(m: Market, start: real, b: Book, c: Candle, d: Decision)
    requires Sound(start, b)
    ensures var r := Step(m, b, c, d); r.Success? ==> Moves(b, r.value)
  {
    hide Transition, Sweep, BracketExit, Propose, Balanced, Moves;
    TransitionIsSteady(m, start, b, c);
    TransitionKeepsSound(m, start, b, c);
    var rolled := Transition(m, b, c);
    if rolled.Success? {
      SteadyMoves(b, rolled.value);
      SweepMoves(m, start, rolled.value, rolled.value.pending, c);
      SweepKeepsSound(m, start, rolled.value, rolled.value.pending, c);
      var swept := Sweep(m, rolled.value, rolled.value.pending, c);
      if swept.Success? {
        MovesTwice(b, rolled.value, swept.value);
        BracketIsSteady(m, start, swept.value, c);
        var processed := BracketExit(m, swept.value, c);
        if processed.Success? {
          SteadyMoves(swept.value, processed.value);
          MovesTwice(b, swept.value, processed.value);
          ProposeMoves(m, processed.value, c, d);
          var r := Propose(m, processed.value, c, d);
          if r.Success? {
            MovesTwice(b, processed.value, r.value);
          }
        }
      }
    }
  }

  lemma ProposeMoves(m: Market, b: Book, c: Candle, d: Decision)
    ensures var r := Propose(m, b, c, d); r.Success? ==> Moves(b, r.value)
  {
    hide Moves;
    var r := Propose(m, b, c, d);
    if r.Success? {
      SameMoves(b, r.value);
    }
  }

  // ----- whole runs

  lemma {:induction false} RunsEvolve(
    m: Market, equity: real, events: seq<Candle>, decisions: seq<Decision>, k: nat)
    requires |decisions| == |events| && k <= |events| && Steps(m, equity, events, decisions).Success?
    ensures var before := Steps(m, equity, events[..k], decisions[..k]);
      before.Success? && Evolves(before.value, Steps(m, equity, events, decisions).value)
  {
    hide Step, Evolves;
    if k == |events| {
      assert events[..k] == events && decisions[..k] == decisions;
      SteadyItself(Steps(m, equity, events, decisions).value);
      SteadyEvolves(Steps(m, equity, events, decisions).value, Steps(m, equity, events, decisions).value);
    } else {
      var n := |events| - 1;
      assert events[..n][..k] == events[..k] && decisions[..n][..k] == decisions[..k];
      RunsEvolve(m, equity, events[..n], decisions[..n], k);
      RunsConserve(m, equity, events[..n], decisions[..n]);
      var b := Steps(m, equity, events[..n], decisions[..n]).value;
      StepMoves(m, equity, b, events[n], decisions[n]);
      EvolvesTwice(Steps(m, equity, events[..k], decisions[..k]).value, b, Steps(m, equity, events, decisions).value);
    }
  }

  // From any candle of a run to any later one: a position open at both, with nothing put on in between, has the same
  // side and average cost, its stop has not fallen (long) or risen (short), and an activated gate still protects it.
  lemma StopsOnlyTighten(
    m: Market, equity: real, events: seq<Candle>, decisions: seq<Decision>, k: nat, symbol: string)
    requires |decisions| == |events| && k <= |events| && Steps(m, equity, events, decisions).Success?
    requires Steps(m, equity, events[..k], decisions[..k]).Success?
    requires symbol in Steps(m, equity, events[..k], decisions[..k]).value.positions
    requires symbol in Steps(m, equity, events, decisions).value.positions
    ensures var before := Steps(m, equity, events[..k], decisions[..k]).value;
      var after := Steps(m, equity, events, decisions).value;
      var p, q := before.positions[symbol], after.positions[symbol];
      p.id == q.id && PutOn(before.entries, p.id) == PutOn(after.entries, p.id) ==>
        && NotLooser(p, q) && (GateHolds(p) ==> GateHolds(q))
        && q.averageCost == p.averageCost && Sign(q.quantity) == Sign(p.quantity)
  {
    RunsEvolve(m, equity, events, decisions, k);
    RunsConserve(m, equity, events, decisions);
    RunsConserve(m, equity, events[..k], decisions[..k]);
    var before, after := Steps(m, equity, events[..k], decisions[..k]).value, Steps(m, equity, events, decisions).value;
    hide Steps, NotLooser, GateHolds;
    assert PositionBalances(before, symbol, before.positions[symbol]);
    assert PositionBalances(after, symbol, after.positions[symbol]);
  }

  // In every reachable book, of a position entered by one fill (as every futures position is): its gated trail is
  // active exactly when the best price seen has reached its multiple of the initial risk, and then the stop is on the
  // winning side of the average cost; without a trail the stop is the ordered one or a lock's.
  lemma {:induction false} ActivatedTrailsProtect(
    m: Market, equity: real, events: seq<Candle>, decisions: seq<Decision>)
    requires |decisions| == |events|
    ensures var r := Steps(m, equity, events, decisions); r.Success? ==> GatesHold(r.value)
  {
    hide Step, GatesHold;
    if events == [] {
      NothingHeld(equity);
    } else {
      var n := |events| - 1;
      ActivatedTrailsProtect(m, equity, events[..n], decisions[..n]);
      RunsConserve(m, equity, events[..n], decisions[..n]);
      var b := Steps(m, equity, events[..n], decisions[..n]);
      if b.Success? {
        StepMoves(m, equity, b.value, events[n], decisions[n]);
      }
    }
  }

  lemma NothingHeld(equity: real)
    ensures GatesHold(Start(equity))
  {
  }
}
