/**
 * What the simulator's prices and profits mean: fills no better than asked for, brackets as ordered, a cost basis that
 * adds up, and profit of the right sign that does not depend on how a futures exit is split.
 */
module BacktestFills {
  import opened Outcomes
  import opened Aggregation
  import opened BarExecution
  import opened BacktestModel

  // ----- entries

  // A limit order fills no worse than its limit; a futures stop or market order no better than the open, the stop and
  // the slippage allow. A stock stop fills at its stop.
  lemma EntriesFillNoBetter(m: Market, o: Order, c: Candle, price: real)
    requires EntryPrice(SpecOf(m, o, c), o, c) == Success(price)
    ensures o.orderType.LMT? && o.entry.Some? ==>
              if o.side.Buy? then price <= o.entry.value else price >= o.entry.value
    ensures o.orderType.STP? && o.entry.Some? ==>
              if o.side.Buy? then price >= o.entry.value else price <= o.entry.value
    ensures SpecOf(m, o, c).Some? && !o.orderType.LMT? ==>
              if o.side.Buy? then price >= c.open else price <= c.open
  {
    var spec := SpecOf(m, o, c);
    if spec.Some? {
      NormalizationIsConservative(OrElse(o.entry, c.open), spec.value.tickSize, o.side, InstructionOf(o.orderType));
      SlippageIsAdverse(EntryReference(spec, o, c), o.side, spec.value);
      SlippageIsNotNegative(spec.value);
    }
    hide NormalizeInstructionPrice, ApplyAdverseSlippage, OnGrid, TicksToPrice, SpecOf;
  }

  lemma SlippageIsNotNegative(spec: FuturesSpec)
    ensures TicksToPrice(spec.slippageTicks, spec.tickSize) >= 0.0
  {
  }

  // The candle really traded at a limit's fill price, and really reached a stop before it filled.
  lemma TouchedMeansReached(m: Market, o: Order, c: Candle)
    requires Touched(m, o, c) && !o.orderType.MKT?
    ensures o.entry.Some?
    ensures o.orderType.LMT? ==>
              var price := EntryReference(SpecOf(m, o, c), o, c);
              EntryPrice(SpecOf(m, o, c), o, c) == Success(price)
              && if o.side.Buy? then c.low <= price else c.high >= price
    ensures o.orderType.STP? ==> if o.side.Buy? then c.high >= o.entry.value else c.low <= o.entry.value
  {
    var spec := SpecOf(m, o, c);
    if spec.Some? {
      NormalizationIsConservative(OrElse(o.entry, c.open), spec.value.tickSize, o.side, InstructionOf(o.orderType));
    }
    hide NormalizeInstructionPrice, ApplyAdverseSlippage, OnGrid, SpecOf;
  }

  // ----- brackets

  // A new position's stop and target are the ordered ones, moved less than a tick: the stop further out, the target
  // further away.
  predicate FurtherOut(ordered: real, placed: real, tick: real, outward: Side) {
    if outward.Buy? then ordered <= placed < ordered + tick else ordered - tick < placed <= ordered
  }

  lemma BracketsAreAsOrdered(
    m: Market, newId: nat, pending: PendingOrder, c: Candle, price: real, rate: real, spec: Option<FuturesSpec>)
    ensures var o := pending.order;
      var p := Opened(m, None, newId, pending, c, price, rate, spec);
      && p.averageCost == price && p.initialStop == p.stop
      && (o.stop.Some? <==> p.stop.Some?) && (o.takeProfit.Some? <==> p.takeProfit.Some?)
      && (spec.None? ==> p.stop == o.stop && p.takeProfit == o.takeProfit)
      && (spec.Some? && o.stop.Some? ==>
           FurtherOut(o.stop.value, p.stop.value, spec.value.tickSize, o.side.Opposite()))
      && (spec.Some? && o.takeProfit.Some? ==>
           FurtherOut(o.takeProfit.value, p.takeProfit.value, spec.value.tickSize, o.side))
  {
    var o := pending.order;
    if spec.Some? {
      if o.stop.Some? {
        NormalizationIsConservative(o.stop.value, spec.value.tickSize, o.side.Opposite(), Stop);
      }
      if o.takeProfit.Some? {
        NormalizationIsConservative(o.takeProfit.value, spec.value.tickSize, o.side.Opposite(), Limit);
      }
    }
    hide NormalizeInstructionPrice, PendingPartials, OnGrid;
  }

  // Adding to a position adds its cost: what the whole cost is what the parts cost.
  lemma CostBasisAdds(
    m: Market, p: Position, newId: nat, pending: PendingOrder, c: Candle, price: real, rate: real,
    spec: Option<FuturesSpec>)
    requires p.quantity != 0.0 && pending.order.quantity > 0.0 && Adds(Some(p), pending.order)
    ensures var q := Opened(m, Some(p), newId, pending, c, price, rate, spec);
      && q.averageCost * Abs(q.quantity) == p.averageCost * Abs(p.quantity) + price * pending.order.quantity
      && q.originalQuantityAbs == p.originalQuantityAbs + pending.order.quantity
      && q.initialStop == (if p.initialStop.Some? then p.initialStop else q.stop)
  {
    var added := pending.order.quantity;
    WeightedTotal(p.averageCost, Abs(p.quantity), price, added);
    hide Weighted, PendingPartials;
    assert Abs(SignedQuantity(pending.order.side, added)) == added;
  }

  lemma WeightedTotal(a: real, weightA: real, b: real, weightB: real)
    requires weightA + weightB > 0.0
    ensures Weighted(a, weightA, b, weightB) * (weightA + weightB) == a * weightA + b * weightB
  {
    MulDiv(a * weightA + b * weightB, weightA + weightB);
  }

  predicate NotLater(a: Level, b: Level, isLong: bool) {
    if isLong then a.price <= b.price else a.price >= b.price
  }

  ghost predicate InReachOrder(levels: seq<Level>, isLong: bool) {
    forall i, j :: 0 <= i < j < |levels| ==> NotLater(levels[i], levels[j], isLong)
  }

  // The ladder holds the ordered levels, sorted as the price reaches them.
  lemma {:induction false} LaddersAreSorted(levels: seq<Level>, isLong: bool)
    ensures multiset(SortLevels(levels, isLong)) == multiset(levels)
    ensures InReachOrder(SortLevels(levels, isLong), isLong)
  {
    if levels != [] {
      var init, last := levels[..|levels| - 1], levels[|levels| - 1];
      assert levels == init + [last];
      LaddersAreSorted(init, isLong);
      InsertingSorts(SortLevels(init, isLong), last, isLong);
    }
  }

  lemma {:induction false} InsertingSorts(levels: seq<Level>, level: Level, isLong: bool)
    requires InReachOrder(levels, isLong)
    ensures var r := InsertLevel(levels, level, isLong);
      InReachOrder(r, isLong) && multiset(r) == multiset(levels) + multiset{level}
  {
    if levels != [] {
      var init, top := levels[..|levels| - 1], levels[|levels| - 1];
      assert levels == init + [top];
      if (if isLong then top.price > level.price else top.price < level.price) {
        InsertingSorts(init, level, isLong);
        var inner := InsertLevel(init, level, isLong);
        forall x | x in multiset(inner)
          ensures NotLater(x, top, isLong)
        {
          if x != level {
            BeforeTheTop(init, top, x, isLong);
          }
        }
        AppendKeepsReach(inner, top, isLong);
      } else {
        forall x | x in multiset(levels)
          ensures NotLater(x, level, isLong)
        {
          if x != top {
            BeforeTheTop(init, top, x, isLong);
          }
        }
        AppendKeepsReach(levels, level, isLong);
      }
    }
  }

  function AtPrice(levels: seq<Level>, price: real): seq<Level> {
    if levels == [] then []
    else
      var init, last := AtPrice(levels[..|levels| - 1], price), levels[|levels| - 1];
      if last.price == price then init + [last] else init
  }

  // Levels at one price keep the order in which they were given.
  lemma {:induction false} EqualLevelsKeepOrder(levels: seq<Level>, isLong: bool, price: real)
    ensures AtPrice(SortLevels(levels, isLong), price) == AtPrice(levels, price)
  {
    if levels != [] {
      var init, last := levels[..|levels| - 1], levels[|levels| - 1];
      EqualLevelsKeepOrder(init, isLong, price);
      InsertingKeepsOrder(SortLevels(init, isLong), last, isLong, price);
    }
  }

  lemma {:induction false} InsertingKeepsOrder(levels: seq<Level>, level: Level, isLong: bool, price: real)
    ensures AtPrice(InsertLevel(levels, level, isLong), price)
         == AtPrice(levels, price) + if level.price == price then [level] else []
  {
    if levels != [] {
      var init, top := levels[..|levels| - 1], levels[|levels| - 1];
      InsertingKeepsOrder(init, level, isLong, price);
    }
  }

  lemma BeforeTheTop(init: seq<Level>, top: Level, x: Level, isLong: bool)
    requires InReachOrder(init + [top], isLong) && x in init
    ensures NotLater(x, top, isLong)
  {
    var j :| 0 <= j < |init| && init[j] == x;
    assert (init + [top])[j] == x && (init + [top])[|init|] == top;
  }

  lemma AppendKeepsReach(levels: seq<Level>, last: Level, isLong: bool)
    requires InReachOrder(levels, isLong) && forall x :: x in multiset(levels) ==> NotLater(x, last, isLong)
    ensures InReachOrder(levels + [last], isLong)
  {
    forall i | 0 <= i < |levels|
      ensures NotLater(levels[i], last, isLong)
    {
      assert levels[i] in multiset(levels);
    }
  }

  // ----- exits

  // A protective stop is never credited with a better price than its own, nor than the open of the candle in futures.
  lemma StopsExitNoBetter(m: Market, b: Book, p: Position, c: Candle)
    requires p.stop.Some? && StopExit(m, b, p, c).Success? && Abs(p.quantity) > 0.0
    ensures var fills := StopExit(m, b, p, c).value.fills;
      && |fills| == |b.fills| + 1
      && var f := fills[|b.fills|];
         && f.reason == StopHit && f.exitAt == c.ts && f.quantity == Abs(p.quantity)
         && (if p.IsLong() then f.exitPrice <= p.stop.value else f.exitPrice >= p.stop.value)
         && (p.futuresSpec.None? ==> f.exitPrice == p.stop.value)
         && (p.futuresSpec.Some? ==> if p.IsLong() then f.exitPrice <= c.open else f.exitPrice >= c.open)
  {
    var side := if p.IsLong() then Sell else Buy;
    if p.futuresSpec.Some? {
      var spec := p.futuresSpec.value;
      NormalizationIsConservative(p.stop.value, spec.tickSize, side, Stop);
      SlippageIsAdverse(StopExitReference(side, p.stop.value, c.open, spec.tickSize), side, spec);
      SlippageIsNotNegative(spec);
    }
    hide NormalizeInstructionPrice, ApplyAdverseSlippage, OnGrid, TicksToPrice, ExitPnl;
  }

  // An exit gains exactly when the price has moved the position's way.
  lemma ProfitHasItsSign(m: Market, p: Position, quantity: real, price: real, rate: real)
    requires quantity > 0.0 && rate > 0.0 && p.priceMultiplier > 0.0 && p.quantity != 0.0
    ensures var gross := ExitPnl(m, p, quantity, price, rate).grossPnl;
      && (gross > 0.0 <==> if p.IsLong() then price > p.averageCost else price < p.averageCost)
      && (gross == 0.0 <==> price == p.averageCost)
  {
    var gain := if p.IsLong() then price - p.averageCost else p.averageCost - price;
    if p.futuresSpec.Some? {
      Scaled(gain, quantity, p.futuresSpec.value.multiplier, rate);
    } else {
      Scaled(gain, quantity, p.priceMultiplier, rate);
    }
    hide CommissionForSide;
  }

  lemma Scaled(gain: real, a: real, b: real, c: real)
    requires a > 0.0 && b > 0.0 && c > 0.0
    ensures gain > 0.0 <==> gain * a * b * c > 0.0
    ensures gain == 0.0 <==> gain * a * b * c == 0.0
  {
    ScaledOnce(gain, a);
    ScaledOnce(gain * a, b);
    ScaledOnce(gain * a * b, c);
  }

  lemma ScaledOnce(x: real, a: real)
    requires a > 0.0
    ensures x > 0.0 <==> x * a > 0.0
    ensures x == 0.0 <==> x * a == 0.0
  {
    if x > 0.0 {
      assert x * a > 0.0;
    } else if x < 0.0 {
      assert (-x) * a > 0.0;
      assert (-x) * a == -(x * a);
    }
  }

  // A futures position closed in two parts at one price nets what closing it at once would have.
  lemma FuturesExitsSplit(m: Market, p: Position, first: real, second: real, price: real, rate: real)
    requires p.futuresSpec.Some?
    ensures ExitPnl(m, p, first + second, price, rate).netPnl
         == ExitPnl(m, p, first, price, rate).netPnl + ExitPnl(m, p, second, price, rate).netPnl
  {
    var spec := p.futuresSpec.value;
    var gain := (if p.IsLong() then 1 else -1) as real * (price - p.averageCost);
    SplitsOver(gain, first, second, spec.multiplier, rate);
    DistributeOver(first, second, spec.commissionPerContractPerSide);
  }

  lemma SplitsOver(gain: real, a: real, b: real, m: real, f: real)
    ensures gain * (a + b) * m * f == gain * a * m * f + gain * b * m * f
  {
    assert gain * (a + b) == gain * a + gain * b;
    assert (gain * a + gain * b) * m == gain * a * m + gain * b * m;
    assert (gain * a * m + gain * b * m) * f == gain * a * m * f + gain * b * m * f;
  }

  // A partial takes a whole number of units, never more than is left.
  lemma PartialsTakeWholeUnits(m: Market, b: Book, p: Position, k: nat, at: int)
    requires p.partials.Some? && k < |p.partials.value| && TakePartial(m, b, p, k, at).Success?
    ensures var after := TakePartial(m, b, p, k, at).value;
      && |b.fills| <= |after.fills| <= |b.fills| + 1
      && (|after.fills| == |b.fills| + 1 ==>
           var f := after.fills[|b.fills|];
           && f.reason == PartialTakeProfit && f.exitPrice == p.partials.value[k].price
           && 0.0 < f.quantity <= Abs(p.quantity)
           && (f.quantity == Abs(p.quantity) || IsInteger(f.quantity))
           && f.quantity <= p.originalQuantityAbs * p.partials.value[k].fraction)
  {
    hide ExitPnl;
    var whole := Share(p, p.partials.value[k].fraction).Floor;
    IntegersAreIntegers(whole);
  }

  // ----- the trail

  // An armed trail's stop is at least the trailed price of the best price seen, this candle's included.
  lemma TrailsFollowTheMark(p: Position, c: Candle)
    requires p.trailingStopPct.Some? && p.trailingStopPct.value > 0.0 && Trail(p, c).trailActivated
    ensures var q := Trail(p, c);
      && q.stop.Some?
      && (if p.IsLong() then
            && q.peakPrice.Some? && q.peakPrice.value >= c.high
            && (p.peakPrice.Some? ==> q.peakPrice.value >= p.peakPrice.value)
            && q.stop.value >= TrailedStop(p, q.peakPrice.value, p.trailingStopPct.value)
          else
            && q.troughPrice.Some? && q.troughPrice.value <= c.low
            && (p.troughPrice.Some? ==> q.troughPrice.value <= p.troughPrice.value)
            && q.stop.value <= TrailedStop(p, q.troughPrice.value, p.trailingStopPct.value))
  {
    hide Activates, NormalizeInstructionPrice;
    var mark := Watermark(p, c);
    assert TrailedStop(Activated(Marked(p, mark), mark), mark, p.trailingStopPct.value)
        == TrailedStop(p, mark, p.trailingStopPct.value);
  }

  // ----- leaving for other reasons

  // How far slippage moves a fill of the position; nothing for a stock.
  function SlippageOf(spec: Option<FuturesSpec>): real {
    if spec.None? then 0.0 else TicksToPrice(spec.value.slippageTicks, spec.value.tickSize)
  }

  lemma SlippedBy(spec: Option<FuturesSpec>, reference: real, side: Side)
    requires Slipped(spec, reference, side).Success?
    ensures Slipped(spec, reference, side).value
         == if side.Buy? then reference + SlippageOf(spec) else reference - SlippageOf(spec)
  {
    if spec.Some? {
      SlippageIsAdverse(reference, side, spec.value);
    }
    hide ApplyAdverseSlippage, OnGrid, TicksToPrice;
  }

  // What is left at the end of the dataset closes whole at its symbol's last candle, less the slippage.
  lemma EndsAtTheLastCandle(m: Market, b: Book, p: Position)
    requires p.symbol in b.last && p.quantity != 0.0 && EndExit(m, b, p).Success?
    ensures var after, last := EndExit(m, b, p).value, b.last[p.symbol];
      && |after.fills| == |b.fills| + 1
      && var f := after.fills[|b.fills|];
         && f.exitAt == last.ts && f.quantity == Abs(p.quantity)
         && f.exitPrice == (if p.IsLong() then last.close - SlippageOf(p.futuresSpec)
                            else last.close + SlippageOf(p.futuresSpec))
  {
    var side := if p.IsLong() then Sell else Buy;
    if Slipped(p.futuresSpec, b.last[p.symbol].close, side).Success? {
      SlippedBy(p.futuresSpec, b.last[p.symbol].close, side);
    }
    hide Slipped, SlippageOf, ExitPnl;
  }
}
