/**
 * What a candle does to an open position, from cause to effect and on the candle's own prices: a stop it reaches is
 * taken, a target it reaches is taken, every rung it reaches is taken or found spent, and what stays open has its stop
 * exactly where the locks and the trail put it.
 */
module BacktestBrackets {
  import opened Outcomes
  import opened Aggregation
  import opened BarExecution
  import opened TickRules
  import opened BacktestModel
  import opened BacktestLedger
  import opened BacktestConservation
  import opened BacktestExits

  // ----- what a candle reaches

  // The candle traded through the stop of the position.
  predicate Hit(p: Position, c: Candle) {
    p.stop.Some? && if p.quantity > 0.0 then c.low <= p.stop.value else c.high >= p.stop.value
  }

  // The candle traded at a price on the position's winning side.
  predicate Gets(p: Position, c: Candle, price: real) {
    if p.quantity > 0.0 then c.high >= price else c.low <= price
  }

  function Worse(p: Position, a: real, b: real): real {
    if p.quantity > 0.0 then (if a < b then a else b) else (if a > b then a else b)
  }

  // What leaving at a reference brings: less the slippage for a long, more for a short, nothing of it in stocks.
  predicate Leaves(p: Position, reference: real, price: real) {
    match p.futuresSpec
    case None => price == reference
    case Some(spec) =>
      var slippage := spec.slippageTicks as real * spec.tickSize;
      price == if p.quantity > 0.0 then reference - slippage else reference + slippage
  }

  // The exit price of a stop: the stop itself, or in futures the worse of its level and the open, less the slippage.
  ghost predicate StopsAt(p: Position, c: Candle, price: real)
    requires p.stop.Some?
  {
    match p.futuresSpec
    case None => price == p.stop.value
    case Some(spec) =>
      exists level :: PlacedAt(p.stop.value, spec.tickSize, if p.quantity > 0.0 then Sell else Buy, Stop, level)
        && Leaves(p, Worse(p, level, c.open), price)
  }

  // The one fill that `after` adds takes the whole position off; its profit goes to the equity and into one trade.
  predicate TakesAll(b: Book, after: Book, p: Position, reason: ExitReason, at: int) {
    && |after.fills| == |b.fills| + 1 && after.fills[..|b.fills|] == b.fills
    && after.equity == b.equity + after.fills[|b.fills|].netPnl
    && after.trades == b.trades + [ClosedTrade(p.symbol, p.strategy, p.side, after.fills[|b.fills|].netPnl, at)]
    && var f := after.fills[|b.fills|];
       && f.positionId == p.id && f.symbol == p.symbol && f.reason == reason && f.exitAt == at
       && f.quantity == (if p.quantity > 0.0 then p.quantity else -p.quantity)
       && f.entryPrice == p.averageCost && f.side == p.side && f.entryAt == p.entryAt && f.futuresSpec == p.futuresSpec
  }

  // ----- stops

  lemma StopIsTaken(m: Market, b: Book, p: Position, c: Candle)
    requires Owns(b, p) && p.quantity != 0.0 && p.stop.Some? && StopExit(m, b, p, c).Success?
    ensures var after := StopExit(m, b, p, c).value;
      && TakesAll(b, after, p, StopHit, c.ts) && StopsAt(p, c, after.fills[|b.fills|].exitPrice)
      && after.positions == b.positions - {p.symbol}
  {
    var side := if p.IsLong() then Sell else Buy;
    if p.futuresSpec.Some? {
      var spec := p.futuresSpec.value;
      var level := NormalizeInstructionPrice(p.stop.value, spec.tickSize, side, Stop);
      NormalizesTo(p.stop.value, spec.tickSize, side, Stop, level);
      StopRefersTo(side, p.stop.value, c.open, spec.tickSize, level);
      SlipsBy(StopExitReference(side, p.stop.value, c.open, spec.tickSize), side, spec);
      hide NormalizeInstructionPrice, StopExitReference, ApplyAdverseSlippage, PlacedAt, Ticked, ExitPnl;
      assert Leaves(p, Worse(p, level, c.open), StopExit(m, b, p, c).value.fills[|b.fills|].exitPrice);
    }
    hide ExitPnl;
  }

  // ----- rungs

  // The rung is still there, the candle reached it, and its share of the position is at least one unit.
  ghost predicate RungIsDue(p: Position, c: Candle, k: nat, units: int)
    requires p.partials.Some? && k < |p.partials.value|
  {
    var rung := p.partials.value[k];
    && !rung.executed && Gets(p, c, rung.price)
    && units >= 1 && units as real <= p.originalQuantityAbs * rung.fraction < units as real + 1.0
  }

  // It has been taken: that many units at its price, unless fewer were left.
  ghost predicate RungIsTaken(b: Book, after: Book, p: Position, k: nat, units: int)
    requires p.partials.Some? && k < |p.partials.value|
  {
    exists i :: |b.fills| <= i < |after.fills| && after.fills[i].reason == PartialTakeProfit
      && after.fills[i].positionId == p.id && after.fills[i].exitPrice == p.partials.value[k].price
      && (after.fills[i].quantity == units as real || p.symbol !in after.positions)
  }

  // The position after the first `n` rungs: some of it taken off, and exactly the rungs reached are spent.
  predicate Climbed(p: Position, q: Position, c: Candle, n: nat) {
    && q == p.(quantity := q.quantity, partials := q.partials) && Sign(q.quantity) == Sign(p.quantity)
    && (q.partials.Some? <==> p.partials.Some?)
    && (p.partials.Some? ==>
         && |q.partials.value| == |p.partials.value|
         && forall k :: 0 <= k < |p.partials.value| ==>
              q.partials.value[k] == p.partials.value[k].(
                executed := p.partials.value[k].executed || (k < n && Gets(p, c, p.partials.value[k].price))))
  }

  // So far: only rungs were taken; what is left has climbed, and every rung that was due is taken, or nothing is left.
  ghost predicate Climbs(b: Book, after: Book, p: Position, c: Candle, n: nat) {
    && |b.fills| <= |after.fills| && after.fills[..|b.fills|] == b.fills
    && (forall i :: |b.fills| <= i < |after.fills| ==> after.fills[i].reason == PartialTakeProfit)
    && (p.symbol in after.positions ==> Climbed(p, after.positions[p.symbol], c, n))
    && (p.partials.Some? ==>
         forall k, units :: 0 <= k < n && k < |p.partials.value| && RungIsDue(p, c, k, units) ==>
           p.symbol !in after.positions || RungIsTaken(b, after, p, k, units))
  }

  lemma UnitsAreFloor(x: real, units: int)
    requires units as real <= x < units as real + 1.0
    ensures x.Floor == units
  {
  }

  // What taking a rung does: its whole units, or what is left of the position, at its price; nothing when it is not one
  // unit. Either way it is spent.
  ghost predicate RungEffect(b: Book, after: Book, q: Position, k: nat, at: int)
    requires q.partials.Some? && k < |q.partials.value|
  {
    var rung := q.partials.value[k];
    var units := Share(q, rung.fraction).Floor as real;
    var held := if q.quantity > 0.0 then q.quantity else -q.quantity;
    var spent := Some(q.partials.value[k := rung.(executed := true)]);
    if units >= 1.0 then
      && |after.fills| == |b.fills| + 1 && after.fills[..|b.fills|] == b.fills
      && var f := after.fills[|b.fills|];
         && f.reason == PartialTakeProfit && f.positionId == q.id && f.exitPrice == rung.price && f.exitAt == at
         && f.quantity == (if units < held then units else held)
         && (units < held ==>
              after.positions == b.positions[q.symbol := q.(
                quantity := if q.quantity > 0.0 then held - units else units - held, partials := spent)])
         && (units >= held ==> after.positions == b.positions - {q.symbol})
    else after.fills == b.fills && after.positions == b.positions[q.symbol := q.(partials := spent)]
  }

  lemma ClimbsOneMore(b: Book, taken: Book, after: Book, p: Position, q: Position, c: Candle, k: nat)
    requires Climbs(b, taken, p, c, k) && Owns(taken, q) && q.symbol == p.symbol && q.quantity != 0.0
    requires p.partials.Some? && k < |p.partials.value| && q.partials.Some? && k < |q.partials.value|
    requires !q.partials.value[k].executed && Gets(p, c, p.partials.value[k].price)
    requires RungEffect(taken, after, q, k, c.ts)
    ensures Climbs(b, after, p, c, k + 1)
  {
    assert Climbed(p, q, c, k);
    KeepsEarlierFills(b, taken, after);
    forall i | |b.fills| <= i < |after.fills|
      ensures after.fills[i].reason == PartialTakeProfit
    {
      assert i < |taken.fills| ==> after.fills[i] == after.fills[..|taken.fills|][i];
    }
    if p.symbol in after.positions {
      var spent := q.partials.value[k := q.partials.value[k].(executed := true)];
      ClimbedOneMore(p, q, after.positions[p.symbol], c, k, spent);
    }
    forall j, units | 0 <= j < k + 1 && j < |p.partials.value| && RungIsDue(p, c, j, units)
      ensures p.symbol !in after.positions || RungIsTaken(b, after, p, j, units)
    {
      if j < k {
        KeepsTaken(b, taken, after, p, j, units);
      } else {
        DueRungIsTakenNow(b, taken, after, p, q, c, k, units);
      }
    }
    hide RungEffect, RungIsDue, RungIsTaken, Climbed, Share;
  }

  lemma KeepsEarlierFills(b: Book, taken: Book, after: Book)
    requires |b.fills| <= |taken.fills| && taken.fills[..|b.fills|] == b.fills
    requires |taken.fills| <= |after.fills| && after.fills[..|taken.fills|] == taken.fills
    ensures |b.fills| <= |after.fills| && after.fills[..|b.fills|] == b.fills
  {
    assert after.fills[..|taken.fills|][..|b.fills|] == after.fills[..|b.fills|];
  }

  lemma DueRungIsTakenNow(b: Book, taken: Book, after: Book, p: Position, q: Position, c: Candle, k: nat, units: int)
    requires p.partials.Some? && k < |p.partials.value| && RungIsDue(p, c, k, units) && |b.fills| <= |taken.fills|
    requires Climbed(p, q, c, k) && RungEffect(taken, after, q, k, c.ts)
    ensures p.symbol !in after.positions || RungIsTaken(b, after, p, k, units)
  {
    var rung := q.partials.value[k];
    assert Share(q, rung.fraction) == p.originalQuantityAbs * p.partials.value[k].fraction;
    UnitsAreFloor(Share(q, rung.fraction), units);
    assert units as real >= 1.0;
    hide RungIsDue, Share;
    DueRungIsTaken(b, taken, after, p, k, units);
  }

  lemma DueRungIsTaken(b: Book, taken: Book, after: Book, p: Position, k: nat, units: int)
    requires p.partials.Some? && k < |p.partials.value| && |b.fills| <= |taken.fills|
    requires |after.fills| == |taken.fills| + 1
    requires var f := after.fills[|taken.fills|];
      && f.reason == PartialTakeProfit && f.positionId == p.id && f.exitPrice == p.partials.value[k].price
      && (f.quantity == units as real || p.symbol !in after.positions)
    ensures RungIsTaken(b, after, p, k, units)
  {
  }

  lemma RungOutcome(m: Market, b: Book, q: Position, k: nat, at: int)
    requires Owns(b, q) && q.quantity != 0.0 && q.partials.Some? && k < |q.partials.value|
    requires TakePartial(m, b, q, k, at).Success?
    ensures RungEffect(b, TakePartial(m, b, q, k, at).value, q, k, at)
  {
    WholeOrNone(Share(q, q.partials.value[k].fraction));
    PartialIs(q, q.partials.value[k].fraction);
    hide ExitPnl, PartialQuantity, Share;
  }

  lemma WholeOrNone(share: real)
    ensures share.Floor as real >= 1.0 || share.Floor as real <= 0.0
  {
    assert share.Floor >= 1 || share.Floor <= 0;
  }

  lemma PartialIs(q: Position, fraction: real)
    requires q.quantity != 0.0
    ensures var units := Share(q, fraction).Floor as real;
      var held := if q.quantity > 0.0 then q.quantity else -q.quantity;
      PartialQuantity(q, fraction) == if units < held then units else held
  {
    hide Share;
  }

  lemma ClimbedOneMore(p: Position, q: Position, after: Position, c: Candle, k: nat, spent: seq<Partial>)
    requires Climbed(p, q, c, k) && p.partials.Some? && k < |p.partials.value|
    requires Gets(p, c, p.partials.value[k].price)
    requires spent == q.partials.value[k := q.partials.value[k].(executed := true)]
    requires after == q.(quantity := after.quantity, partials := Some(spent))
    requires Sign(after.quantity) == Sign(q.quantity)
    ensures Climbed(p, after, c, k + 1)
  {
  }

  lemma KeepsTaken(b: Book, taken: Book, after: Book, p: Position, j: nat, units: int)
    requires p.partials.Some? && j < |p.partials.value|
    requires p.symbol !in taken.positions || RungIsTaken(b, taken, p, j, units)
    requires p.symbol in taken.positions
    requires |taken.fills| <= |after.fills| && after.fills[..|taken.fills|] == taken.fills
    ensures p.symbol !in after.positions || RungIsTaken(b, after, p, j, units)
  {
    var i :| |b.fills| <= i < |taken.fills| && taken.fills[i].reason == PartialTakeProfit
      && taken.fills[i].positionId == p.id && taken.fills[i].exitPrice == p.partials.value[j].price
      && (taken.fills[i].quantity == units as real || p.symbol !in taken.positions);
    assert after.fills[i] == taken.fills[i];
  }

  lemma StaysClimbed(b: Book, taken: Book, p: Position, c: Candle, k: nat)
    requires Climbs(b, taken, p, c, k)
    requires p.symbol in taken.positions && p.partials.Some? && k < |p.partials.value| ==>
               taken.positions[p.symbol].partials.value[k].executed || !Gets(p, c, p.partials.value[k].price)
    ensures Climbs(b, taken, p, c, k + 1)
  {
    forall j, units | 0 <= j < k + 1 && p.partials.Some? && j < |p.partials.value| && RungIsDue(p, c, j, units)
      ensures p.symbol !in taken.positions || RungIsTaken(b, taken, p, j, units)
    {
      if j == k && p.symbol in taken.positions {
        assert false;
      }
    }
  }

  lemma {:induction false} LadderIsClimbed(m: Market, start: real, b: Book, p: Position, c: Candle, n: nat)
    requires Balanced(start, b) && Owns(b, p) && p.quantity != 0.0
    ensures var r := TakePartials(m, b, p.symbol, c, p.IsLong(), n);
      r.Success? ==> Climbs(b, r.value, p, c, n)
  {
    hide TakePartial, Balanced, Climbs;
    if n == 0 {
      NotYetClimbed(b, p, c);
    } else {
      LadderIsClimbed(m, start, b, p, c, n - 1);
      TakePartialsBalances(m, start, b, p.symbol, c, p.IsLong(), n - 1);
      var taken := TakePartials(m, b, p.symbol, c, p.IsLong(), n - 1);
      if taken.Success? {
        NextIsClimbed(m, start, b, taken.value, p, c, n - 1);
      }
    }
  }

  lemma NotYetClimbed(b: Book, p: Position, c: Candle)
    requires Owns(b, p)
    ensures Climbs(b, b, p, c, 0)
  {
  }

  lemma NextIsClimbed(m: Market, start: real, b: Book, taken: Book, p: Position, c: Candle, k: nat)
    requires Balanced(start, taken) && Climbs(b, taken, p, c, k)
    ensures if p.symbol in taken.positions && TakesLevel(taken.positions[p.symbol], k, c, p.IsLong()) then
              var r := TakePartial(m, taken, taken.positions[p.symbol], k, c.ts);
              r.Success? ==> Climbs(b, r.value, p, c, k + 1)
            else Climbs(b, taken, p, c, k + 1)
  {
    hide TakePartial, Balanced;
    if p.symbol in taken.positions {
      HeldIsOwned(start, taken, p.symbol);
      var q := taken.positions[p.symbol];
      if TakesLevel(q, k, c, p.IsLong()) {
        if TakePartial(m, taken, q, k, c.ts).Success? {
          RungOutcome(m, taken, q, k, c.ts);
          ClimbsOneMore(b, taken, TakePartial(m, taken, q, k, c.ts).value, p, q, c, k);
        }
      } else {
        StaysClimbed(b, taken, p, c, k);
      }
    } else {
      StaysClimbed(b, taken, p, c, k);
    }
  }

  // ----- locks and trails

  // How far the average cost was from the initial stop, on the losing side.
  function InitialRisk(p: Position): real
    requires p.initialStop.Some?
  {
    if p.quantity > 0.0 then p.averageCost - p.initialStop.value else p.initialStop.value - p.averageCost
  }

  // The price so many initial risks beyond the average cost, on the winning side.
  function Beyond(p: Position, risks: real): real
    requires p.initialStop.Some?
  {
    if p.quantity > 0.0 then p.averageCost + InitialRisk(p) * risks else p.averageCost - InitialRisk(p) * risks
  }

  // The position still has its initial stop, on the losing side.
  predicate Untouched(p: Position) {
    p.initialStop.Some? && p.stop == p.initialStop && InitialRisk(p) > 0.0
  }

  // Where the locks leave the stop of a position the candle did not stop: a breakdown short that made one initial risk
  // is moved to its average cost, a breakout long that made three is moved one risk beyond it.
  predicate LockedTo(p: Position, c: Candle, stop: Option<real>) {
    stop == if p.strategy == MomentumBreakdownShort && Untouched(p) && Gets(p, c, Beyond(p, 1.0))
            then Some(p.averageCost)
            else if p.strategy == MomentumBreakoutLong && Untouched(p) && Gets(p, c, Beyond(p, 3.0))
            then Some(Beyond(p, 1.0))
            else p.stop
  }

  function Tighter(p: Position, stop: Option<real>, level: real): Option<real> {
    if stop.None? then Some(level)
    else if p.quantity > 0.0 then (if stop.value < level then Some(level) else stop)
    else (if level < stop.value then Some(level) else stop)
  }

  // The best price seen, this candle's included.
  function BestPrice(p: Position, c: Candle): real {
    if p.quantity > 0.0 then (if p.peakPrice.Some? && p.peakPrice.value > c.high then p.peakPrice.value else c.high)
    else (if p.troughPrice.Some? && p.troughPrice.value < c.low then p.troughPrice.value else c.low)
  }

  predicate OpensGate(p: Position, best: real) {
    && !p.trailActivated && p.trailingStopActivationR.Some? && p.trailingStopActivationR.value > 0.0
    && p.initialStop.Some? && InitialRisk(p) > 0.0
    && var level := Beyond(p, p.trailingStopActivationR.value);
       if p.quantity > 0.0 then best >= level else best <= level
  }

  // The trail's level behind the best price: so many percent of it, in futures rounded away from it to a tick.
  ghost predicate TrailsAt(p: Position, best: real, pct: real, level: real) {
    var behind := if p.quantity > 0.0 then best * (1.0 - pct / 100.0) else best * (1.0 + pct / 100.0);
    match p.futuresSpec
    case None => level == behind
    case Some(spec) => PlacedAt(behind, spec.tickSize, if p.quantity > 0.0 then Sell else Buy, Stop, level)
  }

  // From a position with its locks done to the one the trail makes of it: the best price is remembered; a gate it opens
  // brings the stop to the average cost; an active trail brings it to its level; never back.
  ghost predicate TrailedTo(p: Position, c: Candle, q: Position) {
    if p.trailingStopPct.None? || p.trailingStopPct.value <= 0.0 then q == p
    else
      var best := BestPrice(p, c);
      var moved := if OpensGate(p, best) then Tighter(p, p.stop, p.averageCost) else p.stop;
      && q == p.(stop := q.stop, trailActivated := p.trailActivated || OpensGate(p, best),
                 peakPrice := if p.quantity > 0.0 then Some(best) else p.peakPrice,
                 troughPrice := if p.quantity > 0.0 then p.troughPrice else Some(best))
      && if q.trailActivated
         then exists level :: TrailsAt(p, best, p.trailingStopPct.value, level) && q.stop == Tighter(p, moved, level)
         else q.stop == moved
  }

  lemma LocksPlaceTheStop(p: Position, c: Candle)
    requires p.quantity != 0.0 && !Hit(p, c)
    ensures var q := LockOneR(BreakEven(p, c), c); LockedTo(p, c, q.stop) && q == p.(stop := q.stop)
  {
  }

  lemma TrailPlacesTheStop(p: Position, c: Candle)
    requires p.quantity != 0.0
    ensures TrailedTo(p, c, Trail(p, c))
  {
    if p.trailingStopPct.Some? && p.trailingStopPct.value > 0.0 {
      var best := BestPrice(p, c);
      var level := TrailedStop(p, best, p.trailingStopPct.value);
      TrailLevel(p, best, p.trailingStopPct.value);
      assert Watermark(p, c) == best;
      assert Activates(Marked(p, best), best) <==> OpensGate(p, best);
      hide TrailedStop, Activates, OpensGate, TrailsAt;
      SameTrail(p, Activated(Marked(p, best), best), best, p.trailingStopPct.value);
    }
  }

  lemma SameTrail(p: Position, q: Position, best: real, pct: real)
    requires q.futuresSpec == p.futuresSpec && q.quantity == p.quantity
    ensures TrailedStop(q, best, pct) == TrailedStop(p, best, pct)
  {
  }

  lemma TrailLevel(p: Position, best: real, pct: real)
    ensures TrailsAt(p, best, pct, TrailedStop(p, best, pct))
  {
    if p.futuresSpec.Some? {
      var behind := if p.quantity > 0.0 then best * (1.0 - pct / 100.0) else best * (1.0 + pct / 100.0);
      NormalizesTo(behind, p.futuresSpec.value.tickSize, if p.quantity > 0.0 then Sell else Buy, Stop,
                   TrailedStop(p, best, pct));
    }
    hide NormalizeInstructionPrice, PlacedAt;
  }

  // ----- what a candle does

  // A held position is stopped exactly when the candle's own low or high reached its stop: then it leaves whole at the
  // stop's price, and otherwise nothing of it leaves by a stop.
  lemma StopsIff(m: Market, start: real, b: Book, c: Candle)
    requires Balanced(start, b) && c.symbol in b.positions && BracketExit(m, b, c).Success?
    ensures var p, after := b.positions[c.symbol], BracketExit(m, b, c).value;
      && (Hit(p, c) <==> TakesAll(b, after, p, StopHit, c.ts) && c.symbol !in after.positions)
      && (Hit(p, c) ==> StopsAt(p, c, after.fills[|b.fills|].exitPrice))
      && (!Hit(p, c) ==>
           |b.fills| <= |after.fills| && after.fills[..|b.fills|] == b.fills
           && forall i :: |b.fills| <= i < |after.fills| ==> after.fills[i].reason != StopHit)
  {
    HeldIsOwned(start, b, c.symbol);
    var p, after := b.positions[c.symbol], BracketExit(m, b, c).value;
    assert Hit(p, c) <==> StopTouched(p, c);
    if Hit(p, c) {
      StopIsTaken(m, b, p, c);
      hide StopExit, StopTouched, Hit, StopsAt;
    } else {
      BracketBooks(m, start, b, c, f => ByBracket(p, c, f));
      hide BracketExit, HitsTarget, TakesRung;
    }
  }

  // Only rungs left the position, and they took all of it.
  ghost predicate OnlyRungs(b: Book, after: Book, p: Position) {
    p.symbol !in after.positions
    && forall i :: |b.fills| <= i < |after.fills| ==> after.fills[i].reason == PartialTakeProfit
  }

  // The last fill takes what was left at the target.
  predicate TargetTaken(after: Book, p: Position, c: Candle)
    requires p.takeProfit.Some?
  {
    p.symbol !in after.positions && after.fills != []
    && var f := after.fills[|after.fills| - 1];
       && f.reason == TakeProfit && f.positionId == p.id && f.symbol == p.symbol && f.exitAt == c.ts
       && f.exitPrice == p.takeProfit.value
  }

  // A position that is not stopped is left alone on the candle it was entered; on any other its locks are moved, every
  // rung the candle reaches is taken, then the target if it is reached, and otherwise what is left is trailed.
  ghost predicate TendedTo(b: Book, after: Book, p: Position, c: Candle) {
    && |b.fills| <= |after.fills| && after.fills[..|b.fills|] == b.fills
    && (p.partials.Some? ==>
         forall k, units :: 0 <= k < |p.partials.value| && RungIsDue(p, c, k, units) ==>
           RungIsTaken(b, after, p, k, units) || OnlyRungs(b, after, p))
    && if p.takeProfit.Some? && Gets(p, c, p.takeProfit.value) then
         OnlyRungs(b, after, p) || TargetTaken(after, p, c)
       else
         && (forall i :: |b.fills| <= i < |after.fills| ==> after.fills[i].reason == PartialTakeProfit)
         && (p.symbol in after.positions ==>
              exists locked, held :: LockedTo(p, c, locked)
                && Climbed(p.(stop := locked), held, c, if p.partials.Some? then |p.partials.value| else 0)
                && TrailedTo(held, c, after.positions[p.symbol]))
  }

  lemma ManagesAsStated(m: Market, start: real, b: Book, p: Position, c: Candle)
    requires Balanced(start, b) && Owns(b, p) && p.quantity != 0.0 && !Hit(p, c) && Managed(m, b, p, c).Success?
    ensures TendedTo(b, Managed(m, b, p, c).value, p, c)
  {
    var moved := LockOneR(BreakEven(p, c), c);
    LocksPlaceTheStop(p, c);
    LocksKeepBracket(p, c);
    WithPositionBalances(start, b, p, moved);
    var locked := WithPosition(b, moved);
    var n := Levels(moved);
    LadderIsClimbed(m, start, locked, moved, c, n);
    TakePartialsBalances(m, start, locked, p.symbol, c, p.IsLong(), n);
    var taken := TakePartials(m, locked, p.symbol, c, p.IsLong(), n).value;
    hide TakePartials, LockOneR, BreakEven, Balanced, LockedTo, SameBracket;
    var after := Managed(m, b, p, c).value;
    if p.symbol in taken.positions {
      HeldIsOwned(start, taken, p.symbol);
      EndsAsStated(m, locked, taken, moved, c, n);
      MovedIsTheSame(b, locked, after, p, moved, c, n);
    } else {
      DrainedAsStated(b, locked, taken, p, moved, c, n);
    }
  }

  // Nothing is left after the rungs.
  lemma DrainedAsStated(b: Book, locked: Book, taken: Book, p: Position, moved: Position, c: Candle, n: nat)
    requires locked.fills == b.fills && Climbs(locked, taken, moved, c, n) && p.symbol !in taken.positions
    requires moved == p.(stop := moved.stop)
    ensures TendedTo(b, taken, p, c)
  {
    hide RungIsDue, RungIsTaken, Climbed, TrailedTo, LockedTo;
    assert OnlyRungs(b, taken, p);
  }

  // What is left after the rungs meets its target or its trail.
  ghost predicate Ended(locked: Book, after: Book, p: Position, c: Candle, n: nat) {
    && |locked.fills| <= |after.fills| && after.fills[..|locked.fills|] == locked.fills
    && (p.partials.Some? ==>
         forall k, units :: 0 <= k < n && k < |p.partials.value| && RungIsDue(p, c, k, units) ==>
           RungIsTaken(locked, after, p, k, units))
    && if p.takeProfit.Some? && Gets(p, c, p.takeProfit.value) then TargetTaken(after, p, c)
       else
         && (forall i :: |locked.fills| <= i < |after.fills| ==> after.fills[i].reason == PartialTakeProfit)
         && p.symbol in after.positions
         && exists held :: Climbed(p, held, c, n) && TrailedTo(held, c, after.positions[p.symbol])
  }

  lemma EndsAsStated(m: Market, locked: Book, taken: Book, p: Position, c: Candle, n: nat)
    requires Climbs(locked, taken, p, c, n) && p.symbol in taken.positions
    requires taken.positions[p.symbol].quantity != 0.0 && taken.positions[p.symbol].symbol == p.symbol
    requires TargetOrTrail(m, taken, taken.positions[p.symbol], c).Success?
    ensures Ended(locked, TargetOrTrail(m, taken, taken.positions[p.symbol], c).value, p, c, n)
  {
    var q := taken.positions[p.symbol];
    var after := TargetOrTrail(m, taken, q, c).value;
    assert Climbed(p, q, c, n);
    TrailPlacesTheStop(q, c);
    TargetOutcome(m, taken, q, c);
    hide TargetOrTrail, Trail, RungIsDue, Climbed, TrailedTo;
    if p.partials.Some? {
      forall k, units | 0 <= k < n && k < |p.partials.value| && RungIsDue(p, c, k, units)
        ensures RungIsTaken(locked, after, p, k, units)
      {
        assert RungIsTaken(locked, taken, p, k, units);
        StaysTaken(locked, taken, after, p, k, units);
      }
    }
    KeepsEarlierFills(locked, taken, after);
    SameSide(p, q, c, n);
  }

  lemma SameSide(p: Position, q: Position, c: Candle, n: nat)
    requires Climbed(p, q, c, n)
    ensures q.takeProfit == p.takeProfit && q.id == p.id && (q.quantity > 0.0 <==> p.quantity > 0.0)
  {
  }

  lemma StaysTaken(b: Book, taken: Book, after: Book, p: Position, j: nat, units: int)
    requires p.partials.Some? && j < |p.partials.value| && RungIsTaken(b, taken, p, j, units)
    requires p.symbol in taken.positions
    requires |taken.fills| <= |after.fills| && after.fills[..|taken.fills|] == taken.fills
    ensures RungIsTaken(b, after, p, j, units)
  {
    var i :| |b.fills| <= i < |taken.fills| && taken.fills[i].reason == PartialTakeProfit
      && taken.fills[i].positionId == p.id && taken.fills[i].exitPrice == p.partials.value[j].price
      && (taken.fills[i].quantity == units as real || p.symbol !in taken.positions);
    assert after.fills[i] == taken.fills[i];
  }

  lemma TargetOutcome(m: Market, b: Book, q: Position, c: Candle)
    requires Owns(b, q) && q.quantity != 0.0 && TargetOrTrail(m, b, q, c).Success?
    ensures var after := TargetOrTrail(m, b, q, c).value;
      if q.takeProfit.Some? && Gets(q, c, q.takeProfit.value) then
        && TakesAll(b, after, q, TakeProfit, c.ts) && after.positions == b.positions - {q.symbol}
        && after.fills[|b.fills|].exitPrice == q.takeProfit.value
      else after.fills == b.fills && after.positions == b.positions[q.symbol := Trail(q, c)]
  {
    assert Trail(q, c).symbol == q.symbol;
    hide Trail, ExitPnl;
  }

  // A position and the same one with its stop moved have the same rungs and target.
  lemma MovedIsTheSame(b: Book, locked: Book, after: Book, p: Position, moved: Position, c: Candle, n: nat)
    requires moved == p.(stop := moved.stop) && LockedTo(p, c, moved.stop) && locked.fills == b.fills
    requires n == (if p.partials.Some? then |p.partials.value| else 0) && Ended(locked, after, moved, c, n)
    ensures TendedTo(b, after, p, c)
  {
    if p.partials.Some? {
      forall k, units | 0 <= k < |p.partials.value| && RungIsDue(p, c, k, units)
        ensures RungIsTaken(b, after, p, k, units)
      {
        assert RungIsDue(moved, c, k, units);
        assert RungIsTaken(locked, after, moved, k, units);
      }
    }
    hide RungIsDue, RungIsTaken, Climbed, TrailedTo, LockedTo;
  }

  lemma BracketsManage(m: Market, start: real, b: Book, c: Candle)
    requires Balanced(start, b) && c.symbol in b.positions && BracketExit(m, b, c).Success?
    requires !Hit(b.positions[c.symbol], c)
    ensures var p, after := b.positions[c.symbol], BracketExit(m, b, c).value;
      if p.entryAt == c.ts then after == b else TendedTo(b, after, p, c)
  {
    HeldIsOwned(start, b, c.symbol);
    var p := b.positions[c.symbol];
    hide Managed, Balanced, TendedTo;
    if p.entryAt != c.ts {
      ManagesAsStated(m, start, b, p, c);
    }
  }

  // A symbol without a position is left alone.
  lemma NothingToManage(m: Market, b: Book, c: Candle)
    requires c.symbol !in b.positions
    ensures BracketExit(m, b, c) == Success(b)
  {
  }
}
