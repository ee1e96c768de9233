/**
 * Futures execution on a tick grid: normalizing instruction prices, adverse slippage, stop references and round-trip
 * profit, over exact prices.
 */
module BarExecution {
  import opened Outcomes

  datatype Side = Buy | Sell {
    function Opposite(): Side {
      if Buy? then Sell else Buy
    }
  }

  datatype Instruction = Limit | Stop

  // The specification schema only lets positive tick sizes and multipliers through.
  type Positive = x: real | x > 0.0 witness 1.0

  datatype FuturesSpec = FuturesSpec(
    tickSize: Positive, multiplier: Positive, commissionPerContractPerSide: real, slippageTicks: nat)

  datatype OffGrid = OffGrid(reference: real)

  datatype RoundTrip = RoundTrip(grossPnl: real, commission: real, netPnl: real)

  function PriceToTicks(price: real, tickSize: Positive): real
  {
    price / tickSize
  }

  function TicksToPrice(ticks: int, tickSize: real): real {
    ticks as real * tickSize
  }

  function Ceiling(x: real): int {
    -(-x).Floor
  }

  predicate IsInteger(x: real) {
    x.Floor as real == x
  }

  predicate OnGrid(price: real, tickSize: Positive)
  {
    IsInteger(PriceToTicks(price, tickSize))
  }

  // Rounds away from aggression: a limit never pays more or sells for less, a stop never triggers early.
  function NormalizeInstructionPrice(price: real, tickSize: Positive, side: Side, instruction: Instruction): real
  {
    var ticks := PriceToTicks(price, tickSize);
    var rounded :=
      if instruction.Limit? then (if side.Buy? then ticks.Floor else Ceiling(ticks))
      else (if side.Buy? then Ceiling(ticks) else ticks.Floor);
    TicksToPrice(rounded, tickSize)
  }

  function ApplyAdverseSlippage(reference: real, side: Side, spec: FuturesSpec): Result<real, OffGrid>
  {
    var ticks := PriceToTicks(reference, spec.tickSize);
    if !IsInteger(ticks) then Failure(OffGrid(reference))
    else
      var direction := if side.Buy? then 1 else -1;
      Success(TicksToPrice(ticks.Floor + direction * spec.slippageTicks, spec.tickSize))
  }

  function StopExitReference(sideToClose: Side, stopPrice: real, barOpen: real, tickSize: Positive): real
  {
    var stop := NormalizeInstructionPrice(stopPrice, tickSize, sideToClose, Stop);
    if sideToClose.Sell? then (if stop < barOpen then stop else barOpen)
    else (if stop > barOpen then stop else barOpen)
  }

  function FuturesRoundTripPnl(
    direction: int, quantity: real, entryFill: real, exitFill: real, fxRate: real, spec: FuturesSpec): RoundTrip
  {
    var gross := direction as real * (exitFill - entryFill) * quantity * spec.multiplier * fxRate;
    var commission := quantity * spec.commissionPerContractPerSide * 2.0;
    RoundTrip(gross, commission, gross - commission)
  }

  // ----- the grid

  lemma TicksRoundTrip(ticks: int, tickSize: Positive)
    ensures PriceToTicks(TicksToPrice(ticks, tickSize), tickSize) == ticks as real
    ensures OnGrid(TicksToPrice(ticks, tickSize), tickSize)
  {
    MulDiv(ticks as real, tickSize);
  }

  lemma MulDiv(x: real, t: real)
    requires t > 0.0
    ensures x * t / t == x && x / t * t == x
  {
  }

  lemma OnGridHasTicks(price: real, tickSize: Positive) returns (ticks: int)
    requires OnGrid(price, tickSize)
    ensures price == TicksToPrice(ticks, tickSize)
  {
    ticks := PriceToTicks(price, tickSize).Floor;
    MulDiv(price, tickSize);
  }

  lemma GridSum(a: real, b: real, k: int, tickSize: Positive)
    requires OnGrid(a, tickSize) && OnGrid(b, tickSize)
    ensures OnGrid(a + k as real * b, tickSize)
  {
    var m := OnGridHasTicks(a, tickSize);
    var n := OnGridHasTicks(b, tickSize);
    Distribute(m, n, k, tickSize);
    var total := m + k * n;
    TicksRoundTrip(total, tickSize);
    assert a + k as real * b == TicksToPrice(total, tickSize);
  }

  lemma Distribute(m: int, n: int, k: int, t: real)
    ensures TicksToPrice(m + k * n, t) == TicksToPrice(m, t) + k as real * TicksToPrice(n, t)
  {
    assert (m + k * n) as real == m as real + k as real * n as real by {
      assert (k * n) as real == k as real * n as real;
    }
    DistributeReals(m as real, k as real, n as real, t);
  }

  lemma DistributeReals(m: real, k: real, n: real, t: real)
    ensures (m + k * n) * t == m * t + k * (n * t)
  {
  }

  // ----- what each operation promises

  // A normalized price is a whole number of ticks, less than one tick away, never more aggressive than asked for,
  // and a price already on the grid is left alone.
  lemma NormalizationIsConservative(price: real, tickSize: Positive, side: Side, instruction: Instruction)
    ensures var p := NormalizeInstructionPrice(price, tickSize, side, instruction);
      && OnGrid(p, tickSize)
      && price - tickSize < p < price + tickSize
      && (instruction.Limit? == side.Buy? ==> p <= price)
      && (instruction.Limit? != side.Buy? ==> price <= p)
      && (OnGrid(price, tickSize) ==> p == price)
  {
    RoundingDown(price, tickSize);
    RoundingUp(price, tickSize);
  }

  lemma RoundingDown(price: real, tickSize: Positive)
    ensures var p := TicksToPrice(PriceToTicks(price, tickSize).Floor, tickSize);
      OnGrid(p, tickSize) && p <= price < p + tickSize && (OnGrid(price, tickSize) ==> p == price)
  {
    var ticks := PriceToTicks(price, tickSize);
    assert ticks * tickSize == price by {
      MulDiv(price, tickSize);
    }
    FloorScaled(ticks, tickSize, price);
    TicksRoundTrip(ticks.Floor, tickSize);
  }

  lemma RoundingUp(price: real, tickSize: Positive)
    ensures var p := TicksToPrice(Ceiling(PriceToTicks(price, tickSize)), tickSize);
      OnGrid(p, tickSize) && price <= p < price + tickSize && (OnGrid(price, tickSize) ==> p == price)
  {
    var ticks := PriceToTicks(price, tickSize);
    assert ticks * tickSize == price by {
      MulDiv(price, tickSize);
    }
    CeilingScaled(ticks, tickSize, price);
    TicksRoundTrip(Ceiling(ticks), tickSize);
  }

  lemma FloorScaled(ticks: real, t: real, price: real)
    requires t > 0.0 && ticks * t == price
    ensures TicksToPrice(ticks.Floor, t) <= price < TicksToPrice(ticks.Floor, t) + t
    ensures IsInteger(ticks) ==> TicksToPrice(ticks.Floor, t) == price
  {
    BetweenMultiples(ticks.Floor as real, ticks - ticks.Floor as real, t, price);
  }

  lemma BetweenMultiples(down: real, rest: real, t: real, price: real)
    requires t > 0.0 && 0.0 <= rest < 1.0 && (down + rest) * t == price
    ensures down * t <= price
    ensures price < down * t + t
  {
    Fraction(rest, t);
    DistributeOver(down, rest, t);
    Shift(down * t, rest * t, t);
  }

  lemma Fraction(x: real, t: real)
    requires t > 0.0 && 0.0 <= x < 1.0
    ensures 0.0 <= x * t < t
  {
    assert (1.0 - x) * t > 0.0;
  }

  lemma DistributeOver(a: real, b: real, t: real)
    ensures (a + b) * t == a * t + b * t
  {
  }

  lemma Shift(u: real, v: real, t: real)
    requires v < t
    ensures u + v < u + t
  {
  }

  lemma CeilingScaled(ticks: real, t: real, price: real)
    requires t > 0.0 && ticks * t == price
    ensures price <= TicksToPrice(Ceiling(ticks), t) < price + t
    ensures IsInteger(ticks) ==> TicksToPrice(Ceiling(ticks), t) == price
  {
    var opposite, down := -ticks, (-ticks).Floor;
    NegateReal(ticks, t);
    NegateInteger(ticks);
    FloorScaled(opposite, t, -price);
    assert Ceiling(ticks) == -down;
    NegateScaled(down, t);
  }

  lemma NegateReal(a: real, t: real)
    ensures (-a) * t == -(a * t)
  {
  }

  lemma NegateInteger(x: real)
    ensures IsInteger(x) ==> IsInteger(-x)
  {
    var n := x.Floor;
    if x == n as real {
      IntegersAreIntegers(-n);
      assert -x == (-n) as real;
    }
  }

  lemma IntegersAreIntegers(n: int)
    ensures IsInteger(n as real)
  {
  }

  lemma NegateScaled(ticks: int, t: real)
    ensures TicksToPrice(-ticks, t) == -TicksToPrice(ticks, t)
  {
    assert (-ticks) as real == -(ticks as real);
  }

  // Slippage fails exactly off the grid; on the grid it moves the price against the trader by the configured number
  // of ticks and stays on the grid.
  lemma SlippageIsAdverse(reference: real, side: Side, spec: FuturesSpec)
    ensures var r := ApplyAdverseSlippage(reference, side, spec);
      && (r.Success? <==> OnGrid(reference, spec.tickSize))
      && (r.Success? ==>
           && OnGrid(r.value, spec.tickSize)
           && (side.Buy? ==> r.value - reference == TicksToPrice(spec.slippageTicks, spec.tickSize))
           && (side.Sell? ==> reference - r.value == TicksToPrice(spec.slippageTicks, spec.tickSize)))
  {
    if OnGrid(reference, spec.tickSize) {
      var ticks := PriceToTicks(reference, spec.tickSize).Floor;
      MulDiv(reference, spec.tickSize);
      var direction := if side.Buy? then 1 else -1;
      TicksRoundTrip(ticks + direction * spec.slippageTicks, spec.tickSize);
      Distribute(ticks, spec.slippageTicks, direction, spec.tickSize);
    }
  }

  // A stop is filled at the worse of its own price and the open, which is on the grid whenever the open is.
  lemma StopReferenceIsWorst(sideToClose: Side, stopPrice: real, barOpen: real, tickSize: Positive)
    requires OnGrid(barOpen, tickSize)
    ensures var p := StopExitReference(sideToClose, stopPrice, barOpen, tickSize);
      && OnGrid(p, tickSize)
      && (sideToClose.Sell? ==> p <= stopPrice && p <= barOpen)
      && (sideToClose.Buy? ==> p >= stopPrice && p >= barOpen)
  {
    NormalizationIsConservative(stopPrice, tickSize, sideToClose, Stop);
  }

  // Entering and leaving with adverse slippage costs exactly the slippage of both sides, once each.
  lemma SlippageIsChargedOnce(
    entry: real, exit: real, quantity: real, fxRate: real, direction: int, spec: FuturesSpec)
    requires direction == 1 || direction == -1
    requires OnGrid(entry, spec.tickSize) && OnGrid(exit, spec.tickSize)
    ensures var opening := if direction == 1 then Buy else Sell;
      var filledIn := ApplyAdverseSlippage(entry, opening, spec);
      var filledOut := ApplyAdverseSlippage(exit, opening.Opposite(), spec);
      && filledIn.Success? && filledOut.Success?
      && FuturesRoundTripPnl(direction, quantity, filledIn.value, filledOut.value, fxRate, spec).netPnl
      == FuturesRoundTripPnl(direction, quantity, entry, exit, fxRate, spec).netPnl
         - 2.0 * TicksToPrice(spec.slippageTicks, spec.tickSize) * quantity * spec.multiplier * fxRate
  {
    var opening := if direction == 1 then Buy else Sell;
    SlippageIsAdverse(entry, opening, spec);
    SlippageIsAdverse(exit, opening.Opposite(), spec);
    var slip := TicksToPrice(spec.slippageTicks, spec.tickSize);
    var a := ApplyAdverseSlippage(entry, opening, spec).value;
    var b := ApplyAdverseSlippage(exit, opening.Opposite(), spec).value;
    var d := direction as real;
    assert d * (b - a) == d * (exit - entry) - 2.0 * slip;
    FactorOut(d * (exit - entry), 2.0 * slip, quantity, spec.multiplier, fxRate);
  }

  lemma FactorOut(x: real, y: real, q: real, m: real, f: real)
    ensures (x - y) * q * m * f == x * q * m * f - y * q * m * f
  {
    assert (x - y) * q == x * q - y * q;
    assert (x * q - y * q) * m == x * q * m - y * q * m;
    assert (x * q * m - y * q * m) * f == x * q * m * f - y * q * m * f;
  }
}
