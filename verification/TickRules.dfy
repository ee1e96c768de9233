/**
 * Prices in ticks, told with whole numbers: which prices are on the grid, the one level a price is rounded to, and what
 * slippage adds to it.
 */
module TickRules {
  import opened Outcomes
  import opened BarExecution

  // A whole number of ticks.
  ghost predicate Ticked(price: real, tick: real) {
    exists k: int :: Multiple(price, k, tick)
  }

  predicate Multiple(price: real, k: int, tick: real) {
    price == k as real * tick
  }

  // The highest level of the grid not above the price, and the lowest not below it.
  ghost predicate LevelBelow(price: real, tick: real, level: real) {
    Ticked(level, tick) && level <= price < level + tick
  }

  ghost predicate LevelAbove(price: real, tick: real, level: real) {
    Ticked(level, tick) && level - tick < price <= level
  }

  // Where an instruction is placed: a buy limit and a sell stop go down, a sell limit and a buy stop go up.
  ghost predicate PlacedAt(price: real, tick: real, side: Side, instruction: Instruction, level: real) {
    if (side.Buy? && instruction.Limit?) || (side.Sell? && instruction.Stop?) then LevelBelow(price, tick, level)
    else LevelAbove(price, tick, level)
  }

  lemma OnGridIff(price: real, tick: Positive)
    ensures OnGrid(price, tick) <==> Ticked(price, tick)
  {
    if OnGrid(price, tick) {
      var k := OnGridHasTicks(price, tick);
      assert Multiple(price, k, tick);
    }
    if k: int :| Multiple(price, k, tick) {
      TicksRoundTrip(k, tick);
    }
  }

  lemma CloseMultiples(a: real, b: real, j: int, k: int, tick: real)
    requires tick > 0.0 && Multiple(a, j, tick) && Multiple(b, k, tick) && -tick < a - b < tick
    ensures a == b
  {
    DifferenceOfMultiples(j, k, tick);
    WholeStepsAreLong(j - k, tick, a - b);
  }

  lemma DifferenceOfMultiples(j: int, k: int, tick: real)
    ensures j as real * tick - k as real * tick == (j - k) as real * tick
  {
    assert (j - k) as real == j as real - k as real;
  }

  predicate Product(distance: real, d: int, tick: real) {
    distance == d as real * tick
  }

  lemma WholeStepsAreLong(d: int, tick: real, distance: real)
    requires tick > 0.0 && Product(distance, d, tick) && -tick < distance < tick
    ensures distance == 0.0
  {
    StepsGrow(d, tick, distance);
    hide Product;
  }

  lemma StepsGrow(d: int, tick: real, distance: real)
    requires tick > 0.0 && Product(distance, d, tick)
    ensures d >= 1 ==> distance >= tick
    ensures d <= -1 ==> distance <= -tick
    ensures d == 0 ==> distance == 0.0
  {
    if d >= 1 {
      assert (d as real - 1.0) * tick >= 0.0;
    } else if d <= -1 {
      assert (-1.0 - d as real) * tick >= 0.0;
    }
  }

  // There is one such level.
  lemma LevelIsUnique(price: real, tick: real, side: Side, instruction: Instruction, a: real, b: real)
    requires tick > 0.0 && PlacedAt(price, tick, side, instruction, a) && PlacedAt(price, tick, side, instruction, b)
    ensures a == b
  {
    var j: int :| Multiple(a, j, tick);
    var k: int :| Multiple(b, k, tick);
    hide Multiple;
    CloseMultiples(a, b, j, k, tick);
  }

  // Normalizing places an instruction on its level.
  lemma NormalizesTo(price: real, tick: Positive, side: Side, instruction: Instruction, level: real)
    ensures level == NormalizeInstructionPrice(price, tick, side, instruction) <==>
            PlacedAt(price, tick, side, instruction, level)
  {
    var placed := NormalizeInstructionPrice(price, tick, side, instruction);
    NormalizationIsConservative(price, tick, side, instruction);
    OnGridIff(placed, tick);
    hide NormalizeInstructionPrice, OnGrid, Ticked;
    if PlacedAt(price, tick, side, instruction, level) {
      LevelIsUnique(price, tick, side, instruction, placed, level);
    }
  }

  // Slippage moves a price on the grid against the trader by its ticks, and fails off it.
  lemma SlipsBy(reference: real, side: Side, spec: FuturesSpec)
    ensures var r := ApplyAdverseSlippage(reference, side, spec);
      && (r.Success? <==> Ticked(reference, spec.tickSize))
      && (r.Success? ==>
           var slippage := spec.slippageTicks as real * spec.tickSize;
           r.value == if side.Buy? then reference + slippage else reference - slippage)
  {
    OnGridIff(reference, spec.tickSize);
    SlippageIsAdverse(reference, side, spec);
    hide ApplyAdverseSlippage, OnGrid, Ticked;
  }

  // A stop's exit refers to the worse of its level and the open.
  lemma StopRefersTo(side: Side, stop: real, open: real, tick: Positive, level: real)
    requires PlacedAt(stop, tick, side, Stop, level)
    ensures StopExitReference(side, stop, open, tick)
         == if side.Sell? then (if level < open then level else open) else (if level > open then level else open)
  {
    NormalizesTo(stop, tick, side, Stop, level);
    hide NormalizeInstructionPrice, PlacedAt;
  }
}
