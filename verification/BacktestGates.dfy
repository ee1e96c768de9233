/**
 * Gated trails and added fills. An activated gate keeps the stop on the winning side of the average cost; a fill added
 * to a stock position brings its own stop, and is the only thing that can take that away.
 */
module BacktestGates {
  import opened Outcomes
  import opened Aggregation
  import opened BarExecution
  import opened BacktestModel
  import opened BacktestLedger
  import opened BacktestConservation
  import opened BacktestOrders
  import opened BacktestStops

  // ----- one fill

  // An added fill brings its own stop, so it keeps an activated gate exactly when that stop is on the winning side of
  // the new average cost.
  lemma AddingKeepsGateIff(
    m: Market, newId: nat, p: Position, pending: PendingOrder, c: Candle, price: real, rate: real)
    requires p.quantity != 0.0 && pending.order.quantity > 0.0 && Adds(Some(p), pending.order)
    requires p.trailActivated && Gated(FirstOf(p.trailingStopActivationR, pending.order.trailingStopActivationR))
    ensures var o := pending.order;
      var average := Weighted(p.averageCost, Abs(p.quantity), price, Abs(o.quantity));
      GateHolds(Opened(m, Some(p), newId, pending, c, price, rate, None)) <==>
        o.stop.Some? && if o.side.Buy? then o.stop.value >= average else o.stop.value <= average
  {
    hide Weighted, PendingPartials;
    assert Abs(SignedQuantity(pending.order.side, pending.order.quantity)) == Abs(pending.order.quantity);
  }

  // The order fills on this candle, adding to a position whose trail has activated, with a stop on the losing side of
  // the average cost that the fill makes.
  predicate AddsLooseStop(m: Market, b: Book, pending: PendingOrder, c: Candle) {
    var o := pending.order;
    var price := EntryPrice(SpecOf(m, o, c), o, c);
    && !Waits(pending, c) && Touched(m, o, c) && o.effect.OpenOrAdd? && price.Success?
    && o.instrument in b.positions && Adds(Held(b, o.instrument), o)
    && var p := b.positions[o.instrument];
       && p.trailActivated && Gated(FirstOf(p.trailingStopActivationR, o.trailingStopActivationR))
       && var average := Weighted(p.averageCost, Abs(p.quantity), price.value, Abs(o.quantity));
          o.stop.None? || if o.side.Buy? then o.stop.value < average else o.stop.value > average
  }

  ghost predicate AllGates(b: Book) {
    forall s :: s in b.positions ==> GateHolds(b.positions[s])
  }

  lemma SteadyKeepsAllGates(b: Book, after: Book)
    requires Steady(b, after) && AllGates(b)
    ensures AllGates(after)
  {
    hide GateHolds, NotLooser;
    forall s | s in after.positions
      ensures GateHolds(after.positions[s])
    {
      assert Ratchets(b.positions[s], after.positions[s]);
    }
  }

  lemma OpeningKeepsGatesIff(
    m: Market, b: Book, pending: PendingOrder, c: Candle, price: real, rate: real, spec: Option<FuturesSpec>)
    requires AllGates(b) && pending.order.quantity > 0.0 && pending.order.effect.OpenOrAdd?
    requires !Waits(pending, c) && Touched(m, pending.order, c) && spec == SpecOf(m, pending.order, c)
    requires EntryPrice(spec, pending.order, c) == Success(price)
    requires var existing := Held(b, pending.order.instrument);
      Adds(existing, pending.order) && (spec.Some? ==> existing.None?)
      && (existing.Some? ==> existing.value.quantity != 0.0)
    ensures var existing := Held(b, pending.order.instrument);
      var q := Opened(m, existing, b.nextPositionId, pending, c, price, rate, spec);
      AllGates(WithOpened(b, existing, q, Abs(pending.order.quantity))) <==> !AddsLooseStop(m, b, pending, c)
  {
    var o := pending.order;
    var existing := Held(b, o.instrument);
    hide Touched, EntryPrice, SpecOf, PendingPartials, Weighted;
    var q := Opened(m, existing, b.nextPositionId, pending, c, price, rate, spec);
    assert q.symbol == o.instrument;
    if existing.Some? && existing.value.trailActivated
       && Gated(FirstOf(existing.value.trailingStopActivationR, o.trailingStopActivationR)) {
      AddingKeepsGateIff(m, b.nextPositionId, existing.value, pending, c, price, rate);
      hide Opened;
      assert GateHolds(q) <==> !AddsLooseStop(m, b, pending, c);
    } else {
      assert GateHolds(q) && !AddsLooseStop(m, b, pending, c);
    }
    hide Opened, GateHolds, AddsLooseStop;
    var after := WithOpened(b, existing, q, Abs(o.quantity));
    assert after.positions == b.positions[q.symbol := q];
    assert after.positions[q.symbol] == q;
  }

  // The order's fill keeps every gate exactly when it does not add a loose stop.
  lemma FillKeepsGatesIff(m: Market, start: real, b: Book, pending: PendingOrder, c: Candle)
    requires Balanced(start, b) && AllGates(b) && pending.order.quantity > 0.0 && !Waits(pending, c)
    ensures var r := SweepOne(m, b, pending, c);
      r.Success? ==> (AllGates(r.value) <==> !AddsLooseStop(m, b, pending, c))
  {
    var o := pending.order;
    var r := SweepOne(m, b, pending, c);
    if r.Success? && Touched(m, o, c) {
      var spec := SpecOf(m, o, c);
      var price := EntryPrice(spec, o, c).value;
      var settled := Settle(m, b, pending, c, price, spec).value;
      assert r.value.positions == settled.positions;
      var existing := Held(b, o.instrument);
      if existing.Some? {
        HeldIsOwned(start, b, o.instrument);
      }
      hide Balanced, AllGates, Touched, EntryPrice, SpecOf, Close, Opened;
      if o.effect.OpenOrAdd? && Adds(existing, o) {
        OpeningKeepsGatesIff(m, b, pending, c, price, m.fx(o.instrument, c.ts).value, spec);
      } else {
        if existing.Some? {
          CloseIsSteady(m, b, existing.value, price, c.ts, ManagedExit, pending.id);
          CloseIsSteady(m, b, existing.value, price, c.ts, OppositeSignal, pending.id);
        }
        SteadyItself(b);
        assert Steady(b, settled);
        SteadyKeepsAllGates(b, settled);
        hide Steady;
      }
      SamePositions(settled, r.value);
    } else if r.Success? {
      SamePositions(b, r.value);
    }
  }

  lemma SamePositions(b: Book, after: Book)
    requires after.positions == b.positions
    ensures AllGates(b) <==> AllGates(after)
  {
  }

  // ----- one candle

  // No two orders are for one symbol.
  ghost predicate OneEach(pending: seq<PendingOrder>) {
    forall i, j :: 0 <= i < j < |pending| ==> pending[i].order.instrument != pending[j].order.instrument
  }

  ghost predicate SomeLooseStop(m: Market, b: Book, pending: seq<PendingOrder>, c: Candle) {
    exists p :: p in pending && AddsLooseStop(m, b, p, c)
  }

  lemma {:induction false} SweepKeepsGatesIff(
    m: Market, start: real, b: Book, pending: seq<PendingOrder>, c: Candle)
    requires Balanced(start, b) && PositiveOrders(pending) && OneEach(pending) && AllGates(b)
    ensures var r := Sweep(m, b, pending, c);
      r.Success? ==>
        && (AllGates(r.value) <==> !SomeLooseStop(m, b, pending, c))
        && ((forall p :: p in pending ==> Waits(p, c)) ==> r.value.positions == b.positions)
  {
    hide Balanced, AllGates, SweepOne, AddsLooseStop;
    var r := Sweep(m, b, pending, c);
    if pending == [] {
      SamePositions(b, b.(pending := []));
    } else if r.Success? {
      var init, last := pending[..|pending| - 1], pending[|pending| - 1];
      assert pending == init + [last] && last in pending;
      SweepKeepsGatesIff(m, start, b, init, c);
      SweepKeepsSound(m, start, b, init, c);
      var swept := Sweep(m, b, init, c).value;
      if Waits(last, c) {
        WaitingChangesNothing(m, b, swept, last, c);
        SamePositions(swept, r.value);
      } else {
        OthersWait(m, b, init, last, c);
        SamePositions(b, swept);
        FillKeepsGatesIff(m, start, swept, last, c);
        SameLoose(m, b, swept, last, c);
      }
    }
  }

  lemma WaitingChangesNothing(m: Market, b: Book, swept: Book, p: PendingOrder, c: Candle)
    requires Waits(p, c)
    ensures SweepOne(m, swept, p, c).Success? && SweepOne(m, swept, p, c).value.positions == swept.positions
    ensures !AddsLooseStop(m, b, p, c)
  {
  }

  lemma OthersWait(m: Market, b: Book, init: seq<PendingOrder>, last: PendingOrder, c: Candle)
    requires OneEach(init + [last]) && !Waits(last, c)
    ensures forall p :: p in init ==> Waits(p, c) && !AddsLooseStop(m, b, p, c)
  {
    var all := init + [last];
    forall p | p in init
      ensures Waits(p, c) && !AddsLooseStop(m, b, p, c)
    {
      var i :| 0 <= i < |init| && init[i] == p;
      assert all[i] == p && all[|init|] == last;
      WaitingChangesNothing(m, b, b, p, c);
    }
  }

  lemma SameLoose(m: Market, b: Book, swept: Book, p: PendingOrder, c: Candle)
    requires swept.positions == b.positions
    ensures AddsLooseStop(m, b, p, c) <==> AddsLooseStop(m, swept, p, c)
  {
    hide Touched, EntryPrice, SpecOf, Weighted;
  }

  // ----- whole runs

  // The book after a candle's pending orders, before its brackets.
  function AfterOrders(m: Market, b: Book, c: Candle): Result<Book, SimError> {
    var rolled :- Transition(m, b, c);
    Sweep(m, rolled, rolled.pending, c)
  }

  // At every candle of the run, after its fills and at its end, every activated gate protects its position.
  ghost predicate GatesProtect(m: Market, equity: real, events: seq<Candle>, decisions: seq<Decision>)
    requires |decisions| == |events| && Steps(m, equity, events, decisions).Success?
  {
    AllGates(Steps(m, equity, events, decisions).value)
    && (events != [] ==>
         var n := |events| - 1;
         && GatesProtect(m, equity, events[..n], decisions[..n])
         && var filled := AfterOrders(m, Steps(m, equity, events[..n], decisions[..n]).value, events[n]);
            filled.Success? && AllGates(filled.value))
  }

  // At no candle of the run does an order add a loose stop to an activated position.
  ghost predicate NoLooseStops(m: Market, equity: real, events: seq<Candle>, decisions: seq<Decision>)
    requires |decisions| == |events| && Steps(m, equity, events, decisions).Success?
  {
    events != [] ==>
      var n := |events| - 1;
      && NoLooseStops(m, equity, events[..n], decisions[..n])
      && var rolled := Transition(m, Steps(m, equity, events[..n], decisions[..n]).value, events[n]);
         rolled.Success? && !SomeLooseStop(m, rolled.value, rolled.value.pending, events[n])
  }

  lemma CandleKeepsGates(m: Market, start: real, b: Book, c: Candle, d: Decision)
    requires Sound(start, b) && Apart(b.pending) && AllGates(b) && Step(m, b, c, d).Success?
    ensures Transition(m, b, c).Success? && AfterOrders(m, b, c).Success?
    ensures var rolled := Transition(m, b, c).value;
      AllGates(AfterOrders(m, b, c).value) <==> !SomeLooseStop(m, rolled, rolled.pending, c)
    ensures AllGates(AfterOrders(m, b, c).value) ==> AllGates(Step(m, b, c, d).value)
  {
    hide Transition, Sweep, BracketExit, Propose, Balanced, AllGates, Steady, SomeLooseStop;
    var rolled := Transition(m, b, c).value;
    TransitionIsSteady(m, start, b, c);
    TransitionKeepsSound(m, start, b, c);
    SteadyKeepsAllGates(b, rolled);
    RolledApart(m, b, c);
    SweepKeepsGatesIff(m, start, rolled, rolled.pending, c);
    SweepKeepsSound(m, start, rolled, rolled.pending, c);
    var swept := Sweep(m, rolled, rolled.pending, c).value;
    BracketIsSteady(m, start, swept, c);
    var processed := BracketExit(m, swept, c).value;
    if AllGates(swept) {
      SteadyKeepsAllGates(swept, processed);
    }
    ProposeKeepsPositions(m, processed, c, d);
    SamePositions(processed, Propose(m, processed, c, d).value);
  }

  lemma ProposeKeepsPositions(m: Market, b: Book, c: Candle, d: Decision)
    ensures var r := Propose(m, b, c, d); r.Success? ==> r.value.positions == b.positions
  {
  }

  lemma RolledApart(m: Market, b: Book, c: Candle)
    requires Apart(b.pending) && Transition(m, b, c).Success?
    ensures OneEach(Transition(m, b, c).value.pending)
  {
    if Rolls(m, b, c) {
      WithoutSymbolIsApart(b.pending, c.symbol);
      if c.symbol in b.positions {
        RollKeepsPending(m, b, b.positions[c.symbol], b.last[c.symbol], c);
      }
      hide RollExit, WithoutSymbol;
    }
  }

  lemma RollKeepsPending(m: Market, b: Book, p: Position, previous: Candle, c: Candle)
    ensures var r := RollExit(m, b, p, previous, c); r.Success? ==> r.value.pending == b.pending
  {
    hide Slipped, ExitPnl;
  }

  // Through a whole run every activated gate keeps its protection, however many fills the positions have, exactly when
  // no candle adds a loose stop to an activated position.
  lemma {:induction false} GatesProtectIff(m: Market, equity: real, events: seq<Candle>, decisions: seq<Decision>)
    requires |decisions| == |events| && InOrder(events) && AllAnswer(events, decisions)
    requires Steps(m, equity, events, decisions).Success?
    ensures GatesProtect(m, equity, events, decisions) <==> NoLooseStops(m, equity, events, decisions)
  {
    hide Step, AllGates, AfterOrders, SomeLooseStop, Balanced, Live, Transition;
    if events == [] {
      NothingHeldYet(equity);
    } else {
      var n := |events| - 1;
      var b := Steps(m, equity, events[..n], decisions[..n]).value;
      GatesProtectIff(m, equity, events[..n], decisions[..n]);
      RunsConserve(m, equity, events[..n], decisions[..n]);
      RunsKeepOrders(m, equity, events[..n], decisions[..n]);
      LiveIsApart(b);
      if GatesProtect(m, equity, events[..n], decisions[..n]) {
        CandleKeepsGates(m, equity, b, events[n], decisions[n]);
      }
    }
  }

  lemma LiveIsApart(b: Book)
    requires Live(b, b.pending)
    ensures Apart(b.pending)
  {
  }

  lemma NothingHeldYet(equity: real)
    ensures AllGates(Start(equity))
  {
  }

  // ----- a run that loses its gate

  // A stock market without commissions, where every currency is the base.
  const Shop: Market :=
    Market(s => false, n => None, n => None, (s, t) => Some(1.0), s => 1.0, CommissionPlan(0.0, 0.0, 0.0, 0.0), 5, None)

  function Bar(ts: int, open: real, high: real, low: real): Candle {
    Candle("S", 0, ts, open, high, low, open, 1.0)
  }

  // One share at the market, trailing by ten percent once one initial risk is won.
  function BuyOne(stop: real): Order {
    Order("S", None, Buy, OpenOrAdd, MKT, 1.0, None, Some(stop), None, [], Some(10.0), Some(1.0), OtherStrategy("s"))
  }

  function Long(quantity: real, cost: real, stop: real, activated: bool, peak: real, orderId: nat): Position {
    Position(0, "S", None, quantity, quantity, cost, Some(stop), Some(95.0), None, None, Some(10.0), Some(1.0),
             activated, Some(peak), None, 1, orderId, OtherStrategy("s"), Buy, 1.0, 1.0, None)
  }

  lemma FirstCandle()
    ensures var r := Step(Shop, Start(1000.0), Bar(0, 100.0, 101.0, 99.0), Proposal(BuyOne(95.0)));
      r.Success? && r.value.positions == map[] && r.value.nextPositionId == 0 && r.value.nextOrderId == 1
      && r.value.pending == [PendingOrder(0, BuyOne(95.0), 5, 0)]
  {
  }

  lemma Fills(b: Book, id: nat, stop: real, at: int, c: Candle)
    requires c.symbol == "S" && c.ts > at && b.pending == [PendingOrder(id, BuyOne(stop), 5, at)]
    ensures Touched(Shop, BuyOne(stop), c)
    ensures var rolled := b.(last := b.last[c.symbol := c]);
      var existing := Held(b, "S");
      var q := Opened(Shop, existing, b.nextPositionId, b.pending[0], c, c.open, 1.0, None);
      && Transition(Shop, b, c) == Success(rolled)
      && (Adds(existing, BuyOne(stop)) ==>
           Sweep(Shop, rolled, rolled.pending, c)
             == Success(Executed(WithOpened(rolled.(pending := []), existing, q, 1.0), id)))
  {
    hide Opened;
    var rolled := b.(last := b.last[c.symbol := c]);
    assert rolled.pending[..0] == [];
    assert Sweep(Shop, rolled, [], c) == Success(rolled.(pending := []));
  }

  lemma SecondCandle(b: Book)
    requires b.positions == map[] && b.nextPositionId == 0 && b.nextOrderId == 1
    requires b.pending == [PendingOrder(0, BuyOne(95.0), 5, 0)]
    ensures var r := Step(Shop, b, Bar(1, 100.0, 101.0, 99.0), Rejected);
      r.Success? && r.value.positions == map["S" := Long(1.0, 100.0, 95.0, false, 100.0, 0)] && r.value.nextOrderId == 1
      && r.value.pending == []
  {
    var c := Bar(1, 100.0, 101.0, 99.0);
    Fills(b, 0, 95.0, 0, c);
    hide Sweep, Transition;
  }

  lemma ThirdCandle(b: Book)
    requires b.positions == map["S" := Long(1.0, 100.0, 95.0, false, 100.0, 0)] && b.nextOrderId == 1 && b.pending == []
    ensures var r := Step(Shop, b, Bar(2, 102.0, 106.0, 101.0), Proposal(BuyOne(90.0)));
      r.Success? && r.value.positions == map["S" := Long(1.0, 100.0, 100.0, true, 106.0, 0)]
      && r.value.pending == [PendingOrder(1, BuyOne(90.0), 5, 2)]
  {
    var c := Bar(2, 102.0, 106.0, 101.0);
    var p := Long(1.0, 100.0, 95.0, false, 100.0, 0);
    var rolled := b.(last := b.last[c.symbol := c]);
    assert Sweep(Shop, rolled, rolled.pending, c) == Success(rolled);
    assert Trail(p, c) == Long(1.0, 100.0, 100.0, true, 106.0, 0);
  }

  lemma FourthCandle(b: Book)
    requires b.positions == map["S" := Long(1.0, 100.0, 100.0, true, 106.0, 0)]
    requires b.pending == [PendingOrder(1, BuyOne(90.0), 5, 2)]
    ensures var r := Step(Shop, b, Bar(3, 110.0, 110.0, 108.0), Rejected);
      r.Success? && r.value.positions == map["S" := Long(2.0, 105.0, 99.0, true, 110.0, 1)]
  {
    var c := Bar(3, 110.0, 110.0, 108.0);
    Fills(b, 1, 90.0, 2, c);
    hide Sweep, Transition;
    var p := Long(1.0, 100.0, 100.0, true, 106.0, 0);
    var q := Opened(Shop, Some(p), b.nextPositionId, b.pending[0], c, 110.0, 1.0, None);
    assert Weighted(100.0, 1.0, 110.0, 1.0) == 105.0;
    assert q == Long(2.0, 105.0, 90.0, true, 110.0, 1);
    assert Trail(q, c) == Long(2.0, 105.0, 99.0, true, 110.0, 1);
  }

  // From bought at 100 with its stop at 95, moved to break-even when the price reached 106, to doubled at 110 with a
  // stop at 90: the trail brings it back to 99 only, and the position's average cost is 105.
  lemma AddingCanLoseTheGate()
    ensures var events := [Bar(0, 100.0, 101.0, 99.0), Bar(1, 100.0, 101.0, 99.0), Bar(2, 102.0, 106.0, 101.0),
                           Bar(3, 110.0, 110.0, 108.0)];
      var decisions := [Proposal(BuyOne(95.0)), Rejected, Proposal(BuyOne(90.0)), Rejected];
      var before, after := Steps(Shop, 1000.0, events[..3], decisions[..3]), Steps(Shop, 1000.0, events, decisions);
      && before.Success? && AllGates(before.value)
      && after.Success? && after.value.positions == map["S" := Long(2.0, 105.0, 99.0, true, 110.0, 1)]
      && !AllGates(after.value)
  {
    hide Step;
    var events := [Bar(0, 100.0, 101.0, 99.0), Bar(1, 100.0, 101.0, 99.0), Bar(2, 102.0, 106.0, 101.0),
                   Bar(3, 110.0, 110.0, 108.0)];
    var decisions := [Proposal(BuyOne(95.0)), Rejected, Proposal(BuyOne(90.0)), Rejected];
    assert events[..3][..2] == events[..2] && events[..2][..1] == events[..1] && events[..1][..0] == [];
    assert decisions[..3][..2] == decisions[..2] && decisions[..2][..1] == decisions[..1] && decisions[..1][..0] == [];
    FirstCandle();
    assert Steps(Shop, 1000.0, events[..0], decisions[..0]) == Success(Start(1000.0));
    assert Steps(Shop, 1000.0, events[..1], decisions[..1])
        == Step(Shop, Start(1000.0), Bar(0, 100.0, 101.0, 99.0), Proposal(BuyOne(95.0)));
    var one := Steps(Shop, 1000.0, events[..1], decisions[..1]).value;
    SecondCandle(one);
    var two := Steps(Shop, 1000.0, events[..2], decisions[..2]).value;
    ThirdCandle(two);
    FourthCandle(Steps(Shop, 1000.0, events[..3], decisions[..3]).value);
    assert "S" in Steps(Shop, 1000.0, events, decisions).value.positions;
  }
}
