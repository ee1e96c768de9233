/**
 * The life of a pending order: at most one per symbol, filled or cancelled exactly once, never on the candle that
 * generated it, and within its time to live in later candles of its own symbol.
 */
module BacktestOrders {
  import opened Outcomes
  import opened Aggregation
  import opened BarExecution
  import opened BacktestModel

  predicate Lists(pending: seq<PendingOrder>, id: nat) {
    exists p :: p in pending && p.id == id
  }

  ghost predicate Apart(pending: seq<PendingOrder>) {
    forall i, j :: 0 <= i < j < |pending| ==>
      pending[i].id != pending[j].id && pending[i].order.instrument != pending[j].order.instrument
  }

  // The stored orders still `Proposed` are exactly the pending ones.
  ghost predicate Live(b: Book, pending: seq<PendingOrder>) {
    && Apart(pending)
    && (forall p :: p in pending ==> p.id in b.orders && b.orders[p.id].Proposed?)
    && (forall id :: id in b.orders ==> id < b.nextOrderId && (b.orders[id].Proposed? ==> Lists(pending, id)))
  }

  // The candles of the order's symbol after the one that generated it.
  function Later(events: seq<Candle>, p: PendingOrder): nat {
    if events == [] then 0
    else
      var e := events[|events| - 1];
      Later(events[..|events| - 1], p) + if e.symbol == p.order.instrument && e.ts > p.generatedAt then 1 else 0
  }

  ghost predicate Aged(m: Market, events: seq<Candle>, p: PendingOrder) {
    p.remaining == m.orderTtl - Later(events, p) && (Later(events, p) == 0 || p.remaining > 0)
  }

  ghost predicate AllAged(m: Market, events: seq<Candle>, pending: seq<PendingOrder>) {
    forall p :: p in pending ==> Aged(m, events, p)
  }

  lemma LaterCountsOne(events: seq<Candle>, c: Candle, p: PendingOrder)
    ensures Later(events + [c], p) == Later(events, p) + if Waits(p, c) then 0 else 1
  {
    assert (events + [c])[..|events|] == events;
  }

  // What a candle does to one pending order.
  function SweepFate(m: Market, p: PendingOrder, c: Candle): OrderStatus {
    if Waits(p, c) then Proposed
    else if Touched(m, p.order, c) then Filled
    else if p.remaining <= 1 then Cancelled
    else Proposed
  }

  function Fate(m: Market, b: Book, p: PendingOrder, c: Candle): OrderStatus {
    if p.order.instrument == c.symbol && Rolls(m, b, c) then Cancelled else SweepFate(m, p, c)
  }

  // ----- what leaves the orders alone

  ghost predicate SameOrders(a: Book, b: Book) {
    a.orders == b.orders && a.pending == b.pending && a.nextOrderId == b.nextOrderId
  }

  lemma SettleKeepsOrders(
    m: Market, b: Book, pending: PendingOrder, c: Candle, price: real, spec: Option<FuturesSpec>)
    ensures var r := Settle(m, b, pending, c, price, spec); r.Success? ==> SameOrders(b, r.value)
  {
  }

  lemma {:induction false} PartialsKeepOrders(m: Market, b: Book, symbol: string, c: Candle, isLong: bool, n: nat)
    ensures var r := TakePartials(m, b, symbol, c, isLong, n); r.Success? ==> SameOrders(b, r.value)
  {
    if n > 0 {
      PartialsKeepOrders(m, b, symbol, c, isLong, n - 1);
    }
  }

  lemma CloseKeepsOrders(m: Market, b: Book, p: Position, price: real, at: int, reason: ExitReason, orderId: nat)
    ensures var r := Close(m, b, p, price, at, reason, orderId); r.Success? ==> SameOrders(b, r.value)
  {
  }

  lemma StopExitKeepsOrders(m: Market, b: Book, p: Position, c: Candle)
    requires p.stop.Some?
    ensures var r := StopExit(m, b, p, c); r.Success? ==> SameOrders(b, r.value)
  {
    var side := if p.IsLong() then Sell else Buy;
    var reference := if p.futuresSpec.Some?
                     then StopExitReference(side, p.stop.value, c.open, p.futuresSpec.value.tickSize)
                     else p.stop.value;
    var price := Slipped(p.futuresSpec, reference, side);
    if price.Success? {
      CloseKeepsOrders(m, b, p, price.value, c.ts, StopHit, p.orderId);
    }
  }

  lemma TargetOrTrailKeepsOrders(m: Market, b: Book, p: Position, c: Candle)
    ensures var r := TargetOrTrail(m, b, p, c); r.Success? ==> SameOrders(b, r.value)
  {
    if p.takeProfit.Some? {
      CloseKeepsOrders(m, b, p, p.takeProfit.value, c.ts, TakeProfit, p.orderId);
    }
  }

  lemma ManagedKeepsOrders(m: Market, b: Book, p: Position, c: Candle)
    ensures var r := Managed(m, b, p, c); r.Success? ==> SameOrders(b, r.value)
  {
    var moved := LockOneR(BreakEven(p, c), c);
    PartialsKeepOrders(m, WithPosition(b, moved), p.symbol, c, p.IsLong(), Levels(moved));
    var taken := TakePartials(m, WithPosition(b, moved), p.symbol, c, p.IsLong(), Levels(moved));
    if taken.Success? && p.symbol in taken.value.positions {
      TargetOrTrailKeepsOrders(m, taken.value, taken.value.positions[p.symbol], c);
    }
  }

  lemma BracketKeepsOrders(m: Market, b: Book, c: Candle)
    ensures var r := BracketExit(m, b, c); r.Success? ==> SameOrders(b, r.value)
  {
    if c.symbol in b.positions {
      var p := b.positions[c.symbol];
      if StopTouched(p, c) {
        StopExitKeepsOrders(m, b, p, c);
      } else if p.entryAt != c.ts {
        ManagedKeepsOrders(m, b, p, c);
      }
    }
  }

  // ----- rolling cancels the symbol's order

  lemma {:induction false} RollOrders(pending: seq<PendingOrder>, symbol: string, orders: map<nat, OrderStatus>)
    requires Apart(pending)
    ensures var after := CancelledFor(pending, symbol, orders);
      && (forall p :: p in pending && p.order.instrument == symbol ==> p.id in after && after[p.id] == Cancelled)
      && (forall id :: id in orders ==> id in after)
      && (forall id :: id in after && !(exists p :: p in pending && p.order.instrument == symbol && p.id == id) ==>
           id in orders && after[id] == orders[id])
  {
    if pending != [] {
      var init, last := pending[..|pending| - 1], pending[|pending| - 1];
      assert pending == init + [last];
      RollOrders(init, symbol, orders);
    }
  }

  lemma {:induction false} WithoutSymbolIsApart(pending: seq<PendingOrder>, symbol: string)
    requires Apart(pending)
    ensures Apart(WithoutSymbol(pending, symbol))
    ensures forall p :: p in WithoutSymbol(pending, symbol) <==> p in pending && p.order.instrument != symbol
  {
    if pending != [] {
      var init, last := pending[..|pending| - 1], pending[|pending| - 1];
      assert pending == init + [last];
      WithoutSymbolIsApart(init, symbol);
      forall p | p in init
        ensures p.id != last.id && p.order.instrument != last.order.instrument
      {
        var i :| 0 <= i < |init| && init[i] == p;
        assert pending[i] == p && pending[|init|] == last;
      }
    }
  }

  lemma DistinctIds(pending: seq<PendingOrder>, p: PendingOrder, q: PendingOrder)
    requires Apart(pending) && p in pending && q in pending && p.id == q.id
    ensures p == q
  {
    var i :| 0 <= i < |pending| && pending[i] == p;
    var j :| 0 <= j < |pending| && pending[j] == q;
    assert !(i < j) && !(j < i);
  }

  lemma TransitionOrders(m: Market, b: Book, c: Candle)
    requires Live(b, b.pending)
    ensures var r := Transition(m, b, c);
      r.Success? ==>
        && Live(r.value, r.value.pending) && r.value.nextOrderId == b.nextOrderId
        && (forall p :: p in r.value.pending <==> p in b.pending && !(Rolls(m, b, c) && p.order.instrument == c.symbol))
        && (forall id :: id in b.orders ==> id in r.value.orders)
        && (forall id :: id in b.orders && !b.orders[id].Proposed? ==> r.value.orders[id] == b.orders[id])
        && (forall p :: p in b.pending && Rolls(m, b, c) && p.order.instrument == c.symbol ==>
             r.value.orders[p.id] == Cancelled)
  {
    if Rolls(m, b, c) {
      RollOrders(b.pending, c.symbol, b.orders);
      WithoutSymbolIsApart(b.pending, c.symbol);
      var after, kept := CancelledFor(b.pending, c.symbol, b.orders), WithoutSymbol(b.pending, c.symbol);
      forall p | p in kept
        ensures p.id in after && after[p.id].Proposed?
      {
        forall q | q in b.pending && q.order.instrument == c.symbol && q.id == p.id
          ensures false
        {
          DistinctIds(b.pending, p, q);
        }
      }
      forall id | id in after
        ensures id < b.nextOrderId && (after[id].Proposed? ==> Lists(kept, id))
      {
        if after[id].Proposed? {
          var p :| p in b.pending && p.id == id;
          assert p in kept;
        }
      }
    }
  }

  // ----- the sweep

  lemma {:induction false} SweepFates(
    m: Market, b: Book, done: seq<PendingOrder>, rest: seq<PendingOrder>, c: Candle, events: seq<Candle>)
    requires Live(b, done + rest) && AllAged(m, events, done)
    ensures var r := Sweep(m, b, done, c);
      r.Success? ==>
        && Live(r.value, r.value.pending + rest) && r.value.nextOrderId == b.nextOrderId
        && AllAged(m, events + [c], r.value.pending)
        && (forall id :: id in b.orders ==> id in r.value.orders)
        && (forall p :: p in done ==> r.value.orders[p.id] == SweepFate(m, p, c))
        && (forall id :: id in b.orders && !Lists(done, id) ==> r.value.orders[id] == b.orders[id])
  {
    if done == [] {
      assert [] + rest == done + rest;
    } else {
      var init, last := done[..|done| - 1], done[|done| - 1];
      assert done == init + [last];
      assert init + ([last] + rest) == done + rest;
      SweepFates(m, b, init, [last] + rest, c, events);
      var swept := Sweep(m, b, init, c);
      if swept.Success? {
        assert swept.value.pending + ([last] + rest) == swept.value.pending + [last] + rest;
        SweepOneFate(m, swept.value, last, rest, c, events);
      }
      SplitIds(init, last, rest);
    }
  }

  lemma SplitIds(init: seq<PendingOrder>, last: PendingOrder, rest: seq<PendingOrder>)
    requires Apart(init + ([last] + rest))
    ensures !Lists(init, last.id)
    ensures forall id :: Lists(init + [last], id) <==> Lists(init, id) || id == last.id
  {
    var all := init + ([last] + rest);
    assert all[|init|] == last;
    forall i | 0 <= i < |init|
      ensures init[i].id != last.id
    {
      assert all[i] == init[i];
    }
    forall id
      ensures Lists(init + [last], id) <==> Lists(init, id) || id == last.id
    {
      assert forall p :: p in init + [last] <==> p in init || p == last;
      assert last in init + [last];
    }
  }

  lemma SweepOneFate(
    m: Market, b: Book, p: PendingOrder, rest: seq<PendingOrder>, c: Candle, events: seq<Candle>)
    requires Live(b, b.pending + [p] + rest) && AllAged(m, events + [c], b.pending) && Aged(m, events, p)
    ensures var r := SweepOne(m, b, p, c);
      r.Success? ==>
        && Live(r.value, r.value.pending + rest) && r.value.nextOrderId == b.nextOrderId
        && AllAged(m, events + [c], r.value.pending)
        && p.id in b.orders && r.value.orders == b.orders[p.id := SweepFate(m, p, c)]
  {
    var r := SweepOne(m, b, p, c);
    var all := b.pending + [p] + rest;
    assert all[|b.pending|] == p;
    LaterCountsOne(events, c, p);
    if r.Success? {
      if Waits(p, c) {
        assert b.orders[p.id := Proposed] == b.orders;
      } else if Touched(m, p.order, c) {
        var spec := SpecOf(m, p.order, c);
        SettleKeepsOrders(m, b, p, c, EntryPrice(spec, p.order, c).value, spec);
        Removing(b, b.pending, p, rest, Filled);
      } else if p.remaining - 1 <= 0 {
        Removing(b, b.pending, p, rest, Cancelled);
      } else {
        assert b.orders[p.id := Proposed] == b.orders;
        var aged := p.(remaining := p.remaining - 1);
        SameLater(events + [c], p, aged);
        Renewing(b, b.pending, p, aged, rest);
      }
    }
  }

  lemma SameLater(events: seq<Candle>, p: PendingOrder, q: PendingOrder)
    requires p.order == q.order && p.generatedAt == q.generatedAt
    ensures Later(events, p) == Later(events, q)
  {
  }

  lemma Removing(b: Book, kept: seq<PendingOrder>, p: PendingOrder, rest: seq<PendingOrder>, status: OrderStatus)
    requires Live(b, kept + [p] + rest) && !status.Proposed?
    ensures forall after: Book ::
      after.orders == b.orders[p.id := status] && after.nextOrderId == b.nextOrderId ==> Live(after, kept + rest)
  {
    var all, fewer := kept + [p] + rest, kept + rest;
    assert all[|kept|] == p;
    forall i | 0 <= i < |fewer|
      ensures fewer[i] == all[if i < |kept| then i else i + 1]
    {
    }
    forall q | q in fewer
      ensures q in all && q.id != p.id
    {
      var i :| 0 <= i < |fewer| && fewer[i] == q;
      var j := if i < |kept| then i else i + 1;
      assert all[j] == q && j != |kept|;
    }
    forall id | Lists(all, id) && id != p.id
      ensures Lists(fewer, id)
    {
      var q :| q in all && q.id == id;
      assert q in kept || q in rest;
      assert q in fewer;
    }
  }

  lemma Renewing(b: Book, kept: seq<PendingOrder>, p: PendingOrder, q: PendingOrder, rest: seq<PendingOrder>)
    requires Live(b, kept + [p] + rest) && p.id == q.id && p.order == q.order
    ensures forall after: Book ::
      after.orders == b.orders && after.nextOrderId == b.nextOrderId ==> Live(after, kept + [q] + rest)
  {
    var all, renewed := kept + [p] + rest, kept + [q] + rest;
    assert all[|kept|] == p && renewed[|kept|] == q;
    forall i | 0 <= i < |all|
      ensures all[i].id == renewed[i].id && all[i].order == renewed[i].order
    {
    }
    forall r | r in renewed
      ensures r.id in b.orders && b.orders[r.id].Proposed?
    {
      var i :| 0 <= i < |renewed| && renewed[i] == r;
      assert all[i] in all;
    }
    forall id | Lists(all, id)
      ensures Lists(renewed, id)
    {
      var i :| 0 <= i < |all| && all[i].id == id;
      assert renewed[i] in renewed;
    }
  }

  // ----- one candle, and whole runs

  // The candles of each symbol are in time order.
  ghost predicate InOrder(events: seq<Candle>) {
    forall i, j :: 0 <= i < j < |events| && events[i].symbol == events[j].symbol ==> events[i].ts <= events[j].ts
  }

  // The signal engine answers for the symbol it was asked about.
  predicate Answers(c: Candle, d: Decision) {
    d.Proposal? ==> d.order.instrument == c.symbol
  }

  lemma {:induction false} NothingLaterYet(events: seq<Candle>, p: PendingOrder)
    requires forall e :: e in events && e.symbol == p.order.instrument ==> e.ts <= p.generatedAt
    ensures Later(events, p) == 0
  {
    if events != [] {
      assert events[|events| - 1] in events;
      NothingLaterYet(events[..|events| - 1], p);
    }
  }

  lemma ProposeOrders(m: Market, b: Book, c: Candle, d: Decision, events: seq<Candle>)
    requires Live(b, b.pending) && AllAged(m, events + [c], b.pending) && Answers(c, d) && InOrder(events + [c])
    ensures var r := Propose(m, b, c, d);
      r.Success? ==>
        && Live(r.value, r.value.pending) && AllAged(m, events + [c], r.value.pending)
        && (forall id :: id in b.orders ==> id in r.value.orders && r.value.orders[id] == b.orders[id])
  {
    var r := Propose(m, b, c, d);
    if r.Success? && r.value != b {
      var stored := PendingOrder(b.nextOrderId, d.order, m.orderTtl, c.ts);
      var all := events + [c];
      forall e | e in all && e.symbol == c.symbol
        ensures e.ts <= c.ts
      {
        var i :| 0 <= i < |all| && all[i] == e;
        assert all[|events|] == c;
      }
      NothingLaterYet(all, stored);
      Adding(b, stored, r.value);
    }
  }

  lemma Adding(b: Book, p: PendingOrder, after: Book)
    requires Live(b, b.pending) && p.id == b.nextOrderId && !HasPending(b.pending, p.order.instrument)
    requires after.pending == b.pending + [p] && after.orders == b.orders[p.id := Proposed]
    requires after.nextOrderId == b.nextOrderId + 1
    ensures Live(after, after.pending)
  {
    forall id | Lists(b.pending, id)
      ensures Lists(after.pending, id)
    {
      var q :| q in b.pending && q.id == id;
      assert q in after.pending;
    }
    assert p in after.pending;
    assert Lists(after.pending, p.id);
  }

  // Everything one candle does to the stored orders: each pending order meets its fate, every settled one keeps its
  // status, and what stays pending has used up exactly the candles it has seen.
  lemma StepDecidesOrders(m: Market, b: Book, c: Candle, d: Decision, events: seq<Candle>)
    requires Live(b, b.pending) && AllAged(m, events, b.pending) && Answers(c, d) && InOrder(events + [c])
    ensures var r := Step(m, b, c, d);
      r.Success? ==>
        && Live(r.value, r.value.pending) && AllAged(m, events + [c], r.value.pending)
        && (forall id :: id in b.orders ==> id in r.value.orders)
        && (forall p :: p in b.pending ==> p.id in b.orders && r.value.orders[p.id] == Fate(m, b, p, c))
        && (forall id :: id in b.orders && !b.orders[id].Proposed? ==> r.value.orders[id] == b.orders[id])
  {
    var r := Step(m, b, c, d);
    if r.Success? {
      TransitionOrders(m, b, c);
      var rolled := Transition(m, b, c).value;
      assert rolled.pending + [] == rolled.pending;
      SweepFates(m, rolled, rolled.pending, [], c, events);
      var swept := Sweep(m, rolled, rolled.pending, c).value;
      assert swept.pending + [] == swept.pending;
      BracketKeepsOrders(m, swept, c);
      var processed := BracketExit(m, swept, c).value;
      ProposeOrders(m, processed, c, d, events);
      forall p | p in b.pending
        ensures r.value.orders[p.id] == Fate(m, b, p, c)
      {
        CarriedFate(m, b, rolled, swept, p, c);
      }
      forall id | id in b.orders && !b.orders[id].Proposed?
        ensures r.value.orders[id] == b.orders[id]
      {
        assert !Lists(rolled.pending, id);
      }
    }
  }

  lemma CarriedFate(m: Market, b: Book, rolled: Book, swept: Book, p: PendingOrder, c: Candle)
    requires p in b.pending && p.id in rolled.orders && p.id in swept.orders
    requires Live(rolled, rolled.pending)
    requires forall q :: q in rolled.pending <==> q in b.pending && !(Rolls(m, b, c) && q.order.instrument == c.symbol)
    requires Rolls(m, b, c) && p.order.instrument == c.symbol ==> rolled.orders[p.id] == Cancelled
    requires forall q :: q in rolled.pending ==> q.id in swept.orders && swept.orders[q.id] == SweepFate(m, q, c)
    requires forall id :: id in rolled.orders && id in swept.orders && !Lists(rolled.pending, id) ==>
               swept.orders[id] == rolled.orders[id]
    ensures swept.orders[p.id] == Fate(m, b, p, c)
  {
    if Rolls(m, b, c) && p.order.instrument == c.symbol {
      assert !Lists(rolled.pending, p.id);
    }
  }

  ghost predicate AllAnswer(events: seq<Candle>, decisions: seq<Decision>)
    requires |decisions| == |events|
  {
    forall i :: 0 <= i < |events| ==> Answers(events[i], decisions[i])
  }

  // In every reachable book: at most one pending order a symbol, the `Proposed` orders are the pending ones, and
  // each has seen fewer later candles of its symbol than its time to live.
  lemma {:induction false} RunsKeepOrders(m: Market, equity: real, events: seq<Candle>, decisions: seq<Decision>)
    requires |decisions| == |events| && InOrder(events) && AllAnswer(events, decisions)
    ensures var r := Steps(m, equity, events, decisions);
      r.Success? ==> Live(r.value, r.value.pending) && AllAged(m, events, r.value.pending)
  {
    if events != [] {
      var n := |events| - 1;
      assert events[..n] + [events[n]] == events;
      RunsKeepOrders(m, equity, events[..n], decisions[..n]);
      var b := Steps(m, equity, events[..n], decisions[..n]);
      if b.Success? {
        StepDecidesOrders(m, b.value, events[n], decisions[n], events[..n]);
      }
    }
  }

  function TimeToLive(m: Market): nat {
    if m.orderTtl > 1 then m.orderTtl else 1
  }

  // The candle that fills an order comes after the one that generated it, touches it, and is at most its
  // `TimeToLive`-th later candle; an order still pending has had fewer.
  lemma FillsComeInTime(
    m: Market, equity: real, events: seq<Candle>, decisions: seq<Decision>, c: Candle, d: Decision, p: PendingOrder)
    requires |decisions| == |events| && InOrder(events + [c]) && AllAnswer(events, decisions) && Answers(c, d)
    requires Steps(m, equity, events, decisions).Success?
    requires Step(m, Steps(m, equity, events, decisions).value, c, d).Success?
    requires p in Steps(m, equity, events, decisions).value.pending
    ensures var before := Steps(m, equity, events, decisions).value;
      var after := Step(m, before, c, d).value;
      && p.id in after.orders && Later(events, p) < TimeToLive(m)
      && (after.orders[p.id].Filled? ==>
           && c.symbol == p.order.instrument && c.ts > p.generatedAt && Touched(m, p.order, c)
           && Later(events + [c], p) <= TimeToLive(m))
      && (after.orders[p.id].Cancelled? ==>
           c.symbol == p.order.instrument && (Rolls(m, before, c) || Later(events + [c], p) == TimeToLive(m)))
  {
    assert InOrder(events) by {
      forall i, j | 0 <= i < j < |events| && events[i].symbol == events[j].symbol
        ensures events[i].ts <= events[j].ts
      {
        assert (events + [c])[i] == events[i] && (events + [c])[j] == events[j];
      }
    }
    RunsKeepOrders(m, equity, events, decisions);
    var before := Steps(m, equity, events, decisions).value;
    assert Aged(m, events, p);
    StepDecidesOrders(m, before, c, d, events);
    LaterCountsOne(events, c, p);
  }
}
