/**
 * Where every exit comes from: each fill of a run is explained by one candle - a stop the candle touched, a target or
 * rung it reached, an order it filled, or the last close of a contract that rolled away - at a price no better than
 * that; and what is left at the end leaves at its symbol's last close.
 */
module BacktestExits {
  import opened Outcomes
  import opened Aggregation
  import opened BarExecution
  import opened BacktestModel
  import opened BacktestLedger
  import opened BacktestConservation
  import opened BacktestFills
  import opened BacktestGates

  // ----- explanations

  // The latest candle of a symbol.
  function Latest(events: seq<Candle>, symbol: string): Option<Candle> {
    if events == [] then None
    else if events[|events| - 1].symbol == symbol then Some(events[|events| - 1])
    else Latest(events[..|events| - 1], symbol)
  }

  predicate WholeOf(p: Position, f: Fill) {
    f.positionId == p.id && f.symbol == p.symbol && f.quantity == Abs(p.quantity)
  }

  // The position left at a candle's close, less the slippage.
  predicate LeavesAt(p: Position, last: Candle, f: Fill) {
    && WholeOf(p, f) && f.exitAt == last.ts
    && f.exitPrice == if p.IsLong() then last.close - SlippageOf(p.futuresSpec)
                      else last.close + SlippageOf(p.futuresSpec)
  }

  // The candle touched the position's stop; the fill is no better than the stop, in futures nor than the open.
  predicate StopsOut(p: Position, c: Candle, f: Fill) {
    && WholeOf(p, f) && f.exitAt == c.ts && StopTouched(p, c)
    && (if p.IsLong() then f.exitPrice <= p.stop.value else f.exitPrice >= p.stop.value)
    && (p.futuresSpec.None? ==> f.exitPrice == p.stop.value)
    && (p.futuresSpec.Some? ==> if p.IsLong() then f.exitPrice <= c.open else f.exitPrice >= c.open)
  }

  predicate HitsTarget(p: Position, c: Candle, f: Fill) {
    && f.positionId == p.id && f.symbol == p.symbol && f.exitAt == c.ts
    && p.takeProfit == Some(f.exitPrice) && Reached(c, f.exitPrice, p.IsLong())
  }

  predicate TakesRung(p: Position, c: Candle, f: Fill) {
    && f.positionId == p.id && f.symbol == p.symbol && f.exitAt == c.ts && p.partials.Some?
    && exists k :: 0 <= k < |p.partials.value| && !p.partials.value[k].executed
         && p.partials.value[k].price == f.exitPrice && Reached(c, f.exitPrice, p.IsLong())
         && 0.0 < f.quantity <= p.originalQuantityAbs * p.partials.value[k].fraction
  }

  // The exit came from the brackets the position had after the candle's orders.
  predicate ByBracket(p: Position, c: Candle, f: Fill) {
    match f.reason
    case StopHit => StopsOut(p, c, f)
    case TakeProfit => HitsTarget(p, c, f)
    case PartialTakeProfit => TakesRung(p, c, f)
    case _ => false
  }

  // An order waiting for the candle filled on it, and its fill price is the exit's; at a limit the candle traded there.
  predicate MeetsOrder(m: Market, pending: seq<PendingOrder>, c: Candle, f: Fill) {
    exists p :: p in pending && p.id == f.orderId && p.order.instrument == f.symbol && f.exitAt == c.ts
      && !Waits(p, c) && Touched(m, p.order, c)
      && EntryPrice(SpecOf(m, p.order, c), p.order, c) == Success(f.exitPrice)
      && (p.order.orderType.LMT? ==> if p.order.side.Buy? then c.low <= f.exitPrice else c.high >= f.exitPrice)
  }

  predicate OrderExit(f: Fill) {
    f.reason.ManagedExit? || f.reason.OppositeSignal?
  }

  // The position left because the candle is another contract's, at the last close of its own.
  predicate RolledOut(m: Market, b: Book, c: Candle, latest: Option<Candle>, f: Fill) {
    && (f.reason.ContractRoll? || f.reason.Expiry?) && f.symbol == c.symbol
    && Rolls(m, b, c) && c.symbol in b.positions && latest.Some?
    && LeavesAt(b.positions[c.symbol], latest.value, f)
    && (f.reason == Expiry <==>
         m.lastTradeAt(latest.value.conid).Some? && c.ts >= m.lastTradeAt(latest.value.conid).value)
  }

  // Candle `c` explains the fill: `b` is the book before it, `latest` its symbol's candle before it.
  ghost predicate Explains(m: Market, b: Book, c: Candle, latest: Option<Candle>, f: Fill) {
    var rolled, filled := Transition(m, b, c), AfterOrders(m, b, c);
    && rolled.Success? && filled.Success? && f.symbol == c.symbol
    && match f.reason
       case ContractRoll | Expiry => RolledOut(m, b, c, latest, f)
       case ManagedExit | OppositeSignal => MeetsOrder(m, rolled.value.pending, c, f)
       case StopHit | TakeProfit | PartialTakeProfit =>
         Held(filled.value, c.symbol).Some? && ByBracket(Held(filled.value, c.symbol).value, c, f)
       case DatasetEnd => false
  }

  // ----- phases

  // `after` adds only fills that have the reason, and holds only what `b` held or the candle's symbol.
  ghost predicate Books(b: Book, after: Book, c: Candle, because: Fill -> bool) {
    && after.last == b.last && |b.fills| <= |after.fills| && after.fills[..|b.fills|] == b.fills
    && (forall i :: |b.fills| <= i < |after.fills| ==> because(after.fills[i]))
    && (forall s :: s in after.positions ==> s in b.positions || s == c.symbol)
  }

  lemma BooksTwice(a: Book, b: Book, after: Book, c: Candle, because: Fill -> bool)
    requires Books(a, b, c, because) && Books(b, after, c, because)
    ensures Books(a, after, c, because)
  {
    assert after.fills[..|a.fills|] == after.fills[..|b.fills|][..|a.fills|];
    forall i | |a.fills| <= i < |after.fills|
      ensures because(after.fills[i])
    {
      if i < |b.fills| {
        assert after.fills[..|b.fills|][i] == b.fills[i];
      }
    }
  }

  lemma BooksBecause(b: Book, after: Book, c: Candle, first: Fill -> bool, next: Fill -> bool)
    requires Books(b, after, c, first) && forall f :: first(f) ==> next(f)
    ensures Books(b, after, c, next)
  {
  }

  lemma NothingBooked(b: Book, after: Book, c: Candle, because: Fill -> bool)
    requires after.fills == b.fills && after.last == b.last
    requires forall s :: s in after.positions ==> s in b.positions || s == c.symbol
    ensures Books(b, after, c, because)
  {
  }

  lemma OneBooked(b: Book, after: Book, c: Candle, because: Fill -> bool)
    requires after.last == b.last && |after.fills| == |b.fills| + 1 && after.fills[..|b.fills|] == b.fills
    requires because(after.fills[|b.fills|])
    requires forall s :: s in after.positions ==> s in b.positions || s == c.symbol
    ensures Books(b, after, c, because)
  {
  }

  lemma CloseBooks(
    m: Market, b: Book, p: Position, price: real, at: int, reason: ExitReason, orderId: nat, c: Candle,
    because: Fill -> bool)
    requires p.symbol in b.positions && p.quantity != 0.0
    requires forall pnl :: because(FillOf(p, Abs(p.quantity), price, at, orderId, reason, pnl))
    ensures var r := Close(m, b, p, price, at, reason, orderId); r.Success? ==> Books(b, r.value, c, because)
  {
    hide ExitPnl, FillOf;
    var r := Close(m, b, p, price, at, reason, orderId);
    if r.Success? {
      var pnl := ExitPnl(m, p, Abs(p.quantity), price, m.fx(p.symbol, at).value);
      var f := FillOf(p, Abs(p.quantity), price, at, orderId, reason, pnl);
      assert r.value.fills == b.fills + [f];
      OneBooked(b, r.value, c, because);
    }
  }

  // ----- rolling

  lemma RollBooks(m: Market, start: real, b: Book, c: Candle, because: Fill -> bool)
    requires Balanced(start, b) && Transition(m, b, c).Success?
    requires forall f: Fill ::
               RolledOut(m, b, c, if c.symbol in b.last then Some(b.last[c.symbol]) else None, f) ==> because(f)
    ensures var rolled := Transition(m, b, c).value;
      rolled.last == b.last[c.symbol := c] && Books(b, rolled.(last := b.last), c, because)
  {
    var rolled := Transition(m, b, c).value;
    if Rolls(m, b, c) && c.symbol in b.positions {
      HeldIsOwned(start, b, c.symbol);
      var p, previous := b.positions[c.symbol], b.last[c.symbol];
      var side := if p.IsLong() then Sell else Buy;
      var price := Slipped(p.futuresSpec, previous.close, side).value;
      SlippedBy(p.futuresSpec, previous.close, side);
      var expiry := m.lastTradeAt(previous.conid);
      var reason := if expiry.Some? && c.ts >= expiry.value then Expiry else ContractRoll;
      var closed := Close(m, b, p, price, previous.ts, reason, p.orderId);
      assert closed.Success? && rolled.fills == closed.value.fills && rolled.positions == closed.value.positions
             && rolled.last == closed.value.last[c.symbol := c];
      hide Transition, Balanced, Slipped, SlippageOf, Close, Books;
      forall pnl
        ensures because(FillOf(p, Abs(p.quantity), price, previous.ts, p.orderId, reason, pnl))
      {
      }
      CloseBooks(m, b, p, price, previous.ts, reason, p.orderId, c, because);
      CloseKeepsLast(m, b, p, price, previous.ts, reason, p.orderId);
      SameBooked(b, closed.value, rolled.(last := b.last), c, because);
    } else {
      NothingBooked(b, rolled.(last := b.last), c, because);
    }
  }

  lemma CloseKeepsLast(m: Market, b: Book, p: Position, price: real, at: int, reason: ExitReason, orderId: nat)
    ensures var r := Close(m, b, p, price, at, reason, orderId); r.Success? ==> r.value.last == b.last
  {
  }

  lemma SameBooked(b: Book, after: Book, same: Book, c: Candle, because: Fill -> bool)
    requires Books(b, after, c, because)
    requires same.fills == after.fills && same.last == after.last && same.positions == after.positions
    ensures Books(b, same, c, because)
  {
  }

  // ----- orders

  lemma SettleBooks(
    m: Market, start: real, b: Book, all: seq<PendingOrder>, pending: PendingOrder, c: Candle, price: real,
    because: Fill -> bool)
    requires Balanced(start, b) && pending in all && !Waits(pending, c) && Touched(m, pending.order, c)
    requires EntryPrice(SpecOf(m, pending.order, c), pending.order, c) == Success(price)
    requires forall f: Fill :: OrderExit(f) && MeetsOrder(m, all, c, f) ==> because(f)
    ensures var r := Settle(m, b, pending, c, price, SpecOf(m, pending.order, c));
      r.Success? ==> Books(b, r.value, c, because)
  {
    var o := pending.order;
    var existing := Held(b, o.instrument);
    if o.orderType.LMT? {
      TouchedMeansReached(m, o, c);
    }
    hide Touched, EntryPrice, SpecOf, Balanced, Opened, Close;
    if existing.Some? && (o.effect.CloseOrReduce? || !Adds(existing, o)) {
      HeldIsOwned(start, b, o.instrument);
      var reason := if o.effect.CloseOrReduce? then ManagedExit else OppositeSignal;
      CloseBooks(m, b, existing.value, price, c.ts, reason, pending.id, c, because);
    }
    var r := Settle(m, b, pending, c, price, SpecOf(m, pending.order, c));
    if r.Success? && !o.effect.CloseOrReduce? && Adds(existing, o) {
      assert r.value.fills == b.fills && r.value.last == b.last;
      OpenedSymbol(m, existing, b.nextPositionId, pending, c, price, m.fx(o.instrument, c.ts).value, SpecOf(m, o, c));
      NothingBooked(b, r.value, c, because);
    }
  }

  lemma OpenedSymbol(
    m: Market, existing: Option<Position>, newId: nat, pending: PendingOrder, c: Candle, price: real, rate: real,
    spec: Option<FuturesSpec>)
    ensures Opened(m, existing, newId, pending, c, price, rate, spec).symbol == pending.order.instrument
  {
  }

  lemma {:induction false} SweepBooks(
    m: Market, start: real, b: Book, all: seq<PendingOrder>, pending: seq<PendingOrder>, c: Candle,
    because: Fill -> bool)
    requires Balanced(start, b) && PositiveOrders(pending) && forall p :: p in pending ==> p in all
    requires forall f: Fill :: OrderExit(f) && MeetsOrder(m, all, c, f) ==> because(f)
    ensures var r := Sweep(m, b, pending, c); r.Success? ==> Books(b, r.value, c, because)
  {
    hide Balanced, Settle, EntryPrice, Touched, Books, MeetsOrder;
    var r := Sweep(m, b, pending, c);
    if pending == [] {
      NothingBooked(b, b.(pending := []), c, because);
    } else if r.Success? {
      var init, last := pending[..|pending| - 1], pending[|pending| - 1];
      assert pending == init + [last] && last in pending;
      SweepBooks(m, start, b, all, init, c, because);
      SweepKeepsSound(m, start, b, init, c);
      var swept := Sweep(m, b, init, c).value;
      if !Waits(last, c) && Touched(m, last.order, c) {
        var spec := SpecOf(m, last.order, c);
        var price := EntryPrice(spec, last.order, c).value;
        SettleBooks(m, start, swept, all, last, c, price, because);
        var settled := Settle(m, swept, last, c, price, spec).value;
        NothingBooked(settled, r.value, c, because);
        BooksTwice(swept, settled, r.value, c, because);
      } else {
        NothingBooked(swept, r.value, c, because);
      }
      BooksTwice(b, swept, r.value, c, because);
    }
  }

  // ----- brackets

  // The same position with the same target and ladder, on which rungs may have been spent.
  predicate SameBracket(p: Position, q: Position) {
    && q.id == p.id && q.symbol == p.symbol && q.takeProfit == p.takeProfit && Sign(q.quantity) == Sign(p.quantity)
    && q.originalQuantityAbs == p.originalQuantityAbs
    && (q.partials.Some? ==>
         && p.partials.Some? && |q.partials.value| == |p.partials.value|
         && forall k :: 0 <= k < |p.partials.value| ==>
              && q.partials.value[k].price == p.partials.value[k].price
              && q.partials.value[k].fraction == p.partials.value[k].fraction
              && (p.partials.value[k].executed ==> q.partials.value[k].executed))
  }

  // The fills so far are the brackets', and what is left of the position still has them.
  ghost predicate Bracketed(b: Book, after: Book, p: Position, c: Candle) {
    && Books(b, after, c, f => ByBracket(p, c, f))
    && (p.symbol in after.positions ==> SameBracket(p, after.positions[p.symbol]))
  }

  function Spent(q: Position, k: nat): Position
    requires q.partials.Some? && k < |q.partials.value|
  {
    q.(partials := Some(q.partials.value[k := q.partials.value[k].(executed := true)]))
  }

  lemma SpendingKeepsBracket(p: Position, q: Position, k: nat, c: Candle)
    requires SameBracket(p, q) && TakesLevel(q, k, c, p.IsLong())
    ensures SameBracket(p, Spent(q, k))
  {
  }

  lemma BracketOfTheRest(p: Position, q: Position, quantity: real)
    requires SameBracket(p, q) && Sign(quantity) == Sign(q.quantity)
    ensures SameBracket(p, q.(quantity := quantity))
  {
  }

  lemma RungIsTaken(p: Position, q: Position, k: nat, c: Candle, f: Fill)
    requires SameBracket(p, q) && TakesLevel(q, k, c, p.IsLong())
    requires f.positionId == q.id && f.symbol == q.symbol && f.exitAt == c.ts
    requires f.exitPrice == q.partials.value[k].price
    requires 0.0 < f.quantity <= q.originalQuantityAbs * q.partials.value[k].fraction
    ensures TakesRung(p, c, f)
  {
    var level := p.partials.value[k];
    assert !level.executed && level.price == f.exitPrice;
    assert level.fraction == q.partials.value[k].fraction && p.originalQuantityAbs == q.originalQuantityAbs;
  }

  lemma RungBooks(m: Market, b: Book, p: Position, q: Position, k: nat, c: Candle)
    requires Owns(b, q) && q.quantity != 0.0 && SameBracket(p, q) && TakesLevel(q, k, c, p.IsLong())
    ensures var r := TakePartial(m, b, q, k, c.ts); r.Success? ==> Bracketed(b, r.value, p, c)
  {
    var r := TakePartial(m, b, q, k, c.ts);
    if r.Success? {
      PartialsTakeWholeUnits(m, b, q, k, c.ts);
      SpendingKeepsBracket(p, q, k, c);
      var spent := Spent(q, k);
      var quantity := PartialQuantity(q, q.partials.value[k].fraction);
      assert q.symbol == p.symbol;
      hide PartialQuantity, ExitPnl, SameBracket, TakesRung;
      if quantity > 0.0 {
        var f := r.value.fills[|b.fills|];
        RungIsTaken(p, q, k, c, f);
        OneBooked(b, r.value, c, f => ByBracket(p, c, f));
        var left := Abs(q.quantity) - quantity;
        var rest := if q.IsLong() then left else -left;
        assert q.symbol in r.value.positions ==> r.value.positions[q.symbol] == spent.(quantity := rest);
        if left != 0.0 {
          BracketOfTheRest(p, spent, rest);
        }
      } else {
        NothingBooked(b, r.value, c, f => ByBracket(p, c, f));
      }
    }
  }

  lemma OneRungMore(m: Market, b: Book, taken: Book, p: Position, q: Position, k: nat, c: Candle)
    requires Bracketed(b, taken, p, c) && p.symbol in taken.positions && taken.positions[p.symbol] == q
    requires q.symbol == p.symbol && q.quantity != 0.0 && TakesLevel(q, k, c, p.IsLong())
    ensures var r := TakePartial(m, taken, q, k, c.ts); r.Success? ==> Bracketed(b, r.value, p, c)
  {
    hide TakePartial, ByBracket, SameBracket, Books;
    RungBooks(m, taken, p, q, k, c);
    var r := TakePartial(m, taken, q, k, c.ts);
    if r.Success? {
      BooksTwice(b, taken, r.value, c, f => ByBracket(p, c, f));
    }
  }

  lemma NoRungYet(b: Book, p: Position, q: Position, c: Candle)
    requires Owns(b, q) && SameBracket(p, q)
    ensures Bracketed(b, b, p, c)
  {
    NothingBooked(b, b, c, f => ByBracket(p, c, f));
  }

  lemma {:induction false} RungsBook(
    m: Market, start: real, b: Book, p: Position, c: Candle, n: nat)
    requires Balanced(start, b) && Bracketed(b, b, p, c)
    ensures var r := TakePartials(m, b, p.symbol, c, p.IsLong(), n); r.Success? ==> Bracketed(b, r.value, p, c)
  {
    hide TakePartial, TakesLevel, Balanced, Bracketed;
    if n > 0 {
      RungsBook(m, start, b, p, c, n - 1);
      TakePartialsBalances(m, start, b, p.symbol, c, p.IsLong(), n - 1);
      var taken := TakePartials(m, b, p.symbol, c, p.IsLong(), n - 1);
      if taken.Success? && p.symbol in taken.value.positions {
        NextRung(m, start, b, taken.value, p, c, n - 1);
      }
    }
  }

  lemma NextRung(m: Market, start: real, b: Book, taken: Book, p: Position, c: Candle, k: nat)
    requires Balanced(start, taken) && Bracketed(b, taken, p, c) && p.symbol in taken.positions
    ensures var held := taken.positions[p.symbol];
      TakesLevel(held, k, c, p.IsLong()) ==>
        var r := TakePartial(m, taken, held, k, c.ts); r.Success? ==> Bracketed(b, r.value, p, c)
  {
    HeldIsOwned(start, taken, p.symbol);
    var held := taken.positions[p.symbol];
    hide TakePartial, Balanced, Bracketed;
    if TakesLevel(held, k, c, p.IsLong()) {
      OneRungMore(m, b, taken, p, held, k, c);
    }
  }

  lemma TargetBooks(m: Market, b: Book, p: Position, q: Position, c: Candle)
    requires Owns(b, q) && q.quantity != 0.0 && SameBracket(p, q)
    ensures var r := TargetOrTrail(m, b, q, c);
      r.Success? ==> Books(b, r.value, c, f => ByBracket(p, c, f))
  {
    var because := f => ByBracket(p, c, f);
    var r := TargetOrTrail(m, b, q, c);
    assert Trail(q, c).symbol == q.symbol;
    hide Trail;
    if r.Success? {
      if q.takeProfit.Some? && Reached(c, q.takeProfit.value, q.IsLong()) {
        forall pnl
          ensures because(FillOf(q, Abs(q.quantity), q.takeProfit.value, c.ts, q.orderId, TakeProfit, pnl))
        {
        }
        hide Close, Books;
        CloseBooks(m, b, q, q.takeProfit.value, c.ts, TakeProfit, q.orderId, c, because);
      } else {
        NothingBooked(b, r.value, c, because);
      }
    }
  }

  lemma LocksKeepBracket(p: Position, c: Candle)
    ensures var moved := LockOneR(BreakEven(p, c), c); SameBracket(p, moved) && SameHolding(p, moved)
  {
    hide LocksAt, AtR;
  }

  lemma ManagedBooks(m: Market, start: real, b: Book, p: Position, c: Candle)
    requires Balanced(start, b) && Owns(b, p)
    ensures var r := Managed(m, b, p, c); r.Success? ==> Books(b, r.value, c, f => ByBracket(p, c, f))
  {
    var because := f => ByBracket(p, c, f);
    var moved := LockOneR(BreakEven(p, c), c);
    LocksKeepBracket(p, c);
    WithPositionBalances(start, b, p, moved);
    var locked := WithPosition(b, moved);
    NothingBooked(b, locked, c, because);
    NoRungYet(locked, p, moved, c);
    RungsBook(m, start, locked, p, c, Levels(moved));
    TakePartialsBalances(m, start, locked, p.symbol, c, p.IsLong(), Levels(moved));
    hide TakePartials, TargetOrTrail, Balanced, SameBracket, ByBracket, Books;
    var r := Managed(m, b, p, c);
    if r.Success? {
      var taken := TakePartials(m, locked, p.symbol, c, p.IsLong(), Levels(moved)).value;
      BooksTwice(b, locked, taken, c, because);
      if p.symbol in taken.positions {
        HeldIsOwned(start, taken, p.symbol);
        TargetBooks(m, taken, p, taken.positions[p.symbol], c);
        BooksTwice(b, taken, r.value, c, because);
      }
    }
  }

  lemma StopBooks(m: Market, b: Book, p: Position, c: Candle, because: Fill -> bool)
    requires Owns(b, p) && p.quantity != 0.0 && StopTouched(p, c)
    requires forall f :: ByBracket(p, c, f) ==> because(f)
    ensures var r := StopExit(m, b, p, c); r.Success? ==> Books(b, r.value, c, because)
  {
    var r := StopExit(m, b, p, c);
    if r.Success? {
      StopsExitNoBetter(m, b, p, c);
      hide StopExitReference, Slipped, ExitPnl;
      var f := r.value.fills[|b.fills|];
      assert StopsOut(p, c, f);
      OneBooked(b, r.value, c, because);
    }
  }

  lemma BracketBooks(m: Market, start: real, b: Book, c: Candle, because: Fill -> bool)
    requires Balanced(start, b)
    requires Held(b, c.symbol).Some? ==> forall f :: ByBracket(Held(b, c.symbol).value, c, f) ==> because(f)
    ensures var r := BracketExit(m, b, c); r.Success? ==> Books(b, r.value, c, because)
  {
    hide StopExit, Managed, Balanced, ByBracket, Books;
    var r := BracketExit(m, b, c);
    if r.Success? {
      if c.symbol !in b.positions {
        NothingBooked(b, b, c, because);
      } else {
        HeldIsOwned(start, b, c.symbol);
        var p := b.positions[c.symbol];
        if StopTouched(p, c) {
          StopBooks(m, b, p, c, because);
        } else if p.entryAt == c.ts {
          NothingBooked(b, b, c, because);
        } else {
          ManagedBooks(m, start, b, p, c);
          BooksBecause(b, r.value, c, f => ByBracket(p, c, f), because);
        }
      }
    }
  }

  // ----- whole runs

  lemma CandleBooks(m: Market, start: real, b: Book, c: Candle, d: Decision, because: Fill -> bool)
    requires Sound(start, b) && Step(m, b, c, d).Success?
    requires forall f: Fill ::
               Explains(m, b, c, if c.symbol in b.last then Some(b.last[c.symbol]) else None, f) ==> because(f)
    ensures var after := Step(m, b, c, d).value;
      after.last == b.last[c.symbol := c] && Books(b, after.(last := b.last), c, because)
  {
    var rolled := Transition(m, b, c).value;
    var filled := Sweep(m, rolled, rolled.pending, c).value;
    var processed := BracketExit(m, filled, c).value;
    var after := Step(m, b, c, d).value;
    assert AfterOrders(m, b, c) == Success(filled);
    TransitionKeepsSound(m, start, b, c);
    SweepKeepsSound(m, start, rolled, rolled.pending, c);
    ReasonsExplain(m, start, b, rolled, filled, c, because);
    hide Transition, Sweep, BracketExit, Propose, Balanced, RolledOut, MeetsOrder, ByBracket, AfterOrders, Explains;
    RollBooks(m, start, b, c, because);
    SweepBooks(m, start, rolled, rolled.pending, rolled.pending, c, because);
    BracketBooks(m, start, filled, c, because);
    ProposeBooksNothing(m, processed, c, d, because);
    AllBooks(b, rolled, filled, processed, after, c, because);
  }

  // Each phase's own reasons are explanations.
  lemma ReasonsExplain(m: Market, start: real, b: Book, rolled: Book, filled: Book, c: Candle, because: Fill -> bool)
    requires Transition(m, b, c) == Success(rolled) && AfterOrders(m, b, c) == Success(filled)
    requires Balanced(start, filled)
    requires forall f: Fill ::
               Explains(m, b, c, if c.symbol in b.last then Some(b.last[c.symbol]) else None, f) ==> because(f)
    ensures forall f: Fill ::
              RolledOut(m, b, c, if c.symbol in b.last then Some(b.last[c.symbol]) else None, f) ==> because(f)
    ensures forall f: Fill :: OrderExit(f) && MeetsOrder(m, rolled.pending, c, f) ==> because(f)
    ensures Held(filled, c.symbol).Some? ==>
              forall f: Fill :: ByBracket(Held(filled, c.symbol).value, c, f) ==> because(f)
  {
    hide Transition, AfterOrders, Balanced;
    var latest := if c.symbol in b.last then Some(b.last[c.symbol]) else None;
    forall f: Fill | RolledOut(m, b, c, latest, f)
      ensures because(f)
    {
      assert Explains(m, b, c, latest, f);
    }
    OrdersAreForTheCandle(m, rolled.pending, c);
    forall f: Fill | OrderExit(f) && MeetsOrder(m, rolled.pending, c, f)
      ensures because(f)
    {
      assert Explains(m, b, c, latest, f);
    }
    if Held(filled, c.symbol).Some? {
      HeldIsOwned(start, filled, c.symbol);
      var p := Held(filled, c.symbol).value;
      BracketsAreThePositions(p, c);
      forall f: Fill | ByBracket(p, c, f)
        ensures because(f)
      {
        assert Explains(m, b, c, latest, f);
      }
    }
  }

  lemma AllBooks(b: Book, rolled: Book, filled: Book, processed: Book, after: Book, c: Candle, because: Fill -> bool)
    requires rolled.last == b.last[c.symbol := c] && Books(b, rolled.(last := b.last), c, because)
    requires Books(rolled, filled, c, because) && Books(filled, processed, c, because)
    requires Books(processed, after, c, because)
    ensures after.last == b.last[c.symbol := c] && Books(b, after.(last := b.last), c, because)
  {
    BooksTwice(rolled, filled, processed, c, because);
    BooksTwice(rolled, processed, after, c, because);
    BooksTwice(b, rolled.(last := b.last), after.(last := b.last), c, because);
  }

  lemma ProposeBooksNothing(m: Market, b: Book, c: Candle, d: Decision, because: Fill -> bool)
    ensures var r := Propose(m, b, c, d); r.Success? ==> Books(b, r.value, c, because)
  {
    var r := Propose(m, b, c, d);
    if r.Success? {
      NothingBooked(b, r.value, c, because);
    }
  }

  lemma BracketsAreThePositions(p: Position, c: Candle)
    ensures forall f :: ByBracket(p, c, f) ==>
              f.symbol == p.symbol && (f.reason.StopHit? || f.reason.TakeProfit? || f.reason.PartialTakeProfit?)
  {
  }

  lemma OrdersAreForTheCandle(m: Market, pending: seq<PendingOrder>, c: Candle)
    ensures forall f :: MeetsOrder(m, pending, c, f) ==> f.symbol == c.symbol
  {
  }

  // The book's latest candles are the run's, and every position's symbol has one.
  ghost predicate Tracks(events: seq<Candle>, b: Book) {
    && (forall s :: Latest(events, s) == if s in b.last then Some(b.last[s]) else None)
    && (forall s :: s in b.positions ==> s in b.last)
  }

  // The `k`-th candle of the run explains the fill.
  ghost predicate ExplainedAt(
    m: Market, equity: real, events: seq<Candle>, decisions: seq<Decision>, k: nat, f: Fill)
    requires |decisions| == |events| && k < |events|
  {
    var b := Steps(m, equity, events[..k], decisions[..k]);
    b.Success? && Explains(m, b.value, events[k], Latest(events[..k], events[k].symbol), f)
  }

  ghost predicate Explained(m: Market, equity: real, events: seq<Candle>, decisions: seq<Decision>, f: Fill)
    requires |decisions| == |events|
  {
    exists k: nat :: k < |events| && ExplainedAt(m, equity, events, decisions, k, f)
  }

  lemma StillExplained(m: Market, equity: real, events: seq<Candle>, decisions: seq<Decision>, f: Fill)
    requires |decisions| == |events| && events != []
    requires Explained(m, equity, events[..|events| - 1], decisions[..|events| - 1], f)
    ensures Explained(m, equity, events, decisions, f)
  {
    var n := |events| - 1;
    var k: nat :| k < n && ExplainedAt(m, equity, events[..n], decisions[..n], k, f);
    assert events[..n][..k] == events[..k] && decisions[..n][..k] == decisions[..k];
    hide Explains, Steps;
    assert ExplainedAt(m, equity, events, decisions, k, f);
  }

  // Every fill of every run is explained by one of its candles.
  lemma {:induction false} FillsAreExplained(
    m: Market, equity: real, events: seq<Candle>, decisions: seq<Decision>)
    requires |decisions| == |events|
    ensures var r := Steps(m, equity, events, decisions);
      r.Success? ==>
        Tracks(events, r.value) && forall f :: f in r.value.fills ==> Explained(m, equity, events, decisions, f)
  {
    var r := Steps(m, equity, events, decisions);
    if events != [] && r.Success? {
      var n := |events| - 1;
      var b, c := Steps(m, equity, events[..n], decisions[..n]).value, events[n];
      assert r == Step(m, b, c, decisions[n]);
      FillsAreExplained(m, equity, events[..n], decisions[..n]);
      RunsConserve(m, equity, events[..n], decisions[..n]);
      var because := (f: Fill) => Explained(m, equity, events, decisions, f);
      hide Step, Balanced, Explains, Steps;
      forall f: Fill | Explains(m, b, c, if c.symbol in b.last then Some(b.last[c.symbol]) else None, f)
        ensures because(f)
      {
        assert ExplainedAt(m, equity, events, decisions, n, f);
      }
      CandleBooks(m, equity, b, c, decisions[n], because);
      assert forall i :: 0 <= i < |b.fills| ==> r.value.fills[i] == r.value.fills[..|b.fills|][i];
      forall f | f in r.value.fills
        ensures Explained(m, equity, events, decisions, f)
      {
        if f in b.fills {
          StillExplained(m, equity, events, decisions, f);
        }
      }
    }
  }

  // ----- the close-out

  // The position left at its symbol's last candle.
  ghost predicate LeftAtEnd(b: Book, events: seq<Candle>, f: Fill) {
    && (f.reason.DatasetEnd? || f.reason.Expiry?) && f.symbol in b.positions && Latest(events, f.symbol).Some?
    && LeavesAt(b.positions[f.symbol], Latest(events, f.symbol).value, f)
  }

  // After the close-out, every fill is one of the run's or left at its symbol's last close less the slippage.
  lemma {:induction false} ClosingFillsAreExplained(
    m: Market, start: real, b: Book, events: seq<Candle>, order: seq<string>)
    requires Balanced(start, b) && Tracks(events, b) && CloseAll(m, b, order).Success?
    ensures var after := CloseAll(m, b, order).value;
      && Balanced(start, after) && after.last == b.last
      && (forall s :: s in after.positions ==> s in b.positions && after.positions[s] == b.positions[s])
      && (forall f :: f in after.fills ==> f in b.fills || LeftAtEnd(b, events, f))
  {
    if order != [] {
      var init, symbol := order[..|order| - 1], order[|order| - 1];
      ClosingFillsAreExplained(m, start, b, events, init);
      var closed := CloseAll(m, b, init).value;
      hide Balanced, LeavesAt, EndExit;
      if symbol in closed.positions {
        HeldIsOwned(start, closed, symbol);
        var p := closed.positions[symbol];
        EndExitBalances(m, start, closed, p);
        EndExitLeaves(m, closed, p);
        var after := EndExit(m, closed, p).value;
        LastFillLeaves(b, closed, after, events, p);
        hide LeftAtEnd, Tracks, Latest;
      }
    }
  }

  lemma LastFillLeaves(b: Book, closed: Book, after: Book, events: seq<Candle>, p: Position)
    requires Tracks(events, b) && closed.last == b.last && p.symbol in b.positions && b.positions[p.symbol] == p
    requires |after.fills| == |closed.fills| + 1 && after.fills[..|closed.fills|] == closed.fills
    requires var f := after.fills[|closed.fills|];
      (f.reason.DatasetEnd? || f.reason.Expiry?) && f.symbol == p.symbol && p.symbol in b.last
      && LeavesAt(p, b.last[p.symbol], f)
    ensures forall f :: f in after.fills ==> f in closed.fills || LeftAtEnd(b, events, f)
  {
    var last := after.fills[|closed.fills|];
    assert LeftAtEnd(b, events, last);
    assert after.fills == closed.fills + [last];
    hide LeavesAt, LeftAtEnd;
  }

  lemma EndExitLeaves(m: Market, b: Book, p: Position)
    requires p.symbol in b.last && p.quantity != 0.0 && EndExit(m, b, p).Success?
    ensures var after := EndExit(m, b, p).value;
      && after.last == b.last && |after.fills| == |b.fills| + 1 && after.fills[..|b.fills|] == b.fills
      && var f := after.fills[|b.fills|];
         (f.reason.DatasetEnd? || f.reason.Expiry?) && f.symbol == p.symbol && LeavesAt(p, b.last[p.symbol], f)
  {
    EndsAtTheLastCandle(m, b, p);
    hide Slipped, SlippageOf, ExitPnl;
  }

  // So at the end of a whole backtest every fill has its candle.
  lemma FinishedFillsAreExplained(
    m: Market, equity: real, events: seq<Candle>, decisions: seq<Decision>, order: seq<string>)
    requires |decisions| == |events| && Steps(m, equity, events, decisions).Success?
    requires CloseAll(m, Steps(m, equity, events, decisions).value, order).Success?
    ensures var b := Steps(m, equity, events, decisions).value;
      forall f :: f in CloseAll(m, b, order).value.fills ==>
        Explained(m, equity, events, decisions, f) || LeftAtEnd(b, events, f)
  {
    FillsAreExplained(m, equity, events, decisions);
    RunsConserve(m, equity, events, decisions);
    ClosingFillsAreExplained(m, equity, Steps(m, equity, events, decisions).value, events, order);
    hide Steps, CloseAll, Balanced, Explained, LeftAtEnd;
  }
}
