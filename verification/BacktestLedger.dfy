/**
 * Conservation in the simulator: equity, trades and fills agree at every step, and what was put on in each position
 * is what its fills took off plus what is still open.
 */
module BacktestLedger {
  import opened Outcomes
  import opened Aggregation
  import opened BarExecution
  import opened BacktestModel

  function SumNet(fills: seq<Fill>): real {
    if fills == [] then 0.0 else SumNet(fills[..|fills| - 1]) + fills[|fills| - 1].netPnl
  }

  // The quantity put on in one position, over all its opening fills.
  function PutOn(entries: seq<Entry>, id: nat): real {
    if entries == [] then 0.0
    else
      var e := entries[|entries| - 1];
      PutOn(entries[..|entries| - 1], id) + if e.positionId == id then e.quantity else 0.0
  }

  // The quantity its partial and final fills took off.
  function TakenOff(fills: seq<Fill>, id: nat): real {
    if fills == [] then 0.0
    else
      var f := fills[|fills| - 1];
      TakenOff(fills[..|fills| - 1], id) + if f.positionId == id then f.quantity else 0.0
  }

  ghost predicate Matches(trade: ClosedTrade, fill: Fill) {
    && trade.symbol == fill.symbol && trade.side == fill.side && trade.pnl == fill.netPnl
    && trade.exitedAt == fill.exitAt && fill.netPnl == fill.grossPnl - fill.commission && fill.quantity > 0.0
  }

  ghost predicate TradesAreFills(trades: seq<ClosedTrade>, fills: seq<Fill>) {
    |trades| == |fills| && forall i :: 0 <= i < |fills| ==> Matches(trades[i], fills[i])
  }

  ghost predicate EquityAddsUp(start: real, b: Book) {
    b.equity == start + SumNet(b.fills) && TradesAreFills(b.trades, b.fills)
  }

  // An open position has a side and a size, and its size is what was put on less what was taken off.
  ghost predicate PositionBalances(b: Book, symbol: string, p: Position) {
    && p.symbol == symbol && p.id < b.nextPositionId
    && p.quantity != 0.0 && (p.side.Buy? <==> p.quantity > 0.0)
    && p.originalQuantityAbs == PutOn(b.entries, p.id)
    && p.originalQuantityAbs == TakenOff(b.fills, p.id) + Abs(p.quantity)
  }

  ghost predicate OpenBalance(b: Book) {
    && (forall s :: s in b.positions ==> PositionBalances(b, s, b.positions[s]))
    && (forall s, t :: s in b.positions && t in b.positions && b.positions[s].id == b.positions[t].id ==> s == t)
  }

  ghost predicate IsOpen(b: Book, id: nat) {
    exists s :: s in b.positions && b.positions[s].id == id
  }

  // A position that is not open has had everything taken off again; one not yet opened has had nothing put on.
  ghost predicate ClosedBalance(b: Book) {
    && (forall id: nat :: !IsOpen(b, id) ==> PutOn(b.entries, id) == TakenOff(b.fills, id))
    && (forall id: nat :: id >= b.nextPositionId ==> PutOn(b.entries, id) == 0.0 && TakenOff(b.fills, id) == 0.0)
  }

  ghost predicate Balanced(start: real, b: Book) {
    EquityAddsUp(start, b) && OpenBalance(b) && ClosedBalance(b)
  }

  // ----- one more entry, one more fill

  lemma AppendNet(fills: seq<Fill>, f: Fill)
    ensures SumNet(fills + [f]) == SumNet(fills) + f.netPnl
  {
    assert (fills + [f])[..|fills|] == fills;
  }

  lemma AppendPutOn(entries: seq<Entry>, e: Entry, id: nat)
    ensures PutOn(entries + [e], id) == PutOn(entries, id) + if e.positionId == id then e.quantity else 0.0
  {
    assert (entries + [e])[..|entries|] == entries;
  }

  lemma AppendTakenOff(fills: seq<Fill>, f: Fill, id: nat)
    ensures TakenOff(fills + [f], id) == TakenOff(fills, id) + if f.positionId == id then f.quantity else 0.0
  {
    assert (fills + [f])[..|fills|] == fills;
  }

  // A book that differs in neither positions, entries, fills, trades nor equity.
  ghost predicate SameLedger(a: Book, b: Book) {
    && a.positions == b.positions && a.entries == b.entries && a.fills == b.fills && a.trades == b.trades
    && a.equity == b.equity && a.nextPositionId == b.nextPositionId
  }

  lemma SameLedgerBalances(start: real, a: Book, b: Book)
    requires Balanced(start, a) && SameLedger(a, b)
    ensures Balanced(start, b)
  {
    forall s | s in b.positions
      ensures PositionBalances(b, s, b.positions[s])
    {
      assert PositionBalances(a, s, a.positions[s]);
    }
    forall id: nat | !IsOpen(b, id)
      ensures PutOn(b.entries, id) == TakenOff(b.fills, id)
    {
      assert !IsOpen(a, id);
    }
  }

  lemma HeldIsOwned(start: real, b: Book, symbol: string)
    requires Balanced(start, b) && symbol in b.positions
    ensures Owns(b, b.positions[symbol]) && b.positions[symbol].symbol == symbol && b.positions[symbol].quantity != 0.0
  {
    assert PositionBalances(b, symbol, b.positions[symbol]);
  }

  // ----- recording a fill

  ghost predicate FillsPosition(p: Position, f: Fill) {
    && f.positionId == p.id && f.symbol == p.symbol && f.side == p.side
    && f.netPnl == f.grossPnl - f.commission && 0.0 < f.quantity <= Abs(p.quantity)
  }

  ghost predicate Owns(b: Book, p: Position) {
    p.symbol in b.positions && b.positions[p.symbol] == p
  }

  lemma RecordedEquity(start: real, b: Book, p: Position, f: Fill)
    requires EquityAddsUp(start, b) && FillsPosition(p, f)
    ensures EquityAddsUp(start, Recorded(b, p, f))
  {
    AppendNet(b.fills, f);
    var after := Recorded(b, p, f);
    forall i | 0 <= i < |after.fills|
      ensures Matches(after.trades[i], after.fills[i])
    {
      if i < |b.fills| {
        assert Matches(b.trades[i], b.fills[i]);
      }
    }
  }

  lemma RecordedPosition(b: Book, p: Position, f: Fill, s: string)
    requires OpenBalance(b) && Owns(b, p) && FillsPosition(p, f) && s in Recorded(b, p, f).positions
    ensures PositionBalances(Recorded(b, p, f), s, Recorded(b, p, f).positions[s])
  {
    assert PositionBalances(b, s, b.positions[s]);
    AppendTakenOff(b.fills, f, b.positions[s].id);
    assert PositionBalances(b, p.symbol, b.positions[p.symbol]);
  }

  lemma RecordedOpen(b: Book, p: Position, f: Fill)
    requires OpenBalance(b) && Owns(b, p) && FillsPosition(p, f)
    ensures OpenBalance(Recorded(b, p, f))
  {
    var after := Recorded(b, p, f);
    forall s | s in after.positions
      ensures PositionBalances(after, s, after.positions[s])
    {
      RecordedPosition(b, p, f, s);
    }
    forall s, t | s in after.positions && t in after.positions && after.positions[s].id == after.positions[t].id
      ensures s == t
    {
      assert b.positions[s].id == b.positions[t].id;
    }
  }

  lemma RecordedClosedOne(b: Book, p: Position, f: Fill, id: nat)
    requires OpenBalance(b) && ClosedBalance(b) && Owns(b, p) && FillsPosition(p, f)
    requires !IsOpen(Recorded(b, p, f), id)
    ensures PutOn(b.entries, id) == TakenOff(b.fills + [f], id)
  {
    var after := Recorded(b, p, f);
    AppendTakenOff(b.fills, f, id);
    assert PositionBalances(b, p.symbol, p);
    if id == p.id {
      if f.quantity < Abs(p.quantity) {
        LeftOpen(b, p, f);
      }
    } else {
      StaysOpen(b, after, id);
    }
  }

  lemma LeftOpen(b: Book, p: Position, f: Fill)
    requires Owns(b, p) && f.quantity < Abs(p.quantity)
    ensures IsOpen(Recorded(b, p, f), p.id)
  {
    assert Recorded(b, p, f).positions[p.symbol].id == p.id;
  }

  lemma StaysOpen(b: Book, after: Book, id: nat)
    requires forall s :: s in b.positions && b.positions[s].id == id ==>
               s in after.positions && after.positions[s].id == id
    ensures IsOpen(b, id) ==> IsOpen(after, id)
  {
  }

  lemma RecordedClosed(b: Book, p: Position, f: Fill)
    requires OpenBalance(b) && ClosedBalance(b) && Owns(b, p) && FillsPosition(p, f)
    ensures ClosedBalance(Recorded(b, p, f))
  {
    forall id: nat | !IsOpen(Recorded(b, p, f), id)
      ensures PutOn(b.entries, id) == TakenOff(b.fills + [f], id)
    {
      RecordedClosedOne(b, p, f, id);
    }
    forall id: nat | id >= b.nextPositionId
      ensures TakenOff(b.fills + [f], id) == 0.0
    {
      AppendTakenOff(b.fills, f, id);
      assert PositionBalances(b, p.symbol, p);
    }
  }

  lemma RecordedBalances(start: real, b: Book, p: Position, f: Fill)
    requires Balanced(start, b) && Owns(b, p) && FillsPosition(p, f)
    ensures Balanced(start, Recorded(b, p, f))
  {
    RecordedEquity(start, b, p, f);
    RecordedOpen(b, p, f);
    RecordedClosed(b, p, f);
  }

  lemma PnlNets(m: Market, p: Position, quantity: real, price: real, rate: real)
    ensures var pnl := ExitPnl(m, p, quantity, price, rate); pnl.netPnl == pnl.grossPnl - pnl.commission
  {
  }

  lemma PnlNetsAlways(m: Market, p: Position, quantity: real, price: real)
    ensures forall rate :: var pnl := ExitPnl(m, p, quantity, price, rate); pnl.netPnl == pnl.grossPnl - pnl.commission
  {
    forall rate
      ensures var pnl := ExitPnl(m, p, quantity, price, rate); pnl.netPnl == pnl.grossPnl - pnl.commission
    {
      PnlNets(m, p, quantity, price, rate);
    }
  }

  lemma ExitBalances(
    m: Market, start: real, b: Book, p: Position, quantity: real, price: real, at: int, reason: ExitReason,
    orderId: nat)
    requires Balanced(start, b) && Owns(b, p) && 0.0 < quantity <= Abs(p.quantity)
    ensures var r := Exit(m, b, p, quantity, price, at, reason, orderId);
      r.Success? ==> Balanced(start, r.value) && r.value.pending == b.pending
  {
    PnlNetsAlways(m, p, quantity, price);
    hide ExitPnl, Balanced;
    var rate := m.fx(p.symbol, at);
    if rate.Some? {
      var pnl := ExitPnl(m, p, quantity, price, rate.value);
      RecordedBalances(start, b, p, FillOf(p, quantity, price, at, orderId, reason, pnl));
    }
  }

  lemma CloseBalances(
    m: Market, start: real, b: Book, p: Position, price: real, at: int, reason: ExitReason, orderId: nat)
    requires Balanced(start, b) && Owns(b, p)
    ensures var r := Close(m, b, p, price, at, reason, orderId);
      r.Success? ==>
        Balanced(start, r.value) && r.value.pending == b.pending && r.value.positions == b.positions - {p.symbol}
  {
    hide ExitPnl;
    assert PositionBalances(b, p.symbol, p);
    if Abs(p.quantity) > 0.0 {
      ExitBalances(m, start, b, p, Abs(p.quantity), price, at, reason, orderId);
    }
  }

  // ----- adding to the book

  // A position whose bracket changed, but not what it is or how much of it is open.
  ghost predicate SameHolding(p: Position, q: Position) {
    && p.id == q.id && p.symbol == q.symbol && p.quantity == q.quantity && p.side == q.side
    && p.originalQuantityAbs == q.originalQuantityAbs
  }

  lemma WithPositionBalances(start: real, b: Book, p: Position, q: Position)
    requires Balanced(start, b) && Owns(b, p) && SameHolding(p, q)
    ensures Balanced(start, WithPosition(b, q)) && Owns(WithPosition(b, q), q)
  {
    var after := WithPosition(b, q);
    forall s | s in after.positions
      ensures PositionBalances(after, s, after.positions[s])
    {
      assert PositionBalances(b, s, b.positions[s]);
    }
    forall id: nat | !IsOpen(after, id)
      ensures PutOn(after.entries, id) == TakenOff(after.fills, id)
    {
      StaysOpen(b, after, id);
    }
    forall s, t | s in after.positions && t in after.positions && after.positions[s].id == after.positions[t].id
      ensures s == t
    {
      assert b.positions[s].id == b.positions[t].id;
    }
  }

  // What an opening fill may do: a new position with the next number, or more of the same side.
  ghost predicate Puts(b: Book, existing: Option<Position>, q: Position, quantity: real) {
    && existing == Held(b, q.symbol) && quantity > 0.0 && q.quantity != 0.0 && (q.side.Buy? <==> q.quantity > 0.0)
    && match existing
       case None => q.id == b.nextPositionId && Abs(q.quantity) == quantity && q.originalQuantityAbs == quantity
       case Some(p) =>
         && q.id == p.id && q.originalQuantityAbs == p.originalQuantityAbs + quantity
         && Abs(q.quantity) == Abs(p.quantity) + quantity
  }

  lemma OpenedPosition(b: Book, existing: Option<Position>, q: Position, quantity: real, s: string)
    requires OpenBalance(b) && ClosedBalance(b) && Puts(b, existing, q, quantity)
    requires s in WithOpened(b, existing, q, quantity).positions
    ensures var after := WithOpened(b, existing, q, quantity); PositionBalances(after, s, after.positions[s])
  {
    var after := WithOpened(b, existing, q, quantity);
    AppendPutOn(b.entries, Entry(q.id, quantity), after.positions[s].id);
    if s in b.positions {
      assert PositionBalances(b, s, b.positions[s]);
    }
    if s != q.symbol && q.symbol in b.positions {
      assert b.positions[q.symbol].id != b.positions[s].id;
    }
  }

  lemma OpenedStaysOpen(b: Book, existing: Option<Position>, q: Position, quantity: real, id: nat)
    requires OpenBalance(b) && Puts(b, existing, q, quantity)
    ensures IsOpen(b, id) ==> IsOpen(WithOpened(b, existing, q, quantity), id)
    ensures IsOpen(WithOpened(b, existing, q, quantity), q.id)
    ensures q.id < WithOpened(b, existing, q, quantity).nextPositionId
  {
    var after := WithOpened(b, existing, q, quantity);
    assert after.positions[q.symbol] == q;
    if q.symbol in b.positions {
      assert PositionBalances(b, q.symbol, b.positions[q.symbol]);
    }
    StaysOpen(b, after, id);
  }

  lemma OpenedClosedOne(b: Book, existing: Option<Position>, q: Position, quantity: real, id: nat)
    requires OpenBalance(b) && ClosedBalance(b) && Puts(b, existing, q, quantity)
    ensures var after := WithOpened(b, existing, q, quantity);
      && (!IsOpen(after, id) ==> PutOn(after.entries, id) == TakenOff(after.fills, id))
      && (id >= after.nextPositionId ==> PutOn(after.entries, id) == 0.0)
  {
    OpenedStaysOpen(b, existing, q, quantity, id);
    hide OpenBalance, IsOpen, Puts, PutOn, TakenOff;
    AppendPutOn(b.entries, Entry(q.id, quantity), id);
  }

  lemma OpenedBalances(start: real, b: Book, existing: Option<Position>, q: Position, quantity: real)
    requires Balanced(start, b) && Puts(b, existing, q, quantity)
    ensures Balanced(start, WithOpened(b, existing, q, quantity))
  {
    var after := WithOpened(b, existing, q, quantity);
    forall s | s in after.positions
      ensures PositionBalances(after, s, after.positions[s])
    {
      OpenedPosition(b, existing, q, quantity, s);
    }
    forall s, t | s in after.positions && t in after.positions && after.positions[s].id == after.positions[t].id
      ensures s == t
    {
      assert s in b.positions ==> PositionBalances(b, s, b.positions[s]);
      assert t in b.positions ==> PositionBalances(b, t, b.positions[t]);
    }
    forall id: nat
      ensures !IsOpen(after, id) ==> PutOn(after.entries, id) == TakenOff(after.fills, id)
      ensures id >= after.nextPositionId ==> PutOn(after.entries, id) == 0.0
    {
      OpenedClosedOne(b, existing, q, quantity, id);
    }
  }
}
