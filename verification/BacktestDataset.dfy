/**
 * What a run is checked to start from: exchange rates by date, futures candles contract by contract, and the merged
 * event stream that the grid and order theorems are about.
 */
module BacktestDataset {
  import opened Outcomes
  import opened Aggregation
  import opened BacktestModel
  import opened BacktestOrders
  import opened BacktestGrid
  import opened BarExecution
  import opened TickRules
  import EventMerge
  import BacktestConservation
  import BacktestLedger

  // ----- exchange rates

  datatype FxRate = FxRate(baseCurrency: string, quoteCurrency: string, date: int, rateToBase: real)

  predicate Applies(r: FxRate, base: string, quote: string, date: int) {
    r.baseCurrency == base && r.quoteCurrency == quote && r.date <= date
  }

  // `best` is the latest applicable row of the table, the first of its date.
  ghost predicate Latest(rates: seq<FxRate>, base: string, quote: string, date: int, best: Option<FxRate>) {
    match best
    case None => forall r :: r in rates ==> !Applies(r, base, quote, date)
    case Some(top) =>
      exists k :: 0 <= k < |rates| && rates[k] == top && Applies(top, base, quote, date)
        && (forall i :: 0 <= i < |rates| && Applies(rates[i], base, quote, date) ==> rates[i].date <= top.date)
        && forall i :: 0 <= i < k && Applies(rates[i], base, quote, date) ==> rates[i].date < top.date
  }

  function Best(rates: seq<FxRate>, base: string, quote: string, date: int): Option<FxRate> {
    if rates == [] then None
    else
      var best, r := Best(rates[..|rates| - 1], base, quote, date), rates[|rates| - 1];
      if Applies(r, base, quote, date) && (best.None? || r.date > best.value.date) then Some(r) else best
  }

  // Whose currency a symbol is in, and what day an instant falls on.
  datatype RateTable = RateTable(
    base: string, rates: seq<FxRate>, currencyOf: string -> string, dateOf: int -> int)

  function RateOf(rates: seq<FxRate>, base: string, currency: string, date: int): Option<real> {
    if currency == "" || currency == base then Some(1.0)
    else
      var best := Best(rates, base, currency, date);
      if best.Some? then Some(best.value.rateToBase) else None
  }

  method FxToBaseForCurrency(rates: seq<FxRate>, base: string, currency: string, date: int) returns (rate: Option<real>)
    ensures rate == RateOf(rates, base, currency, date)
    ensures currency == "" || currency == base ==> rate == Some(1.0)
    ensures currency != "" && currency != base ==>
              exists best :: Latest(rates, base, currency, date, best)
                && rate == if best.Some? then Some(best.value.rateToBase) else None
  {
    if currency == "" || currency == base {
      return Some(1.0);
    }
    var best: Option<FxRate> := None;
    var i := 0;
    while i < |rates|
      invariant 0 <= i <= |rates| && best == Best(rates[..i], base, currency, date)
    {
      var r := rates[i];
      if Applies(r, base, currency, date) && (best.None? || r.date > best.value.date) {
        best := Some(r);
      }
      assert rates[..i + 1][..i] == rates[..i];
      i := i + 1;
    }
    assert rates[..i] == rates;
    BestIsLatest(rates, base, currency, date);
    return if best.Some? then Some(best.value.rateToBase) else None;
  }

  lemma {:induction false} BestIsLatest(rates: seq<FxRate>, base: string, quote: string, date: int)
    ensures Latest(rates, base, quote, date, Best(rates, base, quote, date))
  {
    if rates != [] {
      var init, r := rates[..|rates| - 1], rates[|rates| - 1];
      BestIsLatest(init, base, quote, date);
      LatestExtends(init, r, base, quote, date, Best(init, base, quote, date));
      assert init + [r] == rates;
    }
  }

  lemma LatestExtends(
    rates: seq<FxRate>, r: FxRate, base: string, quote: string, date: int, best: Option<FxRate>)
    requires Latest(rates, base, quote, date, best)
    ensures var takes := Applies(r, base, quote, date) && (best.None? || r.date > best.value.date);
      Latest(rates + [r], base, quote, date, if takes then Some(r) else best)
  {
    var all := rates + [r];
    var takes := Applies(r, base, quote, date) && (best.None? || r.date > best.value.date);
    forall i | 0 <= i < |rates|
      ensures all[i] == rates[i] && all[i] in rates
    {
    }
    if takes {
      assert all[|rates|] == r;
    } else if best.Some? {
      var k :| 0 <= k < |rates| && rates[k] == best.value
        && (forall i :: 0 <= i < |rates| && Applies(rates[i], base, quote, date) ==> rates[i].date <= best.value.date)
        && forall i :: 0 <= i < k && Applies(rates[i], base, quote, date) ==> rates[i].date < best.value.date;
      assert all[k] == best.value;
    }
  }

  // The market's rates are read from the table, and later instants do not fall on earlier days.
  ghost predicate Priced(m: Market, t: RateTable) {
    && (forall s, at {:trigger m.fx(s, at)} :: m.fx(s, at) == RateOf(t.rates, t.base, t.currencyOf(s), t.dateOf(at)))
    && (forall i, j {:trigger t.dateOf(i), t.dateOf(j)} :: i <= j ==> t.dateOf(i) <= t.dateOf(j))
  }

  // A rate once known stays known: what lets every exit find a rate when the entry did.
  lemma RatesPersist(m: Market, t: RateTable)
    requires Priced(m, t)
    ensures FxPersists(m)
  {
    forall s, i, j | i <= j && m.fx(s, i).Some?
      ensures m.fx(s, j).Some?
    {
      LaterRatesAreRecent(t.rates, t.base, t.currencyOf(s), t.dateOf(i), t.dateOf(j));
    }
  }

  lemma LaterRatesAreRecent(rates: seq<FxRate>, base: string, quote: string, date: int, later: int)
    requires date <= later
    ensures var best, bestLater := Best(rates, base, quote, date), Best(rates, base, quote, later);
      best.Some? ==> bestLater.Some? && bestLater.value.date >= best.value.date
  {
    BestIsLatest(rates, base, quote, date);
    BestIsLatest(rates, base, quote, later);
    var best := Best(rates, base, quote, date);
    if best.Some? {
      assert Applies(best.value, base, quote, later);
    }
  }

  // What the lookup answers: one for no currency or the base, else the rate of a row of this pair that is not after the
  // date, of which there is none later and none as late before it; nothing if the pair has no row so early.
  lemma RateIs(rates: seq<FxRate>, base: string, currency: string, date: int)
    ensures var rate := RateOf(rates, base, currency, date);
      if currency == "" || currency == base then rate == Some(1.0)
      else if rate.None? then
        forall r :: r in rates && r.baseCurrency == base && r.quoteCurrency == currency ==> date < r.date
      else
        exists k :: 0 <= k < |rates| && rates[k].baseCurrency == base && rates[k].quoteCurrency == currency
          && rates[k].date <= date && rate.value == rates[k].rateToBase
          && forall i :: 0 <= i < |rates| && rates[i].baseCurrency == base && rates[i].quoteCurrency == currency ==>
               date < rates[i].date || (if i < k then rates[i].date < rates[k].date else rates[i].date <= rates[k].date)
  {
    BestIsLatest(rates, base, currency, date);
    hide Best;
  }

  // ----- futures candles

  // The tables `validateFuturesDataset` reads beside the market: whose contract it is, its session, its currency.
  datatype Contracts = Contracts(
    symbolOf: nat -> Option<string>, inSession: (nat, int) -> bool, currencyMatches: (string, nat) -> bool)

  predicate CandleFits(m: Market, k: Contracts, symbol: string, c: Candle) {
    && k.symbolOf(c.conid) == Some(symbol) && m.specFor(c.conid).Some? && k.inSession(c.conid, c.ts)
    && k.currencyMatches(symbol, c.conid) && m.fx(symbol, c.ts).Some? && CandleGridded(m.specFor(c.conid), c)
    && m.lastTradeAt(c.conid).Some? && c.ts < m.lastTradeAt(c.conid).value
  }

  ghost predicate StrictlyOrdered(candles: seq<Candle>) {
    forall i, j :: 0 <= i < j < |candles| ==> candles[i].ts < candles[j].ts
  }

  // No contract comes back after another has taken over.
  ghost predicate ContractBlocks(candles: seq<Candle>) {
    forall i, j, k :: 0 <= i < j < k < |candles| && candles[i].conid == candles[k].conid ==>
      candles[j].conid == candles[i].conid
  }

  ghost predicate DatasetFits(m: Market, k: Contracts, symbol: string, candles: seq<Candle>) {
    && (forall i :: 0 <= i < |candles| ==> CandleFits(m, k, symbol, candles[i]))
    && StrictlyOrdered(candles) && ContractBlocks(candles)
  }

  // The loop's memory after the first `n` candles.
  ghost predicate Remembers(
    candles: seq<Candle>, n: nat, retired: set<nat>, activeConid: Option<nat>, previousTs: Option<int>)
    requires n <= |candles|
  {
    && (n == 0 <==> activeConid.None?) && (n == 0 <==> previousTs.None?)
    && (n > 0 ==> activeConid == Some(candles[n - 1].conid) && previousTs == Some(candles[n - 1].ts))
    && (forall i :: 0 <= i < n && Some(candles[i].conid) != activeConid ==> candles[i].conid in retired)
    && (forall x :: x in retired ==> exists i :: 0 <= i < n && candles[i].conid == x)
  }

  // Accepts exactly the datasets whose candles all fit their contract, in strict time order, each contract in one
  // uninterrupted block.
  method ValidateFuturesCandles(m: Market, k: Contracts, symbol: string, candles: seq<Candle>) returns (ok: bool)
    ensures ok <==> DatasetFits(m, k, symbol, candles)
  {
    hide CandleFits;
    var retired: set<nat> := {};
    var activeConid: Option<nat> := None;
    var previousTs: Option<int> := None;
    var i := 0;
    while i < |candles|
      invariant 0 <= i <= |candles| && Remembers(candles, i, retired, activeConid, previousTs)
      invariant DatasetFits(m, k, symbol, candles[..i])
    {
      var c := candles[i];
      if previousTs.Some? && c.ts <= previousTs.value {
        assert candles[i - 1].ts >= candles[i].ts;
        return false;
      }
      if !CandleFits(m, k, symbol, c) {
        return false;
      }
      if activeConid != Some(c.conid) {
        if c.conid in retired {
          Reappears(candles, i, retired, activeConid, previousTs);
          return false;
        }
        if activeConid.Some? {
          retired := retired + {activeConid.value};
        }
        activeConid := Some(c.conid);
      }
      previousTs := Some(c.ts);
      FitsExtends(m, k, symbol, candles, i);
      i := i + 1;
    }
    assert candles[..i] == candles;
    return true;
  }

  lemma Reappears(
    candles: seq<Candle>, n: nat, retired: set<nat>, activeConid: Option<nat>, previousTs: Option<int>)
    requires n < |candles| && Remembers(candles, n, retired, activeConid, previousTs)
    requires candles[n].conid in retired && activeConid != Some(candles[n].conid)
    ensures !ContractBlocks(candles)
  {
    var i :| 0 <= i < n && candles[i].conid == candles[n].conid;
    assert i < n - 1 < n && candles[n - 1].conid != candles[i].conid;
  }

  lemma FitsExtends(m: Market, k: Contracts, symbol: string, candles: seq<Candle>, n: nat)
    requires n < |candles| && DatasetFits(m, k, symbol, candles[..n]) && CandleFits(m, k, symbol, candles[n])
    requires n > 0 ==> candles[n - 1].ts < candles[n].ts
    requires n > 0 && candles[n - 1].conid != candles[n].conid ==>
               forall i :: 0 <= i < n ==> candles[i].conid != candles[n].conid
    ensures DatasetFits(m, k, symbol, candles[..n + 1])
  {
    hide CandleFits;
    var before, after := candles[..n], candles[..n + 1];
    assert forall i :: 0 <= i < n ==> after[i] == before[i] == candles[i];
    forall i, j | 0 <= i < j < |after|
      ensures after[i].ts < after[j].ts
    {
      if j == n && i < n - 1 {
        assert before[i].ts < before[n - 1].ts;
      }
    }
    forall i, j, l | 0 <= i < j < l < |after| && after[i].conid == after[l].conid
      ensures after[j].conid == after[i].conid
    {
      if l == n {
        assert before[n - 1].conid == after[i].conid;
        if j < n - 1 {
          assert before[j].conid == before[i].conid;
        }
      } else {
        assert before[j].conid == before[i].conid;
      }
    }
  }

  // A candle as the check asks for it: of a registered contract of this symbol with a specification, inside its
  // session and before its last trade, in the right currency with a rate, at four prices that are whole ticks.
  ghost predicate Fits(m: Market, k: Contracts, symbol: string, c: Candle) {
    && k.symbolOf(c.conid) == Some(symbol) && m.specFor(c.conid).Some?
    && k.inSession(c.conid, c.ts) && k.currencyMatches(symbol, c.conid) && m.fx(symbol, c.ts) != None
    && (exists end :: m.lastTradeAt(c.conid) == Some(end) && c.ts < end)
    && var tick := m.specFor(c.conid).value.tickSize;
       Ticked(c.open, tick) && Ticked(c.high, tick) && Ticked(c.low, tick) && Ticked(c.close, tick)
  }

  // A table is accepted exactly when its candles fit, each comes later than the one before it, and a contract that has
  // given way to another does not come back.
  lemma TableIsAcceptedIff(m: Market, k: Contracts, symbol: string, candles: seq<Candle>)
    ensures DatasetFits(m, k, symbol, candles) <==>
      && (forall i :: 0 <= i < |candles| ==> Fits(m, k, symbol, candles[i]))
      && (forall i :: 0 < i < |candles| ==> candles[i - 1].ts < candles[i].ts)
      && (forall i, j :: 0 <= i < j < |candles| && candles[j - 1].conid != candles[j].conid ==>
           candles[i].conid != candles[j].conid)
  {
    forall i | 0 <= i < |candles|
      ensures CandleFits(m, k, symbol, candles[i]) <==> Fits(m, k, symbol, candles[i])
    {
      FitsIff(m, k, symbol, candles[i]);
    }
    hide CandleFits, Fits;
    if forall i :: 0 < i < |candles| ==> candles[i - 1].ts < candles[i].ts {
      StepsOrder(candles, |candles|);
    }
    BlocksIff(candles);
    hide ContractBlocks;
  }

  lemma FitsIff(m: Market, k: Contracts, symbol: string, c: Candle)
    ensures CandleFits(m, k, symbol, c) <==> Fits(m, k, symbol, c)
  {
    if m.specFor(c.conid).Some? {
      var tick := m.specFor(c.conid).value.tickSize;
      OnGridIff(c.open, tick);
      OnGridIff(c.high, tick);
      OnGridIff(c.low, tick);
      OnGridIff(c.close, tick);
    }
    hide OnGrid, Ticked;
  }

  lemma {:induction false} StepsOrder(candles: seq<Candle>, n: nat)
    requires n <= |candles| && forall i :: 0 < i < |candles| ==> candles[i - 1].ts < candles[i].ts
    ensures forall i, j :: 0 <= i < j < n ==> candles[i].ts < candles[j].ts
  {
    if n > 1 {
      StepsOrder(candles, n - 1);
      assert candles[n - 2].ts < candles[n - 1].ts;
    }
  }

  lemma BlocksIff(candles: seq<Candle>)
    ensures ContractBlocks(candles) <==>
      forall i, j :: 0 <= i < j < |candles| && candles[j - 1].conid != candles[j].conid ==>
        candles[i].conid != candles[j].conid
  {
    if ContractBlocks(candles) {
      forall i, j | 0 <= i < j < |candles| && candles[j - 1].conid != candles[j].conid
        ensures candles[i].conid != candles[j].conid
      {
        assert i < j - 1 ==> candles[i].conid != candles[j].conid;
      }
    } else {
      var i, j, l :| 0 <= i < j < l < |candles| && candles[i].conid == candles[l].conid
        && candles[j].conid != candles[i].conid;
      var back := Returns(candles, j, l);
    }
  }

  // Between a candle of another contract and one of this, this contract takes over somewhere.
  lemma {:induction false} Returns(candles: seq<Candle>, j: nat, l: nat) returns (back: nat)
    requires j < l < |candles| && candles[j].conid != candles[l].conid
    ensures j < back <= l && candles[back - 1].conid != candles[back].conid && candles[back].conid == candles[l].conid
    decreases l
  {
    if candles[l - 1].conid != candles[l].conid {
      back := l;
    } else {
      back := Returns(candles, j, l - 1);
    }
  }

  // ----- the merged stream

  function CandlesOf(events: seq<EventMerge.Event>): seq<Candle> {
    seq(|events|, i requires 0 <= i < |events| => events[i].candle)
  }

  // A dataset as the simulator holds it: one candle table a symbol, every futures table validated.
  ghost predicate Checked(m: Market, k: Contracts, names: seq<string>, arrays: seq<seq<Candle>>) {
    && |names| == |arrays|
    && (forall s, i :: 0 <= s < |arrays| && 0 <= i < |arrays[s]| ==> arrays[s][i].symbol == names[s])
    && (forall s :: 0 <= s < |arrays| && m.futures(names[s]) ==> DatasetFits(m, k, names[s], arrays[s]))
  }

  // Merging checked, time-ordered tables gives a stream that the order and grid theorems apply to.
  lemma MergedDatasetsAreRunnable(
    m: Market, t: RateTable, k: Contracts, names: seq<string>, arrays: seq<seq<Candle>>, events: seq<EventMerge.Event>,
    decisions: seq<Decision>)
    requires Priced(m, t) && Checked(m, k, names, arrays)
    requires EventMerge.Faithful(arrays, events) && EventMerge.EventOrdered(events)
    requires |decisions| == |events| && AllAnswer(CandlesOf(events), decisions)
    ensures Runnable(m, CandlesOf(events), decisions)
  {
    RatesPersist(m, t);
    var candles := CandlesOf(events);
    forall e | e in candles
      ensures Validated(m, e)
    {
      var i :| 0 <= i < |candles| && candles[i] == e;
      assert events[i] in events;
      var s, n := events[i].symbol, events[i].cursor;
      assert arrays[s][n] == e && e.symbol == names[s];
      assert m.futures(e.symbol) ==> CandleFits(m, k, names[s], arrays[s][n]);
    }
    forall i, j | 0 <= i < j < |candles|
      ensures candles[i].ts <= candles[j].ts
    {
      assert EventMerge.NotAfter(events[i], events[j]);
    }
  }

  // A backtest over a checked dataset either raises at some candle through no fault of the simulator, or runs to its
  // end and closes out: nothing is left open, every futures fill is on its tick grid, and the equity has changed by
  // exactly the net profit of the fills.
  lemma CheckedBacktestsFinish(
    m: Market, t: RateTable, k: Contracts, names: seq<string>, arrays: seq<seq<Candle>>, events: seq<EventMerge.Event>,
    decisions: seq<Decision>, equity: real, order: seq<string>)
    requires Priced(m, t) && Checked(m, k, names, arrays)
    requires EventMerge.Faithful(arrays, events) && EventMerge.EventOrdered(events)
    requires |decisions| == |events| && AllAnswer(CandlesOf(events), decisions)
    requires var r := Steps(m, equity, CandlesOf(events), decisions);
      r.Success? ==> forall s :: s in r.value.positions ==> s in order
    ensures var r := Steps(m, equity, CandlesOf(events), decisions);
      if r.Failure? then
        exists n :: 0 <= n < |events| && RaisedAt(m, equity, CandlesOf(events), decisions, n, r.error)
      else
        var closed := CloseAll(m, r.value, order);
        && closed.Success? && closed.value.positions == map[] && FillsGridded(closed.value.fills)
        && BacktestLedger.SumNet(closed.value.fills) == closed.value.equity - equity
  {
    var candles := CandlesOf(events);
    MergedDatasetsAreRunnable(m, t, k, names, arrays, events, decisions);
    var r := Steps(m, equity, candles, decisions);
    if r.Failure? {
      RunsRaiseOnlyFor(m, equity, candles, decisions);
    } else {
      RunsStayOnGrid(m, equity, candles, decisions);
      ClosingIsWell(m, r.value, order);
      BacktestConservation.FinishedRunsAddUp(m, equity, candles, decisions, order);
    }
    hide Runnable, RaisedAt, Steps, CloseAll, Checked, Priced;
  }
}
