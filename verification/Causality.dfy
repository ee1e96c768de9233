/**
 * A whole backtest is causal: whatever the signal engine remembers and asks of the candle tables, two datasets that
 * agree before an instant give the same book, and so the same fills, when the candles before it have been processed.
 */
module Causality {
  import opened Outcomes
  import opened SessionCalendar
  import opened Aggregation
  import opened AggregationLaws
  import opened CandleLookup
  import opened CandleHistory
  import opened LookAhead
  import opened EventMerge
  import opened CommonStart
  import opened BacktestModel
  import opened BacktestDataset
  import opened BacktestConservation
  import BacktestExits

  // ----- a dataset and what can be asked of it

  datatype Query = Query(symbol: string, chart: Chart, limit: int)

  // The simulator's tables after its constructor; `names` are the merged symbols in order.
  datatype Dataset = Dataset(
    names: seq<string>, tables: map<TableKey, seq<Candle>>, calendars: map<string, Calendar>, deriveAll: bool)
  {
    function Table(key: TableKey): seq<Candle> {
      if key in tables then tables[key] else []
    }

    function VisibilityOf(key: TableKey): Visibility {
      VisibilityFor(calendars, deriveAll, key)
    }

    function Minutes(): seq<seq<Candle>> {
      seq(|names|, i requires 0 <= i < |names| => Table(TableKey(OneMinute, names[i])))
    }

    // Tables are in time order and hold their own symbol; those derived from one-minute candles are their aggregates.
    ghost predicate Built() {
      && (forall s :: s in calendars ==> calendars[s].Valid())
      && (forall key :: key in tables ==> TimeOrdered(tables[key]) && Uniform(tables[key], key.symbol))
      && (forall key :: key in tables && VisibilityOf(key).AtCompletion? ==>
           Aggregate(calendars[key.symbol], Table(TableKey(OneMinute, key.symbol)), key.chart.tf)
             == Success(tables[key]))
    }
  }

  // The position of a symbol after some events: the cursor of its latest one.
  function PositionOf(past: seq<Event>, names: seq<string>, symbol: string): int {
    if past == [] then -1
    else
      var e := past[|past| - 1];
      if e.symbol < |names| && names[e.symbol] == symbol then e.cursor
      else PositionOf(past[..|past| - 1], names, symbol)
  }

  // What a higher-timeframe table shows at an instant.
  function Shown(rows: seq<Candle>, v: Visibility, time: int): seq<Candle> {
    var stamps := Stamps(v, rows);
    if stamps.Success? then Visible(rows, stamps.value, time) else []
  }

  // The recent candles of one table at a position and time, as the source's oracle filters and slices them.
  function Recent(rows: seq<Candle>, v: Visibility, position: int, c: Candle, q: Query): seq<Candle> {
    if q.chart.OneMinute? then
      if position < 0 then []
      else
        var past := if position + 1 <= |rows| then rows[..position + 1] else rows;
        if c.symbol == q.symbol then Tail(OfContract(past, c.conid), q.limit)
        else if position < |rows| then Tail(OfContract(past, rows[position].conid), q.limit)
        else []
    else
      var complete := Shown(rows, v, c.ts);
      Tail(if c.symbol == q.symbol then OfContract(complete, c.conid) else complete, q.limit)
  }

  // The answer to a query after some events, the last of them current.
  function Answer(d: Dataset, past: seq<Event>, q: Query): seq<Candle>
    requires past != []
  {
    var key := TableKey(q.chart, q.symbol);
    Recent(d.Table(key), d.VisibilityOf(key), PositionOf(past, d.names, q.symbol), past[|past| - 1].candle, q)
  }

  // It is the simulator's own.
  lemma AnswerIsTheSimulators(h: History, d: Dataset, past: seq<Event>, q: Query)
    requires h.Built() && h.tables == d.tables && h.calendars == d.calendars && h.deriveAll == d.deriveAll
    requires past != [] && h.currentCandle == Some(past[|past| - 1].candle)
    requires h.currentTime == Some(past[|past| - 1].candle.ts)
    requires (if q.symbol in h.currentIndexBySymbol then h.currentIndexBySymbol[q.symbol] else -1)
          == PositionOf(past, d.names, q.symbol)
    ensures h.GetRecentCandlesReference(q.symbol, q.chart, q.limit) == Answer(d, past, q)
  {
    assert Visible([], [], past[|past| - 1].candle.ts) == [];
    hide PositionOf, Visible, OfContract, Tail;
    assert h.VisibilityOf(TableKey(q.chart, q.symbol)) == d.VisibilityOf(TableKey(q.chart, q.symbol));
  }

  // ----- datasets that agree before an instant

  // One-minute candles before it are the same, and so are stored bars that end before it.
  ghost predicate AgreeUntil(a: Dataset, b: Dataset, cut: int) {
    && a.names == b.names && a.calendars == b.calendars && a.deriveAll == b.deriveAll && a.tables.Keys == b.tables.Keys
    && forall key :: key in a.tables ==>
         match a.VisibilityOf(key)
         case ByPosition => Earlier(a.tables[key], cut) == Earlier(b.tables[key], cut)
         case AfterSpan(span) => Earlier(a.tables[key], cut - span) == Earlier(b.tables[key], cut - span)
         case AtCompletion(_, _) => true
  }

  lemma MinutesAgree(a: Dataset, b: Dataset, cut: int, symbol: string)
    requires AgreeUntil(a, b, cut)
    ensures var key := TableKey(OneMinute, symbol); Earlier(a.Table(key), cut) == Earlier(b.Table(key), cut)
  {
    var key := TableKey(OneMinute, symbol);
    assert a.VisibilityOf(key) == ByPosition;
  }

  // The position is that of an event of the symbol.
  lemma {:induction false} PositionIsAnEvent(past: seq<Event>, names: seq<string>, symbol: string)
    ensures var k := PositionOf(past, names, symbol);
      k < 0 || exists e :: e in past && e.symbol < |names| && names[e.symbol] == symbol && e.cursor == k
  {
    if past != [] {
      assert past[|past| - 1] in past;
      PositionIsAnEvent(past[..|past| - 1], names, symbol);
    }
  }

  lemma {:induction false} SpanShowsEarlier(rows: seq<Candle>, span: int, through: int)
    ensures Stamps(AfterSpan(span), rows).Success?
    ensures Visible(rows, Stamps(AfterSpan(span), rows).value, through) == Earlier(rows, through - span + 1)
  {
    if rows != [] {
      var n := |rows| - 1;
      SpanShowsEarlier(rows[..n], span, through);
      var init := Stamps(AfterSpan(span), rows[..n]).value;
      assert (init + [rows[n].ts + span])[..n] == init;
    }
  }

  lemma MinuteAnswersAgree(a: Dataset, b: Dataset, past: seq<Event>, cut: int, q: Query)
    requires a.Built() && b.Built() && AgreeUntil(a, b, cut) && q.chart.OneMinute? && past != []
    requires Faithful(a.Minutes(), past) && forall e :: e in past ==> e.candle.ts < cut
    ensures Answer(a, past, q) == Answer(b, past, q)
  {
    var key := TableKey(OneMinute, q.symbol);
    var k := PositionOf(past, a.names, q.symbol);
    PositionIsAnEvent(past, a.names, q.symbol);
    MinutesAgree(a, b, cut, q.symbol);
    hide PositionOf, Earlier, AgreeUntil;
    if k >= 0 {
      var e :| e in past && e.symbol < |a.names| && a.names[e.symbol] == q.symbol && e.cursor == k;
      assert a.Minutes()[e.symbol] == a.Table(key);
      OrderedTables(a, b, key);
      SameRow(a.Table(key), b.Table(key), cut, k);
    }
    SameMinutes(a.Table(key), b.Table(key), k, past[|past| - 1].candle, q);
    hide Faithful, Recent;
    SameNames(a, b, cut);
  }

  lemma OrderedTables(a: Dataset, b: Dataset, key: TableKey)
    requires a.Built() && b.Built()
    ensures TimeOrdered(a.Table(key)) && TimeOrdered(b.Table(key))
  {
  }

  lemma SameNames(a: Dataset, b: Dataset, cut: int)
    requires AgreeUntil(a, b, cut)
    ensures a.names == b.names && a.calendars == b.calendars && a.deriveAll == b.deriveAll
    ensures forall key :: a.VisibilityOf(key) == b.VisibilityOf(key)
  {
  }

  lemma SameMinutes(x: seq<Candle>, y: seq<Candle>, position: int, c: Candle, q: Query)
    requires q.chart.OneMinute?
    requires position >= 0 ==> position < |x| && position < |y| && x[..position + 1] == y[..position + 1]
    ensures Recent(x, ByPosition, position, c, q) == Recent(y, ByPosition, position, c, q)
  {
    if position >= 0 {
      assert x[..position + 1][position] == y[..position + 1][position];
    }
    hide OfContract, Tail;
  }

  lemma DerivedBarsAgree(a: Dataset, b: Dataset, cut: int, time: int, key: TableKey)
    requires a.Built() && b.Built() && AgreeUntil(a, b, cut) && time < cut && key in a.tables
    requires a.VisibilityOf(key).AtCompletion?
    ensures Shown(a.tables[key], a.VisibilityOf(key), time) == Shown(b.tables[key], b.VisibilityOf(key), time)
  {
    var minutes := TableKey(OneMinute, key.symbol);
    MinutesAgree(a, b, cut, key.symbol);
    AgreeEarlier(a.Table(minutes), b.Table(minutes), cut, time);
    SameNames(a, b, cut);
    assert key in b.tables;
    hide AgreeUntil, Earlier, Visible, Stamps, Aggregate;
    NoLookAhead(a.calendars[key.symbol], a.Table(minutes), b.Table(minutes), key.chart.tf, key.symbol, time);
  }

  lemma StoredBarsAgree(a: Dataset, b: Dataset, cut: int, time: int, key: TableKey)
    requires AgreeUntil(a, b, cut) && time < cut && key in a.tables && a.VisibilityOf(key).AfterSpan?
    ensures Shown(a.tables[key], a.VisibilityOf(key), time) == Shown(b.tables[key], b.VisibilityOf(key), time)
  {
    var span := a.VisibilityOf(key).span;
    SpanShowsEarlier(a.tables[key], span, time);
    SpanShowsEarlier(b.tables[key], span, time);
    AgreeEarlier(a.tables[key], b.tables[key], cut - span, time - span + 1);
    hide Earlier, Visible, Stamps;
  }

  lemma HigherAnswersAgree(a: Dataset, b: Dataset, past: seq<Event>, cut: int, q: Query)
    requires a.Built() && b.Built() && AgreeUntil(a, b, cut) && q.chart.Higher? && past != []
    requires past[|past| - 1].candle.ts < cut
    ensures Answer(a, past, q) == Answer(b, past, q)
  {
    var key, c := TableKey(q.chart, q.symbol), past[|past| - 1].candle;
    SameNames(a, b, cut);
    assert key in a.tables <==> key in b.tables;
    if key in a.tables {
      if a.VisibilityOf(key).AtCompletion? {
        DerivedBarsAgree(a, b, cut, c.ts, key);
      } else {
        StoredBarsAgree(a, b, cut, c.ts, key);
      }
    }
    hide AgreeUntil, PositionOf, OfContract, Tail, Stamps, Visible;
    assert Shown(a.Table(key), a.VisibilityOf(key), c.ts) == Shown(b.Table(key), b.VisibilityOf(key), c.ts);
  }

  lemma AnswersAgree(a: Dataset, b: Dataset, past: seq<Event>, cut: int, q: Query)
    requires a.Built() && b.Built() && AgreeUntil(a, b, cut) && past != []
    requires Faithful(a.Minutes(), past) && forall e :: e in past ==> e.candle.ts < cut
    ensures Answer(a, past, q) == Answer(b, past, q)
  {
    if q.chart.OneMinute? {
      MinuteAnswersAgree(a, b, past, cut, q);
    } else {
      assert past[|past| - 1] in past;
      HigherAnswersAgree(a, b, past, cut, q);
    }
  }

  // ----- the engine in the loop

  // A signal engine with a memory of its own: it looks at the book and the current candle, asks any finite number of
  // questions, and decides on the answers.
  datatype Engine<!M> = Engine(
    initial: M, asks: (M, Book, Candle) -> set<Query>,
    decides: (M, Book, Candle, map<Query, seq<Candle>>) -> (Decision, M))

  datatype Played<M> = Played(book: Book, memory: M)

  function AnswersTo(d: Dataset, past: seq<Event>, queries: set<Query>): map<Query, seq<Candle>>
    requires past != []
  {
    map q | q in queries :: Answer(d, past, q)
  }

  // The last of `past` is processed and, unless an order of its symbol is pending, the engine is asked.
  function Turn<M>(m: Market, engine: Engine<M>, d: Dataset, before: Played<M>, past: seq<Event>)
    : Result<Played<M>, SimError>
    requires past != []
  {
    var c := past[|past| - 1].candle;
    var processed :- Process(m, before.book, c);
    if HasPending(processed.pending, c.symbol) then Success(Played(processed, before.memory))
    else
      var answers := AnswersTo(d, past, engine.asks(before.memory, processed, c));
      var (decision, memory) := engine.decides(before.memory, processed, c, answers);
      var after :- Propose(m, processed, c, decision);
      Success(Played(after, memory))
  }

  function Play<M>(m: Market, equity: real, engine: Engine<M>, d: Dataset, events: seq<Event>)
    : Result<Played<M>, SimError>
  {
    if events == [] then Success(Played(Start(equity), engine.initial))
    else
      var before :- Play(m, equity, engine, d, events[..|events| - 1]);
      Turn(m, engine, d, before, events)
  }

  lemma TurnIsStep<M>(m: Market, engine: Engine<M>, d: Dataset, before: Played<M>, past: seq<Event>)
    returns (decision: Decision)
    requires past != []
    ensures var turn := Turn(m, engine, d, before, past);
      Step(m, before.book, past[|past| - 1].candle, decision)
        == if turn.Success? then Success(turn.value.book) else Failure(turn.error)
  {
    var c := past[|past| - 1].candle;
    var processed := Process(m, before.book, c);
    decision := Rejected;
    if processed.Success? && !HasPending(processed.value.pending, c.symbol) {
      var asked := engine.asks(before.memory, processed.value, c);
      decision := engine.decides(before.memory, processed.value, c, AnswersTo(d, past, asked)).0;
    }
    hide Process, AnswersTo;
  }

  // A played backtest is a run of steps under the decisions the engine took.
  lemma {:induction false} PlayIsSteps<M>(m: Market, equity: real, engine: Engine<M>, d: Dataset, events: seq<Event>)
    returns (decisions: seq<Decision>)
    ensures |decisions| == |events|
    ensures var played := Play(m, equity, engine, d, events);
      Steps(m, equity, CandlesOf(events), decisions)
        == if played.Success? then Success(played.value.book) else Failure(played.error)
  {
    if events == [] {
      decisions := [];
    } else {
      var n := |events| - 1;
      var init := PlayIsSteps(m, equity, engine, d, events[..n]);
      var before := Play(m, equity, engine, d, events[..n]);
      var decision := Rejected;
      if before.Success? {
        decision := TurnIsStep(m, engine, d, before.value, events);
      }
      decisions := init + [decision];
      hide Turn, Step;
      assert CandlesOf(events)[..n] == CandlesOf(events[..n]) && decisions[..n] == init;
    }
  }

  // ----- causality

  lemma {:induction false} PlaysAgree<M>(
    m: Market, equity: real, engine: Engine<M>, a: Dataset, b: Dataset, past: seq<Event>, cut: int)
    requires a.Built() && b.Built() && AgreeUntil(a, b, cut)
    requires Faithful(a.Minutes(), past) && forall e :: e in past ==> e.candle.ts < cut
    ensures Play(m, equity, engine, a, past) == Play(m, equity, engine, b, past)
  {
    if past != [] {
      var init := past[..|past| - 1];
      assert forall e :: e in init ==> e in past;
      PlaysAgree(m, equity, engine, a, b, init, cut);
      var before := Play(m, equity, engine, a, init);
      hide Turn, AgreeUntil, Faithful;
      if before.Success? {
        TurnsAgree(m, engine, a, b, before.value, past, cut);
      }
    }
  }

  lemma TurnsAgree<M>(
    m: Market, engine: Engine<M>, a: Dataset, b: Dataset, before: Played<M>, past: seq<Event>, cut: int)
    requires a.Built() && b.Built() && AgreeUntil(a, b, cut) && past != []
    requires Faithful(a.Minutes(), past) && forall e :: e in past ==> e.candle.ts < cut
    ensures Turn(m, engine, a, before, past) == Turn(m, engine, b, before, past)
  {
    var c := past[|past| - 1].candle;
    var processed := Process(m, before.book, c);
    hide Process, Propose, AgreeUntil, Faithful, AnswersTo, HasPending;
    if processed.Success? {
      AllAnswersAgree(a, b, past, cut, engine.asks(before.memory, processed.value, c));
    }
  }

  lemma AllAnswersAgree(a: Dataset, b: Dataset, past: seq<Event>, cut: int, queries: set<Query>)
    requires a.Built() && b.Built() && AgreeUntil(a, b, cut) && past != []
    requires Faithful(a.Minutes(), past) && forall e :: e in past ==> e.candle.ts < cut
    ensures AnswersTo(a, past, queries) == AnswersTo(b, past, queries)
  {
    forall q | q in queries
      ensures Answer(a, past, q) == Answer(b, past, q)
    {
      AnswersAgree(a, b, past, cut, q);
    }
    hide Answer, AgreeUntil, Faithful;
  }

  lemma FaithfulPrefix(arrays: seq<seq<Candle>>, events: seq<Event>, n: nat)
    requires Faithful(arrays, events) && n <= |events|
    ensures Faithful(arrays, events[..n])
  {
    assert forall e :: e in events[..n] ==> e in events;
  }

  lemma MinuteTablesAgree(a: Dataset, b: Dataset, cut: int)
    requires AgreeUntil(a, b, cut)
    ensures AgreeBefore(a.Minutes(), b.Minutes(), cut)
  {
    forall s | 0 <= s < |a.Minutes()|
      ensures Earlier(a.Minutes()[s], cut) == Earlier(b.Minutes()[s], cut)
    {
      MinutesAgree(a, b, cut, a.names[s]);
    }
  }

  // Two datasets that agree before `cut`, merged and played to just before it under any engine, are in the same state:
  // the same book, orders, fills and engine memory, or the same error.
  lemma BacktestsAreCausal<M>(
    m: Market, equity: real, engine: Engine<M>, a: Dataset, b: Dataset, first: seq<Event>, second: seq<Event>, cut: int)
    requires a.Built() && b.Built() && AgreeUntil(a, b, cut)
    requires Faithful(a.Minutes(), first) && Complete(a.Minutes(), first) && EventOrdered(first)
    requires Faithful(b.Minutes(), second) && Complete(b.Minutes(), second) && EventOrdered(second)
    ensures Play(m, equity, engine, a, EventsBefore(first, cut))
         == Play(m, equity, engine, b, EventsBefore(second, cut))
  {
    MinuteTablesAgree(a, b, cut);
    MergesStartAlike(a.Minutes(), b.Minutes(), first, second, cut);
    EventsBeforeArePrefix(first, cut);
    var past := EventsBefore(first, cut);
    FaithfulPrefix(a.Minutes(), first, |past|);
    hide Faithful, Complete, EventOrdered, AgreeUntil, Play;
    forall e | e in past
      ensures e.candle.ts < cut
    {
      var i :| 0 <= i < |past| && past[i] == e;
      assert first[i] == e;
    }
    PlaysAgree(m, equity, engine, a, b, past, cut);
  }

  // ----- the fills before an instant stay

  lemma StepKeepsFills(m: Market, start: real, b: Book, c: Candle, d: Decision)
    requires Sound(start, b) && Step(m, b, c, d).Success?
    ensures var after := Step(m, b, c, d).value; |b.fills| <= |after.fills| && after.fills[..|b.fills|] == b.fills
  {
    hide Step, Sound;
    BacktestExits.CandleBooks(m, start, b, c, d, f => true);
  }

  lemma {:induction false} PlayKeepsFills<M>(
    m: Market, equity: real, engine: Engine<M>, d: Dataset, events: seq<Event>, k: nat)
    requires k <= |events| && Play(m, equity, engine, d, events).Success?
    ensures var before := Play(m, equity, engine, d, events[..k]);
      var after := Play(m, equity, engine, d, events).value.book;
      before.Success? && |before.value.book.fills| <= |after.fills|
      && after.fills[..|before.value.book.fills|] == before.value.book.fills
  {
    if k == |events| {
      assert events[..k] == events;
    } else {
      var init := events[..|events| - 1];
      assert init[..k] == events[..k];
      PlayKeepsFills(m, equity, engine, d, init, k);
      var b := Play(m, equity, engine, d, init).value;
      var decisions := PlayIsSteps(m, equity, engine, d, init);
      RunsConserve(m, equity, CandlesOf(init), decisions);
      hide Turn, Step, Sound, Steps;
      var decision := TurnIsStep(m, engine, d, b, events);
      StepKeepsFills(m, equity, b.book, events[|events| - 1].candle, decision);
      var before := Play(m, equity, engine, d, events[..k]).value.book;
      var after := Play(m, equity, engine, d, events).value.book;
      assert after.fills[..|before.fills|] == after.fills[..|b.book.fills|][..|before.fills|];
    }
  }

  // So the fills recorded before `cut` are the same in both whole backtests, and whatever differs comes after them.
  lemma FillsBeforeAreFixed<M>(
    m: Market, equity: real, engine: Engine<M>, a: Dataset, b: Dataset, first: seq<Event>, second: seq<Event>, cut: int)
    requires a.Built() && b.Built() && AgreeUntil(a, b, cut)
    requires Faithful(a.Minutes(), first) && Complete(a.Minutes(), first) && EventOrdered(first)
    requires Faithful(b.Minutes(), second) && Complete(b.Minutes(), second) && EventOrdered(second)
    requires Play(m, equity, engine, a, first).Success? && Play(m, equity, engine, b, second).Success?
    ensures var shared := Play(m, equity, engine, a, EventsBefore(first, cut));
      shared.Success?
      && var n := |shared.value.book.fills|;
         var x := Play(m, equity, engine, a, first).value.book.fills;
         var y := Play(m, equity, engine, b, second).value.book.fills;
         n <= |x| && n <= |y| && x[..n] == shared.value.book.fills == y[..n]
  {
    BacktestsAreCausal(m, equity, engine, a, b, first, second, cut);
    EventsBeforeArePrefix(first, cut);
    EventsBeforeArePrefix(second, cut);
    PlayKeepsFills(m, equity, engine, a, first, |EventsBefore(first, cut)|);
    PlayKeepsFills(m, equity, engine, b, second, |EventsBefore(second, cut)|);
    hide Faithful, Complete, EventOrdered, AgreeUntil, Play, EventsBefore;
  }
}
