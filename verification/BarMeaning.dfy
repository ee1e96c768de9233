/**
 * What the bars of an aggregation are, told on the candles: each is made of all in-session candles of one contract in
 * one bucket of the calendar, and every such candle is in a bar, unless it is of a week the calendar cannot tell.
 */
module BarMeaning {
  import opened Outcomes
  import opened SessionCalendar
  import opened SessionBuckets
  import opened Aggregation
  import opened AggregationLaws
  import opened AggregationTheorems

  // The same contract of the same symbol, in one bucket.
  predicate SameBar(cal: Calendar, tf: Timeframe, a: Candle, b: Candle) {
    a.symbol == b.symbol && a.conid == b.conid && Together(cal, tf, a.ts, b.ts)
  }

  // The candles that go with `c`, in input order.
  function With(cal: Calendar, tf: Timeframe, candles: seq<Candle>, c: Candle): seq<Candle> {
    if candles == [] then []
    else
      var init, last := With(cal, tf, candles[..|candles| - 1], c), candles[|candles| - 1];
      if SameBar(cal, tf, c, last) then init + [last] else init
  }

  lemma KeysMeanSameBar(cal: Calendar, tf: Timeframe, a: Candle, b: Candle)
    requires cal.InSession(a.ts) && cal.InSession(b.ts)
    ensures KeyOf(SessionPlacing(cal, tf), a) == KeyOf(SessionPlacing(cal, tf), b) <==> SameBar(cal, tf, a, b)
  {
  }

  lemma {:induction false} RowsAreWith(cal: Calendar, tf: Timeframe, candles: seq<Candle>, c: Candle)
    requires cal.InSession(c.ts)
    ensures Rows(SessionPlacing(cal, tf), Tradable(cal, candles), KeyOf(SessionPlacing(cal, tf), c))
         == With(cal, tf, candles, c)
  {
    if candles != [] {
      var init, last := candles[..|candles| - 1], candles[|candles| - 1];
      RowsAreWith(cal, tf, init, c);
      if cal.InSession(last.ts) {
        KeysMeanSameBar(cal, tf, c, last);
        var tradable := Tradable(cal, init);
        assert (tradable + [last])[..|tradable|] == tradable;
      }
    }
  }

  // A bar is the bar of some in-session candle: it stands at the start of that candle's bucket, and sums up exactly the
  // candles that go with it.
  lemma BarsAreOfBuckets(cal: Calendar, candles: seq<Candle>, tf: Timeframe, bar: Candle) returns (first: Candle)
    requires cal.Valid() && Aggregate(cal, candles, tf).Success? && bar in Aggregate(cal, candles, tf).value
    ensures first in candles && cal.InSession(first.ts) && cal.BucketStart(first.ts, tf) == Success(bar.ts)
    ensures bar.symbol == first.symbol && bar.conid == first.conid
    ensures Summary(With(cal, tf, candles, first), bar)
  {
    var place := SessionPlacing(cal, tf);
    var key := AnswerSummarizesBuckets(cal, candles, tf, bar);
    var rows := Rows(place, Tradable(cal, candles), key);
    RowsBelong(place, Tradable(cal, candles), key);
    TradableMembers(cal, candles);
    first := rows[0];
    assert first in rows;
    RowsAreWith(cal, tf, candles, first);
  }

  // And every in-session candle whose bucket's completion can be told has its bar.
  lemma CandlesHaveTheirBar(cal: Calendar, candles: seq<Candle>, tf: Timeframe, c: Candle) returns (bar: Candle)
    requires cal.Valid() && Aggregate(cal, candles, tf).Success?
    requires c in candles && cal.InSession(c.ts) && cal.CompletedAt(c.ts, tf).Success?
    ensures bar in Aggregate(cal, candles, tf).value && bar.symbol == c.symbol && bar.conid == c.conid
    ensures Together(cal, tf, bar.ts, c.ts) && Summary(With(cal, tf, candles, c), bar)
  {
    var place, rows := SessionPlacing(cal, tf), Tradable(cal, candles);
    var key := KeyOf(place, c);
    TradableMembers(cal, candles);
    RowsBelong(place, rows, key);
    RowsAreWith(cal, tf, candles, c);
    var group := Rows(place, rows, key);
    assert c in group && group[0] in group;
    hide Rows, Tradable, Aggregate, With;
    KeysMeanSameBar(cal, tf, c, group[0]);
    BucketCompletesTogether(cal, tf, c, group[0]);
    bar := KeyedBar(cal, candles, tf, key);
    cal.BucketStartIsRepresentative(group[0].ts, tf);
    StartIsTogether(cal, tf, group[0], bar);
  }

  lemma StartIsTogether(cal: Calendar, tf: Timeframe, first: Candle, bar: Candle)
    requires cal.Valid() && cal.InSession(first.ts) && cal.BucketStart(first.ts, tf) == Success(bar.ts)
    ensures Together(cal, tf, bar.ts, first.ts)
  {
    cal.BucketStartIsRepresentative(first.ts, tf);
  }

  // A bucket that can be completed has its bar in the answer.
  lemma KeyedBar(cal: Calendar, candles: seq<Candle>, tf: Timeframe, key: BucketKey) returns (bar: Candle)
    requires cal.Valid() && Aggregate(cal, candles, tf).Success?
    requires var group := Rows(SessionPlacing(cal, tf), Tradable(cal, candles), key);
      group != [] && cal.InSession(group[0].ts) && cal.CompletedAt(group[0].ts, tf).Success?
    ensures var group := Rows(SessionPlacing(cal, tf), Tradable(cal, candles), key);
      && bar in Aggregate(cal, candles, tf).value && Summary(group, bar)
      && bar.symbol == group[0].symbol && bar.conid == group[0].conid
      && cal.BucketStart(group[0].ts, tf) == Success(bar.ts)
  {
    var place, rows := SessionPlacing(cal, tf), Tradable(cal, candles);
    var group := Rows(place, rows, key);
    bar := Bar(place, rows, key);
    BarSumsUp(group, place(group[0]).start);
    PlaceFacts(cal, tf, group[0]);
    hide Summary, Highest, Lowest, Volume, Rows, Tradable, Aggregate;
    BarIsAnswered(cal, candles, tf, key);
  }

  lemma BarSumsUp(rows: seq<Candle>, start: int)
    requires rows != []
    ensures Summary(rows, Summarize(start, rows))
  {
    HighestIsMaximum(rows);
    LowestIsMinimum(rows);
    hide Highest, Lowest, Volume;
    var bar := Summarize(start, rows);
    assert bar.high == Highest(rows) && bar.low == Lowest(rows);
  }

  lemma BarIsAnswered(cal: Calendar, candles: seq<Candle>, tf: Timeframe, key: BucketKey)
    requires cal.Valid() && Aggregate(cal, candles, tf).Success?
    requires var group := Rows(SessionPlacing(cal, tf), Tradable(cal, candles), key);
      && group != [] && cal.InSession(group[0].ts) && cal.CompletedAt(group[0].ts, tf).Success?
      && cal.BucketStart(group[0].ts, tf) == Success(Bar(SessionPlacing(cal, tf), Tradable(cal, candles), key).ts)
    ensures Bar(SessionPlacing(cal, tf), Tradable(cal, candles), key) in Aggregate(cal, candles, tf).value
  {
    var place, rows := SessionPlacing(cal, tf), Tradable(cal, candles);
    var keys := Keys(place, rows);
    KeysHaveRows(place, rows);
    BarsMembers(place, rows, keys);
    cal.BucketStartIsRepresentative(Rows(place, rows, key)[0].ts, tf);
    WithholdKeeps(Completion(cal, tf), tf == OneWeek, Bars(place, rows, keys));
    SortMembers(Withhold(Completion(cal, tf), tf == OneWeek, Bars(place, rows, keys)).value);
    hide Keys, Rows, Bars, Withhold, SortRows, Tradable, Bar;
  }

  // Nothing but an instant the calendar does not cover makes an aggregation fail.
  lemma {:induction false} FailsOnlyUncovered(cal: Calendar, candles: seq<Candle>, tf: Timeframe)
    requires cal.Valid()
    ensures Aggregate(cal, candles, tf).Failure? <==> exists c :: c in candles && !InCoverage(cal, cal.tradeDate(c.ts))
  {
    UncoveredIff(cal, candles);
    if FirstUncovered(cal, candles).None? {
      CoveredNeverFails(cal, candles, tf);
    }
  }

  lemma {:induction false} UncoveredIff(cal: Calendar, candles: seq<Candle>)
    ensures FirstUncovered(cal, candles).Some? <==> exists c :: c in candles && !InCoverage(cal, cal.tradeDate(c.ts))
  {
    if candles != [] {
      var init, last := candles[..|candles| - 1], candles[|candles| - 1];
      assert candles == init + [last];
      UncoveredIff(cal, init);
      SessionIsTheDays(cal, last.ts);
    }
  }
}
