/**
 * No look-ahead: a higher-timeframe futures candle is visible only when it is complete, so what the simulator can
 * see at an instant does not depend on any one-minute candle at or after that instant.
 */
module LookAhead {
  import opened Outcomes
  import opened SessionCalendar
  import opened Aggregation
  import opened AggregationLaws
  import opened AggregationTheorems
  import opened CandleLookup
  import opened CandleHistory

  function Earlier(candles: seq<Candle>, cut: int): seq<Candle> {
    if candles == [] then []
    else
      var init, c := Earlier(candles[..|candles| - 1], cut), candles[|candles| - 1];
      if c.ts < cut then init + [c] else init
  }

  predicate Done(cal: Calendar, tf: Timeframe, b: Candle, cut: int) {
    cal.CompletedAt(b.ts, tf).Success? && cal.CompletedAt(b.ts, tf).value <= cut
  }

  lemma {:induction false} EarlierKeepsAll(rows: seq<Candle>, cut: int)
    requires forall r :: r in rows ==> r.ts < cut
    ensures Earlier(rows, cut) == rows
  {
    if rows != [] {
      var init, c := rows[..|rows| - 1], rows[|rows| - 1];
      assert c in rows;
      EarlierKeepsAll(init, cut);
      assert rows == init + [c];
    }
  }

  lemma EarlierOfEarlyRows(rows: seq<Candle>, cut: int)
    requires TimeOrdered(rows) && rows != [] && rows[|rows| - 1].ts < cut
    ensures Earlier(rows, cut) == rows
  {
    EarlierKeepsAll(rows, cut);
  }

  // Candles at or after the cut leave every finished bar of the contract as it was.
  lemma {:induction false} RunningIgnoresLater(
    cal: Calendar, tf: Timeframe, rows: seq<Candle>, cut: int, x: Candle)
    requires cal.Valid() && TimeOrdered(rows) && forall c :: c in rows ==> cal.InSession(c.ts)
    requires Done(cal, tf, x, cut)
    ensures x in Running(SessionPlacing(cal, tf), rows)
       <==> x in Running(SessionPlacing(cal, tf), Earlier(rows, cut))
  {
    if rows != [] {
      var place, init, c := SessionPlacing(cal, tf), rows[..|rows| - 1], rows[|rows| - 1];
      if c.ts < cut {
        EarlierOfEarlyRows(rows, cut);
      } else {
        RunningIgnoresLater(cal, tf, init, cut, x);
        assert c in rows;
        RunningIsInSession(cal, tf, init);
        LateCandleOpensNothing(cal, tf, Running(place, init), c, cut, x);
      }
    }
  }

  lemma RunningIsInSession(cal: Calendar, tf: Timeframe, rows: seq<Candle>)
    requires cal.Valid() && forall c :: c in rows ==> cal.InSession(c.ts)
    ensures forall b :: b in Running(SessionPlacing(cal, tf), rows) ==> cal.InSession(b.ts)
  {
    var place := SessionPlacing(cal, tf);
    RunningIsGrounded(place, rows);
    forall b | b in Running(place, rows)
      ensures cal.InSession(b.ts)
    {
      var c :| c in rows && b.ts == place(c).start && b.conid == c.conid;
      PlaceFacts(cal, tf, c);
    }
  }

  lemma LateCandleOpensNothing(
    cal: Calendar, tf: Timeframe, bars: seq<Candle>, c: Candle, cut: int, x: Candle)
    requires cal.Valid() && cal.InSession(c.ts) && cut <= c.ts && Done(cal, tf, x, cut)
    requires forall b :: b in bars ==> cal.InSession(b.ts)
    ensures x in Absorb(SessionPlacing(cal, tf), bars, c) <==> x in bars
  {
    var place := SessionPlacing(cal, tf);
    if bars != [] && place(bars[|bars| - 1]).id == place(c).id {
      var front, last := bars[..|bars| - 1], bars[|bars| - 1];
      UnfinishedWith(cal, tf, last, c, cut);
      DoneIsByTime(cal, tf, last, Extend(last, c), cut);
      LastIsNot(front, last, Extend(last, c), x);
      assert bars == front + [last];
    } else {
      PlaceFacts(cal, tf, c);
      UnfinishedWith(cal, tf, Opened(place, c), c, cut);
    }
  }

  lemma DoneIsByTime(cal: Calendar, tf: Timeframe, a: Candle, b: Candle, cut: int)
    requires a.ts == b.ts
    ensures Done(cal, tf, a, cut) <==> Done(cal, tf, b, cut)
  {
  }

  lemma LastIsNot(front: seq<Candle>, a: Candle, b: Candle, x: Candle)
    requires x != a && x != b
    ensures x in front + [a] <==> x in front + [b]
  {
  }

  lemma UnfinishedWith(cal: Calendar, tf: Timeframe, b: Candle, c: Candle, cut: int)
    requires cal.Valid() && cal.InSession(b.ts) && cal.InSession(c.ts) && cut <= c.ts
    requires SessionPlacing(cal, tf)(b).id == SessionPlacing(cal, tf)(c).id
    ensures !Done(cal, tf, b, cut)
  {
    BucketCompletesTogether(cal, tf, b, c);
    if cal.CompletedAt(c.ts, tf).Success? {
      cal.CompletionFollowsInstant(c.ts, tf);
    }
  }

  // ----- earlier candles of a contract, in any order of taking the parts

  lemma {:induction false} EarlierParts(cal: Calendar, candles: seq<Candle>, conid: nat, cut: int)
    ensures Earlier(OfContract(Tradable(cal, candles), conid), cut)
         == OfContract(Tradable(cal, Earlier(candles, cut)), conid)
  {
    if candles != [] {
      var init, c := candles[..|candles| - 1], candles[|candles| - 1];
      EarlierParts(cal, init, conid, cut);
      SnocParts(cal, Earlier(init, cut), c, conid, cut);
      SnocParts(cal, Tradable(cal, init), c, conid, cut);
      SnocParts(cal, Tradable(cal, Earlier(init, cut)), c, conid, cut);
      SnocParts(cal, OfContract(Tradable(cal, init), conid), c, conid, cut);
    }
  }

  lemma SnocParts(cal: Calendar, rows: seq<Candle>, c: Candle, conid: nat, cut: int)
    ensures Tradable(cal, rows + [c]) == if cal.InSession(c.ts) then Tradable(cal, rows) + [c] else Tradable(cal, rows)
    ensures OfContract(rows + [c], conid)
         == if c.conid == conid then OfContract(rows, conid) + [c] else OfContract(rows, conid)
    ensures Earlier(rows + [c], cut) == if c.ts < cut then Earlier(rows, cut) + [c] else Earlier(rows, cut)
  {
    assert (rows + [c])[..|rows|] == rows;
  }

  lemma {:induction false} OfContractTimeOrdered(rows: seq<Candle>, conid: nat)
    requires TimeOrdered(rows)
    ensures TimeOrdered(OfContract(rows, conid))
  {
    if rows != [] {
      var init := rows[..|rows| - 1];
      OfContractTimeOrdered(init, conid);
      OfContractMembers(init, conid);
      var mine := OfContract(init, conid);
      forall i | 0 <= i < |mine|
        ensures mine[i].ts <= rows[|rows| - 1].ts
      {
        assert mine[i] in init;
        var j :| 0 <= j < |init| && init[j] == mine[i];
        assert rows[j] == init[j];
      }
    }
  }

  // The finished bars of an aggregate depend on the candles before the cut only.
  lemma FinishedBarsAreFixed(cal: Calendar, candles: seq<Candle>, tf: Timeframe, symbol: string, cut: int, x: Candle)
    requires cal.Valid() && TimeOrdered(candles) && Uniform(candles, symbol)
    requires Aggregate(cal, candles, tf).Success? && Done(cal, tf, x, cut)
    ensures x in Aggregate(cal, candles, tf).value <==>
      x in Running(SessionPlacing(cal, tf), OfContract(Tradable(cal, Earlier(candles, cut)), x.conid))
  {
    var rows := Tradable(cal, candles);
    AggregateIsRunning(cal, candles, tf, symbol);
    TradableMembers(cal, candles);
    OfContractMembers(rows, x.conid);
    OfContractTimeOrdered(rows, x.conid);
    RunningIgnoresLater(cal, tf, OfContract(rows, x.conid), cut, x);
    EarlierParts(cal, candles, x.conid, cut);
  }

  // ----- what is visible

  lemma {:induction false} VisibleMembers(rows: seq<Candle>, stamps: seq<int>, through: int)
    requires |rows| == |stamps|
    ensures forall x :: x in Visible(rows, stamps, through) <==>
      exists i :: 0 <= i < |rows| && rows[i] == x && stamps[i] <= through
    ensures StrictlyOrdered(rows) ==> StrictlyOrdered(Visible(rows, stamps, through))
  {
    if rows != [] {
      var n := |rows| - 1;
      VisibleMembers(rows[..n], stamps[..n], through);
      var seen := Visible(rows[..n], stamps[..n], through);
      forall x
        ensures x in Visible(rows, stamps, through) <==>
          exists i :: 0 <= i < |rows| && rows[i] == x && stamps[i] <= through
      {
        if x in seen {
          var i :| 0 <= i < n && rows[..n][i] == x && stamps[..n][i] <= through;
          assert rows[i] == x && stamps[i] <= through;
        }
        if i :| 0 <= i < |rows| && rows[i] == x && stamps[i] <= through {
          if i < n {
            assert rows[..n][i] == x && stamps[..n][i] <= through;
          }
        }
      }
      if StrictlyOrdered(rows) {
        forall k | 0 <= k < |seen|
          ensures Before(seen[k], rows[n])
        {
          assert seen[k] in seen;
          var i :| 0 <= i < n && rows[..n][i] == seen[k] && stamps[..n][i] <= through;
          assert rows[i] == seen[k];
        }
      }
    }
  }

  lemma VisibleIsDone(cal: Calendar, tf: Timeframe, bars: seq<Candle>, cut: int)
    requires Stamps(AtCompletion(cal, tf), bars).Success?
    ensures forall x :: x in Visible(bars, Stamps(AtCompletion(cal, tf), bars).value, cut) <==>
      x in bars && Done(cal, tf, x, cut)
  {
    var v := AtCompletion(cal, tf);
    var stamps := Stamps(v, bars).value;
    VisibleMembers(bars, stamps, cut);
    forall i | 0 <= i < |bars|
      ensures StampOf(v, i, bars[i]) == Success(stamps[i])
    {
      StampsAt(v, bars, i);
    }
  }

  // Every bar of an answer has a completion.
  lemma AnswerIsStamped(cal: Calendar, candles: seq<Candle>, tf: Timeframe, symbol: string)
    requires cal.Valid() && TimeOrdered(candles) && Uniform(candles, symbol) && Aggregate(cal, candles, tf).Success?
    ensures Stamps(AtCompletion(cal, tf), Aggregate(cal, candles, tf).value).Success?
  {
    var place, rows := SessionPlacing(cal, tf), Tradable(cal, candles);
    KeysHaveRows(place, rows);
    var bars := Bars(place, rows, Keys(place, rows));
    AnswerIsWellPlaced(cal, candles, tf, symbol);
    WithholdKeeps(Completion(cal, tf), tf == OneWeek, bars);
    SortMembers(Withhold(Completion(cal, tf), tf == OneWeek, bars).value);
    StampsSucceed(cal, Aggregate(cal, candles, tf).value, tf);
  }

  lemma {:induction false} StampsSucceed(cal: Calendar, bars: seq<Candle>, tf: Timeframe)
    requires forall b :: b in bars ==> cal.CompletedAt(b.ts, tf).Success?
    ensures Stamps(AtCompletion(cal, tf), bars).Success?
  {
    if bars != [] {
      assert bars[|bars| - 1] in bars;
      StampsSucceed(cal, bars[..|bars| - 1], tf);
    }
  }

  // The visible part of two candle histories that agree before `cut` is the same at `cut`, whatever follows: any
  // one-minute candle at or after the instant may be changed, added or removed.
  lemma NoLookAhead(cal: Calendar, a: seq<Candle>, b: seq<Candle>, tf: Timeframe, symbol: string, cut: int)
    requires cal.Valid()
    requires TimeOrdered(a) && Uniform(a, symbol) && TimeOrdered(b) && Uniform(b, symbol)
    requires Aggregate(cal, a, tf).Success? && Aggregate(cal, b, tf).Success?
    requires Earlier(a, cut) == Earlier(b, cut)
    ensures Stamps(AtCompletion(cal, tf), Aggregate(cal, a, tf).value).Success?
    ensures Stamps(AtCompletion(cal, tf), Aggregate(cal, b, tf).value).Success?
    ensures Visible(Aggregate(cal, a, tf).value, Stamps(AtCompletion(cal, tf), Aggregate(cal, a, tf).value).value, cut)
         == Visible(Aggregate(cal, b, tf).value, Stamps(AtCompletion(cal, tf), Aggregate(cal, b, tf).value).value, cut)
  {
    var v, x, y := AtCompletion(cal, tf), Aggregate(cal, a, tf).value, Aggregate(cal, b, tf).value;
    AnswerIsStamped(cal, a, tf, symbol);
    AnswerIsStamped(cal, b, tf, symbol);
    VisibleIsDone(cal, tf, x, cut);
    VisibleIsDone(cal, tf, y, cut);
    AggregateIsRunning(cal, a, tf, symbol);
    AggregateIsRunning(cal, b, tf, symbol);
    VisibleMembers(x, Stamps(v, x).value, cut);
    VisibleMembers(y, Stamps(v, y).value, cut);
    forall bar | Done(cal, tf, bar, cut)
      ensures bar in x <==> bar in y
    {
      FinishedBarsAreFixed(cal, a, tf, symbol, cut, bar);
      FinishedBarsAreFixed(cal, b, tf, symbol, cut, bar);
    }
    StrictOrderIsUnique(Visible(x, Stamps(v, x).value, cut), Visible(y, Stamps(v, y).value, cut));
  }

  // Every candle summarized by a visible bar is strictly earlier than the bar's completion, which is past.
  lemma VisibleBarsArePast(cal: Calendar, candles: seq<Candle>, tf: Timeframe, cut: int, bar: Candle)
    returns (key: BucketKey)
    requires cal.Valid() && Aggregate(cal, candles, tf).Success?
    requires bar in Aggregate(cal, candles, tf).value && Done(cal, tf, bar, cut)
    ensures var rows := Rows(SessionPlacing(cal, tf), Tradable(cal, candles), key);
      Summary(rows, bar) && forall r :: r in rows ==> r.ts < cal.CompletedAt(bar.ts, tf).value <= cut
  {
    key := AnswerSummarizesBuckets(cal, candles, tf, bar);
    TradableMembers(cal, candles);
    BucketPrecedesCompletion(cal, Tradable(cal, candles), tf, key, bar);
  }

  lemma BucketPrecedesCompletion(cal: Calendar, rows: seq<Candle>, tf: Timeframe, key: BucketKey, bar: Candle)
    requires cal.Valid() && forall r :: r in rows ==> cal.InSession(r.ts)
    requires IsBarOf(SessionPlacing(cal, tf), rows, key, bar) && cal.CompletedAt(bar.ts, tf).Success?
    ensures forall r :: r in Rows(SessionPlacing(cal, tf), rows, key) ==> r.ts < cal.CompletedAt(bar.ts, tf).value
  {
    var place := SessionPlacing(cal, tf);
    var group := Rows(place, rows, key);
    RowsBelong(place, rows, key);
    assert group[0] in group;
    PlaceFacts(cal, tf, group[0]);
    forall r | r in group
      ensures r.ts < cal.CompletedAt(bar.ts, tf).value
    {
      assert KeyOf(place, r) == KeyOf(place, group[0]);
      BucketCompletesTogether(cal, tf, group[0], r);
      cal.CompletionFollowsInstant(r.ts, tf);
    }
  }

  // The same for the simulator: two simulators over futures tables derived from one-minute candles that agree before
  // the current instant answer every higher-timeframe query alike.
  lemma AnswersIgnoreTheFuture(h: History, k: History, symbol: string, tf: Timeframe, limit: int)
    requires h.Built() && k.Built()
    requires symbol in h.calendars && h.calendars == k.calendars && h.calendars[symbol].Valid()
    requires h.deriveAll == k.deriveAll && (h.deriveAll || tf in {OneHour, FourHours, OneDay})
    requires h.currentTime == k.currentTime && h.currentCandle == k.currentCandle
    requires TableKey(Higher(tf), symbol) in h.tables && TableKey(Higher(tf), symbol) in k.tables
    requires Derived(h, symbol, tf) && Derived(k, symbol, tf)
    requires var cut := if h.currentTime.Some? then h.currentTime.value else 0;
      Earlier(h.Table(TableKey(OneMinute, symbol)), cut) == Earlier(k.Table(TableKey(OneMinute, symbol)), cut)
    ensures h.GetRecentCandlesReference(symbol, Higher(tf), limit)
         == k.GetRecentCandlesReference(symbol, Higher(tf), limit)
  {
    var cut := if h.currentTime.Some? then h.currentTime.value else 0;
    NoLookAhead(h.calendars[symbol], h.Table(TableKey(OneMinute, symbol)), k.Table(TableKey(OneMinute, symbol)),
                tf, symbol, cut);
  }

  // The constructor filled this table by aggregating the symbol's one-minute candles.
  ghost predicate Derived(h: History, symbol: string, tf: Timeframe)
    requires symbol in h.calendars
  {
    var candles, cal := h.Table(TableKey(OneMinute, symbol)), h.calendars[symbol];
    && TimeOrdered(candles) && Uniform(candles, symbol)
    && Aggregate(cal, candles, tf) == Success(h.Table(TableKey(Higher(tf), symbol)))
  }
}
