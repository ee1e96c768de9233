/**
 * What a query for recent candles answers, told on the candles themselves: a derived bar from the moment no in-session
 * instant of its bucket is left, a stored bar once its span is over, a one-minute candle once it has been processed.
 */
module RecentCandles {
  import opened Outcomes
  import opened SessionCalendar
  import opened SessionBuckets
  import opened Aggregation
  import opened AggregationLaws
  import opened AggregationTheorems
  import opened CandleLookup
  import opened CandleHistory
  import opened LookAhead

  // ----- limits

  // A positive limit keeps the last so many rows; otherwise the first `-limit` are dropped.
  lemma TailIs(rows: seq<Candle>, limit: int)
    ensures var n := |rows|;
      Tail(rows, limit) == if limit > 0 then (if limit < n then rows[n - limit..] else rows)
                           else if -limit < n then rows[-limit..] else []
  {
  }

  // ----- when a bar shows

  lemma ShowsIff(v: Visibility, rows: seq<Candle>, through: int, x: Candle)
    requires !v.ByPosition? && Stamps(v, rows).Success?
    ensures x in Visible(rows, Stamps(v, rows).value, through) <==>
            x in rows && StampOf(v, 0, x).Success? && StampOf(v, 0, x).value <= through
  {
    var stamps := Stamps(v, rows).value;
    VisibleMembers(rows, stamps, through);
    forall i | 0 <= i < |rows|
      ensures StampOf(v, i, rows[i]) == Success(stamps[i])
    {
      StampsAt(v, rows, i);
    }
  }

  // The bar's bucket is over at `now`: it has no in-session instant at or after it.
  ghost predicate Over(cal: Calendar, tf: Timeframe, x: Candle, now: int) {
    forall u :: Together(cal, tf, x.ts, u) ==> u < now
  }

  // A derived bar shows exactly when its bucket is over: neither earlier nor later.
  lemma DerivedBarShowsIff(cal: Calendar, tf: Timeframe, rows: seq<Candle>, now: int, x: Candle)
    requires cal.Valid() && Stamps(AtCompletion(cal, tf), rows).Success? && x in rows
    ensures x in Visible(rows, Stamps(AtCompletion(cal, tf), rows).value, now) <==> Over(cal, tf, x, now)
  {
    var v := AtCompletion(cal, tf);
    ShowsIff(v, rows, now, x);
    var i :| 0 <= i < |rows| && rows[i] == x;
    StampsAt(v, rows, i);
    CompletionIsTight(cal, x.ts, tf);
    hide Together, Visible, Stamps;
  }

  // How long a stored bar of a timeframe lasts.
  predicate Spans(tf: Timeframe, span: int) {
    match tf
    case OneDay => span == 24 * 60 * 60 * 1000
    case OneWeek => span == 7 * 24 * 60 * 60 * 1000
    case _ => LastsFor(tf, span)
  }

  // A stored bar shows exactly when its span is over.
  lemma StoredBarShowsIff(tf: Timeframe, rows: seq<Candle>, span: int, now: int, x: Candle)
    requires Spans(tf, span) && Stamps(AfterSpan(Span(tf)), rows).Success?
    ensures x in Visible(rows, Stamps(AfterSpan(Span(tf)), rows).value, now) <==> x in rows && x.ts + span <= now
  {
    ShowsIff(AfterSpan(Span(tf)), rows, now, x);
    hide Visible, Stamps;
  }

  // ----- what a query answers

  // The table is made from one-minute candles under a calendar: every timeframe, or hours, four hours and days.
  predicate IsDerived(h: History, symbol: string, tf: Timeframe) {
    symbol in h.calendars && (h.deriveAll || tf == OneHour || tf == FourHours || tf == OneDay)
  }

  // With a limit that cuts nothing off, a query for a higher timeframe answers exactly the bars of the current contract
  // (or of any, if another symbol is current) that are over.
  lemma HigherQueryAnswersIff(h: History, symbol: string, tf: Timeframe, limit: int, span: int, x: Candle)
    requires h.Built() && TableKey(Higher(tf), symbol) in h.tables && Spans(tf, span)
    requires symbol in h.calendars ==> h.calendars[symbol].Valid()
    requires limit > 0 && limit >= |h.Table(TableKey(Higher(tf), symbol))|
    ensures var now := if h.currentTime.Some? then h.currentTime.value else 0;
      x in h.GetRecentCandlesReference(symbol, Higher(tf), limit) <==>
        && x in h.Table(TableKey(Higher(tf), symbol))
        && (h.currentCandle.Some? && h.currentCandle.value.symbol == symbol ==>
             x.conid == h.currentCandle.value.conid)
        && if IsDerived(h, symbol, tf) then Over(h.calendars[symbol], tf, x, now) else x.ts + span <= now
  {
    var key, now := TableKey(Higher(tf), symbol), if h.currentTime.Some? then h.currentTime.value else 0;
    var rows, v := h.Table(key), h.VisibilityOf(key);
    var shown := Visible(rows, Stamps(v, rows).value, now);
    assert v == if IsDerived(h, symbol, tf) then AtCompletion(h.calendars[symbol], tf) else AfterSpan(Span(tf));
    VisibleIsShort(rows, Stamps(v, rows).value, now);
    if x in rows && IsDerived(h, symbol, tf) {
      DerivedBarShowsIff(h.calendars[symbol], tf, rows, now, x);
    }
    if !IsDerived(h, symbol, tf) {
      StoredBarShowsIff(tf, rows, span, now, x);
    }
    ShowsIff(v, rows, now, x);
    hide Over, Visible, Stamps, StampOf;
    if h.currentCandle.Some? && h.currentCandle.value.symbol == symbol {
      OfContractMembers(shown, h.currentCandle.value.conid);
      ContractIsShort(shown, h.currentCandle.value.conid);
      TailIs(OfContract(shown, h.currentCandle.value.conid), limit);
    } else {
      TailIs(shown, limit);
    }
    hide Tail, OfContract;
  }

  lemma {:induction false} VisibleIsShort(rows: seq<Candle>, stamps: seq<int>, through: int)
    requires |rows| == |stamps|
    ensures |Visible(rows, stamps, through)| <= |rows|
  {
    if rows != [] {
      VisibleIsShort(rows[..|rows| - 1], stamps[..|rows| - 1], through);
    }
  }

  lemma {:induction false} ContractIsShort(rows: seq<Candle>, conid: nat)
    ensures |OfContract(rows, conid)| <= |rows|
  {
    if rows != [] {
      ContractIsShort(rows[..|rows| - 1], conid);
    }
  }

  // A one-minute query answers exactly the processed rows of the contract: the current candle's if its symbol is asked
  // for, or that of the symbol's own latest row.
  lemma MinuteQueryAnswersIff(h: History, symbol: string, limit: int, x: Candle)
    requires h.Built() && limit > 0 && limit >= |h.Table(TableKey(OneMinute, symbol))|
    requires symbol in h.currentIndexBySymbol && 0 <= h.currentIndexBySymbol[symbol]
    requires h.currentIndexBySymbol[symbol] < |h.Table(TableKey(OneMinute, symbol))|
    ensures var rows, index := h.Table(TableKey(OneMinute, symbol)), h.currentIndexBySymbol[symbol];
      var conid := if h.currentCandle.Some? && h.currentCandle.value.symbol == symbol
                   then h.currentCandle.value.conid else rows[index].conid;
      x in h.GetRecentCandlesReference(symbol, OneMinute, limit) <==>
        exists k :: 0 <= k <= index && rows[k] == x && x.conid == conid
  {
    var rows, index := h.Table(TableKey(OneMinute, symbol)), h.currentIndexBySymbol[symbol];
    var conid := if h.currentCandle.Some? && h.currentCandle.value.symbol == symbol
                 then h.currentCandle.value.conid else rows[index].conid;
    var past := rows[..index + 1];
    OfContractMembers(past, conid);
    ContractIsShort(past, conid);
    TailIs(OfContract(past, conid), limit);
    hide Tail, OfContract;
    assert x in past <==> exists k :: 0 <= k <= index && rows[k] == x;
  }

  // Before any of its candles a symbol has no one-minute answer.
  lemma NoMinutesYet(h: History, symbol: string, limit: int)
    requires h.Built() && (symbol in h.currentIndexBySymbol ==> h.currentIndexBySymbol[symbol] < 0)
    ensures h.GetRecentCandlesReference(symbol, OneMinute, limit) == []
  {
  }
}
