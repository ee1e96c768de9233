/**
 * The candle tables of the simulator, the indexes its constructor builds over them, and the two ways of asking for
 * the recent candles of a symbol at the current simulator position.
 */
module CandleHistory {
  import opened Outcomes
  import opened SessionCalendar
  import opened Aggregation
  import opened AggregationLaws
  import opened CandleLookup

  datatype Chart = OneMinute | Higher(tf: Timeframe)

  datatype TableKey = TableKey(chart: Chart, symbol: string)

  // When a stored row becomes visible: its position, a fixed span after its time, or the end of its session bucket.
  datatype Visibility = ByPosition | AfterSpan(span: int) | AtCompletion(cal: Calendar, tf: Timeframe)

  function Span(tf: Timeframe): int {
    match tf
    case FiveMinutes => 300_000
    case OneHour => 3_600_000
    case FourHours => 14_400_000
    case TwelveHours => 43_200_000
    case OneDay => 86_400_000
    case OneWeek => 604_800_000
  }

  function StampOf(v: Visibility, position: nat, row: Candle): Result<int, CalendarError> {
    match v
    case ByPosition => Success(position)
    case AfterSpan(span) => Success(row.ts + span)
    case AtCompletion(cal, tf) => cal.CompletedAt(row.ts, tf)
  }

  // A futures table derived from one-minute candles shows its bars by completion, a stored one by their span.
  function VisibilityFor(calendars: map<string, Calendar>, deriveAll: bool, key: TableKey): Visibility {
    if key.chart.OneMinute? then ByPosition
    else if key.symbol in calendars && (deriveAll || key.chart.tf in {OneHour, FourHours, OneDay})
    then AtCompletion(calendars[key.symbol], key.chart.tf)
    else AfterSpan(Span(key.chart.tf))
  }

  // The stamps of a table, or the first failure of the calendar.
  function Stamps(v: Visibility, rows: seq<Candle>): (r: Result<seq<int>, CalendarError>)
    ensures r.Success? ==> |r.value| == |rows|
  {
    if rows == [] then Success([])
    else
      var init :- Stamps(v, rows[..|rows| - 1]);
      var last :- StampOf(v, |rows| - 1, rows[|rows| - 1]);
      Success(init + [last])
  }

  function StampsOfContract(rows: seq<Candle>, stamps: seq<int>, conid: nat): (s: seq<int>)
    requires |rows| == |stamps|
    ensures |s| == |OfContract(rows, conid)|
  {
    if rows == [] then []
    else
      var n := |rows| - 1;
      var init := StampsOfContract(rows[..n], stamps[..n], conid);
      if rows[n].conid == conid then init + [stamps[n]] else init
  }

  datatype LookupIndex = LookupIndex(all: Series, byConid: map<nat, Series>)

  function SeriesOf(byConid: map<nat, Series>, conid: nat): Series {
    if conid in byConid then byConid[conid] else Series([], [])
  }

  ghost predicate Indexes(index: LookupIndex, rows: seq<Candle>, stamps: seq<int>)
    requires |rows| == |stamps|
  {
    && index.all == Series(rows, stamps)
    && (forall conid :: SeriesOf(index.byConid, conid)
                     == Series(OfContract(rows, conid), StampsOfContract(rows, stamps, conid)))
  }

  method BuildIndex(v: Visibility, rows: seq<Candle>) returns (r: Result<LookupIndex, CalendarError>)
    ensures r.Success? == Stamps(v, rows).Success?
    ensures r.Success? ==> Indexes(r.value, rows, Stamps(v, rows).value)
    ensures r.Failure? ==> r.error == Stamps(v, rows).error
  {
    var all, byConid: map<nat, Series> := Series([], []), map[];
    var n := 0;
    while n < |rows|
      invariant 0 <= n <= |rows|
      invariant Stamps(v, rows[..n]).Success?
      invariant Indexes(LookupIndex(all, byConid), rows[..n], Stamps(v, rows[..n]).value)
    {
      var row := rows[n];
      assert rows[..n + 1][..n] == rows[..n];
      var stamp := StampOf(v, n, row);
      if stamp.Failure? {
        FirstFailureIsFinal(v, rows, n + 1);
        return Failure(stamp.error);
      }
      ghost var stamps := Stamps(v, rows[..n]).value;
      IndexGrows(LookupIndex(all, byConid), rows[..n], stamps, row, stamp.value);
      var contract := SeriesOf(byConid, row.conid);
      all := Series(all.rows + [row], all.visibleAt + [stamp.value]);
      byConid := byConid[row.conid := Series(contract.rows + [row], contract.visibleAt + [stamp.value])];
      assert rows[..n] + [row] == rows[..n + 1];
      n := n + 1;
    }
    assert rows[..n] == rows;
    r := Success(LookupIndex(all, byConid));
  }

  lemma IndexGrows(index: LookupIndex, rows: seq<Candle>, stamps: seq<int>, row: Candle, stamp: int)
    requires |rows| == |stamps| && Indexes(index, rows, stamps)
    ensures var contract := SeriesOf(index.byConid, row.conid);
      Indexes(
        LookupIndex(
          Series(index.all.rows + [row], index.all.visibleAt + [stamp]),
          index.byConid[row.conid := Series(contract.rows + [row], contract.visibleAt + [stamp])]),
        rows + [row], stamps + [stamp])
  {
    assert (rows + [row])[..|rows|] == rows && (stamps + [stamp])[..|stamps|] == stamps;
  }

  lemma {:induction false} FirstFailureIsFinal(v: Visibility, rows: seq<Candle>, n: nat)
    requires n <= |rows| && Stamps(v, rows[..n]).Failure?
    ensures Stamps(v, rows) == Stamps(v, rows[..n])
    decreases |rows|
  {
    if n < |rows| {
      assert rows[..|rows| - 1][..n] == rows[..n];
      FirstFailureIsFinal(v, rows[..|rows| - 1], n);
    } else {
      assert rows[..n] == rows;
    }
  }

  // ----- stamps of time-ordered rows never decrease

  lemma {:induction false} StampsAt(v: Visibility, rows: seq<Candle>, i: nat)
    requires Stamps(v, rows).Success? && i < |rows|
    ensures StampOf(v, i, rows[i]) == Success(Stamps(v, rows).value[i])
  {
    if i < |rows| - 1 {
      StampsAt(v, rows[..|rows| - 1], i);
    }
  }

  lemma StampsAreOrdered(v: Visibility, rows: seq<Candle>)
    requires v.AtCompletion? ==> v.cal.Valid()
    requires v.ByPosition? || TimeOrdered(rows)
    requires Stamps(v, rows).Success?
    ensures Ordered(Stamps(v, rows).value)
  {
    var stamps := Stamps(v, rows).value;
    forall i, j | 0 <= i < j < |stamps|
      ensures stamps[i] <= stamps[j]
    {
      StampsAt(v, rows, i);
      StampsAt(v, rows, j);
      if v.AtCompletion? {
        v.cal.CompletedAtIsMonotone(rows[i].ts, rows[j].ts, v.tf);
      }
    }
  }

  lemma {:induction false} ContractStampsAreOrdered(rows: seq<Candle>, stamps: seq<int>, conid: nat)
    requires |rows| == |stamps| && Ordered(stamps)
    ensures Ordered(StampsOfContract(rows, stamps, conid))
    ensures forall s :: s in StampsOfContract(rows, stamps, conid) ==> s in stamps
  {
    if rows != [] {
      var n := |rows| - 1;
      ContractStampsAreOrdered(rows[..n], stamps[..n], conid);
      var init := StampsOfContract(rows[..n], stamps[..n], conid);
      forall i | 0 <= i < |init|
        ensures init[i] <= stamps[n]
      {
        assert init[i] in init;
      }
    }
  }

  // ----- filtering by contract and by visibility commute

  lemma {:induction false} VisibleOfContract(rows: seq<Candle>, stamps: seq<int>, conid: nat, through: int)
    requires |rows| == |stamps|
    ensures Visible(OfContract(rows, conid), StampsOfContract(rows, stamps, conid), through)
         == OfContract(Visible(rows, stamps, through), conid)
  {
    if rows != [] {
      var n := |rows| - 1;
      VisibleOfContract(rows[..n], stamps[..n], conid, through);
      var contract, own := OfContract(rows[..n], conid), StampsOfContract(rows[..n], stamps[..n], conid);
      assert (contract + [rows[n]])[..|contract|] == contract;
      assert (own + [stamps[n]])[..|own|] == own;
      var seen := Visible(rows[..n], stamps[..n], through);
      assert (seen + [rows[n]])[..|seen|] == seen;
    }
  }

  // Positions up to `index` are the first `index + 1` rows.
  lemma VisibleByPosition(rows: seq<Candle>, index: nat)
    requires Stamps(ByPosition, rows).Success?
    ensures Visible(rows, Stamps(ByPosition, rows).value, index)
         == rows[..if index + 1 <= |rows| then index + 1 else |rows|]
  {
    forall i | 0 <= i < |rows|
      ensures Stamps(ByPosition, rows).value[i] == i
    {
      StampsAt(ByPosition, rows, i);
    }
    VisibleIsPrefix(rows, Stamps(ByPosition, rows).value, index, if index + 1 <= |rows| then index + 1 else |rows|);
  }

  lemma {:induction false} PositionsNeverFail(rows: seq<Candle>)
    ensures Stamps(ByPosition, rows).Success?
  {
    if rows != [] {
      PositionsNeverFail(rows[..|rows| - 1]);
    }
  }

  // ----- the simulator's view

  class History {
    const tables: map<TableKey, seq<Candle>>
    const calendars: map<string, Calendar>
    const deriveAll: bool
    var indexes: map<TableKey, LookupIndex>
    var currentIndexBySymbol: map<string, int>
    var currentCandle: Option<Candle>
    var currentTime: Option<int>

    constructor (tables: map<TableKey, seq<Candle>>, calendars: map<string, Calendar>, deriveAll: bool)
      ensures this.tables == tables && this.calendars == calendars && this.deriveAll == deriveAll
      ensures indexes == map[] && currentIndexBySymbol == map[] && currentCandle == None && currentTime == None
    {
      this.tables, this.calendars, this.deriveAll := tables, calendars, deriveAll;
      indexes, currentIndexBySymbol, currentCandle, currentTime := map[], map[], None, None;
    }

    function VisibilityOf(key: TableKey): Visibility {
      VisibilityFor(calendars, deriveAll, key)
    }

    function Table(key: TableKey): seq<Candle> {
      if key in tables then tables[key] else []
    }

    // Every table is indexed under its stamps.
    ghost predicate Built()
      reads this
    {
      indexes.Keys == tables.Keys
      && forall key :: key in tables ==>
           && Stamps(VisibilityOf(key), tables[key]).Success?
           && Indexes(indexes[key], tables[key], Stamps(VisibilityOf(key), tables[key]).value)
    }

    method BuildCandleLookupIndexes() returns (failure: Option<CalendarError>)
      modifies this`indexes
      ensures failure.None? ==> Built()
      ensures failure.None? <==> forall key :: key in tables ==> Stamps(VisibilityOf(key), tables[key]).Success?
    {
      indexes := map[];
      var todo := tables.Keys;
      while todo != {}
        invariant todo <= tables.Keys && indexes.Keys == tables.Keys - todo
        invariant forall key :: key in indexes ==>
          && Stamps(VisibilityOf(key), tables[key]).Success?
          && Indexes(indexes[key], tables[key], Stamps(VisibilityOf(key), tables[key]).value)
        decreases todo
      {
        var key :| key in todo;
        var index := BuildIndex(VisibilityOf(key), tables[key]);
        if index.Failure? {
          return Some(index.error);
        }
        indexes := indexes[key := index.value];
        todo := todo - {key};
      }
      failure := None;
    }

    // The contract whose candles a one-minute query returns; none when the position is past the table.
    function CurrentContract(symbol: string, index: int): Option<nat>
      reads this
    {
      if currentCandle.Some? && currentCandle.value.symbol == symbol then Some(currentCandle.value.conid)
      else
        var rows := Table(TableKey(OneMinute, symbol));
        if 0 <= index < |rows| then Some(rows[index].conid) else None
    }

    // The test oracle of the source: filter the whole table, then slice.
    function GetRecentCandlesReference(symbol: string, chart: Chart, limit: int): seq<Candle>
      reads this
      requires Built()
    {
      var key := TableKey(chart, symbol);
      var rows := Table(key);
      if chart.OneMinute? then
        var index := if symbol in currentIndexBySymbol then currentIndexBySymbol[symbol] else -1;
        if index < 0 then []
        else
          var contract := CurrentContract(symbol, index);
          var past := if index + 1 <= |rows| then rows[..index + 1] else rows;
          if contract.None? then [] else Tail(OfContract(past, contract.value), limit)
      else
        var now := if currentTime.Some? then currentTime.value else 0;
        var complete := if key in tables then Visible(rows, Stamps(VisibilityOf(key), rows).value, now) else [];
        if currentCandle.Some? && currentCandle.value.symbol == symbol
        then Tail(OfContract(complete, currentCandle.value.conid), limit)
        else Tail(complete, limit)
    }

    method LookUp(index: LookupIndex, contract: Option<nat>, through: int, limit: int,
                  ghost rows: seq<Candle>, ghost stamps: seq<int>) returns (r: seq<Candle>)
      requires |rows| == |stamps| && Indexes(index, rows, stamps) && Ordered(stamps)
      ensures contract.None? ==> r == Tail(Visible(rows, stamps, through), limit)
      ensures contract.Some? ==> r == Tail(OfContract(Visible(rows, stamps, through), contract.value), limit)
    {
      var series := index.all;
      if contract.Some? {
        series := SeriesOf(index.byConid, contract.value);
        ContractStampsAreOrdered(rows, stamps, contract.value);
        VisibleOfContract(rows, stamps, contract.value, through);
      }
      IndexedEqualsFiltered(series.rows, series.visibleAt, through, limit);
      r := IndexedTail(Some(series), through, limit);
    }

    // The indexed lookup gives the oracle's answer for every symbol, chart and limit at every simulator position.
    method GetRecentCandles(symbol: string, chart: Chart, limit: int) returns (r: seq<Candle>)
      requires Built()
      requires forall s :: s in calendars ==> calendars[s].Valid()
      requires forall key :: key in tables && key.chart.Higher? ==> TimeOrdered(tables[key])
      ensures r == GetRecentCandlesReference(symbol, chart, limit)
    {
      var key := TableKey(chart, symbol);
      if key !in tables {
        return [];
      }
      ghost var rows, stamps := tables[key], Stamps(VisibilityOf(key), tables[key]).value;
      StampsAreOrdered(VisibilityOf(key), rows);
      var contract: Option<nat>;
      var through: int;
      if chart.OneMinute? {
        through := if symbol in currentIndexBySymbol then currentIndexBySymbol[symbol] else -1;
        if through < 0 {
          return [];
        }
        contract := CurrentContract(symbol, through);
        VisibleByPosition(rows, through);
        assert rows[..|rows|] == rows;
        if contract.None? {
          return [];
        }
      } else {
        through := if currentTime.Some? then currentTime.value else 0;
        contract := if currentCandle.Some? && currentCandle.value.symbol == symbol
                    then Some(currentCandle.value.conid) else None;
      }
      r := LookUp(indexes[key], contract, through, limit, rows, stamps);
    }
  }
}
