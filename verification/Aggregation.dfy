/**
 * Aggregation of futures candles into session-aligned bars, per contract. `Aggregate` is the meaning of the
 * bucket-filling loop; `Running` is an independent reading of it that keeps only the bar still open.
 */
module Aggregation {
  import opened Outcomes
  import opened SessionCalendar

  datatype Candle = Candle(
    symbol: string, conid: nat, ts: int, open: real, high: real, low: real, close: real, volume: real)

  datatype BucketKey = BucketKey(symbol: string, conid: nat, id: int)

  // ----- what a bucket is

  // Where a candle goes: the identity of its bucket within its contract, and the instant the bucket starts.
  datatype Place = Place(id: int, start: int)

  type Placing = Candle -> Place

  function SessionPlacing(cal: Calendar, tf: Timeframe): Placing {
    (c: Candle) =>
      if !cal.InSession(c.ts) then Place(0, 0)
      else
        var start := cal.BucketStart(c.ts, tf).value;
        Place(if tf == OneWeek then WeekMonday(cal.SessionFor(c.ts).value.value.id) else start, start)
  }

  function KeyOf(place: Placing, c: Candle): BucketKey {
    BucketKey(c.symbol, c.conid, place(c).id)
  }

  // The candles of one bucket, in input order.
  function Rows(place: Placing, candles: seq<Candle>, key: BucketKey): seq<Candle> {
    if candles == [] then []
    else
      var init, c := candles[..|candles| - 1], candles[|candles| - 1];
      if KeyOf(place, c) == key then Rows(place, init, key) + [c] else Rows(place, init, key)
  }

  // The buckets in the order their first candle appears.
  function Keys(place: Placing, candles: seq<Candle>): seq<BucketKey> {
    if candles == [] then []
    else
      var keys, key := Keys(place, candles[..|candles| - 1]), KeyOf(place, candles[|candles| - 1]);
      if key in keys then keys else keys + [key]
  }

  // The candles inside some session; the rest are dropped.
  function Tradable(cal: Calendar, candles: seq<Candle>): seq<Candle> {
    if candles == [] then []
    else
      var init, c := candles[..|candles| - 1], candles[|candles| - 1];
      if cal.InSession(c.ts) then Tradable(cal, init) + [c] else Tradable(cal, init)
  }

  // ----- what a bar is

  function Max(a: real, b: real): real {
    if a < b then b else a
  }

  function Min(a: real, b: real): real {
    if b < a then b else a
  }

  function Highest(rows: seq<Candle>): real
    requires rows != []
  {
    if |rows| == 1 then rows[0].high else Max(Highest(rows[..|rows| - 1]), rows[|rows| - 1].high)
  }

  function Lowest(rows: seq<Candle>): real
    requires rows != []
  {
    if |rows| == 1 then rows[0].low else Min(Lowest(rows[..|rows| - 1]), rows[|rows| - 1].low)
  }

  function Volume(rows: seq<Candle>): real {
    if rows == [] then 0.0 else Volume(rows[..|rows| - 1]) + rows[|rows| - 1].volume
  }

  function Summarize(start: int, rows: seq<Candle>): Candle
    requires rows != []
  {
    Candle(rows[0].symbol, rows[0].conid, start, rows[0].open, Highest(rows), Lowest(rows),
           rows[|rows| - 1].close, Volume(rows))
  }

  // ----- the output order

  predicate Before(a: Candle, b: Candle) {
    a.ts < b.ts || (a.ts == b.ts && a.conid < b.conid)
  }

  predicate StrictlyOrdered(s: seq<Candle>) {
    forall i, j :: 0 <= i < j < |s| ==> Before(s[i], s[j])
  }

  predicate TimeOrdered(s: seq<Candle>) {
    forall i, j :: 0 <= i < j < |s| ==> s[i].ts <= s[j].ts
  }

  function Insert(c: Candle, s: seq<Candle>): seq<Candle> {
    if s == [] then [c]
    else if Before(c, s[0]) then [c] + s
    else [s[0]] + Insert(c, s[1..])
  }

  // A stable sort by time and then contract.
  function SortRows(s: seq<Candle>): seq<Candle> {
    if s == [] then [] else Insert(s[|s| - 1], SortRows(s[..|s| - 1]))
  }

  // ----- the whole computation

  function FirstUncovered(cal: Calendar, candles: seq<Candle>): Option<CalendarError> {
    if candles == [] then None
    else
      var init := FirstUncovered(cal, candles[..|candles| - 1]);
      var last := cal.SessionFor(candles[|candles| - 1].ts);
      if init.Some? then init else if last.Failure? then Some(last.error) else None
  }

  function Bar(place: Placing, candles: seq<Candle>, key: BucketKey): Candle
    requires Rows(place, candles, key) != []
  {
    var rows := Rows(place, candles, key);
    Summarize(place(rows[0]).start, rows)
  }

  function Bars(place: Placing, candles: seq<Candle>, keys: seq<BucketKey>): (bars: seq<Candle>)
    requires forall k :: k in keys ==> Rows(place, candles, k) != []
    ensures |bars| == |keys|
  {
    if keys == [] then []
    else Bars(place, candles, keys[..|keys| - 1]) + [Bar(place, candles, keys[|keys| - 1])]
  }

  type Completing = int -> Result<int, CalendarError>

  function Completion(cal: Calendar, tf: Timeframe): Completing {
    (t: int) => cal.CompletedAt(t, tf)
  }

  // A week whose completion is not covered by the calendar is withheld; any other failure is raised.
  function Withhold(completes: Completing, weekly: bool, bars: seq<Candle>): Result<seq<Candle>, CalendarError> {
    if bars == [] then Success([])
    else
      var init :- Withhold(completes, weekly, bars[..|bars| - 1]);
      var bar := bars[|bars| - 1];
      if weekly && completes(bar.ts).Failure? then
        if completes(bar.ts).error.NoCoverage? then Success(init) else Failure(completes(bar.ts).error)
      else Success(init + [bar])
  }

  function Aggregate(cal: Calendar, candles: seq<Candle>, tf: Timeframe): Result<seq<Candle>, CalendarError> {
    var uncovered := FirstUncovered(cal, candles);
    if uncovered.Some? then Failure(uncovered.value)
    else
      var place, rows := SessionPlacing(cal, tf), Tradable(cal, candles);
      KeysHaveRows(place, rows);
      var bars :- Withhold(Completion(cal, tf), tf == OneWeek, Bars(place, rows, Keys(place, rows)));
      Success(SortRows(bars))
  }

  // ----- the loops of the source

  datatype Bucket = Bucket(start: int, rows: seq<Candle>)

  ghost predicate Filled(
    place: Placing, rows: seq<Candle>, order: seq<BucketKey>, buckets: map<BucketKey, Bucket>)
  {
    && order == Keys(place, rows)
    && (forall k :: k in order <==> k in buckets)
    && (forall k :: k in buckets ==>
      buckets[k].rows != [] && buckets[k] == Bucket(place(buckets[k].rows[0]).start, Rows(place, rows, k)))
  }

  method AggregateCmeFuturesCandles(cal: Calendar, candles: seq<Candle>, tf: Timeframe)
    returns (r: Result<seq<Candle>, CalendarError>)
    ensures r == Aggregate(cal, candles, tf)
  {
    var place := SessionPlacing(cal, tf);
    var buckets: map<BucketKey, Bucket> := map[];
    var order: seq<BucketKey> := [];
    ghost var rows: seq<Candle> := [];
    var i := 0;
    while i < |candles|
      invariant 0 <= i <= |candles|
      invariant FirstUncovered(cal, candles[..i]).None?
      invariant rows == Tradable(cal, candles[..i])
      invariant Filled(place, rows, order, buckets)
    {
      var c := candles[i];
      assert candles[..i + 1][..i] == candles[..i];
      var found := cal.SessionFor(c.ts);
      if found.Failure? {
        UncoveredIsFinal(cal, candles[..i + 1], candles);
        return Failure(found.error);
      }
      if found.value.Some? {
        var key := KeyOf(place, c);
        FilledExtends(place, rows, order, buckets, c);
        if key in buckets {
          buckets := buckets[key := Bucket(buckets[key].start, buckets[key].rows + [c])];
        } else {
          buckets := buckets[key := Bucket(place(c).start, [c])];
          order := order + [key];
        }
        rows := rows + [c];
      }
      i := i + 1;
    }
    assert candles[..i] == candles;
    KeysHaveRows(place, rows);
    r := CompleteBuckets(Completion(cal, tf), tf == OneWeek, place, rows, order, buckets);
    if r.Success? {
      r := Success(SortRows(r.value));
    }
  }

  method CompleteBuckets(completes: Completing, weekly: bool, place: Placing, ghost rows: seq<Candle>,
                         order: seq<BucketKey>, buckets: map<BucketKey, Bucket>)
    returns (r: Result<seq<Candle>, CalendarError>)
    requires Filled(place, rows, order, buckets)
    requires forall k :: k in order ==> Rows(place, rows, k) != []
    ensures r == Withhold(completes, weekly, Bars(place, rows, order))
  {
    ghost var bars := Bars(place, rows, order);
    var completed: seq<Candle> := [];
    var n := 0;
    while n < |order|
      invariant 0 <= n <= |order|
      invariant Withhold(completes, weekly, bars[..n]) == Success(completed)
    {
      assert bars[..n + 1][..n] == bars[..n];
      BucketBar(place, rows, order, buckets, n);
      var bucket := buckets[order[n]];
      var bar := Summarize(bucket.start, bucket.rows);
      if weekly && completes(bucket.start).Failure? {
        if !completes(bucket.start).error.NoCoverage? {
          WithholdFailureIsFinal(completes, weekly, bars, n + 1);
          return Failure(completes(bucket.start).error);
        }
      } else {
        completed := completed + [bar];
      }
      n := n + 1;
    }
    assert bars[..n] == bars;
    r := Success(completed);
  }

  lemma BucketBar(place: Placing, rows: seq<Candle>, order: seq<BucketKey>,
                  buckets: map<BucketKey, Bucket>, n: nat)
    requires Filled(place, rows, order, buckets) && n < |order|
    requires forall k :: k in order ==> Rows(place, rows, k) != []
    ensures order[n] in buckets && buckets[order[n]].rows != []
    ensures Summarize(buckets[order[n]].start, buckets[order[n]].rows) == Bars(place, rows, order)[n]
  {
    BarsAt(place, rows, order, n);
    assert order[n] in order;
  }

  lemma FilledExtends(place: Placing, rows: seq<Candle>, order: seq<BucketKey>,
                      buckets: map<BucketKey, Bucket>, c: Candle)
    requires Filled(place, rows, order, buckets)
    ensures var key := KeyOf(place, c);
      if key in buckets then
        Filled(place, rows + [c], order,
               buckets[key := Bucket(buckets[key].start, buckets[key].rows + [c])])
      else
        Filled(place, rows + [c], order + [key], buckets[key := Bucket(place(c).start, [c])])
  {
    assert (rows + [c])[..|rows|] == rows;
    KeysHaveRows(place, rows);
  }

  lemma {:induction false} UncoveredIsFinal(cal: Calendar, prefix: seq<Candle>, candles: seq<Candle>)
    requires prefix <= candles && FirstUncovered(cal, prefix).Some?
    ensures FirstUncovered(cal, candles) == FirstUncovered(cal, prefix)
    decreases |candles|
  {
    if |prefix| < |candles| {
      UncoveredIsFinal(cal, prefix, candles[..|candles| - 1]);
    } else {
      assert prefix == candles;
    }
  }

  lemma {:induction false} WithholdFailureIsFinal(completes: Completing, weekly: bool, bars: seq<Candle>, n: nat)
    requires n <= |bars| && Withhold(completes, weekly, bars[..n]).Failure?
    ensures Withhold(completes, weekly, bars) == Withhold(completes, weekly, bars[..n])
    decreases |bars|
  {
    if n < |bars| {
      assert bars[..|bars| - 1][..n] == bars[..n];
      WithholdFailureIsFinal(completes, weekly, bars[..|bars| - 1], n);
    } else {
      assert bars[..n] == bars;
    }
  }

  lemma {:induction false} BarsAt(place: Placing, candles: seq<Candle>, keys: seq<BucketKey>, n: nat)
    requires n < |keys| && forall k :: k in keys ==> Rows(place, candles, k) != []
    ensures Bars(place, candles, keys)[n] == Bar(place, candles, keys[n])
    decreases |keys|
  {
    if n < |keys| - 1 {
      BarsAt(place, candles, keys[..|keys| - 1], n);
    }
  }

  // ----- buckets partition the candles

  lemma {:induction false} KeysHaveRows(place: Placing, candles: seq<Candle>)
    ensures forall k :: k in Keys(place, candles) <==> Rows(place, candles, k) != []
  {
    if candles != [] {
      KeysHaveRows(place, candles[..|candles| - 1]);
    }
  }

  lemma {:induction false} RowsBelong(place: Placing, candles: seq<Candle>, key: BucketKey)
    ensures forall r :: r in Rows(place, candles, key) <==> r in candles && KeyOf(place, r) == key
  {
    if candles != [] {
      var init, c := candles[..|candles| - 1], candles[|candles| - 1];
      RowsBelong(place, init, key);
      assert candles == init + [c];
    }
  }

  lemma {:induction false} KeysAreDistinct(place: Placing, candles: seq<Candle>)
    ensures Distinct(Keys(place, candles))
  {
    if candles != [] {
      KeysAreDistinct(place, candles[..|candles| - 1]);
    }
  }

  predicate Distinct<T(==)>(s: seq<T>) {
    forall i, j :: 0 <= i < j < |s| ==> s[i] != s[j]
  }

  function Pooled(place: Placing, candles: seq<Candle>, keys: seq<BucketKey>): multiset<Candle> {
    if keys == [] then multiset{}
    else Pooled(place, candles, keys[..|keys| - 1]) + multiset(Rows(place, candles, keys[|keys| - 1]))
  }

  // Every candle is in exactly one bucket, with its multiplicity.
  lemma {:induction false} BucketsPartitionCandles(place: Placing, candles: seq<Candle>)
    ensures Pooled(place, candles, Keys(place, candles)) == multiset(candles)
  {
    if candles != [] {
      var init, c := candles[..|candles| - 1], candles[|candles| - 1];
      assert candles == init + [c];
      BucketsPartitionCandles(place, init);
      PooledKeysSnoc(place, init, c);
    }
  }

  lemma PooledKeysSnoc(place: Placing, init: seq<Candle>, c: Candle)
    ensures Pooled(place, init + [c], Keys(place, init + [c]))
         == Pooled(place, init, Keys(place, init)) + multiset{c}
  {
    assert (init + [c])[..|init|] == init;
    var before, keys, key := Keys(place, init), Keys(place, init + [c]), KeyOf(place, c);
    KeysAreDistinct(place, init + [c]);
    PooledGainsOne(place, init, c, keys);
    if key !in before {
      KeysHaveRows(place, init);
      assert (before + [key])[..|before|] == before;
    }
  }

  lemma {:induction false} PooledUnchanged(place: Placing, init: seq<Candle>, c: Candle, keys: seq<BucketKey>)
    requires KeyOf(place, c) !in keys
    ensures Pooled(place, init + [c], keys) == Pooled(place, init, keys)
  {
    assert (init + [c])[..|init|] == init;
    if keys != [] {
      PooledUnchanged(place, init, c, keys[..|keys| - 1]);
    }
  }

  lemma {:induction false} PooledGainsOne(place: Placing, init: seq<Candle>, c: Candle, keys: seq<BucketKey>)
    requires KeyOf(place, c) in keys && Distinct(keys)
    ensures Pooled(place, init + [c], keys) == Pooled(place, init, keys) + multiset{c}
  {
    assert (init + [c])[..|init|] == init;
    var front := keys[..|keys| - 1];
    if keys[|keys| - 1] == KeyOf(place, c) {
      PooledUnchanged(place, init, c, front);
    } else {
      PooledGainsOne(place, init, c, front);
    }
  }
}
