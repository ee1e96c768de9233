/**
 * The theorems about `Aggregate` on the candles of one symbol in time order, as the simulator and the dataset
 * projection call it: what the answer is, that it composes, and that it conserves volume.
 */
module AggregationTheorems {
  import opened Outcomes
  import opened SessionCalendar
  import opened Aggregation
  import opened AggregationLaws

  // ----- the sort

  lemma {:induction false} InsertMembers(c: Candle, s: seq<Candle>)
    ensures forall x :: x in Insert(c, s) <==> x == c || x in s
  {
    if s != [] && !Before(c, s[0]) {
      InsertMembers(c, s[1..]);
      assert s == [s[0]] + s[1..];
    }
  }

  lemma {:induction false} SortMembers(s: seq<Candle>)
    ensures forall x :: x in SortRows(s) <==> x in s
  {
    if s != [] {
      SortMembers(s[..|s| - 1]);
      InsertMembers(s[|s| - 1], SortRows(s[..|s| - 1]));
      assert s == s[..|s| - 1] + [s[|s| - 1]];
    }
  }

  ghost predicate Comparable(s: seq<Candle>) {
    forall i, j :: 0 <= i < j < |s| ==> Before(s[i], s[j]) || Before(s[j], s[i])
  }

  lemma {:induction false} InsertKeepsOrder(c: Candle, s: seq<Candle>)
    requires StrictlyOrdered(s) && forall x :: x in s ==> Before(x, c) || Before(c, x)
    ensures StrictlyOrdered(Insert(c, s))
  {
    if s != [] && !Before(c, s[0]) {
      InsertKeepsOrder(c, s[1..]);
      InsertMembers(c, s[1..]);
      var t := Insert(c, s[1..]);
      forall j | 0 <= j < |t|
        ensures Before(s[0], t[j])
      {
        assert t[j] in t;
      }
    }
  }

  lemma {:induction false} SortIsStrict(s: seq<Candle>)
    requires Comparable(s)
    ensures StrictlyOrdered(SortRows(s))
  {
    if s != [] {
      var init := s[..|s| - 1];
      SortIsStrict(init);
      SortMembers(init);
      InsertKeepsOrder(s[|s| - 1], SortRows(init));
    }
  }

  lemma NonEmptyHasMember(s: seq<Candle>)
    ensures s != [] ==> exists x :: x in s
  {
    if s != [] {
      assert s[0] in s;
    }
  }

  // Two strictly ordered sequences with the same elements are the same sequence.
  lemma {:induction false} StrictOrderIsUnique(a: seq<Candle>, b: seq<Candle>)
    requires StrictlyOrdered(a) && StrictlyOrdered(b)
    requires forall x :: x in a <==> x in b
    ensures a == b
  {
    if a == [] {
      NonEmptyHasMember(b);
    } else {
      assert a[0] in b;
      assert b[0] in a;
      assert a[0] == b[0];
      forall x
        ensures x in a[1..] <==> x in b[1..]
      {
        assert x in a[1..] <==> x in a && x != a[0];
        assert x in b[1..] <==> x in b && x != b[0];
      }
      StrictOrderIsUnique(a[1..], b[1..]);
    }
  }

  // ----- what survives `Withhold`

  predicate Kept(completes: Completing, weekly: bool, b: Candle) {
    weekly ==> completes(b.ts).Success?
  }

  lemma {:induction false} WithholdKeeps(completes: Completing, weekly: bool, bars: seq<Candle>)
    requires Withhold(completes, weekly, bars).Success?
    ensures forall b :: b in Withhold(completes, weekly, bars).value <==> b in bars && Kept(completes, weekly, b)
    ensures Comparable(bars) ==> Comparable(Withhold(completes, weekly, bars).value)
  {
    if bars != [] {
      var init := bars[..|bars| - 1];
      WithholdKeeps(completes, weekly, init);
      assert bars == init + [bars[|bars| - 1]];
      if Comparable(bars) {
        var kept, last := Withhold(completes, weekly, init).value, bars[|bars| - 1];
        forall i | 0 <= i < |kept|
          ensures Before(kept[i], last) || Before(last, kept[i])
        {
          assert kept[i] in init;
          var j :| 0 <= j < |init| && init[j] == kept[i];
          assert bars[j] == init[j];
        }
        assert Comparable(kept + [last]);
      }
    }
  }

  // ----- all bars of all contracts

  lemma {:induction false} BarsMembers(place: Placing, rows: seq<Candle>, keys: seq<BucketKey>)
    requires forall k :: k in keys ==> Rows(place, rows, k) != []
    ensures forall b :: b in Bars(place, rows, keys) <==> exists k :: k in keys && b == Bar(place, rows, k)
  {
    if keys != [] {
      var init, last := keys[..|keys| - 1], keys[|keys| - 1];
      BarsMembers(place, rows, init);
      assert keys == init + [last];
      assert last in keys;
    }
  }

  lemma BarIdentity(place: Placing, rows: seq<Candle>, symbol: string, key: BucketKey)
    requires Anchored(place, rows) && Uniform(rows, symbol) && Rows(place, rows, key) != []
    ensures var bar := Bar(place, rows, key);
      bar.symbol == symbol == key.symbol && bar.conid == key.conid && place(bar).id == key.id
  {
    RowsBelong(place, rows, key);
    var r := Rows(place, rows, key)[0];
    assert r in Rows(place, rows, key);
    assert place(Opened(place, r)) == place(r);
    assert place(Bar(place, rows, key)) == place(Opened(place, r));
  }

  lemma BarsAreRunning(place: Placing, rows: seq<Candle>, symbol: string)
    requires Anchored(place, rows) && InOrder(place, rows) && Uniform(rows, symbol)
    requires forall k :: k in Keys(place, rows) ==> Rows(place, rows, k) != []
    ensures forall b :: b in Bars(place, rows, Keys(place, rows)) <==>
      b in Running(place, OfContract(rows, b.conid))
  {
    var keys := Keys(place, rows);
    BarsMembers(place, rows, keys);
    KeysHaveRows(place, rows);
    forall b
      ensures b in Bars(place, rows, keys) <==> b in Running(place, OfContract(rows, b.conid))
    {
      var running := Running(place, OfContract(rows, b.conid));
      RunningMatches(place, rows, symbol, b.conid);
      if b in Bars(place, rows, keys) {
        var k :| k in keys && b == Bar(place, rows, k);
        BarIdentity(place, rows, symbol, k);
        assert HasId(place, running, k.id);
        var i :| 0 <= i < |running| && place(running[i]).id == k.id;
        assert IsBarOf(place, rows, BucketKey(symbol, b.conid, place(running[i]).id), running[i]);
      }
      if b in running {
        var i :| 0 <= i < |running| && running[i] == b;
        var k := BucketKey(symbol, b.conid, place(b).id);
        assert IsBarOf(place, rows, k, b);
        assert k in keys;
      }
    }
  }

  lemma BarsAreComparable(place: Placing, rows: seq<Candle>, symbol: string)
    requires Anchored(place, rows) && Uniform(rows, symbol)
    requires forall k :: k in Keys(place, rows) ==> Rows(place, rows, k) != []
    ensures Comparable(Bars(place, rows, Keys(place, rows)))
  {
    var keys := Keys(place, rows);
    var bars := Bars(place, rows, keys);
    KeysAreDistinct(place, rows);
    forall i, j | 0 <= i < j < |bars|
      ensures Before(bars[i], bars[j]) || Before(bars[j], bars[i])
    {
      BarsAt(place, rows, keys, i);
      BarsAt(place, rows, keys, j);
      assert keys[i] in keys && keys[j] in keys;
      BarIdentity(place, rows, symbol, keys[i]);
      BarIdentity(place, rows, symbol, keys[j]);
      assert bars[i].ts == bars[j].ts ==> place(bars[i]) == place(bars[j]);
    }
  }

  // The answer, without buckets: strictly ordered by time and contract, and for every contract the bars of its
  // running reading that are not withheld.
  ghost predicate IsAnswer(place: Placing, completes: Completing, weekly: bool, rows: seq<Candle>,
                           answer: seq<Candle>) {
    && StrictlyOrdered(answer)
    && (forall b :: b in answer <==> b in Running(place, OfContract(rows, b.conid)) && Kept(completes, weekly, b))
  }

  lemma AnswerIsUnique(place: Placing, completes: Completing, weekly: bool, rows: seq<Candle>,
                       a: seq<Candle>, b: seq<Candle>)
    requires IsAnswer(place, completes, weekly, rows, a) && IsAnswer(place, completes, weekly, rows, b)
    ensures a == b
  {
    forall x
      ensures x in a <==> x in b
    {
    }
    StrictOrderIsUnique(a, b);
  }

  // ----- the calendar's placing has what the laws need

  lemma {:induction false} TradableMembers(cal: Calendar, candles: seq<Candle>)
    ensures forall c :: c in Tradable(cal, candles) <==> c in candles && cal.InSession(c.ts)
    ensures TimeOrdered(candles) ==> TimeOrdered(Tradable(cal, candles))
  {
    if candles != [] {
      var init, c := candles[..|candles| - 1], candles[|candles| - 1];
      TradableMembers(cal, init);
      assert candles == init + [c];
      if TimeOrdered(candles) {
        assert forall x :: x in init ==> x.ts <= c.ts;
      }
    }
  }

  lemma PlaceFacts(cal: Calendar, tf: Timeframe, c: Candle)
    requires cal.Valid() && cal.InSession(c.ts)
    ensures var place := SessionPlacing(cal, tf);
      && place(Opened(place, c)) == place(c)
      && cal.InSession(place(c).start)
      && place(c).start <= c.ts
      && cal.CompletedAt(place(c).start, tf) == cal.CompletedAt(c.ts, tf)
      && (tf != OneWeek ==> place(c).id == place(c).start)
  {
    cal.BucketStartIsRepresentative(c.ts, tf);
  }

  lemma PlacesAreAnchored(cal: Calendar, tf: Timeframe, rows: seq<Candle>)
    requires cal.Valid() && forall c :: c in rows ==> cal.InSession(c.ts)
    ensures Anchored(SessionPlacing(cal, tf), rows)
  {
    forall c | c in rows
      ensures var place := SessionPlacing(cal, tf); place(Opened(place, c)) == place(c)
    {
      PlaceFacts(cal, tf, c);
    }
  }

  lemma PlaceIsMonotone(cal: Calendar, tf: Timeframe, a: Candle, b: Candle)
    requires cal.Valid() && cal.InSession(a.ts) && cal.InSession(b.ts) && a.ts <= b.ts
    ensures SessionPlacing(cal, tf)(a).id <= SessionPlacing(cal, tf)(b).id
  {
    if tf == OneWeek {
      cal.TradeDateIsMonotone(a.ts, b.ts);
    } else {
      cal.BucketStartIsMonotone(a.ts, b.ts, tf);
    }
  }

  lemma PlacesAreInOrder(cal: Calendar, tf: Timeframe, rows: seq<Candle>)
    requires cal.Valid() && TimeOrdered(rows) && forall c :: c in rows ==> cal.InSession(c.ts)
    ensures InOrder(SessionPlacing(cal, tf), rows)
  {
    var place := SessionPlacing(cal, tf);
    forall i, j | 0 <= i <= j < |rows|
      ensures place(rows[i]).id <= place(rows[j]).id
    {
      assert rows[i] in rows && rows[j] in rows;
      PlaceIsMonotone(cal, tf, rows[i], rows[j]);
    }
  }

  lemma FiveMinutesRefine(cal: Calendar, tf: Timeframe, rows: seq<Candle>)
    requires cal.Valid() && forall c :: c in rows ==> cal.InSession(c.ts)
    ensures Refines(SessionPlacing(cal, FiveMinutes), SessionPlacing(cal, tf), rows)
  {
    var fine, coarse := SessionPlacing(cal, FiveMinutes), SessionPlacing(cal, tf);
    forall c | c in rows
      ensures coarse(Opened(fine, c)) == coarse(c)
    {
      cal.FiveMinuteStartsRefine(c.ts, tf);
    }
  }

  // ----- the theorems

  // Whenever `Aggregate` succeeds on one symbol's candles in time order, it is the running reading.
  lemma AggregateIsRunning(cal: Calendar, candles: seq<Candle>, tf: Timeframe, symbol: string)
    requires cal.Valid() && TimeOrdered(candles) && Uniform(candles, symbol)
    requires Aggregate(cal, candles, tf).Success?
    ensures IsAnswer(SessionPlacing(cal, tf), Completion(cal, tf), tf == OneWeek, Tradable(cal, candles),
                     Aggregate(cal, candles, tf).value)
  {
    var place, rows := SessionPlacing(cal, tf), Tradable(cal, candles);
    TradableMembers(cal, candles);
    PlacesAreAnchored(cal, tf, rows);
    PlacesAreInOrder(cal, tf, rows);
    KeysHaveRows(place, rows);
    AnswerFromBars(place, Completion(cal, tf), tf == OneWeek, rows, symbol);
  }

  lemma AnswerFromBars(place: Placing, completes: Completing, weekly: bool, rows: seq<Candle>, symbol: string)
    requires Anchored(place, rows) && InOrder(place, rows) && Uniform(rows, symbol)
    requires forall k :: k in Keys(place, rows) ==> Rows(place, rows, k) != []
    requires Withhold(completes, weekly, Bars(place, rows, Keys(place, rows))).Success?
    ensures IsAnswer(place, completes, weekly, rows,
                     SortRows(Withhold(completes, weekly, Bars(place, rows, Keys(place, rows))).value))
  {
    var bars := Bars(place, rows, Keys(place, rows));
    BarsAreRunning(place, rows, symbol);
    BarsAreComparable(place, rows, symbol);
    WithholdKeeps(completes, weekly, bars);
    SortMembers(Withhold(completes, weekly, bars).value);
    SortIsStrict(Withhold(completes, weekly, bars).value);
  }

  // A covered candle list fails to aggregate in no other way.
  lemma {:induction false} CoveredNeverFails(cal: Calendar, candles: seq<Candle>, tf: Timeframe)
    requires cal.Valid() && FirstUncovered(cal, candles).None?
    ensures Aggregate(cal, candles, tf).Success?
  {
    var place, rows := SessionPlacing(cal, tf), Tradable(cal, candles);
    var keys := Keys(place, rows);
    KeysHaveRows(place, rows);
    TradableMembers(cal, candles);
    var bars := Bars(place, rows, keys);
    forall b | b in bars && tf == OneWeek && cal.CompletedAt(b.ts, tf).Failure?
      ensures cal.CompletedAt(b.ts, tf).error.NoCoverage?
    {
      BarsMembers(place, rows, keys);
      var k :| k in keys && b == Bar(place, rows, k);
      RowsBelong(place, rows, k);
      var r := Rows(place, rows, k)[0];
      assert r in Rows(place, rows, k);
      PlaceFacts(cal, tf, r);
      WeekFailsOnlyByCoverage(cal, b.ts);
    }
    WithholdSucceeds(Completion(cal, tf), tf == OneWeek, bars);
  }

  lemma WeekFailsOnlyByCoverage(cal: Calendar, t: int)
    requires cal.Valid() && cal.InSession(t) && cal.CompletedAt(t, OneWeek).Failure?
    ensures cal.CompletedAt(t, OneWeek).error.NoCoverage?
  {
    var day := cal.SessionFor(t).value.value.id;
    LastCloseFindsSession(cal, WeekMonday(day), 4, day);
  }

  lemma {:induction false} LastCloseFindsSession(cal: Calendar, monday: int, offset: nat, day: int)
    requires monday <= day <= monday + offset
    requires cal.SessionForTradeDate(day).Success? && cal.SessionForTradeDate(day).value.Some?
    requires cal.LastCloseOfWeek(monday, offset).Failure?
    ensures cal.LastCloseOfWeek(monday, offset).error.NoCoverage?
    decreases offset
  {
    if cal.SessionForTradeDate(monday + offset).Success? && day < monday + offset {
      LastCloseFindsSession(cal, monday, offset - 1, day);
    }
  }

  lemma {:induction false} WithholdSucceeds(completes: Completing, weekly: bool, bars: seq<Candle>)
    requires forall b :: b in bars && weekly && completes(b.ts).Failure? ==> completes(b.ts).error.NoCoverage?
    ensures Withhold(completes, weekly, bars).Success?
  {
    if bars != [] {
      WithholdSucceeds(completes, weekly, bars[..|bars| - 1]);
      assert bars[|bars| - 1] in bars;
    }
  }

  // Bars are themselves candles of the symbol, inside sessions, in time order.
  lemma AnswerIsWellPlaced(cal: Calendar, candles: seq<Candle>, tf: Timeframe, symbol: string)
    requires cal.Valid() && TimeOrdered(candles) && Uniform(candles, symbol)
    requires Aggregate(cal, candles, tf).Success?
    ensures var bars := Aggregate(cal, candles, tf).value;
      && TimeOrdered(bars) && Uniform(bars, symbol)
      && (forall b :: b in bars ==> cal.InSession(b.ts))
  {
    var place, rows, bars := SessionPlacing(cal, tf), Tradable(cal, candles), Aggregate(cal, candles, tf).value;
    AggregateIsRunning(cal, candles, tf, symbol);
    TradableMembers(cal, candles);
    PlacesAreAnchored(cal, tf, rows);
    PlacesAreInOrder(cal, tf, rows);
    forall b | b in bars
      ensures b.symbol == symbol && cal.InSession(b.ts)
    {
      RunningBarIsWellPlaced(cal, tf, rows, symbol, b);
    }
  }

  lemma RunningBarIsWellPlaced(cal: Calendar, tf: Timeframe, rows: seq<Candle>, symbol: string, b: Candle)
    requires cal.Valid() && Uniform(rows, symbol) && forall c :: c in rows ==> cal.InSession(c.ts)
    requires Anchored(SessionPlacing(cal, tf), rows) && InOrder(SessionPlacing(cal, tf), rows)
    requires b in Running(SessionPlacing(cal, tf), OfContract(rows, b.conid))
    ensures b.symbol == symbol && cal.InSession(b.ts)
    ensures exists c :: c in rows && c.conid == b.conid && b.ts == SessionPlacing(cal, tf)(c).start
  {
    var place, contract := SessionPlacing(cal, tf), OfContract(rows, b.conid);
    OfContractMembers(rows, b.conid);
    RunningIsGrounded(place, contract);
    var c :| c in contract && b.ts == place(c).start && b.conid == c.conid;
    PlaceFacts(cal, tf, c);
    RunningMatches(place, rows, symbol, b.conid);
    var running := Running(place, contract);
    var i :| 0 <= i < |running| && running[i] == b;
    var key := BucketKey(symbol, b.conid, place(b).id);
    assert IsBarOf(place, rows, key, running[i]);
    BarIdentity(place, rows, symbol, key);
  }

  lemma {:induction false} OfContractMembers(rows: seq<Candle>, conid: nat)
    ensures forall c :: c in OfContract(rows, conid) <==> c in rows && c.conid == conid
  {
    if rows != [] {
      OfContractMembers(rows[..|rows| - 1], conid);
      assert rows == rows[..|rows| - 1] + [rows[|rows| - 1]];
    }
  }

  lemma {:induction false} TradableIsAll(cal: Calendar, candles: seq<Candle>)
    requires forall c :: c in candles ==> cal.InSession(c.ts)
    ensures Tradable(cal, candles) == candles && FirstUncovered(cal, candles).None?
  {
    if candles != [] {
      assert candles[|candles| - 1] in candles;
      TradableIsAll(cal, candles[..|candles| - 1]);
    }
  }

  // Within one contract, a strictly ordered answer lists the running bars themselves.
  lemma ContractBarsAreRunning(place: Placing, completes: Completing, rows: seq<Candle>, symbol: string,
                               answer: seq<Candle>, conid: nat)
    requires Anchored(place, rows) && InOrder(place, rows) && Uniform(rows, symbol)
    requires forall b :: b in Running(place, OfContract(rows, conid)) ==> place(b).id == b.ts
    requires IsAnswer(place, completes, false, rows, answer)
    ensures OfContract(answer, conid) == Running(place, OfContract(rows, conid))
  {
    var running, mine := Running(place, OfContract(rows, conid)), OfContract(answer, conid);
    RunningMatches(place, rows, symbol, conid);
    OfContractMembers(answer, conid);
    OfContractKeepsOrder(answer, conid);
    forall i, j | 0 <= i < j < |running|
      ensures Before(running[i], running[j])
    {
      assert running[i] in running && running[j] in running;
    }
    forall b | b in running
      ensures b.conid == conid
    {
      RunningIsGrounded(place, OfContract(rows, conid));
      OfContractMembers(rows, conid);
    }
    StrictOrderIsUnique(mine, running);
  }

  lemma {:induction false} OfContractKeepsOrder(s: seq<Candle>, conid: nat)
    requires StrictlyOrdered(s)
    ensures StrictlyOrdered(OfContract(s, conid))
  {
    if s != [] {
      var init := s[..|s| - 1];
      OfContractKeepsOrder(init, conid);
      OfContractMembers(init, conid);
      var mine := OfContract(init, conid);
      forall i | 0 <= i < |mine|
        ensures Before(mine[i], s[|s| - 1])
      {
        assert mine[i] in init;
        var j :| 0 <= j < |init| && init[j] == mine[i];
        assert s[j] == init[j];
      }
    }
  }

  // Aggregating to five minutes and then to `tf` gives exactly the bars of aggregating to `tf` directly, sessions
  // cut short by an early close and withheld weeks included.
  lemma AggregationComposes(cal: Calendar, candles: seq<Candle>, tf: Timeframe, symbol: string)
    requires cal.Valid() && TimeOrdered(candles) && Uniform(candles, symbol)
    requires Aggregate(cal, candles, FiveMinutes).Success?
    ensures Aggregate(cal, Aggregate(cal, candles, FiveMinutes).value, tf) == Aggregate(cal, candles, tf)
  {
    var fine, coarse := SessionPlacing(cal, FiveMinutes), SessionPlacing(cal, tf);
    var rows, bars := Tradable(cal, candles), Aggregate(cal, candles, FiveMinutes).value;
    TradableMembers(cal, candles);
    AnswerIsWellPlaced(cal, candles, FiveMinutes, symbol);
    TradableIsAll(cal, bars);
    CoveredNeverFails(cal, candles, tf);
    CoveredNeverFails(cal, bars, tf);
    AggregateIsRunning(cal, candles, tf, symbol);
    AggregateIsRunning(cal, bars, tf, symbol);
    AggregateIsRunning(cal, candles, FiveMinutes, symbol);
    forall conid: nat
      ensures Running(coarse, OfContract(bars, conid)) == Running(coarse, OfContract(rows, conid))
    {
      ContractComposes(cal, candles, tf, symbol, conid);
    }
    AnswerIsUnique(coarse, Completion(cal, tf), tf == OneWeek, rows,
                   Aggregate(cal, bars, tf).value, Aggregate(cal, candles, tf).value);
  }

  lemma ContractComposes(cal: Calendar, candles: seq<Candle>, tf: Timeframe, symbol: string, conid: nat)
    requires cal.Valid() && TimeOrdered(candles) && Uniform(candles, symbol)
    requires Aggregate(cal, candles, FiveMinutes).Success?
    ensures Running(SessionPlacing(cal, tf), OfContract(Aggregate(cal, candles, FiveMinutes).value, conid))
         == Running(SessionPlacing(cal, tf), OfContract(Tradable(cal, candles), conid))
  {
    var fine, coarse := SessionPlacing(cal, FiveMinutes), SessionPlacing(cal, tf);
    var rows, bars := Tradable(cal, candles), Aggregate(cal, candles, FiveMinutes).value;
    var mine := OfContract(rows, conid);
    TradableMembers(cal, candles);
    OfContractMembers(rows, conid);
    PlacesAreAnchored(cal, FiveMinutes, rows);
    PlacesAreInOrder(cal, FiveMinutes, rows);
    AggregateIsRunning(cal, candles, FiveMinutes, symbol);
    FineBarsStartAtTheirId(cal, mine);
    ContractBarsAreRunning(fine, Completion(cal, FiveMinutes), rows, symbol, bars, conid);
    PlacesAreAnchored(cal, FiveMinutes, mine);
    PlacesAreAnchored(cal, tf, mine);
    PlacesAreAnchored(cal, tf, Running(fine, mine));
    FiveMinutesRefine(cal, tf, mine);
    RunningComposes(fine, coarse, mine);
  }

  lemma FineBarsStartAtTheirId(cal: Calendar, rows: seq<Candle>)
    requires cal.Valid() && forall c :: c in rows ==> cal.InSession(c.ts)
    ensures var fine := SessionPlacing(cal, FiveMinutes);
      forall b :: b in Running(fine, rows) ==> cal.InSession(b.ts) && fine(b).id == b.ts
  {
    var fine := SessionPlacing(cal, FiveMinutes);
    RunningIsGrounded(fine, rows);
    forall b | b in Running(fine, rows)
      ensures cal.InSession(b.ts) && fine(b).id == b.ts
    {
      var c :| c in rows && b.ts == fine(c).start && b.conid == c.conid;
      PlaceFacts(cal, FiveMinutes, c);
    }
  }

  // ----- conservation

  lemma {:induction false} VolumeSnoc(s: seq<Candle>, t: seq<Candle>)
    ensures Volume(s + t) == Volume(s) + Volume(t)
  {
    if t == [] {
      assert s + t == s;
    } else {
      assert (s + t)[..|s + t| - 1] == s + t[..|t| - 1];
      VolumeSnoc(s, t[..|t| - 1]);
    }
  }

  lemma {:induction false} InsertVolume(c: Candle, s: seq<Candle>)
    ensures Volume(Insert(c, s)) == Volume(s) + c.volume
  {
    assert Volume([c]) == Volume([]) + c.volume;
    if s == [] {
    } else if Before(c, s[0]) {
      VolumeSnoc([c], s);
    } else {
      InsertVolume(c, s[1..]);
      VolumeSnoc([s[0]], Insert(c, s[1..]));
      VolumeSnoc([s[0]], s[1..]);
      assert s == [s[0]] + s[1..];
    }
  }

  lemma {:induction false} SortVolume(s: seq<Candle>)
    ensures Volume(SortRows(s)) == Volume(s)
  {
    if s != [] {
      SortVolume(s[..|s| - 1]);
      InsertVolume(s[|s| - 1], SortRows(s[..|s| - 1]));
    }
  }

  // The volume of the buckets that count.
  function KeyVolume(place: Placing, rows: seq<Candle>, keys: seq<BucketKey>, counts: BucketKey -> bool): real {
    if keys == [] then 0.0
    else
      KeyVolume(place, rows, keys[..|keys| - 1], counts)
      + if counts(keys[|keys| - 1]) then Volume(Rows(place, rows, keys[|keys| - 1])) else 0.0
  }

  lemma {:induction false} WithholdVolume(
    place: Placing, rows: seq<Candle>, completes: Completing, weekly: bool, keys: seq<BucketKey>,
    counts: BucketKey -> bool)
    requires forall k :: k in keys ==>
               Rows(place, rows, k) != [] && (counts(k) <==> Kept(completes, weekly, Bar(place, rows, k)))
    requires Withhold(completes, weekly, Bars(place, rows, keys)).Success?
    ensures Volume(Withhold(completes, weekly, Bars(place, rows, keys)).value) == KeyVolume(place, rows, keys, counts)
  {
    if keys != [] {
      var init, last := keys[..|keys| - 1], keys[|keys| - 1];
      assert keys == init + [last] && last in keys;
      BarsGain(place, rows, init, last);
      BarCarriesVolume(place, rows, last);
      hide Rows, Bar, Volume, Kept, Bars, Withhold;
      var bar := Bar(place, rows, last);
      WithholdOne(completes, weekly, Bars(place, rows, init), bar);
      WithholdVolume(place, rows, completes, weekly, init, counts);
      VolumeGains(Withhold(completes, weekly, Bars(place, rows, init)).value, bar);
    } else {
      hide Rows, Kept;
    }
  }

  lemma BarsGain(place: Placing, rows: seq<Candle>, keys: seq<BucketKey>, key: BucketKey)
    requires forall k :: k in keys + [key] ==> Rows(place, rows, k) != []
    ensures Bars(place, rows, keys + [key]) == Bars(place, rows, keys) + [Bar(place, rows, key)]
  {
    assert (keys + [key])[..|keys|] == keys;
  }

  lemma WithholdOne(completes: Completing, weekly: bool, bars: seq<Candle>, b: Candle)
    requires Withhold(completes, weekly, bars + [b]).Success?
    ensures Withhold(completes, weekly, bars).Success?
    ensures Withhold(completes, weekly, bars + [b]).value
         == Withhold(completes, weekly, bars).value + if Kept(completes, weekly, b) then [b] else []
  {
    assert (bars + [b])[..|bars|] == bars;
  }

  lemma BarCarriesVolume(place: Placing, rows: seq<Candle>, key: BucketKey)
    requires Rows(place, rows, key) != []
    ensures Bar(place, rows, key).volume == Volume(Rows(place, rows, key))
  {
  }

  lemma VolumeGains(s: seq<Candle>, c: Candle)
    ensures Volume(s + [c]) == Volume(s) + c.volume && Volume(s + []) == Volume(s)
  {
    assert (s + [c])[..|s|] == s && s + [] == s;
  }

  lemma {:induction false} KeyVolumeGains(
    place: Placing, init: seq<Candle>, c: Candle, keys: seq<BucketKey>, counts: BucketKey -> bool)
    requires Distinct(keys)
    ensures KeyVolume(place, init + [c], keys, counts)
         == KeyVolume(place, init, keys, counts)
            + (if KeyOf(place, c) in keys && counts(KeyOf(place, c)) then c.volume else 0.0)
  {
    if keys != [] {
      var front, last := keys[..|keys| - 1], keys[|keys| - 1];
      assert keys == front + [last];
      KeyVolumeGains(place, init, c, front, counts);
      OtherRowsUnchanged(place, init, c);
      VolumeSnoc(Rows(place, init, last), [c]);
      assert Volume([c]) == Volume([]) + c.volume;
    }
  }

  function Counting(place: Placing, rows: seq<Candle>, counts: BucketKey -> bool): seq<Candle> {
    if rows == [] then []
    else
      var init, c := Counting(place, rows[..|rows| - 1], counts), rows[|rows| - 1];
      if counts(KeyOf(place, c)) then init + [c] else init
  }

  lemma {:induction false} BucketsConserveVolume(place: Placing, rows: seq<Candle>, counts: BucketKey -> bool)
    ensures KeyVolume(place, rows, Keys(place, rows), counts) == Volume(Counting(place, rows, counts))
  {
    if rows != [] {
      var init, c := rows[..|rows| - 1], rows[|rows| - 1];
      assert rows == init + [c];
      BucketsConserveVolume(place, init, counts);
      KeyVolumeSnoc(place, init, c, counts);
      hide Keys, KeyVolume, Volume;
      VolumeGains(Counting(place, init, counts), c);
    }
  }

  lemma KeyVolumeSnoc(place: Placing, init: seq<Candle>, c: Candle, counts: BucketKey -> bool)
    ensures KeyVolume(place, init + [c], Keys(place, init + [c]), counts)
         == KeyVolume(place, init, Keys(place, init), counts) + if counts(KeyOf(place, c)) then c.volume else 0.0
  {
    assert (init + [c])[..|init|] == init;
    var before, key := Keys(place, init), KeyOf(place, c);
    KeysAreDistinct(place, init + [c]);
    KeyVolumeGains(place, init, c, Keys(place, init + [c]), counts);
    if key !in before {
      KeysHaveRows(place, init);
      assert (before + [key])[..|before|] == before;
    }
  }

  // The candles whose bucket's completion the calendar can tell.
  function Completable(cal: Calendar, rows: seq<Candle>, tf: Timeframe): seq<Candle> {
    if rows == [] then []
    else
      var init, c := Completable(cal, rows[..|rows| - 1], tf), rows[|rows| - 1];
      if cal.CompletedAt(c.ts, tf).Success? then init + [c] else init
  }

  lemma {:induction false} CompletableCount(
    cal: Calendar, rows: seq<Candle>, tf: Timeframe, counts: BucketKey -> bool)
    requires forall c :: c in rows ==>
               (counts(KeyOf(SessionPlacing(cal, tf), c)) <==> cal.CompletedAt(c.ts, tf).Success?)
    ensures Counting(SessionPlacing(cal, tf), rows, counts) == Completable(cal, rows, tf)
  {
    if rows != [] {
      var init, c := rows[..|rows| - 1], rows[|rows| - 1];
      assert rows == init + [c] && c in rows;
      CompletableCount(cal, init, tf, counts);
    }
  }

  // One bucket, one completion.
  lemma BucketCompletesTogether(cal: Calendar, tf: Timeframe, a: Candle, b: Candle)
    requires cal.Valid() && cal.InSession(a.ts) && cal.InSession(b.ts)
    requires SessionPlacing(cal, tf)(a).id == SessionPlacing(cal, tf)(b).id
    ensures cal.CompletedAt(a.ts, tf) == cal.CompletedAt(b.ts, tf)
  {
    if tf != OneWeek {
      PlaceFacts(cal, tf, a);
      PlaceFacts(cal, tf, b);
    }
  }

  // No volume is lost or counted twice, whatever the input order: the answer's is that of the tradable candles whose
  // bucket's completion the calendar covers.
  lemma AggregateConservesVolume(cal: Calendar, candles: seq<Candle>, tf: Timeframe)
    requires cal.Valid() && Aggregate(cal, candles, tf).Success?
    ensures Volume(Aggregate(cal, candles, tf).value) == Volume(Completable(cal, Tradable(cal, candles), tf))
    ensures tf != OneWeek ==> Completable(cal, Tradable(cal, candles), tf) == Tradable(cal, candles)
  {
    var place, rows := SessionPlacing(cal, tf), Tradable(cal, candles);
    var keys := Keys(place, rows);
    KeysHaveRows(place, rows);
    TradableMembers(cal, candles);
    var counts := (k: BucketKey) =>
        Rows(place, rows, k) != [] && cal.CompletedAt(Rows(place, rows, k)[0].ts, tf).Success?;
    forall k | k in keys
      ensures counts(k) <==> Kept(Completion(cal, tf), tf == OneWeek, Bar(place, rows, k))
    {
      RowsBelong(place, rows, k);
      assert Rows(place, rows, k)[0] in Rows(place, rows, k);
      PlaceFacts(cal, tf, Rows(place, rows, k)[0]);
    }
    forall c | c in rows
      ensures counts(KeyOf(place, c)) <==> cal.CompletedAt(c.ts, tf).Success?
    {
      var k := KeyOf(place, c);
      RowsBelong(place, rows, k);
      assert c in Rows(place, rows, k);
      assert Rows(place, rows, k)[0] in Rows(place, rows, k);
      BucketCompletesTogether(cal, tf, c, Rows(place, rows, k)[0]);
    }
    WithholdVolume(place, rows, Completion(cal, tf), tf == OneWeek, keys, counts);
    SortVolume(Withhold(Completion(cal, tf), tf == OneWeek, Bars(place, rows, keys)).value);
    BucketsConserveVolume(place, rows, counts);
    CompletableCount(cal, rows, tf, counts);
    if tf != OneWeek {
      AllCompletable(cal, rows, tf);
    }
  }

  lemma {:induction false} AllCompletable(cal: Calendar, rows: seq<Candle>, tf: Timeframe)
    requires tf != OneWeek && forall c :: c in rows ==> cal.InSession(c.ts)
    ensures Completable(cal, rows, tf) == rows
  {
    if rows != [] {
      assert rows[|rows| - 1] in rows;
      AllCompletable(cal, rows[..|rows| - 1], tf);
    }
  }

  // ----- the shape of a bar

  ghost predicate Summary(rows: seq<Candle>, bar: Candle) {
    && rows != []
    && bar.open == rows[0].open && bar.close == rows[|rows| - 1].close && bar.volume == Volume(rows)
    && (forall r :: r in rows ==> bar.low <= r.low && r.high <= bar.high)
    && (exists r :: r in rows && r.high == bar.high)
    && (exists r :: r in rows && r.low == bar.low)
  }

  lemma {:induction false} HighestIsMaximum(rows: seq<Candle>)
    requires rows != []
    ensures forall r :: r in rows ==> r.high <= Highest(rows)
    ensures exists r :: r in rows && r.high == Highest(rows)
  {
    if |rows| == 1 {
      assert rows[0] in rows;
    } else {
      var init, last := rows[..|rows| - 1], rows[|rows| - 1];
      HighestIsMaximum(init);
      assert rows == init + [last];
      assert last in rows;
    }
  }

  lemma {:induction false} LowestIsMinimum(rows: seq<Candle>)
    requires rows != []
    ensures forall r :: r in rows ==> Lowest(rows) <= r.low
    ensures exists r :: r in rows && r.low == Lowest(rows)
  {
    if |rows| == 1 {
      assert rows[0] in rows;
    } else {
      var init, last := rows[..|rows| - 1], rows[|rows| - 1];
      LowestIsMinimum(init);
      assert rows == init + [last];
      assert last in rows;
    }
  }

  // Every bar of the answer is first, maximum, minimum, last and total of the candles of its own bucket.
  lemma AnswerSummarizesBuckets(cal: Calendar, candles: seq<Candle>, tf: Timeframe, bar: Candle)
    returns (key: BucketKey)
    requires Aggregate(cal, candles, tf).Success? && bar in Aggregate(cal, candles, tf).value
    ensures var place, rows := SessionPlacing(cal, tf), Tradable(cal, candles);
      && IsBarOf(place, rows, key, bar)
      && Summary(Rows(place, rows, key), bar)
  {
    var place, rows := SessionPlacing(cal, tf), Tradable(cal, candles);
    var keys := Keys(place, rows);
    KeysHaveRows(place, rows);
    var bars := Bars(place, rows, keys);
    WithholdKeeps(Completion(cal, tf), tf == OneWeek, bars);
    SortMembers(Withhold(Completion(cal, tf), tf == OneWeek, bars).value);
    BarsMembers(place, rows, keys);
    key :| key in keys && bar == Bar(place, rows, key);
    HighestIsMaximum(Rows(place, rows, key));
    LowestIsMinimum(Rows(place, rows, key));
  }
}
