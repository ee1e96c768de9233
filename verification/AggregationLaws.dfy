/**
 * Laws of candle aggregation: `Aggregate` conserves volume, agrees with the running reading of it contract by
 * contract, and composes: aggregating five-minute bars gives the bars of the one-minute candles.
 */
module AggregationLaws {
  import opened SessionCalendar
  import opened Aggregation

  // ----- the running reading: only the last bar of a contract is still open

  function Extend(bar: Candle, c: Candle): Candle {
    bar.(high := Max(bar.high, c.high), low := Min(bar.low, c.low), close := c.close,
         volume := bar.volume + c.volume)
  }

  function Opened(place: Placing, c: Candle): Candle {
    c.(ts := place(c).start)
  }

  function Absorb(place: Placing, bars: seq<Candle>, c: Candle): seq<Candle> {
    if bars != [] && place(bars[|bars| - 1]).id == place(c).id
    then bars[..|bars| - 1] + [Extend(bars[|bars| - 1], c)]
    else bars + [Opened(place, c)]
  }

  function Running(place: Placing, rows: seq<Candle>): seq<Candle> {
    if rows == [] then [] else Absorb(place, Running(place, rows[..|rows| - 1]), rows[|rows| - 1])
  }

  function OfContract(rows: seq<Candle>, conid: nat): seq<Candle> {
    if rows == [] then []
    else
      var init, c := OfContract(rows[..|rows| - 1], conid), rows[|rows| - 1];
      if c.conid == conid then init + [c] else init
  }

  // ----- what the laws need of a placing

  // The place of a candle depends on its time only, and the start of its bucket has the same place.
  ghost predicate Anchored(place: Placing, rows: seq<Candle>) {
    && (forall a: Candle, b: Candle {:trigger place(a), place(b)} :: a.ts == b.ts ==> place(a) == place(b))
    && (forall c :: c in rows ==> place(Opened(place, c)) == place(c))
  }

  ghost predicate InOrder(place: Placing, rows: seq<Candle>) {
    forall i, j :: 0 <= i <= j < |rows| ==> place(rows[i]).id <= place(rows[j]).id
  }

  ghost predicate Uniform(rows: seq<Candle>, symbol: string) {
    forall c :: c in rows ==> c.symbol == symbol
  }

  // Every fine bucket lies inside one coarse bucket.
  ghost predicate Refines(fine: Placing, coarse: Placing, rows: seq<Candle>) {
    && (forall c :: c in rows ==> coarse(Opened(fine, c)) == coarse(c))
    && (forall a, b :: a in rows && b in rows && fine(a).id == fine(b).id ==> fine(a).start == fine(b).start)
  }

  // ----- composition of the running reading

  lemma {:induction false} RunningIsGrounded(place: Placing, rows: seq<Candle>)
    ensures forall b :: b in Running(place, rows) ==>
      exists c :: c in rows && b.ts == place(c).start && b.conid == c.conid
  {
    if rows != [] {
      var init, c := rows[..|rows| - 1], rows[|rows| - 1];
      RunningIsGrounded(place, init);
      var bars := Running(place, init);
      forall b | b in Running(place, rows)
        ensures exists d :: d in rows && b.ts == place(d).start && b.conid == d.conid
      {
        if bars != [] && b == Extend(bars[|bars| - 1], c) {
          assert bars[|bars| - 1] in bars;
        } else if b in bars {
        } else {
          assert c in rows;
        }
      }
    }
  }

  lemma AbsorbExtended(place: Placing, bars: seq<Candle>, x: Candle, c: Candle)
    requires Anchored(place, [x]) && place(x) == place(c)
    ensures Absorb(place, bars, Extend(x, c)) == Absorb(place, Absorb(place, bars, x), c)
  {
    assert x in [x];
    assert place(Extend(x, c)) == place(x);
    var once := Absorb(place, bars, x);
    if bars != [] && place(bars[|bars| - 1]).id == place(x).id {
      var l := bars[|bars| - 1];
      assert once[..|once| - 1] == bars[..|bars| - 1];
      assert place(Extend(l, x)) == place(l);
    } else {
      assert once[..|once| - 1] == bars;
    }
  }

  // Building coarse bars from fine bars gives the coarse bars of the candles themselves.
  lemma {:induction false} RunningComposes(fine: Placing, coarse: Placing, rows: seq<Candle>)
    requires Anchored(fine, rows) && Anchored(coarse, rows) && Refines(fine, coarse, rows)
    requires Anchored(coarse, Running(fine, rows))
    ensures Running(coarse, Running(fine, rows)) == Running(coarse, rows)
  {
    if rows != [] {
      var init, c := rows[..|rows| - 1], rows[|rows| - 1];
      assert rows == init + [c];
      FineBarsStayAnchored(fine, coarse, init, c);
      RunningComposes(fine, coarse, init);
      assert c in rows;
      AbsorbComposes(fine, coarse, init, c);
    }
  }

  lemma AbsorbComposes(fine: Placing, coarse: Placing, init: seq<Candle>, c: Candle)
    requires Anchored(fine, init + [c]) && Anchored(coarse, init + [c]) && Refines(fine, coarse, init + [c])
    requires Anchored(coarse, Running(fine, init))
    ensures var bars := Running(fine, init);
      Running(coarse, Absorb(fine, bars, c)) == Absorb(coarse, Running(coarse, bars), c)
  {
    var bars := Running(fine, init);
    assert c in init + [c];
    if bars != [] && fine(bars[|bars| - 1]).id == fine(c).id {
      var front, x := bars[..|bars| - 1], bars[|bars| - 1];
      LastFineBarSharesPlace(fine, coarse, init, c);
      assert x in bars;
      assert bars == front + [x];
      RunningSnoc(coarse, front, x);
      RunningSnoc(coarse, front, Extend(x, c));
      AbsorbExtended(coarse, Running(coarse, front), x, c);
    } else {
      RunningSnoc(coarse, bars, Opened(fine, c));
      AbsorbReopened(coarse, Running(coarse, bars), c, fine(c).start);
    }
  }

  lemma RunningSnoc(place: Placing, bars: seq<Candle>, b: Candle)
    ensures Running(place, bars + [b]) == Absorb(place, Running(place, bars), b)
  {
    assert (bars + [b])[..|bars|] == bars;
  }

  lemma AbsorbReopened(place: Placing, bars: seq<Candle>, c: Candle, start: int)
    requires place(c.(ts := start)) == place(c)
    ensures Absorb(place, bars, c.(ts := start)) == Absorb(place, bars, c)
  {
  }

  lemma FineBarsStayAnchored(fine: Placing, coarse: Placing, init: seq<Candle>, c: Candle)
    requires Anchored(coarse, init + [c]) && Anchored(coarse, Running(fine, init + [c]))
    ensures Anchored(coarse, init) && Anchored(coarse, Running(fine, init))
  {
    assert (init + [c])[..|init|] == init;
    var bars, all := Running(fine, init), Running(fine, init + [c]);
    forall b | b in bars
      ensures coarse(Opened(coarse, b)) == coarse(b)
    {
      var i :| 0 <= i < |bars| && bars[i] == b;
      assert all[i] in all;
      assert all[i].ts == b.ts;
      assert coarse(all[i]) == coarse(b);
      assert Opened(coarse, all[i]).ts == Opened(coarse, b).ts;
    }
  }

  lemma LastFineBarSharesPlace(fine: Placing, coarse: Placing, init: seq<Candle>, c: Candle)
    requires Anchored(fine, init + [c]) && Anchored(coarse, init + [c]) && Refines(fine, coarse, init + [c])
    requires var bars := Running(fine, init); bars != [] && fine(bars[|bars| - 1]).id == fine(c).id
    ensures var bars := Running(fine, init); coarse(bars[|bars| - 1]) == coarse(c)
  {
    var bars := Running(fine, init);
    var x := bars[|bars| - 1];
    RunningIsGrounded(fine, init);
    assert x in bars;
    var d :| d in init && x.ts == fine(d).start && x.conid == d.conid;
    assert d in init + [c] && c in init + [c];
    assert fine(x) == fine(Opened(fine, d));
    assert fine(d).id == fine(c).id;
    assert coarse(x) == coarse(Opened(fine, d));
    assert coarse(Opened(fine, c)) == coarse(Opened(fine, d));
  }

  // ----- the running reading is the bucket reading, contract by contract

  lemma SummarizeSnoc(start: int, rows: seq<Candle>, c: Candle)
    ensures rows == [] ==> Summarize(start, rows + [c]) == c.(ts := start)
    ensures rows != [] ==> Summarize(start, rows + [c]) == Extend(Summarize(start, rows), c)
  {
    assert (rows + [c])[..|rows|] == rows;
    if rows == [] {
      assert rows + [c] == [c] && [c][..0] == [];
      assert Volume([c]) == 0.0 + c.volume;
    } else {
      HighestSnoc(rows, c);
    }
  }

  lemma HighestSnoc(rows: seq<Candle>, c: Candle)
    requires rows != []
    ensures Highest(rows + [c]) == Max(Highest(rows), c.high)
    ensures Lowest(rows + [c]) == Min(Lowest(rows), c.low)
  {
    assert (rows + [c])[..|rows|] == rows;
  }

  // `bars` are exactly the bars of the contract's buckets, one each, in bucket order.
  ghost predicate Matches(place: Placing, rows: seq<Candle>, symbol: string, conid: nat, bars: seq<Candle>) {
    BarsMatch(place, rows, symbol, conid, bars) && Covers(place, rows, conid, bars)
  }

  ghost predicate BarsMatch(place: Placing, rows: seq<Candle>, symbol: string, conid: nat, bars: seq<Candle>) {
    && (forall i, j :: 0 <= i < j < |bars| ==> place(bars[i]).id < place(bars[j]).id)
    && (forall i :: 0 <= i < |bars| ==> IsBarOf(place, rows, BucketKey(symbol, conid, place(bars[i]).id), bars[i]))
  }

  ghost predicate Covers(place: Placing, rows: seq<Candle>, conid: nat, bars: seq<Candle>) {
    forall k: BucketKey :: k.conid == conid && Rows(place, rows, k) != [] ==> HasId(place, bars, k.id)
  }

  ghost predicate IsBarOf(place: Placing, rows: seq<Candle>, key: BucketKey, bar: Candle) {
    Rows(place, rows, key) != [] && bar == Bar(place, rows, key)
  }

  ghost predicate HasId(place: Placing, bars: seq<Candle>, id: int) {
    exists i :: 0 <= i < |bars| && place(bars[i]).id == id
  }

  lemma {:induction false} RunningMatches(place: Placing, rows: seq<Candle>, symbol: string, conid: nat)
    requires Anchored(place, rows) && InOrder(place, rows) && Uniform(rows, symbol)
    ensures Matches(place, rows, symbol, conid, Running(place, OfContract(rows, conid)))
  {
    if rows != [] {
      var init, c := rows[..|rows| - 1], rows[|rows| - 1];
      assert rows == init + [c];
      assert c in rows;
      RunningMatches(place, init, symbol, conid);
      var bars := Running(place, OfContract(init, conid));
      if c.conid == conid {
        RunningSnoc(place, OfContract(init, conid), c);
        MatchAbsorb(place, init, symbol, c, bars);
      } else {
        OtherRowsUnchanged(place, init, c);
        MatchIgnores(place, init, symbol, conid, c, bars);
      }
    }
  }

  lemma OtherRowsUnchanged(place: Placing, init: seq<Candle>, c: Candle)
    ensures forall k :: k != KeyOf(place, c) ==> Rows(place, init + [c], k) == Rows(place, init, k)
    ensures Rows(place, init + [c], KeyOf(place, c)) == Rows(place, init, KeyOf(place, c)) + [c]
  {
    assert (init + [c])[..|init|] == init;
  }

  lemma MatchIgnores(place: Placing, init: seq<Candle>, symbol: string, conid: nat, c: Candle, bars: seq<Candle>)
    requires c.conid != conid && Matches(place, init, symbol, conid, bars)
    ensures Matches(place, init + [c], symbol, conid, bars)
  {
    OtherRowsUnchanged(place, init, c);
    forall i | 0 <= i < |bars|
      ensures IsBarOf(place, init + [c], BucketKey(symbol, conid, place(bars[i]).id), bars[i])
    {
      assert IsBarOf(place, init, BucketKey(symbol, conid, place(bars[i]).id), bars[i]);
    }
  }

  // A new candle comes no earlier than any bar so far, so only the last bar can be its own.
  lemma BarsPrecede(place: Placing, init: seq<Candle>, symbol: string, c: Candle, bars: seq<Candle>)
    requires InOrder(place, init + [c]) && Matches(place, init, symbol, c.conid, bars)
    ensures forall i :: 0 <= i < |bars| ==> place(bars[i]).id <= place(c).id
  {
    forall i | 0 <= i < |bars|
      ensures place(bars[i]).id <= place(c).id
    {
      var key := BucketKey(symbol, c.conid, place(bars[i]).id);
      assert IsBarOf(place, init, key, bars[i]);
      RowsBelong(place, init, key);
      var r := Rows(place, init, key)[0];
      assert r in Rows(place, init, key);
      var n :| 0 <= n < |init| && init[n] == r;
      assert (init + [c])[n] == r && (init + [c])[|init|] == c;
    }
  }

  lemma MatchAbsorb(place: Placing, init: seq<Candle>, symbol: string, c: Candle, bars: seq<Candle>)
    requires Anchored(place, init + [c]) && InOrder(place, init + [c]) && c.symbol == symbol
    requires Matches(place, init, symbol, c.conid, bars)
    ensures Matches(place, init + [c], symbol, c.conid, Absorb(place, bars, c))
  {
    BarsPrecede(place, init, symbol, c, bars);
    if bars != [] && place(bars[|bars| - 1]).id == place(c).id {
      MergeMatches(place, init, symbol, c, bars);
    } else {
      AppendMatches(place, init, symbol, c, bars);
    }
  }

  lemma MergeMatches(place: Placing, init: seq<Candle>, symbol: string, c: Candle, bars: seq<Candle>)
    requires Anchored(place, init + [c]) && c.symbol == symbol && bars != []
    requires Matches(place, init, symbol, c.conid, bars) && place(bars[|bars| - 1]).id == place(c).id
    ensures Matches(place, init + [c], symbol, c.conid, Absorb(place, bars, c))
  {
    LastBarOwnsKey(place, init, symbol, c, bars);
    MatchMerge(place, init, symbol, c, bars[..|bars| - 1], bars[|bars| - 1]);
    AbsorbCovers(place, init, symbol, c, bars, Absorb(place, bars, c));
  }

  lemma AppendMatches(place: Placing, init: seq<Candle>, symbol: string, c: Candle, bars: seq<Candle>)
    requires Anchored(place, init + [c]) && c.symbol == symbol
    requires Matches(place, init, symbol, c.conid, bars)
    requires bars == [] || place(bars[|bars| - 1]).id != place(c).id
    requires forall i :: 0 <= i < |bars| ==> place(bars[i]).id <= place(c).id
    ensures Matches(place, init + [c], symbol, c.conid, Absorb(place, bars, c))
  {
    assert forall i :: 0 <= i < |bars| ==> place(bars[i]).id < place(c).id;
    MatchAppend(place, init, symbol, c, bars);
    AbsorbCovers(place, init, symbol, c, bars, bars + [Opened(place, c)]);
  }

  lemma LastBarOwnsKey(place: Placing, init: seq<Candle>, symbol: string, c: Candle, bars: seq<Candle>)
    requires c.symbol == symbol && BarsMatch(place, init, symbol, c.conid, bars)
    requires bars != [] && place(bars[|bars| - 1]).id == place(c).id
    ensures BarsMatch(place, init, symbol, c.conid, bars[..|bars| - 1])
    ensures IsBarOf(place, init, KeyOf(place, c), bars[|bars| - 1])
  {
  }

  lemma AbsorbCovers(place: Placing, init: seq<Candle>, symbol: string, c: Candle,
                     bars: seq<Candle>, next: seq<Candle>)
    requires Matches(place, init, symbol, c.conid, bars)
    requires |bars| <= |next| && next != [] && place(next[|next| - 1]).id == place(c).id
    requires forall i :: 0 <= i < |bars| ==> place(next[i]).id == place(bars[i]).id
    ensures Covers(place, init + [c], c.conid, next)
  {
    OtherRowsUnchanged(place, init, c);
    forall k: BucketKey | k.conid == c.conid && Rows(place, init + [c], k) != []
      ensures HasId(place, next, k.id)
    {
      if k != KeyOf(place, c) {
        assert HasId(place, bars, k.id);
        var i :| 0 <= i < |bars| && place(bars[i]).id == k.id;
        assert place(next[i]).id == k.id;
      }
    }
  }

  lemma BarsMatchSnoc(place: Placing, rows: seq<Candle>, symbol: string, conid: nat,
                      front: seq<Candle>, last: Candle)
    requires BarsMatch(place, rows, symbol, conid, front)
    requires forall i :: 0 <= i < |front| ==> place(front[i]).id < place(last).id
    requires IsBarOf(place, rows, BucketKey(symbol, conid, place(last).id), last)
    ensures BarsMatch(place, rows, symbol, conid, front + [last])
  {
  }

  lemma MatchMerge(place: Placing, init: seq<Candle>, symbol: string, c: Candle, front: seq<Candle>, last: Candle)
    requires Anchored(place, init + [c]) && c.symbol == symbol && place(last).id == place(c).id
    requires BarsMatch(place, init, symbol, c.conid, front) && IsBarOf(place, init, KeyOf(place, c), last)
    requires forall i :: 0 <= i < |front| ==> place(front[i]).id < place(last).id
    ensures BarsMatch(place, init + [c], symbol, c.conid, front + [Extend(last, c)])
    ensures place(Extend(last, c)) == place(last)
  {
    OtherBarsUnchanged(place, init, symbol, c, front);
    BarGrows(place, init, symbol, c, last);
    assert place(Extend(last, c)) == place(last);
    BarsMatchSnoc(place, init + [c], symbol, c.conid, front, Extend(last, c));
  }

  lemma BarGrows(place: Placing, init: seq<Candle>, symbol: string, c: Candle, bar: Candle)
    requires c.symbol == symbol && IsBarOf(place, init, KeyOf(place, c), bar)
    ensures IsBarOf(place, init + [c], KeyOf(place, c), Extend(bar, c))
  {
    var group := Rows(place, init, KeyOf(place, c));
    OtherRowsUnchanged(place, init, c);
    SummarizeSnoc(place(group[0]).start, group, c);
  }

  lemma MatchAppend(place: Placing, init: seq<Candle>, symbol: string, c: Candle, bars: seq<Candle>)
    requires Anchored(place, init + [c]) && c.symbol == symbol
    requires Matches(place, init, symbol, c.conid, bars)
    requires forall i :: 0 <= i < |bars| ==> place(bars[i]).id < place(c).id
    ensures BarsMatch(place, init + [c], symbol, c.conid, bars + [Opened(place, c)])
    ensures place(Opened(place, c)) == place(c)
  {
    assert !HasId(place, bars, KeyOf(place, c).id);
    FirstOfItsBucket(place, init, symbol, c);
    OtherBarsUnchanged(place, init, symbol, c, bars);
    BarsMatchSnoc(place, init + [c], symbol, c.conid, bars, Opened(place, c));
  }

  lemma FirstOfItsBucket(place: Placing, init: seq<Candle>, symbol: string, c: Candle)
    requires Anchored(place, init + [c]) && c.symbol == symbol
    requires Rows(place, init, KeyOf(place, c)) == []
    ensures place(Opened(place, c)) == place(c)
    ensures IsBarOf(place, init + [c], KeyOf(place, c), Opened(place, c))
  {
    OtherRowsUnchanged(place, init, c);
    assert c in init + [c];
    SummarizeSnoc(place(c).start, [], c);
    assert [] + [c] == [c];
  }

  lemma OtherBarsUnchanged(place: Placing, init: seq<Candle>, symbol: string, c: Candle, bars: seq<Candle>)
    requires BarsMatch(place, init, symbol, c.conid, bars)
    requires forall i :: 0 <= i < |bars| ==> place(bars[i]).id != place(c).id
    ensures BarsMatch(place, init + [c], symbol, c.conid, bars)
  {
    OtherRowsUnchanged(place, init, c);
    forall i | 0 <= i < |bars|
      ensures IsBarOf(place, init + [c], BucketKey(symbol, c.conid, place(bars[i]).id), bars[i])
    {
      assert IsBarOf(place, init, BucketKey(symbol, c.conid, place(bars[i]).id), bars[i]);
    }
  }
}
