/**
 * "Recent candles" of the backtest simulator: a binary-search index over visibility stamps, and the slow
 * filter-then-slice answer it has to reproduce at every simulator position and for every limit.
 */
module CandleLookup {
  import opened Outcomes
  import opened Aggregation

  // ----- JavaScript slicing

  // `rows.slice(start)`: a negative start counts from the end.
  function SliceFrom(rows: seq<Candle>, start: int): seq<Candle> {
    if start >= |rows| then []
    else if start >= 0 then rows[start..]
    else if |rows| + start <= 0 then rows
    else rows[|rows| + start..]
  }

  // `rows.slice(-limit)`: the last `limit` rows, or, for a limit of zero or less, the rows after the first `-limit`.
  function Tail(rows: seq<Candle>, limit: int): seq<Candle> {
    SliceFrom(rows, -limit)
  }

  // ----- the slow answer

  function Visible(rows: seq<Candle>, stamps: seq<int>, through: int): seq<Candle>
    requires |rows| == |stamps|
  {
    if rows == [] then []
    else
      var n := |rows| - 1;
      var init := Visible(rows[..n], stamps[..n], through);
      if stamps[n] <= through then init + [rows[n]] else init
  }

  // ----- the binary search

  function Search(values: seq<int>, target: int, low: nat, high: nat): (end: nat)
    requires low <= high <= |values|
    ensures low <= end <= high
    decreases high - low
  {
    if low == high then low
    else
      var middle := low + (high - low) / 2;
      if values[middle] <= target then Search(values, target, middle + 1, high)
      else Search(values, target, low, middle)
  }

  method UpperBound(values: seq<int>, target: int) returns (low: nat)
    ensures low <= |values| && low == Search(values, target, 0, |values|)
    ensures 0 < low ==> values[low - 1] <= target
    ensures low < |values| ==> target < values[low]
  {
    ghost var answer := Search(values, target, 0, |values|);
    low := 0;
    var high := |values|;
    while low < high
      invariant 0 <= low <= high <= |values|
      invariant answer == Search(values, target, low, high)
      invariant 0 < low ==> values[low - 1] <= target
      invariant high < |values| ==> target < values[high]
    {
      var middle := low + (high - low) / 2;
      SearchStep(values, target, low, high, middle);
      if values[middle] <= target {
        low := middle + 1;
      } else {
        high := middle;
      }
    }
  }

  lemma SearchStep(values: seq<int>, target: int, low: nat, high: nat, middle: nat)
    requires low < high <= |values| && middle == low + (high - low) / 2
    ensures low <= middle < high
    ensures Search(values, target, low, high)
         == if values[middle] <= target then Search(values, target, middle + 1, high)
            else Search(values, target, low, middle)
  {
  }

  ghost predicate Ordered(stamps: seq<int>) {
    forall i, j :: 0 <= i < j < |stamps| ==> stamps[i] <= stamps[j]
  }

  lemma {:induction false} SearchSplits(values: seq<int>, target: int, low: nat, high: nat)
    requires low <= high <= |values| && Ordered(values)
    requires forall i :: 0 <= i < low ==> values[i] <= target
    requires forall i :: high <= i < |values| ==> target < values[i]
    ensures var end := Search(values, target, low, high);
      && (forall i :: 0 <= i < end ==> values[i] <= target)
      && (forall i :: end <= i < |values| ==> target < values[i])
    decreases high - low
  {
    if low < high {
      var middle := low + (high - low) / 2;
      SearchStep(values, target, low, high, middle);
      if values[middle] <= target {
        SearchSplits(values, target, middle + 1, high);
      } else {
        SearchSplits(values, target, low, middle);
      }
    }
  }

  // ----- the fast answer

  datatype Series = Series(rows: seq<Candle>, visibleAt: seq<int>)

  function IndexedAnswer(rows: seq<Candle>, stamps: seq<int>, through: int, limit: int): seq<Candle>
    requires |rows| == |stamps|
  {
    var end := Search(stamps, through, 0, |stamps|);
    if limit <= 0 then SliceFrom(rows[..end], -limit)
    else rows[if end >= limit then end - limit else 0..end]
  }

  method IndexedTail(series: Option<Series>, visibleThrough: int, limit: int) returns (r: seq<Candle>)
    requires series.Some? ==> |series.value.rows| == |series.value.visibleAt|
    ensures series.None? ==> r == []
    ensures series.Some? ==> r == IndexedAnswer(series.value.rows, series.value.visibleAt, visibleThrough, limit)
  {
    if series.None? {
      return [];
    }
    var end := UpperBound(series.value.visibleAt, visibleThrough);
    if limit <= 0 {
      return SliceFrom(series.value.rows[..end], -limit);
    }
    r := series.value.rows[if end >= limit then end - limit else 0..end];
  }

  lemma {:induction false} VisibleIsPrefix(rows: seq<Candle>, stamps: seq<int>, through: int, end: nat)
    requires |rows| == |stamps| && end <= |rows|
    requires forall i :: 0 <= i < end ==> stamps[i] <= through
    requires forall i :: end <= i < |rows| ==> through < stamps[i]
    ensures Visible(rows, stamps, through) == rows[..end]
  {
    if rows != [] {
      var n := |rows| - 1;
      VisibleIsPrefix(rows[..n], stamps[..n], through, if end <= n then end else n);
      if end == n + 1 {
        assert rows[..end] == rows[..n] + [rows[n]];
      } else {
        assert rows[..n][..end] == rows[..end];
      }
    }
  }

  // With ordered stamps the binary search answers exactly as the filter does, for every instant and every limit.
  lemma IndexedEqualsFiltered(rows: seq<Candle>, stamps: seq<int>, through: int, limit: int)
    requires |rows| == |stamps| && Ordered(stamps)
    ensures IndexedAnswer(rows, stamps, through, limit) == Tail(Visible(rows, stamps, through), limit)
  {
    SearchSplits(stamps, through, 0, |stamps|);
    VisibleIsPrefix(rows, stamps, through, Search(stamps, through, 0, |stamps|));
  }

  ghost predicate LookupsAgree(rows: seq<Candle>, stamps: seq<int>)
    requires |rows| == |stamps|
  {
    forall through, limit ::
      IndexedAnswer(rows, stamps, through, limit) == Tail(Visible(rows, stamps, through), limit)
  }

  ghost predicate Stamped(rows: seq<Candle>, stamps: seq<int>, stamp: Candle -> int) {
    |rows| == |stamps| && forall i :: 0 <= i < |rows| ==> stamps[i] == stamp(rows[i])
  }

  // The two lookups agree at all instants and limits exactly when the stamps of the stored rows never decrease.
  lemma LookupsAgreeIffOrdered(rows: seq<Candle>, stamps: seq<int>, stamp: Candle -> int)
    requires Stamped(rows, stamps, stamp)
    ensures LookupsAgree(rows, stamps) <==> Ordered(stamps)
  {
    if Ordered(stamps) {
      forall through, limit
        ensures IndexedAnswer(rows, stamps, through, limit) == Tail(Visible(rows, stamps, through), limit)
      {
        IndexedEqualsFiltered(rows, stamps, through, limit);
      }
    } else {
      var i, j :| 0 <= i < j < |stamps| && stamps[j] < stamps[i];
      var through := stamps[j];
      var end := Search(stamps, through, 0, |stamps|);
      assert IndexedAnswer(rows, stamps, through, 0) == rows[..end];
      VisibleElements(rows, stamps, stamp, through);
      if rows[..end] == Visible(rows, stamps, through) {
        PrefixOfVisible(rows, stamps, stamp, through, end);
        CountVisible(rows, stamps, through, i, j, end);
      }
    }
  }

  lemma {:induction false} VisibleElements(rows: seq<Candle>, stamps: seq<int>, stamp: Candle -> int, through: int)
    requires Stamped(rows, stamps, stamp)
    ensures forall r :: r in Visible(rows, stamps, through) ==> stamp(r) <= through
  {
    if rows != [] {
      VisibleElements(rows[..|rows| - 1], stamps[..|rows| - 1], stamp, through);
    }
  }

  lemma PrefixOfVisible(rows: seq<Candle>, stamps: seq<int>, stamp: Candle -> int, through: int, end: nat)
    requires Stamped(rows, stamps, stamp) && end <= |rows|
    requires forall r :: r in Visible(rows, stamps, through) ==> stamp(r) <= through
    requires rows[..end] == Visible(rows, stamps, through)
    ensures forall k :: 0 <= k < end ==> stamps[k] <= through
  {
    forall k | 0 <= k < end
      ensures stamps[k] <= through
    {
      assert rows[..end][k] == rows[k];
      assert rows[k] in Visible(rows, stamps, through);
    }
  }

  function CountUpTo(stamps: seq<int>, through: int): nat {
    if stamps == [] then 0
    else CountUpTo(stamps[..|stamps| - 1], through) + if stamps[|stamps| - 1] <= through then 1 else 0
  }

  lemma {:induction false} VisibleLength(rows: seq<Candle>, stamps: seq<int>, through: int)
    requires |rows| == |stamps|
    ensures |Visible(rows, stamps, through)| == CountUpTo(stamps, through)
  {
    if rows != [] {
      VisibleLength(rows[..|rows| - 1], stamps[..|rows| - 1], through);
    }
  }

  // A stamp below the cut that follows one above it cannot be in an all-visible prefix of the right length.
  lemma CountVisible(rows: seq<Candle>, stamps: seq<int>, through: int, i: nat, j: nat, end: nat)
    requires |rows| == |stamps| && i < j < |stamps| && stamps[j] <= through < stamps[i]
    requires end <= |rows| && forall k :: 0 <= k < end ==> stamps[k] <= through
    ensures |Visible(rows, stamps, through)| != end
  {
    VisibleLength(rows, stamps, through);
    assert end <= i;
    PrefixCount(stamps, through, end, j);
  }

  lemma {:induction false} PrefixCount(stamps: seq<int>, through: int, end: nat, j: nat)
    requires end <= j < |stamps| && stamps[j] <= through
    requires forall k :: 0 <= k < end ==> stamps[k] <= through
    ensures CountUpTo(stamps, through) > end
    decreases |stamps|
  {
    var n := |stamps| - 1;
    if j < n {
      PrefixCount(stamps[..n], through, end, j);
    } else {
      AtLeastPrefix(stamps[..n], through, end);
    }
  }

  lemma {:induction false} AtLeastPrefix(stamps: seq<int>, through: int, end: nat)
    requires end <= |stamps| && forall k :: 0 <= k < end ==> stamps[k] <= through
    ensures CountUpTo(stamps, through) >= end
  {
    if stamps != [] {
      AtLeastPrefix(stamps[..|stamps| - 1], through, if end < |stamps| then end else end - 1);
    }
  }
}
