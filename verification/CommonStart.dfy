/**
 * Merged streams that start alike: candle tables that agree before an instant give the same events before it, in the
 * same order and with the same cursors.
 */
module CommonStart {
  import opened Aggregation
  import opened LookAhead
  import opened EventMerge

  // ----- tables that agree before an instant

  lemma {:induction false} EarlierIsPrefix(rows: seq<Candle>, cut: int)
    requires TimeOrdered(rows)
    ensures |Earlier(rows, cut)| <= |rows| && Earlier(rows, cut) == rows[..|Earlier(rows, cut)|]
    ensures forall k :: 0 <= k < |rows| ==> (rows[k].ts < cut <==> k < |Earlier(rows, cut)|)
  {
    if rows != [] {
      var n := |rows| - 1;
      var init := rows[..n];
      EarlierIsPrefix(init, cut);
      if rows[n].ts < cut {
        EarlierOfEarlyRows(rows, cut);
        hide Earlier;
      } else {
        assert Earlier(rows, cut) == Earlier(init, cut);
        hide Earlier;
        assert init[..|Earlier(init, cut)|] == rows[..|Earlier(init, cut)|];
      }
      assert forall k :: 0 <= k < n ==> rows[k] == init[k] && rows[k].ts <= rows[n].ts;
    }
  }

  lemma {:induction false} EarlierTwice(rows: seq<Candle>, cut: int, time: int)
    requires time <= cut
    ensures Earlier(Earlier(rows, cut), time) == Earlier(rows, time)
  {
    if rows != [] {
      var init, c := rows[..|rows| - 1], rows[|rows| - 1];
      EarlierTwice(init, cut, time);
      var before := Earlier(init, cut);
      assert (before + [c])[..|before|] == before;
    }
  }

  // Tables that agree before `cut` agree before any earlier instant.
  lemma AgreeEarlier(a: seq<Candle>, b: seq<Candle>, cut: int, time: int)
    requires Earlier(a, cut) == Earlier(b, cut) && time <= cut
    ensures Earlier(a, time) == Earlier(b, time)
  {
    EarlierTwice(a, cut, time);
    EarlierTwice(b, cut, time);
  }

  // A row before the cut stands at the same place in both tables, with the same rows before it.
  lemma SameRow(a: seq<Candle>, b: seq<Candle>, cut: int, k: nat)
    requires TimeOrdered(a) && TimeOrdered(b) && Earlier(a, cut) == Earlier(b, cut)
    requires k < |a| && a[k].ts < cut
    ensures k < |b| && b[k] == a[k] && b[..k + 1] == a[..k + 1]
  {
    EarlierIsPrefix(a, cut);
    EarlierIsPrefix(b, cut);
    var both := Earlier(a, cut);
    assert both[k] == a[k] && both[k] == b[k];
    assert both[..k + 1] == a[..k + 1] && both[..k + 1] == b[..k + 1];
  }

  // ----- events before an instant

  function EventsBefore(events: seq<Event>, cut: int): seq<Event> {
    if events == [] then []
    else
      var init, e := EventsBefore(events[..|events| - 1], cut), events[|events| - 1];
      if e.candle.ts < cut then init + [e] else init
  }

  lemma {:induction false} EventsBeforeArePrefix(events: seq<Event>, cut: int)
    requires EventOrdered(events)
    ensures var n := |EventsBefore(events, cut)|; n <= |events| && EventsBefore(events, cut) == events[..n]
    ensures forall i :: 0 <= i < |events| ==> (events[i].candle.ts < cut <==> i < |EventsBefore(events, cut)|)
  {
    if events != [] {
      var n := |events| - 1;
      EventsBeforeArePrefix(events[..n], cut);
      forall i | 0 <= i < n
        ensures events[i].candle.ts <= events[n].candle.ts
      {
        assert NotAfter(events[i], events[n]);
      }
    }
  }

  // Time, then symbol, then place in the table.
  predicate Ahead(a: Event, b: Event) {
    || a.candle.ts < b.candle.ts
    || (a.candle.ts == b.candle.ts && (a.symbol < b.symbol || (a.symbol == b.symbol && a.cursor < b.cursor)))
  }

  ghost predicate Strict(events: seq<Event>) {
    forall i, j :: 0 <= i < j < |events| ==> Ahead(events[i], events[j])
  }

  lemma {:induction false} CursorIsCount(events: seq<Event>, symbol: nat, i: nat)
    requires i < |events| && events[i].symbol == symbol
    requires CursorsOf(events, symbol) == UpTo(|CursorsOf(events, symbol)|)
    ensures events[i].cursor == |CursorsOf(events[..i], symbol)|
    decreases |events|
  {
    var n := |events| - 1;
    var all, init := CursorsOf(events, symbol), CursorsOf(events[..n], symbol);
    if i == n {
      assert all == init + [events[n].cursor];
      assert all[|init|] == |init|;
    } else {
      assert init == UpTo(|init|) by {
        assert all[..|init|] == init;
      }
      CursorIsCount(events[..n], symbol, i);
      assert events[..n][..i] == events[..i];
    }
  }

  lemma MergedIsStrict(arrays: seq<seq<Candle>>, events: seq<Event>)
    requires Faithful(arrays, events) && Complete(arrays, events) && EventOrdered(events)
    ensures Strict(events)
  {
    forall i, j | 0 <= i < j < |events|
      ensures Ahead(events[i], events[j])
    {
      assert NotAfter(events[i], events[j]);
      if events[i].symbol == events[j].symbol {
        var s := events[i].symbol;
        assert events[i] in events;
        assert CursorsOf(events, s) == UpTo(|arrays[s]|);
        CursorIsCount(events, s, i);
        CursorIsCount(events, s, j);
        CursorsGrow(events, s, i + 1, j);
        assert events[..i + 1][..i] == events[..i];
      }
    }
  }

  lemma NonEmptyHasEvent(s: seq<Event>)
    ensures s != [] ==> exists x :: x in s
  {
    if s != [] {
      assert s[0] in s;
    }
  }

  lemma {:induction false} StrictIsUnique(a: seq<Event>, b: seq<Event>)
    requires Strict(a) && Strict(b) && forall x :: x in a <==> x in b
    ensures a == b
  {
    if a == [] {
      NonEmptyHasEvent(b);
    } else {
      assert a[0] in b && b[0] in a;
      assert a[0] == b[0];
      forall x
        ensures x in a[1..] <==> x in b[1..]
      {
        assert x in a[1..] <==> x in a && x != a[0];
        assert x in b[1..] <==> x in b && x != b[0];
      }
      StrictIsUnique(a[1..], b[1..]);
    }
  }

  // Every row is an event of the merge.
  lemma RowIsEvent(arrays: seq<seq<Candle>>, events: seq<Event>, s: nat, k: nat)
    requires Faithful(arrays, events) && Complete(arrays, events) && s < |arrays| && k < |arrays[s]|
    ensures Event(s, k, arrays[s][k]) in events
  {
    assert CursorsOf(events, s) == UpTo(|arrays[s]|);
    var i := CursorPosition(events, s, k);
    assert events[i] in events;
    assert events[i] == Event(s, k, arrays[s][k]);
  }

  ghost predicate AgreeBefore(a: seq<seq<Candle>>, b: seq<seq<Candle>>, cut: int) {
    |a| == |b| && forall s :: 0 <= s < |a| ==> Earlier(a[s], cut) == Earlier(b[s], cut)
  }

  lemma EarlyEventIsShared(
    a: seq<seq<Candle>>, b: seq<seq<Candle>>, first: seq<Event>, second: seq<Event>, cut: int, e: Event)
    requires AllTimeOrdered(a) && AllTimeOrdered(b) && AgreeBefore(a, b, cut)
    requires Faithful(a, first) && Faithful(b, second) && Complete(b, second)
    requires e in first && e.candle.ts < cut
    ensures e in second
  {
    SameRow(a[e.symbol], b[e.symbol], cut, e.cursor);
    RowIsEvent(b, second, e.symbol, e.cursor);
  }

  // Merges of tables that agree before `cut` have the same events before it.
  lemma MergesStartAlike(
    a: seq<seq<Candle>>, b: seq<seq<Candle>>, first: seq<Event>, second: seq<Event>, cut: int)
    requires AgreeBefore(a, b, cut)
    requires Faithful(a, first) && Complete(a, first) && EventOrdered(first)
    requires Faithful(b, second) && Complete(b, second) && EventOrdered(second)
    ensures EventsBefore(first, cut) == EventsBefore(second, cut)
  {
    OrderedEventsComeFromOrderedInputs(a, first);
    OrderedEventsComeFromOrderedInputs(b, second);
    MergedIsStrict(a, first);
    MergedIsStrict(b, second);
    EventsBeforeArePrefix(first, cut);
    EventsBeforeArePrefix(second, cut);
    var x, y := EventsBefore(first, cut), EventsBefore(second, cut);
    hide Faithful, Complete, EventOrdered, EventsBefore, AllTimeOrdered, AgreeBefore;
    forall e
      ensures e in x <==> e in y
    {
      if e in x {
        SharedOneWay(a, b, first, second, cut, e);
      }
      if e in y {
        AgreeBothWays(a, b, cut);
        SharedOneWay(b, a, second, first, cut, e);
      }
    }
    StrictIsUnique(x, y);
  }

  lemma AgreeBothWays(a: seq<seq<Candle>>, b: seq<seq<Candle>>, cut: int)
    requires AgreeBefore(a, b, cut)
    ensures AgreeBefore(b, a, cut)
  {
  }

  lemma SharedOneWay(
    a: seq<seq<Candle>>, b: seq<seq<Candle>>, first: seq<Event>, second: seq<Event>, cut: int, e: Event)
    requires AllTimeOrdered(a) && AllTimeOrdered(b) && AgreeBefore(a, b, cut)
    requires Faithful(a, first) && Faithful(b, second) && Complete(b, second)
    requires EventOrdered(first) && EventOrdered(second) && e in EventsBefore(first, cut)
    ensures e in EventsBefore(second, cut)
  {
    EventsBeforeArePrefix(first, cut);
    EventsBeforeArePrefix(second, cut);
    var n := |EventsBefore(first, cut)|;
    var i :| 0 <= i < n && first[..n][i] == e;
    assert first[i] == e;
    EarlyEventIsShared(a, b, first, second, cut, e);
    var j :| 0 <= j < |second| && second[j] == e;
    assert second[..|EventsBefore(second, cut)|][j] == e;
  }
}
