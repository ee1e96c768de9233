/** The event loop of the simulator: the candle tables of all symbols merged into one stream of events. */
module EventMerge {
  import opened Aggregation

  datatype Event = Event(symbol: nat, cursor: nat, candle: Candle)

  // The cursors of one symbol's events, in event order.
  function CursorsOf(events: seq<Event>, symbol: nat): seq<nat> {
    if events == [] then []
    else
      var init, e := CursorsOf(events[..|events| - 1], symbol), events[|events| - 1];
      if e.symbol == symbol then init + [e.cursor] else init
  }

  function UpTo(n: nat): seq<nat> {
    seq(n, i requires 0 <= i < n => i)
  }

  ghost predicate Faithful(arrays: seq<seq<Candle>>, events: seq<Event>) {
    forall e :: e in events ==>
      e.symbol < |arrays| && e.cursor < |arrays[e.symbol]| && e.candle == arrays[e.symbol][e.cursor]
  }

  // Every candle is one event, each symbol's candles in their own order.
  ghost predicate Complete(arrays: seq<seq<Candle>>, events: seq<Event>) {
    forall s :: 0 <= s < |arrays| ==> CursorsOf(events, s) == UpTo(|arrays[s]|)
  }

  ghost predicate AllTimeOrdered(arrays: seq<seq<Candle>>) {
    forall s :: 0 <= s < |arrays| ==> TimeOrdered(arrays[s])
  }

  predicate NotAfter(a: Event, b: Event) {
    a.candle.ts < b.candle.ts || (a.candle.ts == b.candle.ts && a.symbol <= b.symbol)
  }

  // Non-decreasing in time, ties in symbol order.
  ghost predicate EventOrdered(events: seq<Event>) {
    forall i, j :: 0 <= i < j < |events| ==> NotAfter(events[i], events[j])
  }

  function Remaining(arrays: seq<seq<Candle>>, next: seq<nat>, symbols: nat): nat
    requires symbols <= |arrays| == |next|
    requires forall s :: 0 <= s < |arrays| ==> next[s] <= |arrays[s]|
  {
    if symbols == 0 then 0
    else Remaining(arrays, next, symbols - 1) + |arrays[symbols - 1]| - next[symbols - 1]
  }

  lemma {:induction false} TakingOneLeavesLess(arrays: seq<seq<Candle>>, next: seq<nat>, symbols: nat, best: nat)
    requires symbols <= |arrays| == |next| && best < |arrays|
    requires forall s :: 0 <= s < |arrays| ==> next[s] <= |arrays[s]|
    requires next[best] < |arrays[best]|
    ensures Remaining(arrays, next[best := next[best] + 1], symbols)
         == Remaining(arrays, next, symbols) - (if best < symbols then 1 else 0)
  {
    if symbols > 0 {
      TakingOneLeavesLess(arrays, next, symbols - 1, best);
    }
  }

  // The earliest head, the first symbol winning ties; `None` of the source's -1 is `|arrays|` here.
  method PickEarliest(arrays: seq<seq<Candle>>, next: seq<nat>) returns (best: nat)
    requires |arrays| == |next| && forall s :: 0 <= s < |arrays| ==> next[s] <= |arrays[s]|
    ensures best == |arrays| ==> forall s :: 0 <= s < |arrays| ==> next[s] == |arrays[s]|
    ensures best != |arrays| ==>
      && best < |arrays| && next[best] < |arrays[best]|
      && forall s :: 0 <= s < |arrays| && next[s] < |arrays[s]| ==>
           NotAfter(Event(best, next[best], arrays[best][next[best]]), Event(s, next[s], arrays[s][next[s]]))
  {
    best := |arrays|;
    var i := 0;
    while i < |arrays|
      invariant 0 <= i <= |arrays|
      invariant best == |arrays| ==> forall s :: 0 <= s < i ==> next[s] == |arrays[s]|
      invariant best != |arrays| ==>
        && best < i && next[best] < |arrays[best]|
        && forall s :: 0 <= s < i && next[s] < |arrays[s]| ==>
             NotAfter(Event(best, next[best], arrays[best][next[best]]), Event(s, next[s], arrays[s][next[s]]))
    {
      if next[i] < |arrays[i]| && (best == |arrays| || arrays[i][next[i]].ts < arrays[best][next[best]].ts) {
        best := i;
      }
      i := i + 1;
    }
  }

  // Everything before `next` has been emitted, once and in order.
  ghost predicate Merged(arrays: seq<seq<Candle>>, next: seq<nat>, events: seq<Event>) {
    && |next| == |arrays|
    && (forall s :: 0 <= s < |arrays| ==> next[s] <= |arrays[s]|)
    && (forall s :: 0 <= s < |arrays| ==> CursorsOf(events, s) == UpTo(next[s]))
    && Faithful(arrays, events)
    && (AllTimeOrdered(arrays) ==> EventOrdered(events) && Precedes(arrays, next, events))
  }

  // `cursorBySymbol` holds the index of the last candle taken from each symbol.
  ghost predicate Tracks(next: seq<nat>, cursorBySymbol: map<nat, nat>) {
    forall s :: 0 <= s < |next| ==>
      if s in cursorBySymbol then next[s] == cursorBySymbol[s] + 1 else next[s] == 0
  }

  // The merge: a permutation of all candles that keeps each symbol's order, with every event carrying the index of
  // its candle; it is in time order, ties in symbol order, exactly when every input is in time order.
  method MergeEvents(arrays: seq<seq<Candle>>) returns (events: seq<Event>)
    ensures Faithful(arrays, events) && Complete(arrays, events)
    ensures AllTimeOrdered(arrays) <==> EventOrdered(events)
  {
    events := [];
    var next: seq<nat> := seq(|arrays|, _ => 0);
    var cursorBySymbol: map<nat, nat> := map[];
    NothingMerged(arrays, next);
    while true
      invariant Merged(arrays, next, events) && Tracks(next, cursorBySymbol)
      decreases Remaining(arrays, next, |arrays|)
    {
      var best := PickEarliest(arrays, next);
      if best == |arrays| {
        break;
      }
      var candle := arrays[best][next[best]];
      TakingOneLeavesLess(arrays, next, |arrays|, best);
      MergedStep(arrays, next, events, best);
      var index := if best in cursorBySymbol then cursorBySymbol[best] + 1 else 0;
      TracksStep(next, cursorBySymbol, best);
      next := next[best := next[best] + 1];
      cursorBySymbol := cursorBySymbol[best := index];
      events := events + [Event(best, index, candle)];
    }
    AllMerged(arrays, next, events);
  }

  lemma NothingMerged(arrays: seq<seq<Candle>>, next: seq<nat>)
    requires |next| == |arrays| && forall s :: 0 <= s < |arrays| ==> next[s] == 0
    ensures Merged(arrays, next, [])
  {
  }

  lemma AllMerged(arrays: seq<seq<Candle>>, next: seq<nat>, events: seq<Event>)
    requires Merged(arrays, next, events) && forall s :: 0 <= s < |arrays| ==> next[s] == |arrays[s]|
    ensures Faithful(arrays, events) && Complete(arrays, events)
    ensures AllTimeOrdered(arrays) <==> EventOrdered(events)
  {
    if EventOrdered(events) {
      OrderedEventsComeFromOrderedInputs(arrays, events);
    }
  }

  // The table of cursors agrees with the merge positions before and after an event.
  lemma TracksStep(next: seq<nat>, cursorBySymbol: map<nat, nat>, best: nat)
    requires Tracks(next, cursorBySymbol) && best < |next|
    ensures (if best in cursorBySymbol then cursorBySymbol[best] + 1 else 0) == next[best]
    ensures Tracks(next[best := next[best] + 1], cursorBySymbol[best := next[best]])
  {
  }

  lemma MergedStep(arrays: seq<seq<Candle>>, next: seq<nat>, events: seq<Event>, best: nat)
    requires Merged(arrays, next, events)
    requires best < |arrays| && next[best] < |arrays[best]|
    requires forall s :: 0 <= s < |arrays| && next[s] < |arrays[s]| ==>
      NotAfter(Event(best, next[best], arrays[best][next[best]]), Event(s, next[s], arrays[s][next[s]]))
    ensures Merged(arrays, next[best := next[best] + 1],
                   events + [Event(best, next[best], arrays[best][next[best]])])
  {
    var event := Event(best, next[best], arrays[best][next[best]]);
    var rest := next[best := next[best] + 1];
    assert (events + [event])[..|events|] == events;
    forall s | 0 <= s < |arrays|
      ensures CursorsOf(events + [event], s) == UpTo(rest[s])
    {
    }
    if AllTimeOrdered(arrays) {
      PrecedesStep(arrays, next, events, event);
    }
  }

  // The last event comes no later than anything still to be taken.
  ghost predicate Precedes(arrays: seq<seq<Candle>>, next: seq<nat>, events: seq<Event>)
    requires |next| == |arrays|
  {
    events != [] ==> forall s :: 0 <= s < |arrays| && next[s] < |arrays[s]| ==>
      NotAfter(events[|events| - 1], Event(s, next[s], arrays[s][next[s]]))
  }

  lemma PrecedesStep(arrays: seq<seq<Candle>>, next: seq<nat>, events: seq<Event>, event: Event)
    requires AllTimeOrdered(arrays) && |next| == |arrays| && EventOrdered(events) && Precedes(arrays, next, events)
    requires event.symbol < |arrays| && next[event.symbol] < |arrays[event.symbol]|
    requires event == Event(event.symbol, next[event.symbol], arrays[event.symbol][next[event.symbol]])
    requires forall s :: 0 <= s < |arrays| && next[s] < |arrays[s]| ==>
      NotAfter(event, Event(s, next[s], arrays[s][next[s]]))
    ensures EventOrdered(events + [event])
    ensures Precedes(arrays, next[event.symbol := next[event.symbol] + 1], events + [event])
  {
    var rest := next[event.symbol := next[event.symbol] + 1];
    forall s | 0 <= s < |arrays| && rest[s] < |arrays[s]|
      ensures NotAfter(event, Event(s, rest[s], arrays[s][rest[s]]))
    {
      if s == event.symbol {
        assert arrays[s][next[s]].ts <= arrays[s][next[s] + 1].ts;
      }
    }
    forall i | 0 <= i < |events|
      ensures NotAfter(events[i], event)
    {
      assert NotAfter(events[|events| - 1], event);
      if i < |events| - 1 {
        assert NotAfter(events[i], events[|events| - 1]);
      }
    }
  }

  // ----- the order of the events says exactly what the order of the inputs is

  lemma {:induction false} CursorPosition(events: seq<Event>, symbol: nat, k: nat) returns (i: nat)
    requires k < |CursorsOf(events, symbol)|
    ensures i < |events| && events[i].symbol == symbol && events[i].cursor == CursorsOf(events, symbol)[k]
    ensures |CursorsOf(events[..i], symbol)| == k
  {
    var n := |events| - 1;
    var init := CursorsOf(events[..n], symbol);
    if k < |init| {
      i := CursorPosition(events[..n], symbol, k);
      assert events[..n][..i] == events[..i];
    } else {
      i := n;
    }
  }

  lemma {:induction false} CursorsGrow(events: seq<Event>, symbol: nat, i: nat, j: nat)
    requires i <= j <= |events|
    ensures |CursorsOf(events[..i], symbol)| <= |CursorsOf(events[..j], symbol)|
    decreases j
  {
    if i < j {
      CursorsGrow(events, symbol, i, j - 1);
      assert events[..j][..j - 1] == events[..j - 1];
    }
  }

  // A complete event stream in time order can only come from inputs in time order.
  lemma OrderedEventsComeFromOrderedInputs(arrays: seq<seq<Candle>>, events: seq<Event>)
    requires Faithful(arrays, events) && Complete(arrays, events) && EventOrdered(events)
    ensures AllTimeOrdered(arrays)
  {
    forall s, a, b | 0 <= s < |arrays| && 0 <= a < b < |arrays[s]|
      ensures arrays[s][a].ts <= arrays[s][b].ts
    {
      var i := CursorPosition(events, s, a);
      var j := CursorPosition(events, s, b);
      if j <= i {
        CursorsGrow(events, s, j, i);
      }
      assert events[i] in events && events[j] in events;
      assert NotAfter(events[i], events[j]);
    }
  }
}
