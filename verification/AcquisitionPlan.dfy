/**
 * Planning historical requests: the fetch window of each contract cut into chunks of at most five days, newest first,
 * and the closed-form number of requests an approved specification carries.
 */
module AcquisitionPlan {
  const MINUTE: int := 60_000
  const DAY: int := 86_400_000
  const CHUNK: int := 432_000_000

  datatype Window = Window(fetchFrom: int, fetchTo: int)

  datatype Chunk = Chunk(index: nat, start: int, end: int, durationDays: int)

  function CeilDiv(a: int, b: int): int
    requires b > 0
  {
    -((-a) / b)
  }

  predicate Covers(c: Chunk, t: int) {
    c.start <= t <= c.end
  }

  // The request for a chunk asks for the least whole number of days that reaches back over it, at most five.
  predicate Fits(c: Chunk) {
    && c.start <= c.end && 1 <= c.durationDays <= 5
    && (c.durationDays - 1) * 86_400_000 < c.end - c.start + 60_000 <= c.durationDays * 86_400_000
  }

  // A minute counted back from the end of the window.
  predicate IsMinuteOf(w: Window, t: int) {
    w.fetchFrom <= t <= w.fetchTo && (w.fetchTo - t) % 60_000 == 0
  }

  ghost predicate CoveredOnce(chunks: seq<Chunk>, t: int) {
    exists i :: 0 <= i < |chunks| && Covers(chunks[i], t)
      && forall j :: 0 <= j < |chunks| && Covers(chunks[j], t) ==> j == i
  }

  // The number of chunks left to cut from `end` down to `lower`.
  function Remaining(lower: int, end: int): nat
    decreases end - lower
  {
    if end < lower then 0 else 1 + Remaining(lower, ChunkStart(lower, end) - MINUTE)
  }

  function ChunkStart(lower: int, end: int): (start: int)
    requires lower <= end
    ensures lower <= start <= end
  {
    var start := end - CHUNK + MINUTE;
    if lower < start then start else lower
  }

  lemma {:induction false} RemainingInClosedForm(lower: int, end: int)
    requires lower <= end
    ensures Remaining(lower, end) == (end - lower) / CHUNK + 1
    decreases end - lower
  {
    var start := ChunkStart(lower, end);
    if start - MINUTE >= lower {
      RemainingInClosedForm(lower, start - MINUTE);
    }
  }

  // Everything above `end` has been planned.
  ghost predicate Planned(w: Window, end: int, chunks: seq<Chunk>) {
    && (forall i :: 0 <= i < |chunks| ==>
         && chunks[i].index == i && Fits(chunks[i])
         && end + MINUTE <= chunks[i].start && w.fetchFrom <= chunks[i].start && chunks[i].end <= w.fetchTo)
    && (forall t {:trigger IsMinuteOf(w, t)} :: IsMinuteOf(w, t) && t > end ==> CoveredOnce(chunks, t))
    && (end >= w.fetchFrom ==> (w.fetchTo - end) % MINUTE == 0) && end <= w.fetchTo
  }

  lemma FitsItsDuration(index: nat, start: int, end: int)
    requires start <= end < start + CHUNK
    requires end - start + MINUTE <= CHUNK
    ensures var days := CeilDiv(end - start + MINUTE, DAY); days >= 1 && Fits(Chunk(index, start, end, days))
  {
  }

  lemma OneMoreChunk(w: Window, end: int, chunks: seq<Chunk>, c: Chunk)
    requires Planned(w, end, chunks) && w.fetchFrom <= end
    requires c.index == |chunks| && c.end == end && c.start == ChunkStart(w.fetchFrom, end) && Fits(c)
    ensures Planned(w, c.start - MINUTE, chunks + [c])
  {
    forall t | IsMinuteOf(w, t) && t > c.start - MINUTE
      ensures CoveredOnce(chunks + [c], t)
    {
      MinuteIsCovered(w, end, chunks, c, t);
    }
    StartIsOnTheGrid(w, end);
    hide IsMinuteOf, CoveredOnce, Fits;
  }

  lemma MinuteIsCovered(w: Window, end: int, chunks: seq<Chunk>, c: Chunk, t: int)
    requires Planned(w, end, chunks) && w.fetchFrom <= end && c.end == end && c.start == ChunkStart(w.fetchFrom, end)
    requires IsMinuteOf(w, t) && t > c.start - MINUTE
    ensures CoveredOnce(chunks + [c], t)
  {
    MinutesAreApart(w, end, t);
    StartIsNear(w, end, t);
    hide IsMinuteOf, Fits;
    var all := chunks + [c];
    if t > end {
      var i :| 0 <= i < |chunks| && Covers(chunks[i], t)
        && forall j :: 0 <= j < |chunks| && Covers(chunks[j], t) ==> j == i;
      assert Covers(all[i], t) && !Covers(c, t);
    } else {
      assert Covers(all[|chunks|], t);
    }
  }

  // Between two neighbouring chunks there is no minute.
  lemma StartIsNear(w: Window, end: int, t: int)
    requires w.fetchFrom <= end && (w.fetchTo - end) % MINUTE == 0
    requires IsMinuteOf(w, t) && t > ChunkStart(w.fetchFrom, end) - MINUTE
    ensures t >= ChunkStart(w.fetchFrom, end)
  {
  }

  lemma MinutesAreApart(w: Window, end: int, t: int)
    requires (w.fetchTo - end) % MINUTE == 0 && IsMinuteOf(w, t)
    ensures t > end ==> t >= end + MINUTE
  {
  }

  lemma StartIsOnTheGrid(w: Window, end: int)
    requires w.fetchFrom <= end && (w.fetchTo - end) % MINUTE == 0
    ensures var next := ChunkStart(w.fetchFrom, end) - MINUTE;
      next >= w.fetchFrom ==> (w.fetchTo - next) % MINUTE == 0
  {
  }

  // The first chunk ends with the window; each other one ends a minute before the one planned before it, a full five
  // days long, starts.
  ghost predicate NewestFirst(w: Window, chunks: seq<Chunk>) {
    && (chunks != [] ==> chunks[0].end == w.fetchTo)
    && forall i :: 0 <= i < |chunks| - 1 ==> FollowedBy(chunks[i], chunks[i + 1])
  }

  predicate FollowedBy(c: Chunk, next: Chunk) {
    next.end == c.start - 60_000 && IsFull(c)
  }

  predicate IsFull(c: Chunk) {
    c.durationDays == 5 && c.end - c.start == 5 * 86_400_000 - 60_000
  }

  lemma NothingPlanned(w: Window)
    ensures Planned(w, w.fetchTo, [])
  {
  }

  lemma EverythingPlanned(w: Window, end: int, chunks: seq<Chunk>)
    requires Planned(w, end, chunks) && end < w.fetchFrom
    ensures forall i :: 0 <= i < |chunks| ==>
              && chunks[i].index == i && Fits(chunks[i])
              && w.fetchFrom <= chunks[i].start && chunks[i].end <= w.fetchTo
    ensures forall t {:trigger IsMinuteOf(w, t)} :: IsMinuteOf(w, t) ==> CoveredOnce(chunks, t)
  {
    hide Fits, CoveredOnce;
  }

  lemma OneMoreRemains(lower: int, end: int)
    requires lower <= end
    ensures Remaining(lower, end) == 1 + Remaining(lower, ChunkStart(lower, end) - MINUTE)
  {
  }

  lemma NothingRemains(lower: int, end: int)
    requires end < lower
    ensures Remaining(lower, end) == 0
  {
  }

  // The plan: chunks inside the window, each fitting its own duration, every minute of the window in exactly one of
  // them, and as many as the closed form says. The order of the window's ends is not assumed.
  method PlanAcquisitionChunks(w: Window) returns (chunks: seq<Chunk>)
    ensures forall i :: 0 <= i < |chunks| ==>
              && chunks[i].index == i && Fits(chunks[i])
              && w.fetchFrom <= chunks[i].start && chunks[i].end <= w.fetchTo
    ensures forall t {:trigger IsMinuteOf(w, t)} :: IsMinuteOf(w, t) ==> CoveredOnce(chunks, t)
    ensures |chunks| == if w.fetchTo < w.fetchFrom then 0 else (w.fetchTo - w.fetchFrom) / 432_000_000 + 1
    ensures NewestFirst(w, chunks) && (chunks != [] ==> chunks[|chunks| - 1].start < w.fetchFrom + 60_000)
  {
    hide IsMinuteOf, CoveredOnce, Planned, Remaining;
    NothingPlanned(w);
    chunks := [];
    var end := w.fetchTo;
    while end >= w.fetchFrom
      invariant Planned(w, end, chunks)
      invariant NewestFirst(w, chunks)
      invariant end == if chunks == [] then w.fetchTo else chunks[|chunks| - 1].start - MINUTE
      invariant chunks != [] && end >= w.fetchFrom ==> IsFull(chunks[|chunks| - 1])
      invariant |chunks| + Remaining(w.fetchFrom, end) == Remaining(w.fetchFrom, w.fetchTo)
      decreases end - w.fetchFrom
    {
      var start := ChunkStart(w.fetchFrom, end);
      FitsItsDuration(|chunks|, start, end);
      var days := CeilDiv(end - start + MINUTE, DAY);
      var c := Chunk(|chunks|, start, end, if 1 < days then days else 1);
      OneMoreChunk(w, end, chunks, c);
      OneMoreRemains(w.fetchFrom, end);
      chunks := chunks + [c];
      end := start - MINUTE;
    }
    EverythingPlanned(w, end, chunks);
    NothingRemains(w.fetchFrom, end);
    if w.fetchFrom <= w.fetchTo {
      RemainingInClosedForm(w.fetchFrom, w.fetchTo);
    } else {
      NothingRemains(w.fetchFrom, w.fetchTo);
    }
  }

  // ----- the estimate

  function EstimateOne(w: Window): int {
    CeilDiv(w.fetchTo - w.fetchFrom + MINUTE, CHUNK)
  }

  function PlannedChunks(w: Window): nat {
    Remaining(w.fetchFrom, w.fetchTo)
  }

  // When the estimate is right: the window may not end within the last minute of a five-day step; a window that ends
  // before it starts may do so by less than a step, but by at least a minute.
  predicate EstimateHolds(w: Window) {
    var span := w.fetchTo - w.fetchFrom;
    if span >= 0 then span % 432_000_000 <= 432_000_000 - 60_000 else -432_000_000 < span + 60_000 <= 0
  }

  lemma EstimateMatchesPlanIff(w: Window)
    ensures EstimateOne(w) == PlannedChunks(w) <==> EstimateHolds(w)
  {
    if w.fetchFrom <= w.fetchTo {
      RemainingInClosedForm(w.fetchFrom, w.fetchTo);
    }
  }

  // One contract whose window falls a millisecond short of a five-day step: one chunk, two estimated.
  lemma EstimateCanMiss(start: int)
    ensures var w := Window(start, start + CHUNK - 1); PlannedChunks(w) == 1 && EstimateOne(w) == 2
  {
    RemainingInClosedForm(start, start + CHUNK - 1);
  }

  // Windows as the specification schema lets them through: in order, both ends on the minute.
  predicate Aligned(w: Window) {
    w.fetchFrom <= w.fetchTo && (w.fetchTo - w.fetchFrom) % 60_000 == 0
  }

  lemma AlignedEstimatesHold(w: Window)
    requires Aligned(w)
    ensures EstimateHolds(w)
  {
    var span := w.fetchTo - w.fetchFrom;
    var minutes := span / MINUTE;
    assert span == minutes * MINUTE;
    assert CHUNK == 7200 * MINUTE;
    assert span % CHUNK == (minutes % 7200) * MINUTE;
  }

  function EstimateHistoricalRequests(contracts: seq<Window>): int {
    if contracts == [] then 0
    else EstimateHistoricalRequests(contracts[..|contracts| - 1]) + EstimateOne(contracts[|contracts| - 1])
  }

  // The number of plans over all contracts, as the acquirer collects them.
  function AllPlanned(contracts: seq<Window>): nat {
    if contracts == [] then 0
    else AllPlanned(contracts[..|contracts| - 1]) + PlannedChunks(contracts[|contracts| - 1])
  }

  // For every specification the schema accepts, the planned and the approved number of requests agree.
  lemma {:induction false} SpecifiedPlansMatch(contracts: seq<Window>)
    requires forall w :: w in contracts ==> Aligned(w)
    ensures AllPlanned(contracts) == EstimateHistoricalRequests(contracts)
  {
    if contracts != [] {
      var w := contracts[|contracts| - 1];
      AlignedEstimatesHold(w);
      EstimateMatchesPlanIff(w);
      SpecifiedPlansMatch(contracts[..|contracts| - 1]);
    }
  }
}
