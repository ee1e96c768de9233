/**
 * Coverage of a research dataset: how many open minutes the active contract has a bar for, and the longest run of
 * open minutes it has none.
 */
module ResearchCoverage {
  import opened Outcomes
  import opened ResearchManifest

  // ----- runs of missing minutes

  // The length of the run of missing minutes that ends at `t`, within a period starting at `start`.
  function RunEndingAt(missing: int -> bool, start: int, t: int): nat
    decreases t - start
  {
    if t < start || !missing(t) then 0 else 1 + RunEndingAt(missing, start, t - 1)
  }

  function LongestRun(missing: int -> bool, start: int, end: int): nat
    decreases end - start
  {
    if end < start then 0
    else
      var before, last := LongestRun(missing, start, end - 1), RunEndingAt(missing, start, end);
      if before < last then last else before
  }

  ghost predicate AllMissing(missing: int -> bool, a: int, b: int) {
    forall t :: a <= t <= b ==> missing(t)
  }

  lemma {:induction false} RunIsMissing(missing: int -> bool, start: int, t: int)
    ensures var run := RunEndingAt(missing, start, t);
      && AllMissing(missing, t - run + 1, t) && (run > 0 ==> start <= t - run + 1)
      && (start <= t - run ==> !missing(t - run))
    decreases t - start
  {
    if t >= start && missing(t) {
      RunIsMissing(missing, start, t - 1);
    }
  }

  // No run of missing minutes is longer than the longest, and if it is not zero there is one that long.
  lemma {:induction false} LongestRunIsLongest(missing: int -> bool, start: int, end: int)
    ensures forall a, b :: start <= a && b <= end && AllMissing(missing, a, b) ==>
              b - a + 1 <= LongestRun(missing, start, end)
    ensures LongestRun(missing, start, end) > 0 ==>
              exists a, b :: start <= a <= b <= end && AllMissing(missing, a, b)
                && b - a + 1 == LongestRun(missing, start, end)
    decreases end - start
  {
    if start <= end {
      LongestRunIsLongest(missing, start, end - 1);
      RunIsMissing(missing, start, end);
      var run := RunEndingAt(missing, start, end);
      forall a, b | start <= a && b <= end && AllMissing(missing, a, b)
        ensures b - a + 1 <= LongestRun(missing, start, end)
      {
        assert b == end && a <= end - run ==> missing(end - run);
      }
      if LongestRun(missing, start, end) == run && run > 0 {
        assert AllMissing(missing, end - run + 1, end);
      }
    }
  }

  // ----- counting open minutes

  // The minutes of a period that satisfy `p`.
  function CountMinutes(p: int -> bool, start: int, end: int): nat
    decreases end - start
  {
    if end < start then 0 else CountMinutes(p, start, end - 1) + if p(end) then 1 else 0
  }

  lemma {:induction false} CountsAgree(p: int -> bool, q: int -> bool, start: int, end: int)
    requires forall t :: start <= t <= end ==> p(t) == q(t)
    ensures CountMinutes(p, start, end) == CountMinutes(q, start, end)
    decreases end - start
  {
    if start <= end {
      CountsAgree(p, q, start, end - 1);
    }
  }

  lemma {:induction false} SomeCounted(p: int -> bool, start: int, end: int)
    ensures CountMinutes(p, start, end) > 0 <==> exists t :: start <= t <= end && p(t)
    decreases end - start
  {
    if start <= end {
      SomeCounted(p, start, end - 1);
    }
  }

  type Sessions = int -> Option<string>

  datatype BarKey = BarKey(conId: nat, ts: int)

  function IsOpen(sessionAt: Sessions): int -> bool {
    t => sessionAt(t).Some?
  }

  // The active contract has a bar at this open minute.
  function IsPresent(sessionAt: Sessions, ordered: seq<Contract>, present: set<BarKey>): int -> bool
    requires |ordered| > 0
  {
    t => sessionAt(t).Some? && BarKey(ordered[OwnerFrom(ordered, 0, t)].conId, t) in present
  }

  function IsMissing(sessionAt: Sessions, ordered: seq<Contract>, present: set<BarKey>): int -> bool
    requires |ordered| > 0
  {
    t => sessionAt(t).Some? && BarKey(ordered[OwnerFrom(ordered, 0, t)].conId, t) !in present
  }

  function InSession(p: int -> bool, sessionAt: Sessions, id: string): int -> bool {
    t => p(t) && sessionAt(t) == Some(id)
  }

  // The forward-only pointer has passed only contracts whose range is over.
  ghost predicate Behind(ordered: seq<Contract>, i: nat, t: int) {
    i < |ordered| && forall k :: 0 <= k < i ==> ordered[k].validTo < t
  }

  lemma {:induction false} PointerIsOwner(ordered: seq<Contract>, i: nat, k: nat, t: int)
    requires k <= i && Behind(ordered, i, t) && (i == |ordered| - 1 || t <= ordered[i].validTo)
    ensures OwnerFrom(ordered, k, t) == i
    decreases i - k
  {
    if k < i {
      PointerIsOwner(ordered, i, k + 1, t);
    }
  }

  // The counters of the scan after every minute up to `t`.
  datatype Tally = Tally(
    expected: nat, actual: nat, missingRun: nat, maxMissingRun: nat, sessionExpected: map<string, nat>,
    sessionActual: map<string, nat>)

  function Counted(counts: map<string, nat>, id: string): nat {
    if id in counts then counts[id] else 0
  }

  ghost predicate Tallies(
    tally: Tally, sessionAt: Sessions, present: int -> bool, missing: int -> bool, start: int, end: int)
  {
    && tally.expected == CountMinutes(IsOpen(sessionAt), start, end)
    && tally.actual == CountMinutes(present, start, end)
    && tally.missingRun == RunEndingAt(missing, start, end) && tally.maxMissingRun == LongestRun(missing, start, end)
    && (forall id :: Counted(tally.sessionExpected, id)
                  == CountMinutes(InSession(IsOpen(sessionAt), sessionAt, id), start, end))
    && (forall id :: Counted(tally.sessionActual, id) == CountMinutes(InSession(present, sessionAt, id), start, end))
    && (forall id :: id in tally.sessionExpected ==> tally.sessionExpected[id] > 0)
  }

  function Bumped(counts: map<string, nat>, id: string): map<string, nat> {
    counts[id := Counted(counts, id) + 1]
  }

  function AfterMinute(tally: Tally, session: Option<string>, isPresent: bool): Tally {
    if session.None? then tally.(missingRun := 0)
    else
      var id := session.value;
      var counted := tally.(expected := tally.expected + 1, sessionExpected := Bumped(tally.sessionExpected, id));
      if isPresent then
        counted.(actual := tally.actual + 1, sessionActual := Bumped(tally.sessionActual, id), missingRun := 0)
      else
        var run := tally.missingRun + 1;
        counted.(missingRun := run, maxMissingRun := if tally.maxMissingRun < run then run else tally.maxMissingRun)
  }

  lemma OneMoreMinute(
    tally: Tally, sessionAt: Sessions, present: int -> bool, missing: int -> bool, start: int, t: int)
    requires start <= t && Tallies(tally, sessionAt, present, missing, start, t - 1)
    requires present(t) ==> sessionAt(t).Some?
    requires missing(t) <==> sessionAt(t).Some? && !present(t)
    ensures Tallies(AfterMinute(tally, sessionAt(t), present(t)), sessionAt, present, missing, start, t)
  {
    var after := AfterMinute(tally, sessionAt(t), present(t));
    forall id
      ensures Counted(after.sessionExpected, id)
           == Counted(tally.sessionExpected, id) + if sessionAt(t) == Some(id) then 1 else 0
      ensures Counted(after.sessionActual, id)
           == Counted(tally.sessionActual, id) + if present(t) && sessionAt(t) == Some(id) then 1 else 0
    {
    }
  }

  ghost predicate EverySessionCounts(
    sessionAt: Sessions, open: int -> bool, present: int -> bool, start: int, end: int)
  {
    forall id :: CountMinutes(InSession(open, sessionAt, id), start, end) > 0 ==>
      CountMinutes(InSession(present, sessionAt, id), start, end) > 0
  }

  // What the coverage check accepts: every session that has an open minute has a bar of its active contract, at
  // least 999 of every 1000 open minutes have one, and no run of more than five open minutes is without.
  ghost predicate Covered(sessionAt: Sessions, present: int -> bool, missing: int -> bool, start: int, end: int) {
    var open := IsOpen(sessionAt);
    && EverySessionCounts(sessionAt, open, present, start, end)
    && CountMinutes(open, start, end) > 0
    && CountMinutes(present, start, end) * 1000 >= CountMinutes(open, start, end) * 999
    && LongestRun(missing, start, end) <= 5
  }

  lemma {:induction false} CountIsSize(p: int -> bool, minutes: set<int>, start: int, end: int)
    requires forall t :: t in minutes <==> start <= t <= end && p(t)
    ensures CountMinutes(p, start, end) == |minutes|
    decreases end - start
  {
    if end < start {
      assert forall t :: t !in minutes;
    } else {
      CountIsSize(p, minutes - {end}, start, end - 1);
    }
  }

  // The contract whose range holds this minute has a bar at it.
  ghost predicate HasBar(contracts: seq<Contract>, present: set<BarKey>, t: int) {
    exists c :: c in contracts && c.validFrom <= t <= c.validTo && BarKey(c.conId, t) in present
  }

  lemma HasBarIff(ordered: seq<Contract>, present: set<BarKey>, start: int, end: int, t: int)
    requires Chained(ordered, start, end) && start <= t <= end
    ensures HasBar(ordered, present, t) <==> BarKey(ordered[OwnerFrom(ordered, 0, t)].conId, t) in present
  {
    OwnerFromOwns(ordered, start, end, 0, t);
    var k := OwnerFrom(ordered, 0, t);
    hide Chained, OwnerFrom;
    assert ordered[k] in ordered;
    forall c | c in ordered && c.validFrom <= t <= c.validTo
      ensures c == ordered[k]
    {
      OnlyOneOwner(ordered, start, end, k, c, t);
    }
  }

  // Open minutes in a row, all without a bar.
  ghost predicate AllWithout(open: set<int>, held: set<int>, a: int, b: int) {
    forall t :: a <= t <= b ==> t in open && t !in held
  }

  // Every session with an open minute has one with a bar, there is an open minute, at least 999 of 1000 have a bar,
  // and no more than five in a row are without.
  ghost predicate Suffices(sessionAt: Sessions, open: set<int>, held: set<int>, start: int, end: int) {
    && EverySessionHeld(sessionAt, open, held) && open != {} && 1000 * |held| >= 999 * |open|
    && forall a, b :: start <= a && b <= end && AllWithout(open, held, a, b) ==> b - a + 1 <= 5
  }

  ghost predicate EverySessionHeld(sessionAt: Sessions, open: set<int>, held: set<int>) {
    forall t :: t in open ==> exists u :: u in held && sessionAt(u) == sessionAt(t)
  }

  // Over a chain of ranges, what the check accepts, told with the sets of open minutes and of those with a bar.
  lemma CoveredIff(sessionAt: Sessions, ordered: seq<Contract>, present: set<BarKey>, start: int, end: int)
    requires Chained(ordered, start, end)
    ensures var open := set t | start <= t <= end && sessionAt(t).Some?;
      var held := set t | start <= t <= end && sessionAt(t).Some? && HasBar(ordered, present, t);
      Covered(sessionAt, IsPresent(sessionAt, ordered, present), IsMissing(sessionAt, ordered, present), start, end)
      <==> Suffices(sessionAt, open, held, start, end)
  {
    var isOpen, isPresent := IsOpen(sessionAt), IsPresent(sessionAt, ordered, present);
    var isMissing := IsMissing(sessionAt, ordered, present);
    var open := set t | start <= t <= end && sessionAt(t).Some?;
    var held := set t | start <= t <= end && sessionAt(t).Some? && HasBar(ordered, present, t);
    forall t | start <= t <= end
      ensures isOpen(t) <==> t in open
      ensures isPresent(t) <==> t in held
      ensures isMissing(t) <==> t in open && t !in held
    {
      HasBarIff(ordered, present, start, end, t);
    }
    SufficesIff(sessionAt, isOpen, isPresent, isMissing, open, held, start, end);
    hide Chained, OwnerFrom, HasBar, IsPresent, IsMissing, CountMinutes, LongestRun, Suffices, InSession;
  }

  lemma SufficesIff(
    sessionAt: Sessions, isOpen: int -> bool, present: int -> bool, missing: int -> bool, open: set<int>,
    held: set<int>, start: int, end: int)
    requires isOpen == IsOpen(sessionAt) && held <= open
    requires forall t :: t in open <==> start <= t <= end && isOpen(t)
    requires forall t :: t in held <==> start <= t <= end && present(t)
    requires forall t :: start <= t <= end ==> (missing(t) <==> t in open && t !in held)
    ensures Covered(sessionAt, present, missing, start, end) <==> Suffices(sessionAt, open, held, start, end)
  {
    CountIsSize(isOpen, open, start, end);
    CountIsSize(present, held, start, end);
    SessionsHeldIff(sessionAt, isOpen, present, open, held, start, end);
    NoLongerRunIff(missing, open, held, start, end);
    assert CountMinutes(isOpen, start, end) > 0 <==> open != {};
    hide CountMinutes, LongestRun, InSession, AllWithout, IsOpen, EverySessionHeld, EverySessionCounts;
  }

  lemma CountedInSession(
    sessionAt: Sessions, p: int -> bool, minutes: set<int>, id: string, start: int, end: int)
    requires forall t :: t in minutes <==> start <= t <= end && p(t)
    ensures CountMinutes(InSession(p, sessionAt, id), start, end) > 0
      <==> exists t :: t in minutes && sessionAt(t) == Some(id)
  {
    var q := InSession(p, sessionAt, id);
    SomeCounted(q, start, end);
    hide CountMinutes;
    if t :| start <= t <= end && q(t) {
      assert t in minutes;
    }
    if t :| t in minutes && sessionAt(t) == Some(id) {
      assert q(t);
    }
  }

  lemma SessionsHeldIff(
    sessionAt: Sessions, isOpen: int -> bool, present: int -> bool, open: set<int>, held: set<int>, start: int,
    end: int)
    requires forall t :: t in open <==> start <= t <= end && isOpen(t)
    requires forall t :: t in held <==> start <= t <= end && present(t)
    requires forall t :: t in open ==> sessionAt(t).Some?
    ensures EverySessionCounts(sessionAt, isOpen, present, start, end) <==> EverySessionHeld(sessionAt, open, held)
  {
    forall id: string
      ensures CountMinutes(InSession(isOpen, sessionAt, id), start, end) > 0
        <==> exists t :: t in open && sessionAt(t) == Some(id)
      ensures CountMinutes(InSession(present, sessionAt, id), start, end) > 0
        <==> exists t :: t in held && sessionAt(t) == Some(id)
    {
      CountedInSession(sessionAt, isOpen, open, id, start, end);
      CountedInSession(sessionAt, present, held, id, start, end);
    }
    hide CountMinutes;
    forall t | t in open
      ensures (exists u :: u in held && sessionAt(u) == sessionAt(t))
        <==> CountMinutes(InSession(present, sessionAt, sessionAt(t).value), start, end) > 0
    {
    }
  }

  lemma NoLongerRunIff(missing: int -> bool, open: set<int>, held: set<int>, start: int, end: int)
    requires forall t :: start <= t <= end ==> (missing(t) <==> t in open && t !in held)
    ensures LongestRun(missing, start, end) <= 5
      <==> forall a, b :: start <= a && b <= end && AllWithout(open, held, a, b) ==> b - a + 1 <= 5
  {
    LongestRunIsLongest(missing, start, end);
    hide LongestRun;
    forall a, b | start <= a && b <= end
      ensures AllMissing(missing, a, b) <==> AllWithout(open, held, a, b)
    {
    }
  }

  // The scan with its forward-only pointer, over the contracts in roll order. It accepts exactly the covered datasets,
  // counting at every open minute the bars of the one contract whose range holds it.
  method AssertCoverage(
    ordered: seq<Contract>, dateFrom: int, dateTo: int, sessionAt: Sessions, present: set<BarKey>)
    returns (ok: bool, tally: Tally)
    requires |ordered| > 0
    ensures Tallies(tally, sessionAt, IsPresent(sessionAt, ordered, present), IsMissing(sessionAt, ordered, present),
                    dateFrom, if dateFrom <= dateTo then dateTo else dateFrom - 1)
    ensures ok <==> Covered(sessionAt, IsPresent(sessionAt, ordered, present), IsMissing(sessionAt, ordered, present),
                            dateFrom, if dateFrom <= dateTo then dateTo else dateFrom - 1)
  {
    ghost var isPresent := IsPresent(sessionAt, ordered, present);
    ghost var isMissing := IsMissing(sessionAt, ordered, present);
    tally := Tally(0, 0, 0, 0, map[], map[]);
    var contractIndex := 0;
    var time := dateFrom;
    while time <= dateTo
      invariant time <= dateTo + 1 || time == dateFrom
      invariant dateFrom <= time && Behind(ordered, contractIndex, time)
      invariant Tallies(tally, sessionAt, isPresent, isMissing, dateFrom, time - 1)
      decreases dateTo - time
    {
      var session := sessionAt(time);
      if session.None? {
        OneMoreMinute(tally, sessionAt, isPresent, isMissing, dateFrom, time);
        tally := tally.(missingRun := 0);
      } else {
        while contractIndex < |ordered| - 1 && time > ordered[contractIndex].validTo
          invariant Behind(ordered, contractIndex, time)
        {
          contractIndex := contractIndex + 1;
        }
        PointerIsOwner(ordered, contractIndex, 0, time);
        OneMoreMinute(tally, sessionAt, isPresent, isMissing, dateFrom, time);
        tally := AfterMinute(tally, session, BarKey(ordered[contractIndex].conId, time) in present);
      }
      time := time + 1;
    }
    var missed := exists id :: id in tally.sessionExpected && Counted(tally.sessionActual, id) == 0;
    ok := !missed && tally.expected > 0 && tally.actual * 1000 >= tally.expected * 999 && tally.maxMissingRun <= 5;
    assert missed <==> exists id :: Counted(tally.sessionExpected, id) > 0 && Counted(tally.sessionActual, id) == 0;
  }
}
