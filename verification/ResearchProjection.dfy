/**
 * The active-contract projection of a research dataset: one row a minute, from the contract whose range holds it, and
 * the gaps that leaves.
 */
module ResearchProjection {
  import opened Outcomes
  import opened ResearchManifest
  import opened ResearchCoverage
  import opened ResearchRows

  predicate IsActive(contracts: seq<Contract>, r: Row) {
    exists c :: c in contracts && c.conId == r.conId && Owns(c, r.ts)
  }

  // What the projection query selects, in its order.
  function Active(contracts: seq<Contract>, rows: seq<Row>): seq<Row> {
    if rows == [] then []
    else
      var init, last := Active(contracts, rows[..|rows| - 1]), rows[|rows| - 1];
      if IsActive(contracts, last) then init + [last] else init
  }

  lemma {:induction false} ActiveRows(contracts: seq<Contract>, rows: seq<Row>)
    requires Sorted(rows)
    ensures Sorted(Active(contracts, rows))
    ensures forall r :: r in Active(contracts, rows) <==> r in rows && IsActive(contracts, r)
  {
    if rows != [] {
      var init, last := rows[..|rows| - 1], rows[|rows| - 1];
      assert rows == init + [last];
      ActiveRows(contracts, init);
      var active := Active(contracts, init);
      forall i | 0 <= i < |active|
        ensures Before(active[i], last)
      {
        assert active[i] in active;
        var j :| 0 <= j < |init| && init[j] == active[i];
        assert rows[j] == active[i];
      }
    }
  }

  predicate OhlcHolds(r: Row) {
    r.lowTicks <= r.openTicks <= r.highTicks && r.lowTicks <= r.closeTicks <= r.highTicks
  }

  function IndexOf(contracts: seq<Contract>, conId: nat): nat {
    if contracts == [] then 0
    else if contracts[|contracts| - 1].conId == conId then |contracts| - 1
    else
      var k := IndexOf(contracts[..|contracts| - 1], conId);
      if k < |contracts| - 1 then k else |contracts|
  }

  lemma {:induction false} IndexFinds(contracts: seq<Contract>, k: nat)
    requires Distinct(IdsOf(contracts)) && k < |contracts|
    ensures IndexOf(contracts, contracts[k].conId) == k
  {
    var n := |contracts| - 1;
    if k < n {
      assert IdsOf(contracts)[k] != IdsOf(contracts)[n];
      assert Distinct(IdsOf(contracts[..n])) by {
        forall i, j | 0 <= i < j < n
          ensures IdsOf(contracts[..n])[i] != IdsOf(contracts[..n])[j]
        {
          assert IdsOf(contracts)[i] != IdsOf(contracts)[j];
        }
      }
      IndexFinds(contracts[..n], k);
    }
  }

  lemma {:induction false} IndexIsDeclared(contracts: seq<Contract>, conId: nat)
    ensures IndexOf(contracts, conId) < |contracts| ==> contracts[IndexOf(contracts, conId)].conId == conId
    ensures IndexOf(contracts, conId) <= |contracts|
  {
    if contracts != [] {
      IndexIsDeclared(contracts[..|contracts| - 1], conId);
    }
  }

  // A row of a registered contract, inside its range, before its last trade, with prices in order.
  predicate RowHolds(contracts: seq<Contract>, r: Row) {
    var k := IndexOf(contracts, r.conId);
    k < |contracts| && Owns(contracts[k], r.ts) && r.ts < contracts[k].lastTradeAt && OhlcHolds(r)
  }

  // Row `i` comes after its predecessor, of the same contract or opening the next one at its registered start.
  predicate StepHolds(contracts: seq<Contract>, rows: seq<Row>, i: nat)
    requires i < |rows| && RowHolds(contracts, rows[i])
  {
    var k := IndexOf(contracts, rows[i].conId);
    && (i > 0 ==> rows[i - 1].ts < rows[i].ts)
    && if i > 0 && rows[i - 1].conId == rows[i].conId then true
       else
         && k == (if i == 0 then 0 else IndexOf(contracts, rows[i - 1].conId) + 1)
         && rows[i].ts == contracts[k].validFrom
  }

  ghost predicate Projects(contracts: seq<Contract>, rows: seq<Row>) {
    && (forall i :: 0 <= i < |rows| ==> RowHolds(contracts, rows[i]) && StepHolds(contracts, rows, i))
    && if rows == [] then contracts == [] else IndexOf(contracts, rows[|rows| - 1].conId) == |contracts| - 1
  }

  // The loop's memory: contracts are met in the registered order, so the ones seen are the first few.
  ghost predicate Tracks(
    contracts: seq<Contract>, rows: seq<Row>, i: nat, previousTs: Option<int>, previousConId: Option<nat>,
    seen: set<nat>)
    requires i <= |rows|
  {
    && (i == 0 ==> previousTs.None? && previousConId.None? && seen == {})
    && (i > 0 ==>
         && previousTs == Some(rows[i - 1].ts) && previousConId == Some(rows[i - 1].conId)
         && IndexOf(contracts, rows[i - 1].conId) < |contracts|
         && |seen| == IndexOf(contracts, rows[i - 1].conId) + 1
         && seen == FirstIds(contracts, |seen|))
  }

  function FirstIds(contracts: seq<Contract>, n: nat): set<nat>
    requires n <= |contracts|
  {
    set k | 0 <= k < n :: contracts[k].conId
  }

  lemma {:induction false} FirstIdsCount(contracts: seq<Contract>, n: nat)
    requires Distinct(IdsOf(contracts)) && n <= |contracts|
    ensures |FirstIds(contracts, n)| == n
  {
    if n > 0 {
      FirstIdsCount(contracts, n - 1);
      assert contracts[n - 1].conId !in FirstIds(contracts, n - 1) by {
        forall k | 0 <= k < n - 1
          ensures contracts[k].conId != contracts[n - 1].conId
        {
          assert IdsOf(contracts)[k] != IdsOf(contracts)[n - 1];
        }
      }
      assert FirstIds(contracts, n) == FirstIds(contracts, n - 1) + {contracts[n - 1].conId};
    }
  }

  // What the loop asks of a row, given what it remembers.
  predicate Accepts(
    contracts: seq<Contract>, row: Row, previousTs: Option<int>, previousConId: Option<nat>, seen: set<nat>)
  {
    && (previousTs.Some? ==> previousTs.value < row.ts)
    && (previousConId == Some(row.conId)
        || (row.conId !in seen && |seen| < |contracts| && contracts[|seen|].conId == row.conId
            && row.ts == contracts[|seen|].validFrom))
  }

  // The projection loop accepts exactly the rows that project.
  method ProjectActiveContracts(contracts: seq<Contract>, rows: seq<Row>) returns (ok: bool)
    requires Distinct(IdsOf(contracts))
    ensures ok <==> Projects(contracts, rows)
  {
    hide IndexOf, FirstIds, Distinct, Tracks, StepHolds, RowHolds;
    var previousTs: Option<int> := None;
    var previousConId: Option<nat> := None;
    var seen: set<nat> := {};
    NothingSeen(contracts, rows);
    var i := 0;
    while i < |rows|
      invariant 0 <= i <= |rows| && Tracks(contracts, rows, i, previousTs, previousConId, seen)
      invariant forall j :: 0 <= j < i ==> RowHolds(contracts, rows[j]) && StepHolds(contracts, rows, j)
    {
      var row := rows[i];
      if !RowHolds(contracts, row) {
        return false;
      }
      RowVerdict(contracts, rows, i, previousTs, previousConId, seen);
      if !Accepts(contracts, row, previousTs, previousConId, seen) {
        return false;
      }
      if previousConId != Some(row.conId) {
        seen := seen + {row.conId};
      }
      previousTs := Some(row.ts);
      previousConId := Some(row.conId);
      i := i + 1;
    }
    AllSeen(contracts, rows, previousTs, previousConId, seen);
    return |seen| == |contracts|;
  }

  lemma NothingSeen(contracts: seq<Contract>, rows: seq<Row>)
    ensures Tracks(contracts, rows, 0, None, None, {})
  {
  }

  lemma AllSeen(
    contracts: seq<Contract>, rows: seq<Row>, previousTs: Option<int>, previousConId: Option<nat>, seen: set<nat>)
    requires Tracks(contracts, rows, |rows|, previousTs, previousConId, seen)
    ensures |seen| == |contracts| <==>
              if rows == [] then contracts == [] else IndexOf(contracts, rows[|rows| - 1].conId) == |contracts| - 1
  {
    hide IndexOf, FirstIds;
  }

  // The loop's question is the right one, and its memory keeps up.
  lemma RowVerdict(
    contracts: seq<Contract>, rows: seq<Row>, i: nat, previousTs: Option<int>, previousConId: Option<nat>,
    seen: set<nat>)
    requires Distinct(IdsOf(contracts)) && i < |rows| && RowHolds(contracts, rows[i])
    requires Tracks(contracts, rows, i, previousTs, previousConId, seen)
    ensures Accepts(contracts, rows[i], previousTs, previousConId, seen) <==> StepHolds(contracts, rows, i)
    ensures StepHolds(contracts, rows, i) ==>
              Tracks(contracts, rows, i + 1, Some(rows[i].ts), Some(rows[i].conId),
                     if previousConId == Some(rows[i].conId) then seen else seen + {rows[i].conId})
  {
    var next := |seen|;
    IndexIsDeclared(contracts, rows[i].conId);
    if i > 0 {
      IndexIsDeclared(contracts, rows[i - 1].conId);
    }
    if next < |contracts| {
      IndexFinds(contracts, next);
      OneMoreSeen(contracts, next);
    }
    hide IndexOf, FirstIds, Distinct, Owns, OhlcHolds;
  }

  lemma OneMoreSeen(contracts: seq<Contract>, n: nat)
    requires Distinct(IdsOf(contracts)) && n < |contracts|
    ensures contracts[n].conId !in FirstIds(contracts, n)
    ensures FirstIds(contracts, n + 1) == FirstIds(contracts, n) + {contracts[n].conId}
    ensures |FirstIds(contracts, n + 1)| == n + 1 && FirstIds(contracts, 0) == {}
  {
    FirstIdsCount(contracts, n + 1);
    forall j | 0 <= j < n
      ensures contracts[j].conId != contracts[n].conId
    {
      assert IdsOf(contracts)[j] != IdsOf(contracts)[n];
    }
  }

  // ----- when a dataset projects

  ghost predicate HasRowAt(rows: seq<Row>, conId: nat, ts: int) {
    exists r :: r in rows && r.conId == conId && r.ts == ts
  }

  // Every contract has a bar at the first minute of its range, and none at its last trade; every bar has its open and
  // its close between its low and its high.
  ghost predicate Projectable(contracts: seq<Contract>, active: seq<Row>) {
    && (forall r :: r in active ==>
         r.lowTicks <= r.openTicks && r.openTicks <= r.highTicks && r.lowTicks <= r.closeTicks
         && r.closeTicks <= r.highTicks)
    && (forall k :: 0 <= k < |contracts| ==> HasRowAt(active, contracts[k].conId, contracts[k].validFrom))
    && (forall k, r :: 0 <= k < |contracts| && r in active && r.conId == contracts[k].conId ==>
         r.ts < contracts[k].lastTradeAt)
  }

  lemma OwnerIsActive(contracts: seq<Contract>, dateFrom: int, dateTo: int, r: Row)
    requires Chained(contracts, dateFrom, dateTo) && Distinct(IdsOf(contracts)) && IsActive(contracts, r)
    ensures var k := IndexOf(contracts, r.conId);
      && k < |contracts| && contracts[k].conId == r.conId && Owns(contracts[k], r.ts)
      && forall j :: 0 <= j < |contracts| && Owns(contracts[j], r.ts) ==> j == k
  {
    var c :| c in contracts && c.conId == r.conId && Owns(c, r.ts);
    var k :| 0 <= k < |contracts| && contracts[k] == c;
    IndexFinds(contracts, k);
    forall j | 0 <= j < |contracts| && Owns(contracts[j], r.ts)
      ensures j == k
    {
      if j < k {
        RangesIncrease(contracts, dateFrom, dateTo, j, k);
      } else if k < j {
        RangesIncrease(contracts, dateFrom, dateTo, k, j);
      }
    }
  }

  // The rows of later contracts come later.
  lemma IndexFollowsTime(contracts: seq<Contract>, dateFrom: int, dateTo: int, a: Row, b: Row)
    requires Chained(contracts, dateFrom, dateTo) && Distinct(IdsOf(contracts))
    requires IsActive(contracts, a) && IsActive(contracts, b)
    ensures IndexOf(contracts, a.conId) < IndexOf(contracts, b.conId) ==> a.ts < b.ts
    ensures a.ts == b.ts ==> a.conId == b.conId
  {
    OwnerIsActive(contracts, dateFrom, dateTo, a);
    OwnerIsActive(contracts, dateFrom, dateTo, b);
    var i, j := IndexOf(contracts, a.conId), IndexOf(contracts, b.conId);
    if i < j {
      RangesIncrease(contracts, dateFrom, dateTo, i, j);
    }
  }

  // Every row under the contract that owns its minute, the contracts in their order, one row a minute.
  ghost predicate WellPlaced(contracts: seq<Contract>, active: seq<Row>) {
    && Sorted(active)
    && (forall r :: r in active ==>
         var k := IndexOf(contracts, r.conId);
         k < |contracts| && contracts[k].conId == r.conId && Owns(contracts[k], r.ts))
    && (forall a, b :: a in active && b in active ==>
         && (IndexOf(contracts, a.conId) < IndexOf(contracts, b.conId) ==> a.ts < b.ts)
         && (a.ts == b.ts ==> a.conId == b.conId))
  }

  lemma ActiveIsWellPlaced(contracts: seq<Contract>, dateFrom: int, dateTo: int, rows: seq<Row>)
    requires Chained(contracts, dateFrom, dateTo) && Distinct(IdsOf(contracts)) && Sorted(rows)
    ensures WellPlaced(contracts, Active(contracts, rows))
  {
    ActiveRows(contracts, rows);
    var active := Active(contracts, rows);
    forall r | r in active
      ensures var k := IndexOf(contracts, r.conId);
        k < |contracts| && contracts[k].conId == r.conId && Owns(contracts[k], r.ts)
    {
      OwnerIsActive(contracts, dateFrom, dateTo, r);
    }
    forall a, b | a in active && b in active
      ensures IndexOf(contracts, a.conId) < IndexOf(contracts, b.conId) ==> a.ts < b.ts
      ensures a.ts == b.ts ==> a.conId == b.conId
    {
      IndexFollowsTime(contracts, dateFrom, dateTo, a, b);
    }
  }

  lemma OneRowAMinute(contracts: seq<Contract>, active: seq<Row>, i: nat)
    requires WellPlaced(contracts, active) && 0 < i < |active|
    ensures active[i - 1].ts < active[i].ts
    ensures IndexOf(contracts, active[i - 1].conId) <= IndexOf(contracts, active[i].conId)
  {
    hide IndexOf;
    assert Before(active[i - 1], active[i]) && active[i - 1] in active && active[i] in active;
  }

  // A row after one of two neighbours in a sorted list is not before the other.
  lemma NothingBetween(active: seq<Row>, i: nat, r: Row)
    requires Sorted(active) && 0 < i < |active| && r in active && Before(active[i - 1], r)
    ensures r == active[i] || Before(active[i], r)
  {
    var j :| 0 <= j < |active| && active[j] == r;
  }

  lemma FirstIsLeast(active: seq<Row>, r: Row)
    requires Sorted(active) && r in active
    ensures r == active[0] || Before(active[0], r)
  {
    var j :| 0 <= j < |active| && active[j] == r;
  }

  // If everything before row `i` belongs to contracts before `next`, row `i` is the opening bar of `next`.
  lemma FirstRowOpens(contracts: seq<Contract>, active: seq<Row>, i: nat, next: nat, r: Row)
    requires WellPlaced(contracts, active) && i < |active| && next < |contracts|
    requires r in active && IndexOf(contracts, r.conId) == next && r.ts == contracts[next].validFrom
    requires if i > 0 then next == IndexOf(contracts, active[i - 1].conId) + 1 else next == 0
    requires next <= IndexOf(contracts, active[i].conId)
    ensures IndexOf(contracts, active[i].conId) == next && active[i].ts == contracts[next].validFrom
  {
    hide IndexOf;
    assert active[i] in active;
    if i > 0 {
      assert active[i - 1] in active;
      NothingBetween(active, i, r);
    } else {
      FirstIsLeast(active, r);
    }
  }

  lemma ProjectableSteps(contracts: seq<Contract>, active: seq<Row>, i: nat)
    requires WellPlaced(contracts, active) && Distinct(IdsOf(contracts))
    requires Projectable(contracts, active) && i < |active| && RowHolds(contracts, active[i])
    ensures StepHolds(contracts, active, i)
  {
    assert active[i] in active;
    var k := IndexOf(contracts, active[i].conId);
    if i > 0 {
      OneRowAMinute(contracts, active, i);
      assert active[i - 1] in active;
    }
    var next := if i == 0 then 0 else IndexOf(contracts, active[i - 1].conId) + 1;
    if next <= k {
      var r :| r in active && r.conId == contracts[next].conId && r.ts == contracts[next].validFrom;
      IndexFinds(contracts, next);
      FirstRowOpens(contracts, active, i, next, r);
    }
    hide IndexOf, WellPlaced, Projectable;
  }

  // For an accepted manifest whose contracts are listed in roll order, and rows in order, the projection succeeds
  // exactly when every contract has a bar at its first minute and none at its last trade, and prices are in order.
  lemma ProjectsIff(contracts: seq<Contract>, dateFrom: int, dateTo: int, rows: seq<Row>)
    requires Chained(contracts, dateFrom, dateTo) && Distinct(IdsOf(contracts)) && Sorted(rows)
    ensures Projects(contracts, Active(contracts, rows)) <==> Projectable(contracts, Active(contracts, rows))
  {
    var active := Active(contracts, rows);
    ActiveRows(contracts, rows);
    ActiveIsWellPlaced(contracts, dateFrom, dateTo, rows);
    hide Chained, WellPlaced, Distinct, Projectable, Projects;
    if Projectable(contracts, active) {
      ProjectableProjects(contracts, active);
    }
    if Projects(contracts, active) {
      ProjectedIsProjectable(contracts, active);
    }
  }

  // A row as the importer lets it through: inside its contract's range, up to and including the last trade.
  predicate Importable(c: Contract, r: Row) {
    r.conId == c.conId && Owns(c, r.ts) && r.ts <= c.lastTradeAt && OhlcHolds(r)
  }

  // One contract that trades to the end of its range: the importer accepts a bar at its last trade, the projection of
  // the same rows fails, and without that bar it succeeds.
  lemma LastTradeBarBlocks()
    ensures var c := Contract(1, "ESZ4", 9, 2, 0, 2, None);
      var first, last := Row(1, 0, 4, 4, 4, 4, 1), Row(1, 2, 4, 4, 4, 4, 1);
      && Chained([c], 0, 2) && Sorted([first, last]) && Importable(c, first) && Importable(c, last)
      && !Projects([c], Active([c], [first, last])) && Projects([c], Active([c], [first]))
  {
    var c := Contract(1, "ESZ4", 9, 2, 0, 2, None);
    var first, last := Row(1, 0, 4, 4, 4, 4, 1), Row(1, 2, 4, 4, 4, 4, 1);
    assert c in [c] && IndexOf([c], 1) == 0;
    assert [first, last][..1] == [first] && [first][..0] == [];
    assert Active([c], [first]) == [first];
    assert Active([c], [first, last]) == [first, last];
    assert !RowHolds([c], [first, last][1]);
    assert RowHolds([c], first) && StepHolds([c], [first], 0);
  }

  lemma ProjectableProjects(contracts: seq<Contract>, active: seq<Row>)
    requires WellPlaced(contracts, active) && Distinct(IdsOf(contracts)) && |contracts| > 0
    requires Projectable(contracts, active)
    ensures Projects(contracts, active)
  {
    forall i | 0 <= i < |active|
      ensures RowHolds(contracts, active[i]) && StepHolds(contracts, active, i)
    {
      ProjectableHolds(contracts, active, i);
      ProjectableSteps(contracts, active, i);
    }
    LastContractIsSeen(contracts, active);
    hide WellPlaced, Projectable, IndexOf, RowHolds, StepHolds;
  }

  lemma ProjectableHolds(contracts: seq<Contract>, active: seq<Row>, i: nat)
    requires WellPlaced(contracts, active) && Projectable(contracts, active) && i < |active|
    ensures RowHolds(contracts, active[i])
  {
    hide IndexOf;
    assert active[i] in active;
  }

  lemma LastContractIsSeen(contracts: seq<Contract>, active: seq<Row>)
    requires WellPlaced(contracts, active) && Distinct(IdsOf(contracts)) && |contracts| > 0
    requires Projectable(contracts, active)
    ensures active != [] && IndexOf(contracts, active[|active| - 1].conId) == |contracts| - 1
  {
    var n := |contracts| - 1;
    var c := contracts[n];
    var r :| r in active && r.conId == c.conId && r.ts == c.validFrom;
    IndexFinds(contracts, n);
    LastIsGreatest(active, r);
    hide IndexOf, Distinct;
    assert active[|active| - 1] in active;
  }

  lemma ProjectedIsProjectable(contracts: seq<Contract>, active: seq<Row>)
    requires Projects(contracts, active) && Distinct(IdsOf(contracts)) && |contracts| > 0
    ensures Projectable(contracts, active)
  {
    hide Projects, Distinct, IndexOf;
    forall k | 0 <= k < |contracts|
      ensures HasRowAt(active, contracts[k].conId, contracts[k].validFrom)
    {
      EveryContractOpens(contracts, active, k);
    }
    forall k, r | 0 <= k < |contracts| && r in active && r.conId == contracts[k].conId
      ensures r.ts < contracts[k].lastTradeAt
    {
      BeforeLastTrade(contracts, active, k, r);
    }
    forall r | r in active
      ensures OhlcHolds(r)
    {
      PricesInOrder(contracts, active, r);
    }
  }

  lemma EveryContractOpens(contracts: seq<Contract>, active: seq<Row>, k: nat)
    requires Projects(contracts, active) && Distinct(IdsOf(contracts)) && k < |contracts|
    ensures HasRowAt(active, contracts[k].conId, contracts[k].validFrom)
  {
    hide RowHolds, StepHolds, Distinct;
    OpeningBar(contracts, active, |active| - 1, k);
  }

  lemma PricesInOrder(contracts: seq<Contract>, active: seq<Row>, r: Row)
    requires Projects(contracts, active) && r in active
    ensures OhlcHolds(r)
  {
    var i :| 0 <= i < |active| && active[i] == r;
    hide IndexOf, StepHolds, OhlcHolds;
    assert RowHolds(contracts, active[i]);
  }

  lemma BeforeLastTrade(contracts: seq<Contract>, active: seq<Row>, k: nat, r: Row)
    requires Projects(contracts, active) && Distinct(IdsOf(contracts)) && k < |contracts|
    requires r in active && r.conId == contracts[k].conId
    ensures r.ts < contracts[k].lastTradeAt
  {
    var i :| 0 <= i < |active| && active[i] == r;
    IndexFinds(contracts, k);
    hide IndexOf, Distinct, StepHolds;
    assert RowHolds(contracts, active[i]);
  }

  lemma ProjectedStep(contracts: seq<Contract>, active: seq<Row>, i: nat)
    requires Projects(contracts, active) && i < |active|
    ensures var k := IndexOf(contracts, active[i].conId);
      && k < |contracts| && contracts[k].conId == active[i].conId
      && ((i > 0 && active[i - 1].conId == active[i].conId)
          || (active[i].ts == contracts[k].validFrom
              && k == if i == 0 then 0 else IndexOf(contracts, active[i - 1].conId) + 1))
  {
    assert RowHolds(contracts, active[i]) && StepHolds(contracts, active, i);
    IndexIsDeclared(contracts, active[i].conId);
    hide IndexOf, Projects;
  }

  lemma {:induction false} OpeningBar(contracts: seq<Contract>, active: seq<Row>, i: nat, k: nat)
    requires Projects(contracts, active) && Distinct(IdsOf(contracts))
    requires i < |active| && k <= IndexOf(contracts, active[i].conId) < |contracts|
    ensures HasRowAt(active, contracts[k].conId, contracts[k].validFrom)
  {
    hide IndexOf, Distinct, Projects;
    ProjectedStep(contracts, active, i);
    if i > 0 && (active[i - 1].conId == active[i].conId || k < IndexOf(contracts, active[i].conId)) {
      OpeningBar(contracts, active, i - 1, k);
    } else {
      assert active[i] in active;
    }
  }

  // ----- gaps

  function HasGap(sessionAt: Sessions, times: set<int>): int -> bool {
    t => sessionAt(t).Some? && t !in times
  }

  // The gap loop: the reported maximum is the longest run of open minutes without a projected row.
  method MeasureGaps(dateFrom: int, dateTo: int, sessionAt: Sessions, times: set<int>)
    returns (expected: nat, missing: nat, maximumGap: nat)
    ensures expected == CountMinutes(IsOpen(sessionAt), dateFrom, dateTo)
    ensures missing == CountMinutes(HasGap(sessionAt, times), dateFrom, dateTo)
    ensures maximumGap == LongestRun(HasGap(sessionAt, times), dateFrom, dateTo)
  {
    ghost var gap := HasGap(sessionAt, times);
    expected, missing, maximumGap := 0, 0, 0;
    var currentGap: nat := 0;
    var time := dateFrom;
    while time <= dateTo
      invariant dateFrom <= time && (dateFrom <= dateTo ==> time <= dateTo + 1)
      invariant dateTo < dateFrom ==> time == dateFrom
      invariant expected == CountMinutes(IsOpen(sessionAt), dateFrom, time - 1)
      invariant missing == CountMinutes(gap, dateFrom, time - 1)
      invariant currentGap == RunEndingAt(gap, dateFrom, time - 1)
      invariant maximumGap == LongestRun(gap, dateFrom, time - 1)
      decreases dateTo - time
    {
      if sessionAt(time).None? {
        currentGap := 0;
      } else {
        expected := expected + 1;
        if time in times {
          currentGap := 0;
        } else {
          missing := missing + 1;
          currentGap := currentGap + 1;
          maximumGap := if maximumGap < currentGap then currentGap else maximumGap;
        }
      }
      time := time + 1;
    }
  }

  function TimesOf(rows: seq<Row>): set<int> {
    set r | r in rows :: r.ts
  }

  function KeysOf(rows: seq<Row>): set<BarKey> {
    set r | r in rows :: BarKey(r.conId, r.ts)
  }

  lemma {:induction false} SameMissing(p: int -> bool, q: int -> bool, start: int, end: int)
    requires forall t :: start <= t <= end ==> p(t) == q(t)
    ensures LongestRun(p, start, end) == LongestRun(q, start, end)
    ensures RunEndingAt(p, start, end) == RunEndingAt(q, start, end)
    decreases end - start
  {
    if start <= end {
      SameMissing(p, q, start, end - 1);
    }
  }

  // The projection's gap is the acquirer's: both are the longest run of open minutes without a bar of the contract
  // that owns them.
  lemma GapsAgree(
    contracts: seq<Contract>, dateFrom: int, dateTo: int, rows: seq<Row>, sessionAt: Sessions)
    requires Chained(contracts, dateFrom, dateTo) && Distinct(IdsOf(contracts)) && Sorted(rows)
    ensures LongestRun(HasGap(sessionAt, TimesOf(Active(contracts, rows))), dateFrom, dateTo)
         == LongestRun(IsMissing(sessionAt, contracts, KeysOf(rows)), dateFrom, dateTo)
  {
    var gap := HasGap(sessionAt, TimesOf(Active(contracts, rows)));
    var missing := IsMissing(sessionAt, contracts, KeysOf(rows));
    forall t | dateFrom <= t <= dateTo
      ensures gap(t) == missing(t)
    {
      BarsAgree(contracts, dateFrom, dateTo, rows, t);
    }
    SameMissing(gap, missing, dateFrom, dateTo);
  }

  lemma BarsAgree(contracts: seq<Contract>, dateFrom: int, dateTo: int, rows: seq<Row>, t: int)
    requires Chained(contracts, dateFrom, dateTo) && Distinct(IdsOf(contracts)) && Sorted(rows)
    requires dateFrom <= t <= dateTo
    ensures t in TimesOf(Active(contracts, rows))
       <==> BarKey(contracts[OwnerFrom(contracts, 0, t)].conId, t) in KeysOf(rows)
  {
    ActiveRows(contracts, rows);
    OwnerFromOwns(contracts, dateFrom, dateTo, 0, t);
    var k := OwnerFrom(contracts, 0, t);
    var active := Active(contracts, rows);
    if t in TimesOf(active) {
      var r :| r in active && r.ts == t;
      OwnerIsActive(contracts, dateFrom, dateTo, r);
      assert IndexOf(contracts, r.conId) == k;
    }
    if BarKey(contracts[k].conId, t) in KeysOf(rows) {
      var r :| r in rows && BarKey(r.conId, r.ts) == BarKey(contracts[k].conId, t);
      assert contracts[k] in contracts && IsActive(contracts, r);
    }
  }
}
