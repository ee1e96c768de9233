/**
 * The account's loss of the day: matching the stored fills with the broker's executions of the day, and the debit it
 * adds up for each currency.
 */
module DailyLoss {
  import opened Outcomes

  datatype Currency = Usd | Pln

  datatype Side = Buy | Sell

  datatype SecType = Stk | Fut | Opt | Cash

  // What both records of an execution must agree on. `side`, `secType` and `currency` are absent when the stored value
  // is none of the accepted ones.
  datatype Trade = Trade(
    conId: nat, secType: Option<SecType>, brokerOrderId: int, side: Option<Side>, shares: real, price: real,
    currency: Option<Currency>, executedAt: int)

  datatype Execution = Execution(accountId: string, execId: string, trade: Trade)

  datatype FillRow = FillRow(
    accountId: string, execId: string, trade: Trade, secTypeConflict: bool, commissionCurrency: Option<Currency>,
    commission: real, realizedPnl: real)

  datatype Debits = Debits(usd: real, pln: real)

  datatype Reason = ExecutionInvalid | ExecutionDuplicate | AccountingIncomplete | AccountingInvalid

  // The magnitude from which a number no longer counts as finite.
  const LIMIT: real := 10000000000000000000000000000000000000000000000000000000000000000000000000000000000000000000000000000.0

  predicate Finite(x: real) {
    -LIMIT < x < LIMIT
  }

  function Positive(x: real): real {
    if x > 0.0 then x else 0.0
  }

  // A losing fill weighs its loss, and any fill its commission; gains and rebates do not offset.
  function Weight(f: FillRow): real {
    Positive(-f.realizedPnl) + Positive(f.commission)
  }

  function DebitOf(d: Debits, c: Currency): real {
    if c.Usd? then d.usd else d.pln
  }

  function Add(d: Debits, c: Currency, amount: real): Debits {
    if c.Usd? then d.(usd := d.usd + amount) else d.(pln := d.pln + amount)
  }

  // The sum of the weights in one currency.
  function Total(fills: seq<FillRow>, c: Currency): real {
    if fills == [] then 0.0
    else
      var f := fills[|fills| - 1];
      Total(fills[..|fills| - 1], c) + if f.trade.currency == Some(c) then Weight(f) else 0.0
  }

  // Commission less realized profit, summed: the true net loss.
  function NetLoss(fills: seq<FillRow>, c: Currency): real {
    if fills == [] then 0.0
    else
      var f := fills[|fills| - 1];
      NetLoss(fills[..|fills| - 1], c) + if f.trade.currency == Some(c) then f.commission - f.realizedPnl else 0.0
  }

  predicate Agrees(accountId: string, f: FillRow, e: Execution) {
    && f.execId == e.execId && f.accountId == accountId && f.trade == e.trade && f.trade.conId > 0
    && f.trade.secType.Some? && !f.secTypeConflict && f.trade.side.Some?
    && 0.0 < f.trade.shares < LIMIT && 0.0 < f.trade.price < LIMIT
    && f.trade.currency.Some? && f.commissionCurrency == f.trade.currency
    && Finite(f.commission) && Finite(f.realizedPnl)
  }

  predicate ExecutionHolds(accountId: string, windowTo: int, e: Execution) {
    e.accountId == accountId && e.execId != "" && e.trade.executedAt <= windowTo
  }

  // The executions of the day, in order.
  function OfDay(executions: seq<Execution>, start: int): seq<Execution> {
    if executions == [] then []
    else
      var init, e := OfDay(executions[..|executions| - 1], start), executions[|executions| - 1];
      if e.trade.executedAt < start then init else init + [e]
  }

  ghost predicate DistinctExecutions(executions: seq<Execution>) {
    forall i, j :: 0 <= i < j < |executions| ==> executions[i].execId != executions[j].execId
  }

  predicate DistinctFills(fills: seq<FillRow>) {
    forall i, j :: 0 <= i < j < |fills| ==> fills[i].execId != fills[j].execId
  }

  // Every fill agrees with the day's execution of its id, and there are as many of one as of the other.
  ghost predicate Accounted(accountId: string, day: seq<Execution>, fills: seq<FillRow>) {
    && DistinctExecutions(day) && DistinctFills(fills) && |fills| == |day|
    && forall f :: f in fills ==> exists e :: e in day && Agrees(accountId, f, e)
  }

  ghost predicate Succeeds(
    accountId: string, start: int, windowTo: int, executions: seq<Execution>, fills: seq<FillRow>)
  {
    && (forall e :: e in executions ==> ExecutionHolds(accountId, windowTo, e))
    && Accounted(accountId, OfDay(executions, start), fills)
    && Total(fills, Usd) < LIMIT && Total(fills, Pln) < LIMIT
  }

  // ----- the day's executions by id

  ghost predicate Indexed(day: seq<Execution>, broker: map<string, Execution>) {
    && DistinctExecutions(day)
    && (forall e :: e in day ==> e.execId in broker && broker[e.execId] == e)
    && (forall k :: k in broker ==> broker[k] in day && broker[k].execId == k)
    && |broker| == |day|
  }

  lemma OneMoreExecution(day: seq<Execution>, broker: map<string, Execution>, e: Execution)
    requires Indexed(day, broker)
    ensures e.execId !in broker ==> Indexed(day + [e], broker[e.execId := e])
    ensures e.execId in broker ==> !DistinctExecutions(day + [e])
  {
    var all := day + [e];
    if e.execId in broker {
      var i :| 0 <= i < |day| && day[i] == broker[e.execId];
      assert all[i].execId == all[|day|].execId;
    } else {
      forall i | 0 <= i < |day|
        ensures day[i].execId != e.execId
      {
        assert day[i] in day;
      }
      assert forall x :: x in all <==> x in day || x == e;
    }
  }

  lemma {:induction false} OfDayPrefix(executions: seq<Execution>, start: int, k: nat) returns (more: seq<Execution>)
    requires k <= |executions|
    ensures OfDay(executions, start) == OfDay(executions[..k], start) + more
  {
    if k == |executions| {
      assert executions[..k] == executions;
      more := [];
    } else {
      assert executions[..|executions| - 1][..k] == executions[..k];
      more := OfDayPrefix(executions[..|executions| - 1], start, k);
      if executions[|executions| - 1].trade.executedAt >= start {
        more := more + [executions[|executions| - 1]];
      }
    }
  }

  lemma DuplicatesStay(a: seq<Execution>, more: seq<Execution>)
    requires !DistinctExecutions(a)
    ensures !DistinctExecutions(a + more)
  {
    var i, j :| 0 <= i < j < |a| && a[i].execId == a[j].execId;
    assert (a + more)[i].execId == (a + more)[j].execId;
  }

  method IndexExecutions(accountId: string, start: int, windowTo: int, executions: seq<Execution>)
    returns (r: Result<map<string, Execution>, Reason>)
    ensures r.Success? <==>
              && (forall e :: e in executions ==> ExecutionHolds(accountId, windowTo, e))
              && DistinctExecutions(OfDay(executions, start))
    ensures r.Success? ==> Indexed(OfDay(executions, start), r.value)
  {
    var broker: map<string, Execution> := map[];
    var i := 0;
    while i < |executions|
      invariant 0 <= i <= |executions| && Indexed(OfDay(executions[..i], start), broker)
      invariant forall e :: e in executions[..i] ==> ExecutionHolds(accountId, windowTo, e)
    {
      var row := executions[i];
      assert executions[..i + 1] == executions[..i] + [row] && executions[..i + 1][..i] == executions[..i];
      if !ExecutionHolds(accountId, windowTo, row) {
        return Failure(ExecutionInvalid);
      }
      if row.trade.executedAt >= start {
        OneMoreExecution(OfDay(executions[..i], start), broker, row);
        if row.execId in broker {
          ghost var more := OfDayPrefix(executions, start, i + 1);
          DuplicatesStay(OfDay(executions[..i], start) + [row], more);
          return Failure(ExecutionDuplicate);
        }
        broker := broker[row.execId := row];
      }
      i := i + 1;
    }
    assert executions[..i] == executions;
    return Success(broker);
  }

  lemma {:induction false} TotalIsPositive(fills: seq<FillRow>, c: Currency)
    ensures Total(fills, c) >= 0.0
  {
    if fills != [] {
      TotalIsPositive(fills[..|fills| - 1], c);
    }
  }

  lemma {:induction false} TotalGrows(fills: seq<FillRow>, c: Currency, k: nat)
    requires k <= |fills|
    ensures Total(fills[..k], c) <= Total(fills, c)
  {
    if k == |fills| {
      assert fills[..k] == fills;
    } else {
      assert fills[..|fills| - 1][..k] == fills[..k];
      TotalGrows(fills[..|fills| - 1], c, k);
    }
  }

  predicate Known(accountId: string, broker: map<string, Execution>, f: FillRow) {
    f.execId in broker && Agrees(accountId, f, broker[f.execId])
  }

  lemma KnownIff(accountId: string, day: seq<Execution>, broker: map<string, Execution>, f: FillRow)
    requires Indexed(day, broker)
    ensures Known(accountId, broker, f) <==> exists e :: e in day && Agrees(accountId, f, e)
  {
  }

  // The sums over the fills, as long as each is known and they stay finite.
  method AddUp(accountId: string, broker: map<string, Execution>, fills: seq<FillRow>)
    returns (r: Result<Debits, Reason>)
    ensures r.Success? <==>
              && (forall k :: 0 <= k < |fills| ==> Known(accountId, broker, fills[k]))
              && Total(fills, Usd) < LIMIT && Total(fills, Pln) < LIMIT
    ensures r.Success? ==> r.value == Debits(Total(fills, Usd), Total(fills, Pln))
  {
    hide Known, Weight, Total;
    var debits := Debits(0.0, 0.0);
    NoTotal();
    var i := 0;
    while i < |fills|
      invariant 0 <= i <= |fills|
      invariant debits == Debits(Total(fills[..i], Usd), Total(fills[..i], Pln))
      invariant debits.usd < LIMIT && debits.pln < LIMIT
      invariant forall k :: 0 <= k < i ==> Known(accountId, broker, fills[k])
    {
      var row := fills[i];
      assert fills[..i + 1] == fills[..i] + [row];
      if !Known(accountId, broker, row) {
        return Failure(AccountingIncomplete);
      }
      KnownHasCurrency(accountId, broker, row);
      var currency := row.trade.currency.value;
      debits := Add(debits, currency, Weight(row));
      AppendTotal(fills[..i], row, Usd);
      AppendTotal(fills[..i], row, Pln);
      TotalIsPositive(fills[..i + 1], currency);
      TotalGrows(fills, currency, i + 1);
      if !Finite(DebitOf(debits, currency)) {
        return Failure(AccountingInvalid);
      }
      i := i + 1;
    }
    assert fills[..i] == fills;
    return Success(debits);
  }

  lemma NoTotal()
    ensures Total([], Usd) == Total([], Pln) == 0.0
  {
  }

  // Succeeds exactly when fills and the day's executions account for each other and the sums are finite, and then
  // reports the sum of the weights in each currency.
  method BuildPaperDailyLoss(
    accountId: string, start: int, windowTo: int, executions: seq<Execution>, fills: seq<FillRow>)
    returns (r: Result<Debits, Reason>)
    ensures r.Success? <==> Succeeds(accountId, start, windowTo, executions, fills)
    ensures r.Success? ==> r.value == Debits(Total(fills, Usd), Total(fills, Pln))
  {
    hide Agrees, Total, OfDay, Known;
    var indexed := IndexExecutions(accountId, start, windowTo, executions);
    if indexed.Failure? {
      return Failure(indexed.error);
    }
    var broker := indexed.value;
    if !DistinctFills(fills) || |fills| != |broker| {
      return Failure(AccountingIncomplete);
    }
    AllKnownIff(accountId, OfDay(executions, start), broker, fills);
    r := AddUp(accountId, broker, fills);
  }

  lemma KnownHasCurrency(accountId: string, broker: map<string, Execution>, f: FillRow)
    requires Known(accountId, broker, f)
    ensures f.trade.currency.Some?
  {
  }

  lemma AllKnownIff(accountId: string, day: seq<Execution>, broker: map<string, Execution>, fills: seq<FillRow>)
    requires Indexed(day, broker)
    ensures (forall k :: 0 <= k < |fills| ==> Known(accountId, broker, fills[k]))
       <==> forall f :: f in fills ==> exists e :: e in day && Agrees(accountId, f, e)
  {
    hide Agrees, Known;
    forall k | 0 <= k < |fills|
      ensures fills[k] in fills
      ensures Known(accountId, broker, fills[k]) <==> exists e :: e in day && Agrees(accountId, fills[k], e)
    {
      KnownIff(accountId, day, broker, fills[k]);
    }
  }

  // ----- the match is complete

  // Distinct ids that all occur in a list are no more than the list is long, so none of the list's is left over.
  lemma {:induction false} NothingLeftOver(ids: seq<string>, holes: seq<string>, left: string)
    requires forall i, j :: 0 <= i < j < |ids| ==> ids[i] != ids[j]
    requires forall i :: 0 <= i < |ids| ==> ids[i] in holes
    requires left in holes && left !in ids
    ensures |ids| < |holes|
  {
    var h :| 0 <= h < |holes| && holes[h] == left;
    var rest := holes[..h] + holes[h + 1..];
    forall i | 0 <= i < |ids|
      ensures ids[i] in rest
    {
      var g :| 0 <= g < |holes| && holes[g] == ids[i];
      assert rest[if g < h then g else g - 1] == ids[i];
    }
    if ids != [] {
      var last := ids[|ids| - 1];
      var init := ids[..|ids| - 1];
      forall i | 0 <= i < |init|
        ensures init[i] != last
      {
        assert ids[i] != ids[|ids| - 1];
      }
      NothingLeftOver(init, rest, last);
    }
  }

  // Every execution of the day has exactly one fill, and every fill exactly one execution.
  lemma FillsAndExecutionsPairUp(accountId: string, day: seq<Execution>, fills: seq<FillRow>, e: Execution)
    requires Accounted(accountId, day, fills) && e in day
    ensures exists f ::
              f in fills && Agrees(accountId, f, e) && forall g :: g in fills && g.execId == e.execId ==> g == f
  {
    var ids := seq(|fills|, i requires 0 <= i < |fills| => fills[i].execId);
    var holes := seq(|day|, i requires 0 <= i < |day| => day[i].execId);
    FillIdsOccur(accountId, day, fills, ids, holes);
    var h :| 0 <= h < |day| && day[h] == e;
    assert holes[h] == e.execId;
    if e.execId !in ids {
      NothingLeftOver(ids, holes, e.execId);
    }
    assert e.execId in ids;
    var i :| 0 <= i < |ids| && ids[i] == e.execId;
    assert fills[i] in fills;
    SameExecution(accountId, day, fills[i], e);
    forall g | g in fills && g.execId == e.execId
      ensures g == fills[i]
    {
      var j :| 0 <= j < |fills| && fills[j] == g;
      assert !(i < j) && !(j < i);
    }
  }

  lemma FillIdsOccur(
    accountId: string, day: seq<Execution>, fills: seq<FillRow>, ids: seq<string>, holes: seq<string>)
    requires Accounted(accountId, day, fills) && |ids| == |fills| && |holes| == |day|
    requires forall i :: 0 <= i < |fills| ==> ids[i] == fills[i].execId
    requires forall i :: 0 <= i < |day| ==> holes[i] == day[i].execId
    ensures forall i :: 0 <= i < |ids| ==> ids[i] in holes
    ensures forall i, j :: 0 <= i < j < |ids| ==> ids[i] != ids[j]
  {
    forall i | 0 <= i < |ids|
      ensures ids[i] in holes
    {
      assert fills[i] in fills;
      var e :| e in day && Agrees(accountId, fills[i], e);
      var h :| 0 <= h < |day| && day[h] == e;
      assert holes[h] == ids[i];
    }
  }

  lemma SameExecution(accountId: string, day: seq<Execution>, f: FillRow, e: Execution)
    requires DistinctExecutions(day) && e in day && f.execId == e.execId
    requires exists x :: x in day && Agrees(accountId, f, x)
    ensures Agrees(accountId, f, e)
  {
    var x :| x in day && Agrees(accountId, f, x);
    var i :| 0 <= i < |day| && day[i] == x;
    var j :| 0 <= j < |day| && day[j] == e;
    assert !(i < j) && !(j < i);
  }

  // ----- the debit

  // No smaller than the true net loss, and never negative.
  lemma {:induction false} DebitBoundsTheLoss(fills: seq<FillRow>, c: Currency)
    ensures Total(fills, c) >= 0.0 && Total(fills, c) >= NetLoss(fills, c)
  {
    if fills != [] {
      DebitBoundsTheLoss(fills[..|fills| - 1], c);
    }
  }

  // Exactly what a debit counts: every loss and every commission paid, in its currency, and nothing else; a gain or a
  // rebate changes nothing.
  function Losses(fills: seq<FillRow>, c: Currency): real {
    if fills == [] then 0.0
    else
      var f := fills[|fills| - 1];
      Losses(fills[..|fills| - 1], c)
      - if f.trade.currency == Some(c) && f.realizedPnl < 0.0 then f.realizedPnl else 0.0
  }

  function FeesPaid(fills: seq<FillRow>, c: Currency): real {
    if fills == [] then 0.0
    else
      var f := fills[|fills| - 1];
      FeesPaid(fills[..|fills| - 1], c)
      + if f.trade.currency == Some(c) && 0.0 < f.commission then f.commission else 0.0
  }

  lemma {:induction false} DebitIsLossesAndFees(fills: seq<FillRow>, c: Currency)
    ensures Total(fills, c) == Losses(fills, c) + FeesPaid(fills, c)
  {
    if fills != [] {
      DebitIsLossesAndFees(fills[..|fills| - 1], c);
    }
  }

  // ----- what counts

  // A fill accounts for an execution: same account, id, contract, type, order, side, size, price, currency and time; of
  // an accepted type and side, a positive size and price, its commission in its own currency, and finite amounts.
  lemma AgreesFieldByField(accountId: string, f: FillRow, e: Execution)
    ensures Agrees(accountId, f, e) <==>
              && f.accountId == accountId && f.execId == e.execId
              && f.trade.conId == e.trade.conId && f.trade.conId != 0
              && f.trade.secType == e.trade.secType && f.trade.secType != None && !f.secTypeConflict
              && f.trade.brokerOrderId == e.trade.brokerOrderId
              && f.trade.side == e.trade.side && f.trade.side != None
              && f.trade.shares == e.trade.shares && f.trade.shares > 0.0 && -LIMIT < f.trade.shares < LIMIT
              && f.trade.price == e.trade.price && f.trade.price > 0.0 && -LIMIT < f.trade.price < LIMIT
              && f.trade.currency == e.trade.currency && f.trade.currency != None
              && f.commissionCurrency == f.trade.currency && f.trade.executedAt == e.trade.executedAt
              && -LIMIT < f.commission < LIMIT && -LIMIT < f.realizedPnl < LIMIT
  {
  }

  // The day's executions are those from its start on, each as often as it was reported.
  lemma {:induction false} OfDayIs(executions: seq<Execution>, start: int)
    ensures forall e :: multiset(OfDay(executions, start))[e]
                     == if e.trade.executedAt >= start then multiset(executions)[e] else 0
  {
    if executions != [] {
      var init, last := executions[..|executions| - 1], executions[|executions| - 1];
      assert executions == init + [last];
      OfDayIs(init, start);
    }
  }

  // An execution report is usable when it is the account's, has an id, and is not after the covered window.
  lemma HoldsFieldByField(accountId: string, windowTo: int, e: Execution)
    ensures ExecutionHolds(accountId, windowTo, e) <==>
              !(e.accountId != accountId || |e.execId| == 0 || windowTo < e.trade.executedAt)
  {
  }

  // The order of the fills does not matter: neither to the sums nor to whether the report succeeds.
  lemma {:induction false} TotalIgnoresOrder(a: seq<FillRow>, b: seq<FillRow>, c: Currency)
    requires multiset(a) == multiset(b)
    ensures Total(a, c) == Total(b, c)
  {
    hide Weight, Total;
    if a == [] {
      assert |b| == |multiset(b)| == 0;
    } else {
      var init, last := a[..|a| - 1], a[|a| - 1];
      assert a == init + [last];
      var k := TakeOut(b, last);
      TotalIgnoresOrder(init, b[..k] + b[k + 1..], c);
      TotalTakesOut(b, k, c);
      AppendTotal(init, last, c);
    }
  }

  lemma TakeOut(b: seq<FillRow>, x: FillRow) returns (k: nat)
    requires x in multiset(b)
    ensures k < |b| && b[k] == x && multiset(b[..k] + b[k + 1..]) == multiset(b) - multiset{x}
  {
    k :| 0 <= k < |b| && b[k] == x;
    assert b == b[..k] + [x] + b[k + 1..];
  }

  lemma {:induction false} TotalTakesOut(b: seq<FillRow>, k: nat, c: Currency)
    requires k < |b|
    ensures Total(b, c) == Total(b[..k] + b[k + 1..], c) + if b[k].trade.currency == Some(c) then Weight(b[k]) else 0.0
  {
    hide Weight, Total;
    var rest := b[..k] + b[k + 1..];
    if k == |b| - 1 {
      assert rest == b[..k] && b == b[..k] + [b[k]];
      AppendTotal(b[..k], b[k], c);
    } else {
      var init, last := b[..|b| - 1], b[|b| - 1];
      TotalTakesOut(init, k, c);
      assert b == init + [last] && rest == init[..k] + init[k + 1..] + [last];
      AppendTotal(init, last, c);
      AppendTotal(init[..k] + init[k + 1..], last, c);
    }
  }

  lemma AppendTotal(fills: seq<FillRow>, f: FillRow, c: Currency)
    ensures Total(fills + [f], c) == Total(fills, c) + if f.trade.currency == Some(c) then Weight(f) else 0.0
  {
    assert (fills + [f])[..|fills|] == fills;
  }

  lemma {:induction false} SuccessIgnoresOrder(
    accountId: string, start: int, windowTo: int, executions: seq<Execution>, a: seq<FillRow>, b: seq<FillRow>)
    requires multiset(a) == multiset(b) && Succeeds(accountId, start, windowTo, executions, a)
    ensures Succeeds(accountId, start, windowTo, executions, b)
  {
    TotalIgnoresOrder(a, b, Usd);
    TotalIgnoresOrder(a, b, Pln);
    assert |a| == |multiset(a)| == |b|;
    forall f | f in b
      ensures f in a
    {
      assert f in multiset(b);
    }
    DistinctIgnoresOrder(a, b);
  }

  lemma DistinctIgnoresOrder(a: seq<FillRow>, b: seq<FillRow>)
    requires multiset(a) == multiset(b) && DistinctFills(a)
    ensures DistinctFills(b)
  {
    forall i, j | 0 <= i < j < |b|
      ensures b[i].execId != b[j].execId
    {
      assert b[i] in multiset(b) && b[j] in multiset(b);
      var k :| 0 <= k < |a| && a[k] == b[i];
      var l :| 0 <= l < |a| && a[l] == b[j];
      if k == l {
        TwiceInB(b, i, j);
        OnceInA(a, k);
      }
    }
  }

  lemma TwiceInB(b: seq<FillRow>, i: nat, j: nat)
    requires i < j < |b| && b[i] == b[j]
    ensures multiset(b)[b[i]] >= 2
  {
    assert b == b[..i] + [b[i]] + b[i + 1..j] + [b[j]] + b[j + 1..];
  }

  lemma OnceInA(a: seq<FillRow>, k: nat)
    requires DistinctFills(a) && k < |a|
    ensures multiset(a)[a[k]] == 1
  {
    assert a == a[..k] + [a[k]] + a[k + 1..];
    assert a[k] !in a[..k] && a[k] !in a[k + 1..];
  }

  // ----- the start of the account day

  const HOUR: int := 3_600_000

  predicate Begins(dateOf: int -> int, day: int, t: int) {
    dateOf(t) == day && dateOf(t - 1) != day
  }

  // The first candidate offset, one hour or two, at which the day begins.
  method PaperAccountDayStart(now: int, dateOf: int -> int, utcMidnight: int -> int) returns (start: Option<int>)
    ensures start.Some? ==> dateOf(start.value) == dateOf(now) && dateOf(start.value - 1) != dateOf(now)
    ensures var midnight := utcMidnight(dateOf(now));
      var one, two := midnight - 60 * 60 * 1000, midnight - 2 * 60 * 60 * 1000;
      start == if Begins(dateOf, dateOf(now), one) then Some(one)
               else if Begins(dateOf, dateOf(now), two) then Some(two) else None
  {
    var day := dateOf(now);
    var utc := utcMidnight(day);
    var hours := 1;
    while hours <= 2
      invariant 1 <= hours <= 3
      invariant hours > 1 ==> !Begins(dateOf, day, utc - HOUR)
      invariant hours > 2 ==> !Begins(dateOf, day, utc - 2 * HOUR)
    {
      var candidate := utc - hours * HOUR;
      if dateOf(candidate) == day && dateOf(candidate - 1) != day {
        return Some(candidate);
      }
      hours := hours + 1;
    }
    return None;
  }

  // Where local dates do not go back, that start is the first instant of the day, so it is never after now.
  lemma DayStartIsFirst(dateOf: int -> int, start: int, t: int)
    requires forall a: int, b: int {:trigger dateOf(a), dateOf(b)} :: a <= b ==> dateOf(a) <= dateOf(b)
    requires dateOf(start - 1) != dateOf(start) && dateOf(t) == dateOf(start)
    ensures start <= t
  {
    assert dateOf(start - 1) <= dateOf(start);
    assert t <= start - 1 ==> dateOf(t) <= dateOf(start - 1);
  }
}
