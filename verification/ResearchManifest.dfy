/**
 * The roll manifest of a research dataset: which contract is the active one at which minute. Instants are whole
 * minutes, as the manifest schema requires.
 */
module ResearchManifest {
  import opened Outcomes

  const MINUTES_A_DAY: int := 1440

  datatype Contract = Contract(
    conId: nat, localSymbol: string, expiry: int, lastTradeAt: int, validFrom: int, validTo: int, rollAt: Option<int>)

  // The first and last day a trading calendar covers.
  datatype Coverage = Coverage(firstDay: int, lastDay: int)

  datatype Manifest = Manifest(dateFrom: int, dateTo: int, contracts: seq<Contract>, contractOrder: seq<nat>)

  predicate Distinct<T(==)>(s: seq<T>) {
    forall i, j :: 0 <= i < j < |s| ==> s[i] != s[j]
  }

  predicate Declares(contracts: seq<Contract>, conId: nat) {
    exists c :: c in contracts && c.conId == conId
  }

  function IdsOf(contracts: seq<Contract>): seq<nat> {
    seq(|contracts|, i requires 0 <= i < |contracts| => contracts[i].conId)
  }

  function SymbolsOf(contracts: seq<Contract>): seq<string> {
    seq(|contracts|, i requires 0 <= i < |contracts| => contracts[i].localSymbol)
  }

  // One contract on its own: a range that is not empty and not after the last trade, which is not after the expiry.
  predicate RangeHolds(c: Contract) {
    && c.validFrom <= c.validTo <= c.lastTradeAt <= c.expiry
    && (c.rollAt.Some? ==> c.rollAt.value <= c.lastTradeAt)
  }

  // Contract `i` and its successor: the next range starts the minute after this one ends, which is when this one
  // rolls; the last one never rolls.
  predicate LinkHolds(ordered: seq<Contract>, i: nat)
    requires i < |ordered|
  {
    && RangeHolds(ordered[i])
    && if i + 1 == |ordered| then ordered[i].rollAt == None
       else ordered[i + 1].validFrom == ordered[i].validTo + 1 && ordered[i].rollAt == Some(ordered[i + 1].validFrom)
  }

  // Roll order: every range follows the one before it, and together they cover the whole period.
  ghost predicate Chained(ordered: seq<Contract>, dateFrom: int, dateTo: int) {
    && |ordered| > 0 && ordered[0].validFrom == dateFrom && ordered[|ordered| - 1].validTo == dateTo
    && forall i :: 0 <= i < |ordered| ==> LinkHolds(ordered, i)
  }

  // The manifest's contracts, in the order its roll policy lists them.
  ghost predicate InRollOrder(m: Manifest, ordered: seq<Contract>) {
    && |ordered| == |m.contracts| && IdsOf(ordered) == m.contractOrder
    && forall c :: c in ordered ==> c in m.contracts
  }

  ghost predicate Holds(m: Manifest, calendar: Option<Coverage>) {
    && m.dateFrom <= m.dateTo && calendar.Some?
    && calendar.value.firstDay <= m.dateFrom / MINUTES_A_DAY && m.dateTo / MINUTES_A_DAY <= calendar.value.lastDay
    && Distinct(IdsOf(m.contracts)) && Distinct(SymbolsOf(m.contracts)) && Distinct(m.contractOrder)
    && exists ordered :: InRollOrder(m, ordered) && Chained(ordered, m.dateFrom, m.dateTo)
  }

  method Lookup(contracts: seq<Contract>, conId: nat) returns (found: Option<Contract>)
    ensures found.Some? <==> Declares(contracts, conId)
    ensures found.Some? ==> found.value in contracts && found.value.conId == conId
  {
    found := None;
    for i := 0 to |contracts|
      invariant found.Some? <==> Declares(contracts[..i], conId)
      invariant found.Some? ==> found.value in contracts && found.value.conId == conId
    {
      assert contracts[..i + 1] == contracts[..i] + [contracts[i]];
      assert Declares(contracts[..i + 1], conId)
        <==> Declares(contracts[..i], conId) || contracts[i].conId == conId by {
        assert contracts[i] in contracts[..i + 1];
        assert forall c :: c in contracts[..i + 1] <==> c in contracts[..i] || c == contracts[i];
      }
      if contracts[i].conId == conId {
        found := Some(contracts[i]);
      }
    }
    assert contracts[..|contracts|] == contracts;
  }

  lemma SameId(contracts: seq<Contract>, a: Contract, b: Contract)
    requires Distinct(IdsOf(contracts)) && a in contracts && b in contracts && a.conId == b.conId
    ensures a == b
  {
    var i :| 0 <= i < |contracts| && contracts[i] == a;
    var j :| 0 <= j < |contracts| && contracts[j] == b;
    assert IdsOf(contracts)[i] == IdsOf(contracts)[j];
  }

  lemma OneRollOrder(m: Manifest, a: seq<Contract>, b: seq<Contract>)
    requires Distinct(IdsOf(m.contracts)) && InRollOrder(m, a) && InRollOrder(m, b)
    ensures a == b
  {
    forall i | 0 <= i < |a|
      ensures a[i] == b[i]
    {
      assert IdsOf(a)[i] == IdsOf(b)[i];
      SameId(m.contracts, a[i], b[i]);
    }
  }

  lemma RollOrderDeclares(m: Manifest, s: seq<Contract>, i: nat)
    requires InRollOrder(m, s) && i < |m.contractOrder|
    ensures Declares(m.contracts, m.contractOrder[i])
  {
    assert IdsOf(s)[i] == s[i].conId && s[i] in s;
  }

  lemma UndeclaredId(m: Manifest, i: nat)
    requires i < |m.contractOrder| && !Declares(m.contracts, m.contractOrder[i])
    ensures forall s :: !InRollOrder(m, s)
  {
    forall s
      ensures !InRollOrder(m, s)
    {
      if InRollOrder(m, s) {
        RollOrderDeclares(m, s, i);
      }
    }
  }

  // The roll policy's contracts in order, if it names declared ones only.
  method OrderedContracts(m: Manifest) returns (ordered: Option<seq<Contract>>)
    requires |m.contractOrder| == |m.contracts|
    ensures ordered.Some? <==> exists s: seq<Contract> :: InRollOrder(m, s)
    ensures ordered.Some? ==> InRollOrder(m, ordered.value)
  {
    var found: seq<Contract> := [];
    for i := 0 to |m.contractOrder|
      invariant |found| == i
      invariant forall k :: 0 <= k < i ==> found[k] in m.contracts && found[k].conId == m.contractOrder[k]
    {
      var c := Lookup(m.contracts, m.contractOrder[i]);
      if c.None? {
        UndeclaredId(m, i);
        return None;
      }
      found := found + [c.value];
    }
    assert InRollOrder(m, found);
    return Some(found);
  }

  // Accepts exactly the manifests whose roll policy lists every contract once and chains their ranges over the period.
  method AssertManifestSemantics(m: Manifest, calendar: Option<Coverage>) returns (ok: bool)
    ensures ok <==> Holds(m, calendar)
  {
    if m.dateTo < m.dateFrom || calendar.None? {
      return false;
    }
    if m.dateFrom / MINUTES_A_DAY < calendar.value.firstDay || m.dateTo / MINUTES_A_DAY > calendar.value.lastDay {
      return false;
    }
    if !Distinct(IdsOf(m.contracts)) || !Distinct(SymbolsOf(m.contracts)) {
      return false;
    }
    if |m.contractOrder| != |m.contracts| || !Distinct(m.contractOrder) {
      return false;
    }
    var found := OrderedContracts(m);
    if found.None? {
      return false;
    }
    var ordered := found.value;
    forall s: seq<Contract> | InRollOrder(m, s)
      ensures s == ordered
    {
      OneRollOrder(m, s, ordered);
    }
    var chained := ChecksOut(ordered, m.dateFrom, m.dateTo);
    return chained;
  }

  method ChecksOut(ordered: seq<Contract>, dateFrom: int, dateTo: int) returns (ok: bool)
    ensures ok <==> Chained(ordered, dateFrom, dateTo)
  {
    if |ordered| == 0 || ordered[0].validFrom != dateFrom || ordered[|ordered| - 1].validTo != dateTo {
      return false;
    }
    var i := 0;
    while i < |ordered|
      invariant 0 <= i <= |ordered|
      invariant forall k :: 0 <= k < i ==> LinkHolds(ordered, k)
    {
      var c := ordered[i];
      if c.validTo < c.validFrom || c.lastTradeAt > c.expiry || c.validTo > c.lastTradeAt
         || (c.rollAt.Some? && c.rollAt.value > c.lastTradeAt) {
        assert !LinkHolds(ordered, i);
        return false;
      }
      if i + 1 == |ordered| {
        if c.rollAt.Some? {
          assert !LinkHolds(ordered, i);
          return false;
        }
      } else {
        var next := ordered[i + 1];
        if next.validFrom != c.validTo + 1 || c.rollAt != Some(next.validFrom) {
          assert !LinkHolds(ordered, i);
          return false;
        }
      }
      assert LinkHolds(ordered, i);
      i := i + 1;
    }
    return true;
  }

  // ----- the ranges partition the period

  predicate Owns(c: Contract, t: int) {
    c.validFrom <= t <= c.validTo
  }

  lemma {:induction false} RangesIncrease(ordered: seq<Contract>, dateFrom: int, dateTo: int, i: nat, j: nat)
    requires Chained(ordered, dateFrom, dateTo) && i < j < |ordered|
    ensures ordered[i].validTo < ordered[j].validFrom
    decreases j - i
  {
    assert LinkHolds(ordered, i) && LinkHolds(ordered, i + 1);
    if i + 1 < j {
      RangesIncrease(ordered, dateFrom, dateTo, i + 1, j);
    }
  }

  // The one contract of a minute.
  function OwnerFrom(ordered: seq<Contract>, i: nat, t: int): (k: nat)
    requires i < |ordered|
    ensures i <= k < |ordered|
    decreases |ordered| - i
  {
    if i == |ordered| - 1 || t <= ordered[i].validTo then i else OwnerFrom(ordered, i + 1, t)
  }

  lemma {:induction false} OwnerFromOwns(ordered: seq<Contract>, dateFrom: int, dateTo: int, i: nat, t: int)
    requires Chained(ordered, dateFrom, dateTo) && i < |ordered| && ordered[i].validFrom <= t <= dateTo
    ensures var k := OwnerFrom(ordered, i, t); i <= k < |ordered| && Owns(ordered[k], t)
    decreases |ordered| - i
  {
    if i < |ordered| - 1 && t > ordered[i].validTo {
      assert LinkHolds(ordered, i);
      OwnerFromOwns(ordered, dateFrom, dateTo, i + 1, t);
    }
  }

  // Every minute of an accepted manifest lies in exactly one contract's range.
  lemma RangesPartitionTime(m: Manifest, calendar: Option<Coverage>, t: int)
    requires Holds(m, calendar) && m.dateFrom <= t <= m.dateTo
    ensures exists c :: c in m.contracts && Owns(c, t) && forall d :: d in m.contracts && Owns(d, t) ==> d == c
  {
    var ordered :| InRollOrder(m, ordered) && Chained(ordered, m.dateFrom, m.dateTo);
    OwnerFromOwns(ordered, m.dateFrom, m.dateTo, 0, t);
    var k := OwnerFrom(ordered, 0, t);
    assert ordered[k] in ordered;
    forall d | d in m.contracts && Owns(d, t)
      ensures d == ordered[k]
    {
      RollOrderIsComplete(m, ordered, d);
      OnlyOneOwner(ordered, m.dateFrom, m.dateTo, k, d, t);
    }
  }

  lemma OnlyOneOwner(ordered: seq<Contract>, dateFrom: int, dateTo: int, k: nat, d: Contract, t: int)
    requires Chained(ordered, dateFrom, dateTo) && k < |ordered| && Owns(ordered[k], t) && d in ordered && Owns(d, t)
    ensures d == ordered[k]
  {
    var j :| 0 <= j < |ordered| && ordered[j] == d;
    if j < k {
      RangesIncrease(ordered, dateFrom, dateTo, j, k);
    } else if k < j {
      RangesIncrease(ordered, dateFrom, dateTo, k, j);
    }
  }

  // ----- what an accepted manifest is, minute by minute

  ghost predicate IsOwned(contracts: seq<Contract>, t: int) {
    exists c :: c in contracts && Owns(c, t)
  }

  // Every minute of the period is in exactly one range, and no range leaves the period.
  ghost predicate Tiles(contracts: seq<Contract>, dateFrom: int, dateTo: int) {
    && (forall c :: c in contracts ==> dateFrom <= c.validFrom <= c.validTo <= dateTo)
    && (forall t :: dateFrom <= t <= dateTo ==> IsOwned(contracts, t))
    && (forall c, d, t {:trigger Owns(c, t), Owns(d, t)} ::
          c in contracts && d in contracts && Owns(c, t) && Owns(d, t) ==> c == d)
  }

  // Every range ends by the last trade, which is by the expiry; a contract rolls the minute after its range, by its
  // last trade, and the one whose range ends the period never does.
  ghost predicate RollsAsTold(contracts: seq<Contract>, dateTo: int) {
    forall c :: c in contracts ==>
      && c.validTo <= c.lastTradeAt <= c.expiry
      && c.rollAt == (if c.validTo == dateTo then None else Some(c.validTo + 1))
      && (c.validTo != dateTo ==> c.validTo + 1 <= c.lastTradeAt)
  }

  // The contracts in the order of their ranges, under the ids that the roll policy lists.
  ghost predicate ListedByRange(m: Manifest, ordered: seq<Contract>) {
    && |ordered| == |m.contracts| == |m.contractOrder|
    && (forall i :: 0 <= i < |ordered| ==> ordered[i] in m.contracts && ordered[i].conId == m.contractOrder[i])
    && forall i, j :: 0 <= i < j < |ordered| ==> ordered[i].validFrom < ordered[j].validFrom
  }

  // Accepted are exactly the manifests inside the calendar whose contracts have ids and symbols of their own, are
  // listed by range, share the period out among them, and roll as told.
  lemma HoldsIff(m: Manifest, calendar: Option<Coverage>)
    ensures Holds(m, calendar) <==>
      && m.dateFrom <= m.dateTo
      && calendar.Some? && calendar.value.firstDay <= m.dateFrom / 1440 && m.dateTo / 1440 <= calendar.value.lastDay
      && (forall i, j :: 0 <= i < j < |m.contracts| ==>
           m.contracts[i].conId != m.contracts[j].conId && m.contracts[i].localSymbol != m.contracts[j].localSymbol)
      && (exists ordered :: ListedByRange(m, ordered))
      && Tiles(m.contracts, m.dateFrom, m.dateTo) && RollsAsTold(m.contracts, m.dateTo)
  {
    OwnIdsIff(m.contracts);
    if Holds(m, calendar) {
      var ordered :| InRollOrder(m, ordered) && Chained(ordered, m.dateFrom, m.dateTo);
      ChainTiles(m, ordered);
    }
    if m.dateFrom <= m.dateTo && Distinct(IdsOf(m.contracts)) && Tiles(m.contracts, m.dateFrom, m.dateTo)
       && RollsAsTold(m.contracts, m.dateTo)
    {
      if ordered :| ListedByRange(m, ordered) {
        TilesChain(m, ordered);
      }
    }
    hide InRollOrder, Chained, ListedByRange, Tiles, RollsAsTold, Distinct;
  }

  lemma OwnIdsIff(contracts: seq<Contract>)
    ensures Distinct(IdsOf(contracts)) && Distinct(SymbolsOf(contracts)) <==>
      forall i, j :: 0 <= i < j < |contracts| ==>
        contracts[i].conId != contracts[j].conId && contracts[i].localSymbol != contracts[j].localSymbol
  {
    var ids, symbols := IdsOf(contracts), SymbolsOf(contracts);
    if Distinct(ids) && Distinct(symbols) {
      forall i, j | 0 <= i < j < |contracts|
        ensures contracts[i].conId != contracts[j].conId && contracts[i].localSymbol != contracts[j].localSymbol
      {
        assert ids[i] != ids[j] && symbols[i] != symbols[j];
      }
    }
  }

  lemma ChainTiles(m: Manifest, ordered: seq<Contract>)
    requires InRollOrder(m, ordered) && Chained(ordered, m.dateFrom, m.dateTo) && m.dateFrom <= m.dateTo
    requires Distinct(IdsOf(m.contracts)) && Distinct(m.contractOrder)
    ensures ListedByRange(m, ordered)
    ensures Tiles(m.contracts, m.dateFrom, m.dateTo) && RollsAsTold(m.contracts, m.dateTo)
  {
    forall i | 0 <= i < |ordered|
      ensures ordered[i] in m.contracts && ordered[i].conId == m.contractOrder[i]
    {
      assert IdsOf(ordered)[i] == ordered[i].conId;
    }
    forall i, j | 0 <= i < j < |ordered|
      ensures ordered[i].validTo < ordered[j].validFrom && ordered[i].validFrom < ordered[j].validFrom
    {
      RangesIncrease(ordered, m.dateFrom, m.dateTo, i, j);
      assert LinkHolds(ordered, i);
    }
    forall c | c in m.contracts
      ensures exists k :: 0 <= k < |ordered| && ordered[k] == c
    {
      RollOrderIsComplete(m, ordered, c);
    }
    forall t | m.dateFrom <= t <= m.dateTo
      ensures IsOwned(m.contracts, t)
    {
      OwnerFromOwns(ordered, m.dateFrom, m.dateTo, 0, t);
      assert ordered[OwnerFrom(ordered, 0, t)] in m.contracts;
    }
    forall c | c in m.contracts
      ensures m.dateFrom <= c.validFrom <= c.validTo <= m.dateTo && c.validTo <= c.lastTradeAt <= c.expiry
      ensures c.rollAt == if c.validTo == m.dateTo then None else Some(c.validTo + 1)
      ensures c.validTo != m.dateTo ==> c.validTo + 1 <= c.lastTradeAt
    {
      var k :| 0 <= k < |ordered| && ordered[k] == c;
      assert LinkHolds(ordered, k) && LinkHolds(ordered, |ordered| - 1);
    }
  }

  lemma TilesChain(m: Manifest, ordered: seq<Contract>)
    requires ListedByRange(m, ordered) && m.dateFrom <= m.dateTo && Distinct(IdsOf(m.contracts))
    requires Tiles(m.contracts, m.dateFrom, m.dateTo) && RollsAsTold(m.contracts, m.dateTo)
    ensures Distinct(m.contractOrder) && InRollOrder(m, ordered) && Chained(ordered, m.dateFrom, m.dateTo)
  {
    forall i, j | 0 <= i < j < |ordered|
      ensures m.contractOrder[i] != m.contractOrder[j]
    {
      if m.contractOrder[i] == m.contractOrder[j] {
        SameId(m.contracts, ordered[i], ordered[j]);
      }
    }
    assert IdsOf(ordered) == m.contractOrder;
    forall t | m.dateFrom <= t <= m.dateTo
      ensures IsOwned(ordered, t)
    {
      assert IsOwned(m.contracts, t);
      var c :| c in m.contracts && Owns(c, t);
      RollOrderIsComplete(m, ordered, c);
    }
    assert IsOwned(ordered, m.dateFrom);
    var first :| 0 <= first < |ordered| && Owns(ordered[first], m.dateFrom);
    if first > 0 {
      assert ordered[0] in m.contracts && ordered[0].validFrom < ordered[first].validFrom;
    }
    forall i | 0 <= i < |ordered|
      ensures LinkHolds(ordered, i)
      ensures i == |ordered| - 1 ==> ordered[i].validTo == m.dateTo
    {
      NextRangeFollows(m, ordered, i);
    }
  }

  lemma NextRangeFollows(m: Manifest, ordered: seq<Contract>, i: nat)
    requires ListedByRange(m, ordered) && i < |ordered|
    requires Tiles(m.contracts, m.dateFrom, m.dateTo)
    requires forall t :: m.dateFrom <= t <= m.dateTo ==> IsOwned(ordered, t)
    ensures if i == |ordered| - 1 then ordered[i].validTo == m.dateTo
            else ordered[i + 1].validFrom == ordered[i].validTo + 1
  {
    var t := ordered[i].validTo + 1;
    if i < |ordered| - 1 {
      assert !Owns(ordered[i], ordered[i + 1].validFrom) by {
        assert Owns(ordered[i + 1], ordered[i + 1].validFrom);
      }
    }
    if t <= m.dateTo {
      assert IsOwned(ordered, t);
      var k :| 0 <= k < |ordered| && Owns(ordered[k], t);
      if k < i {
        assert Owns(ordered[k], ordered[i].validFrom) && Owns(ordered[i], ordered[i].validFrom);
      }
    }
  }

  // A roll order of as many distinct contracts as there are leaves none out.
  lemma RollOrderIsComplete(m: Manifest, ordered: seq<Contract>, c: Contract)
    requires InRollOrder(m, ordered) && Distinct(m.contractOrder) && Distinct(IdsOf(m.contracts)) && c in m.contracts
    ensures c in ordered
  {
    if c !in ordered {
      var i :| 0 <= i < |m.contracts| && m.contracts[i] == c;
      var rest := m.contracts[..i] + m.contracts[i + 1..];
      forall k | 0 <= k < |ordered|
        ensures ordered[k] in rest
      {
        assert ordered[k] in ordered;
        var j :| 0 <= j < |m.contracts| && m.contracts[j] == ordered[k];
        assert rest[if j < i then j else j - 1] == ordered[k];
      }
      forall a, b | 0 <= a < b < |ordered|
        ensures ordered[a] != ordered[b]
      {
        assert IdsOf(ordered)[a] != IdsOf(ordered)[b];
      }
      Pigeonhole(ordered, rest);
    }
  }

  // Distinct members of a list are no more than the list is long.
  lemma {:induction false} Pigeonhole<T>(s: seq<T>, holes: seq<T>)
    requires forall i, j :: 0 <= i < j < |s| ==> s[i] != s[j]
    requires forall i :: 0 <= i < |s| ==> s[i] in holes
    ensures |s| <= |holes|
  {
    if s != [] {
      var last := s[|s| - 1];
      var h :| 0 <= h < |holes| && holes[h] == last;
      var rest := holes[..h] + holes[h + 1..];
      forall i | 0 <= i < |s| - 1
        ensures s[i] in rest
      {
        var g :| 0 <= g < |holes| && holes[g] == s[i];
        assert rest[if g < h then g else g - 1] == s[i];
      }
      Pigeonhole(s[..|s| - 1], rest);
    }
  }
}
