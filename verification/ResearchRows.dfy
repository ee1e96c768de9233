/** Research rows: merging downloaded chunks exactly, in an order that does not depend on how they arrived. */
module ResearchRows {
  import opened Outcomes

  datatype Row = Row(
    conId: nat, ts: int, openTicks: int, highTicks: int, lowTicks: int, closeTicks: int, volume: nat)

  datatype RowKey = RowKey(ts: int, conId: nat)

  function KeyOf(r: Row): RowKey {
    RowKey(r.ts, r.conId)
  }

  predicate Before(a: Row, b: Row) {
    a.ts < b.ts || (a.ts == b.ts && a.conId < b.conId)
  }

  ghost predicate Sorted(rows: seq<Row>) {
    forall i, j :: 0 <= i < j < |rows| ==> Before(rows[i], rows[j])
  }

  // Two bars of one contract at one minute that do not agree.
  ghost predicate Conflicts(rows: seq<Row>) {
    exists a, b :: a in rows && b in rows && a.ts == b.ts && a.conId == b.conId && a != b
  }

  ghost predicate SameRows(a: seq<Row>, b: seq<Row>) {
    forall r :: r in a <==> r in b
  }

  function Insert(rows: seq<Row>, r: Row): seq<Row> {
    if rows == [] || Before(rows[|rows| - 1], r) then rows + [r]
    else Insert(rows[..|rows| - 1], r) + [rows[|rows| - 1]]
  }

  function Sort(rows: seq<Row>): seq<Row> {
    if rows == [] then [] else Insert(Sort(rows[..|rows| - 1]), rows[|rows| - 1])
  }

  lemma {:induction false} InsertSorts(rows: seq<Row>, r: Row)
    requires Sorted(rows) && forall x :: x in rows ==> KeyOf(x) != KeyOf(r)
    ensures Sorted(Insert(rows, r)) && forall x :: x in Insert(rows, r) <==> x in rows || x == r
  {
    if rows != [] {
      var init, top := rows[..|rows| - 1], rows[|rows| - 1];
      assert rows == init + [top] && top in rows;
      if Before(top, r) {
        AppendSorts(rows, r);
      } else {
        InsertSorts(init, r);
        forall x | x in init
          ensures Before(x, top)
        {
          var j :| 0 <= j < |init| && init[j] == x;
          assert rows[j] == x && rows[|init|] == top;
        }
        AppendSorts(Insert(init, r), top);
      }
    }
  }

  lemma AppendSorts(rows: seq<Row>, r: Row)
    requires Sorted(rows)
    requires (forall x :: x in rows ==> Before(x, r)) || (rows != [] && Before(rows[|rows| - 1], r))
    ensures Sorted(rows + [r])
  {
    forall i | 0 <= i < |rows|
      ensures Before(rows[i], r)
    {
      assert rows[i] in rows;
    }
  }

  ghost predicate DistinctKeys(rows: seq<Row>) {
    forall i, j :: 0 <= i < j < |rows| ==> KeyOf(rows[i]) != KeyOf(rows[j])
  }

  lemma {:induction false} SortSorts(rows: seq<Row>)
    requires DistinctKeys(rows)
    ensures Sorted(Sort(rows)) && SameRows(Sort(rows), rows)
  {
    if rows != [] {
      var init, last := rows[..|rows| - 1], rows[|rows| - 1];
      assert rows == init + [last];
      SortSorts(init);
      forall x | x in Sort(init)
        ensures KeyOf(x) != KeyOf(last)
      {
        var i :| 0 <= i < |init| && init[i] == x;
        assert rows[i] == x && rows[|init|] == last;
      }
      InsertSorts(Sort(init), last);
    }
  }

  // The map of rows by key, and its values in insertion order.
  ghost predicate Gathered(rows: seq<Row>, found: map<RowKey, Row>, values: seq<Row>) {
    && SameRows(rows, values) && DistinctKeys(values)
    && (forall r :: r in values ==> KeyOf(r) in found && found[KeyOf(r)] == r)
    && (forall k :: k in found ==> found[k] in values && KeyOf(found[k]) == k)
  }

  // Fails exactly on conflicting duplicates; otherwise every distinct row once, by time and then contract.
  method MergeExactResearchRows(rows: seq<Row>) returns (merged: Option<seq<Row>>)
    ensures merged.None? <==> Conflicts(rows)
    ensures merged.Some? ==> Sorted(merged.value) && SameRows(merged.value, rows)
  {
    var found: map<RowKey, Row> := map[];
    var values: seq<Row> := [];
    var i := 0;
    while i < |rows|
      invariant 0 <= i <= |rows| && Gathered(rows[..i], found, values)
    {
      var row := rows[i];
      if KeyOf(row) in found && found[KeyOf(row)] != row {
        ConflictFound(rows, i, found, values);
        return None;
      }
      OneMoreRow(rows[..i], row, found, values);
      assert rows[..i + 1] == rows[..i] + [row];
      if KeyOf(row) !in found {
        values := values + [row];
      }
      found := found[KeyOf(row) := row];
      i := i + 1;
    }
    assert rows[..i] == rows;
    NoConflict(rows, found, values);
    SortSorts(values);
    return Some(Sort(values));
  }

  lemma OneMoreRow(rows: seq<Row>, row: Row, found: map<RowKey, Row>, values: seq<Row>)
    requires Gathered(rows, found, values) && (KeyOf(row) in found ==> found[KeyOf(row)] == row)
    ensures Gathered(rows + [row], found[KeyOf(row) := row], if KeyOf(row) in found then values else values + [row])
  {
    assert forall r :: r in rows + [row] <==> r in rows || r == row;
    assert forall r :: r in values + [row] <==> r in values || r == row;
    if KeyOf(row) !in found {
      forall j | 0 <= j < |values|
        ensures KeyOf(values[j]) != KeyOf(row)
      {
        assert values[j] in values;
      }
    }
  }

  lemma ConflictFound(rows: seq<Row>, i: nat, found: map<RowKey, Row>, values: seq<Row>)
    requires i < |rows| && Gathered(rows[..i], found, values)
    requires KeyOf(rows[i]) in found && found[KeyOf(rows[i])] != rows[i]
    ensures Conflicts(rows)
  {
    var other := found[KeyOf(rows[i])];
    assert other in values && other in rows[..i];
    assert rows[i] in rows && other in rows && KeyOf(other) == KeyOf(rows[i]);
  }

  lemma NoConflict(rows: seq<Row>, found: map<RowKey, Row>, values: seq<Row>)
    requires Gathered(rows, found, values)
    ensures !Conflicts(rows)
  {
  }

  // A sorted list is determined by its rows: the merge does not depend on the order rows arrived in.
  lemma {:induction false} SortedRowsAreUnique(a: seq<Row>, b: seq<Row>)
    requires Sorted(a) && Sorted(b) && SameRows(a, b)
    ensures a == b
  {
    if a == [] {
      if b != [] {
        HasMember(b);
      }
    } else {
      assert a[|a| - 1] in b;
      var x, y := a[|a| - 1], b[|b| - 1];
      assert y in a;
      LastIsGreatest(a, y);
      LastIsGreatest(b, x);
      assert x == y;
      DropLast(a, b);
      SortedRowsAreUnique(a[..|a| - 1], b[..|b| - 1]);
    }
  }

  lemma HasMember(b: seq<Row>)
    requires b != []
    ensures exists r :: r in b
  {
    assert b[0] in b;
  }

  lemma LastIsGreatest(a: seq<Row>, y: Row)
    requires Sorted(a) && y in a
    ensures y == a[|a| - 1] || Before(y, a[|a| - 1])
  {
    var i :| 0 <= i < |a| && a[i] == y;
  }

  lemma DropLast(a: seq<Row>, b: seq<Row>)
    requires Sorted(a) && Sorted(b) && SameRows(a, b) && a != [] && b != [] && a[|a| - 1] == b[|b| - 1]
    ensures Sorted(a[..|a| - 1]) && Sorted(b[..|b| - 1]) && SameRows(a[..|a| - 1], b[..|b| - 1])
  {
    WithoutLast(a);
    WithoutLast(b);
    var x, y, last := a[..|a| - 1], b[..|b| - 1], a[|a| - 1];
    forall r
      ensures r in x <==> r in y
    {
      assert r in x <==> r in a && r != last;
      assert r in y <==> r in b && r != last;
    }
  }

  lemma WithoutLast(a: seq<Row>)
    requires Sorted(a) && a != []
    ensures Sorted(a[..|a| - 1]) && forall r :: r in a[..|a| - 1] <==> r in a && r != a[|a| - 1]
  {
    var init, last := a[..|a| - 1], a[|a| - 1];
    assert a == init + [last];
    forall r | r in init
      ensures r != last
    {
      var i :| 0 <= i < |init| && init[i] == r;
      assert Before(a[i], a[|a| - 1]);
    }
  }

  // Merging each chunk as it is saved and then everything collected gives what one merge of all rows gives: the same
  // failures, the same rows.
  lemma MergingTwiceMergesOnce(
    first: seq<Row>, second: seq<Row>, a: seq<Row>, b: seq<Row>, once: seq<Row>, twice: seq<Row>)
    requires Sorted(a) && SameRows(a, first) && Sorted(b) && SameRows(b, second)
    requires Sorted(once) && SameRows(once, first + second) && Sorted(twice) && SameRows(twice, a + b)
    ensures once == twice && (Conflicts(a + b) <==> Conflicts(first + second))
  {
    assert SameRows(first + second, a + b);
    SortedRowsAreUnique(once, twice);
  }
}
