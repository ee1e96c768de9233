/** The drawdown of a research scenario: the deepest fall of cumulative profit from an earlier level. */
module Drawdown {
  // Cumulative profit after the first `n` fills; zero before any.
  function Cumulative(net: seq<real>, n: nat): real
    requires n <= |net|
  {
    if n == 0 then 0.0 else Cumulative(net, n - 1) + net[n - 1]
  }

  predicate IsPeak(net: seq<real>, n: nat, peak: real)
    requires n <= |net|
  {
    && (forall i :: 0 <= i <= n ==> Cumulative(net, i) <= peak)
    && exists i :: 0 <= i <= n && Cumulative(net, i) == peak
  }

  // The least change from any point of the curve, its start included, to a later or the same one.
  ghost predicate IsDrawdown(net: seq<real>, n: nat, drawdown: real)
    requires n <= |net|
  {
    && (forall i, j :: 0 <= i <= j <= n ==> drawdown <= Cumulative(net, j) - Cumulative(net, i))
    && exists i, j :: 0 <= i <= j <= n && Cumulative(net, j) - Cumulative(net, i) == drawdown
  }

  lemma PeakMovesOn(net: seq<real>, n: nat, peak: real)
    requires n < |net| && IsPeak(net, n, peak)
    ensures var cumulative := Cumulative(net, n + 1); IsPeak(net, n + 1, if peak < cumulative then cumulative else peak)
  {
    hide Cumulative;
    var i :| 0 <= i <= n && Cumulative(net, i) == peak;
    var cumulative := Cumulative(net, n + 1);
    assert Cumulative(net, if peak < cumulative then n + 1 else i) == if peak < cumulative then cumulative else peak;
  }

  lemma DrawdownMovesOn(net: seq<real>, n: nat, peak: real, drawdown: real)
    requires n < |net| && IsPeak(net, n + 1, peak) && IsDrawdown(net, n, drawdown)
    ensures var fall := Cumulative(net, n + 1) - peak;
      IsDrawdown(net, n + 1, if fall < drawdown then fall else drawdown)
  {
    hide Cumulative;
    var fall := Cumulative(net, n + 1) - peak;
    var p :| 0 <= p <= n + 1 && Cumulative(net, p) == peak;
    var i, j :| 0 <= i <= j <= n && Cumulative(net, j) - Cumulative(net, i) == drawdown;
    var least := if fall < drawdown then fall else drawdown;
    var high, low := if fall < drawdown then p else i, if fall < drawdown then n + 1 else j;
    assert Cumulative(net, low) - Cumulative(net, high) == least;
  }

  lemma FlatStart(net: seq<real>)
    ensures Cumulative(net, 0) == 0.0 && IsPeak(net, 0, 0.0) && IsDrawdown(net, 0, 0.0)
  {
    assert Cumulative(net, 0) - Cumulative(net, 0) == 0.0;
  }

  // One pass over the fills finds the deepest fall of the whole curve.
  method MaxDrawdown(net: seq<real>) returns (maxDrawdown: real)
    ensures IsDrawdown(net, |net|, maxDrawdown) && maxDrawdown <= 0.0
  {
    hide IsPeak, IsDrawdown;
    var cumulative, peak := 0.0, 0.0;
    maxDrawdown := 0.0;
    FlatStart(net);
    var i := 0;
    while i < |net|
      invariant 0 <= i <= |net| && cumulative == Cumulative(net, i)
      invariant IsPeak(net, i, peak) && IsDrawdown(net, i, maxDrawdown) && maxDrawdown <= 0.0
    {
      cumulative := cumulative + net[i];
      PeakMovesOn(net, i, peak);
      peak := if peak < cumulative then cumulative else peak;
      DrawdownMovesOn(net, i, peak, maxDrawdown);
      maxDrawdown := if cumulative - peak < maxDrawdown then cumulative - peak else maxDrawdown;
      i := i + 1;
    }
  }

  // No other number is the drawdown, and no losing stretch is deeper than it.
  lemma DrawdownIsUnique(net: seq<real>, a: real, b: real)
    requires IsDrawdown(net, |net|, a) && IsDrawdown(net, |net|, b)
    ensures a == b
  {
    hide Cumulative;
    var i, j :| 0 <= i <= j <= |net| && Cumulative(net, j) - Cumulative(net, i) == a;
    var k, l :| 0 <= k <= l <= |net| && Cumulative(net, l) - Cumulative(net, k) == b;
  }

  // ----- the curve left out: falls are runs of fills

  function Sum(fills: seq<real>): real {
    if fills == [] then 0.0 else fills[0] + Sum(fills[1..])
  }

  lemma {:induction false} SumAppends(fills: seq<real>, last: real)
    ensures Sum(fills + [last]) == Sum(fills) + last
  {
    if fills != [] {
      assert (fills + [last])[1..] == fills[1..] + [last];
      SumAppends(fills[1..], last);
    }
  }

  lemma {:induction false} FallIsRun(net: seq<real>, i: nat, j: nat)
    requires i <= j <= |net|
    ensures Cumulative(net, j) - Cumulative(net, i) == Sum(net[i..j])
    decreases j
  {
    if i < j {
      FallIsRun(net, i, j - 1);
      assert net[i..j] == net[i..j - 1] + [net[j - 1]];
      SumAppends(net[i..j - 1], net[j - 1]);
    }
  }

  // The drawdown is the worst profit of any stretch of consecutive fills, the empty ones included.
  lemma DrawdownIsWorstRun(net: seq<real>, drawdown: real)
    ensures IsDrawdown(net, |net|, drawdown) <==>
              && (forall i, j :: 0 <= i <= j <= |net| ==> drawdown <= Sum(net[i..j]))
              && exists i, j :: 0 <= i <= j <= |net| && Sum(net[i..j]) == drawdown
  {
    forall i, j | 0 <= i <= j <= |net|
      ensures Cumulative(net, j) - Cumulative(net, i) == Sum(net[i..j])
    {
      FallIsRun(net, i, j);
    }
    hide Cumulative, Sum;
    if i, j :| 0 <= i <= j <= |net| && Sum(net[i..j]) == drawdown {
      assert Cumulative(net, j) - Cumulative(net, i) == drawdown;
    }
  }
}
