/**
 * Pacing historical requests: a sliding ten-minute window of grants and a bound on requests in flight, shared by
 * interleaved callers. Between two awaits a caller runs alone, so each step below is atomic.
 */
module RateLimiter {
  import opened Outcomes

  const WINDOW: int := 600_000

  // `requestTimes`, `inFlight` and `slotWaiters` are the limiter's own fields; the rest says where the callers are.
  // `grants` remembers every grant, oldest first.
  datatype State = State(
    requestTimes: seq<int>, inFlight: nat, slotWaiters: seq<nat>, woken: set<nat>, sleeping: set<nat>,
    flying: set<nat>, grants: seq<int>)

  datatype Limits = Limits(pacing: nat, maxConcurrency: nat)

  datatype Step =
    | Arrive(caller: nat, now: int) | Resume(caller: nat, now: int) | Awake(caller: nat, now: int)
    | Release(caller: nat, now: int)

  function Start(): State {
    State([], 0, [], {}, {}, {}, [])
  }

  // The grants still inside the window.
  function Shifted(times: seq<int>, now: int): seq<int>
    decreases |times|
  {
    if times != [] && now - times[0] > WINDOW then Shifted(times[1..], now) else times
  }

  // The pacing loop's turn: a grant, or a sleep.
  function Paced(l: Limits, s: State, caller: nat, now: int): State {
    var times := Shifted(s.requestTimes, now);
    if |times| < l.pacing
    then s.(requestTimes := times + [now], inFlight := s.inFlight + 1, flying := s.flying + {caller},
            grants := s.grants + [now])
    else s.(requestTimes := times, sleeping := s.sleeping + {caller})
  }

  // The slot check: queue for a slot, or go on to pacing.
  function Admitted(l: Limits, s: State, caller: nat, now: int): State {
    if s.inFlight >= l.maxConcurrency then s.(slotWaiters := s.slotWaiters + [caller]) else Paced(l, s, caller, now)
  }

  predicate Outside(s: State, caller: nat) {
    caller !in s.slotWaiters && caller !in s.woken && caller !in s.sleeping && caller !in s.flying
  }

  function Released(s: State, caller: nat): State {
    var left := s.(inFlight := if s.inFlight > 0 then s.inFlight - 1 else 0, flying := s.flying - {caller});
    if s.slotWaiters == [] then left
    else left.(slotWaiters := s.slotWaiters[1..], woken := s.woken + {s.slotWaiters[0]})
  }

  // One step; one its caller is not in place for does nothing. A caller that slept for its pacing goes back to the
  // pacing loop only.
  function Next(l: Limits, s: State, step: Step): State {
    match step
    case Arrive(caller, now) => if Outside(s, caller) then Admitted(l, s, caller, now) else s
    case Resume(caller, now) =>
      if caller in s.woken then Admitted(l, s.(woken := s.woken - {caller}), caller, now) else s
    case Awake(caller, now) =>
      if caller in s.sleeping then Paced(l, s.(sleeping := s.sleeping - {caller}), caller, now) else s
    case Release(caller, _) => if caller in s.flying then Released(s, caller) else s
  }

  // ----- the limiter object

  // The ghost fields say where the callers are; the methods are what a caller does between two awaits.
  class HistoricalRateLimiter {
    const limits: Limits
    var requestTimes: seq<int>
    var inFlight: nat
    var slotWaiters: seq<nat>
    ghost var woken: set<nat>
    ghost var sleeping: set<nat>
    ghost var flying: set<nat>
    ghost var grants: seq<int>

    ghost function View(): State
      reads this
    {
      State(requestTimes, inFlight, slotWaiters, woken, sleeping, flying, grants)
    }

    constructor (limits: Limits)
      ensures this.limits == limits && View() == Start()
    {
      this.limits, requestTimes, inFlight, slotWaiters := limits, [], 0, [];
      woken, sleeping, flying, grants := {}, {}, {}, [];
    }

    // One turn of the pacing loop.
    method TryGrant(caller: nat, now: int) returns (granted: bool)
      modifies this
      ensures granted <==> |Shifted(old(requestTimes), now)| < limits.pacing
      ensures View() == Paced(limits, old(View()), caller, now)
    {
      while |requestTimes| > 0 && now - requestTimes[0] > WINDOW
        invariant Shifted(requestTimes, now) == Shifted(old(requestTimes), now)
        invariant View() == old(View()).(requestTimes := requestTimes)
        decreases |requestTimes|
      {
        requestTimes := requestTimes[1..];
      }
      granted := |requestTimes| < limits.pacing;
      if granted {
        requestTimes := requestTimes + [now];
        inFlight := inFlight + 1;
        flying, grants := flying + {caller}, grants + [now];
      } else {
        sleeping := sleeping + {caller};
      }
    }

    // The slot check before pacing: a caller without a slot queues up.
    method TakeSlotOrWait(caller: nat) returns (free: bool)
      modifies this
      ensures free <==> old(inFlight) < limits.maxConcurrency
      ensures View() == old(View()).(slotWaiters := old(slotWaiters) + if free then [] else [caller])
    {
      free := inFlight < limits.maxConcurrency;
      if !free {
        slotWaiters := slotWaiters + [caller];
      } else {
        assert slotWaiters + [] == slotWaiters;
      }
    }

    // From the call to the first await, or to the grant.
    method AcquireRateLimit(caller: nat, now: int) returns (granted: bool)
      requires Outside(View(), caller)
      modifies this
      ensures View() == Next(limits, old(View()), Arrive(caller, now))
      ensures granted <==> caller in flying
    {
      var free := TakeSlotOrWait(caller);
      assert old(slotWaiters) + [] == old(slotWaiters);
      granted := false;
      if free {
        granted := TryGrant(caller, now);
      }
    }

    // A woken waiter checks for a slot again.
    method Resume(caller: nat, now: int) returns (granted: bool)
      requires caller in woken && caller !in flying
      modifies this
      ensures View() == Next(limits, old(View()), Step.Resume(caller, now))
      ensures granted <==> caller in flying
    {
      woken := woken - {caller};
      ghost var waiting := slotWaiters;
      var free := TakeSlotOrWait(caller);
      assert waiting + [] == waiting;
      granted := false;
      if free {
        granted := TryGrant(caller, now);
      }
    }

    // After its sleep a caller goes through the pacing loop again, and through that only.
    method Awake(caller: nat, now: int) returns (granted: bool)
      requires caller in sleeping && caller !in flying
      modifies this
      ensures View() == Next(limits, old(View()), Step.Awake(caller, now))
      ensures granted <==> caller in flying
    {
      sleeping := sleeping - {caller};
      granted := TryGrant(caller, now);
    }

    method ReleaseRateLimit(caller: nat, ghost now: int) returns (waiter: Option<nat>)
      requires caller in flying
      modifies this
      ensures View() == Next(limits, old(View()), Release(caller, now))
      ensures waiter == if old(slotWaiters) == [] then None else Some(old(slotWaiters)[0])
    {
      inFlight := if inFlight - 1 < 0 then 0 else inFlight - 1;
      flying := flying - {caller};
      if slotWaiters == [] {
        return None;
      }
      waiter := Some(slotWaiters[0]);
      woken := woken + {slotWaiters[0]};
      slotWaiters := slotWaiters[1..];
    }
  }

  // ----- the window

  ghost predicate NonDecreasing(times: seq<int>) {
    forall i, j :: 0 <= i < j < |times| ==> times[i] <= times[j]
  }

  // The remembered times are the latest grants: everything dropped is out of the window for good.
  ghost predicate Remembers(l: Limits, grants: seq<int>, times: seq<int>, now: int) {
    && NonDecreasing(grants) && (forall i :: 0 <= i < |grants| ==> grants[i] <= now)
    && |times| <= |grants| && times == grants[|grants| - |times|..]
    && (forall i :: 0 <= i < |grants| - |times| ==> now - grants[i] > WINDOW)
    && |times| <= l.pacing
  }

  lemma {:induction false} ShiftedIsSuffix(times: seq<int>, now: int)
    ensures var kept := Shifted(times, now);
      && |kept| <= |times| && kept == times[|times| - |kept|..]
      && (forall i :: 0 <= i < |times| - |kept| ==> now - times[i] > WINDOW)
      && (kept != [] ==> now - kept[0] <= WINDOW)
  {
    if times != [] && now - times[0] > WINDOW {
      ShiftedIsSuffix(times[1..], now);
      var kept := Shifted(times[1..], now);
      forall i | 0 <= i < |times| - |kept|
        ensures now - times[i] > WINDOW
      {
        assert i > 0 ==> times[1..][i - 1] == times[i];
      }
    }
  }

  // Any run of more grants than the pacing limit spans more than a window.
  ghost predicate WindowHolds(l: Limits, grants: seq<int>) {
    forall i :: l.pacing <= i < |grants| ==> grants[i] - grants[i - l.pacing] > WINDOW
  }

  lemma LaterRemembers(l: Limits, grants: seq<int>, times: seq<int>, before: int, now: int)
    requires Remembers(l, grants, times, before) && before <= now
    ensures Remembers(l, grants, times, now)
  {
    assert forall i :: 0 <= i < |grants| ==> grants[i] <= before;
  }

  lemma ShiftingRemembers(l: Limits, grants: seq<int>, times: seq<int>, now: int)
    requires Remembers(l, grants, times, now)
    ensures Remembers(l, grants, Shifted(times, now), now)
  {
    ShiftedIsSuffix(times, now);
    var kept := Shifted(times, now);
    var n, k := |grants|, |times|;
    forall i | 0 <= i < n - |kept|
      ensures now - grants[i] > WINDOW
    {
      assert i >= n - k ==> times[i - (n - k)] == grants[i];
    }
    assert kept == grants[n - |kept|..];
    hide Shifted;
  }

  lemma GrantingHolds(l: Limits, grants: seq<int>, times: seq<int>, now: int)
    requires Remembers(l, grants, times, now) && WindowHolds(l, grants) && |times| < l.pacing
    ensures Remembers(l, grants + [now], times + [now], now) && WindowHolds(l, grants + [now])
  {
    var all := grants + [now];
    forall i | l.pacing <= i < |all|
      ensures all[i] - all[i - l.pacing] > WINDOW
    {
      if i < |grants| {
        assert all[i] == grants[i] && all[i - l.pacing] == grants[i - l.pacing];
      } else {
        assert i - l.pacing < |grants| - |times|;
      }
    }
    assert times + [now] == all[|all| - |times + [now]|..];
  }

  // What the pacing loop's turn does to the times and the grants.
  ghost predicate TurnTaken(l: Limits, s: State, after: State, now: int) {
    var times := Shifted(s.requestTimes, now);
    if |times| < l.pacing then after.requestTimes == times + [now] && after.grants == s.grants + [now]
    else after.requestTimes == times && after.grants == s.grants
  }

  lemma TurnHolds(l: Limits, s: State, after: State, before: int, now: int)
    requires Remembers(l, s.grants, s.requestTimes, before) && before <= now && WindowHolds(l, s.grants)
    requires TurnTaken(l, s, after, now)
    ensures Remembers(l, after.grants, after.requestTimes, now) && WindowHolds(l, after.grants)
  {
    hide Remembers, WindowHolds, Shifted;
    LaterRemembers(l, s.grants, s.requestTimes, before, now);
    ShiftingRemembers(l, s.grants, s.requestTimes, now);
    if |Shifted(s.requestTimes, now)| < l.pacing {
      GrantingHolds(l, s.grants, Shifted(s.requestTimes, now), now);
    }
  }

  // ----- runs

  function TimeOf(step: Step): int {
    step.now
  }

  // The clock does not go back.
  ghost predicate InTime(steps: seq<Step>) {
    forall i, j :: 0 <= i < j < |steps| ==> TimeOf(steps[i]) <= TimeOf(steps[j])
  }

  function Run(l: Limits, steps: seq<Step>): State {
    if steps == [] then Start() else Next(l, Run(l, steps[..|steps| - 1]), steps[|steps| - 1])
  }

  lemma NextTakesATurn(l: Limits, s: State, step: Step)
    ensures var after := Next(l, s, step);
      || TurnTaken(l, s, after, TimeOf(step))
      || (after.requestTimes == s.requestTimes && after.grants == s.grants)
  {
    hide Shifted, Outside;
  }

  lemma NextHolds(l: Limits, s: State, step: Step, before: int)
    requires Remembers(l, s.grants, s.requestTimes, before) && before <= TimeOf(step) && WindowHolds(l, s.grants)
    ensures var after := Next(l, s, step);
      Remembers(l, after.grants, after.requestTimes, TimeOf(step)) && WindowHolds(l, after.grants)
  {
    NextTakesATurn(l, s, step);
    hide Next, TurnTaken, Remembers, WindowHolds;
    var after := Next(l, s, step);
    if TurnTaken(l, s, after, TimeOf(step)) {
      TurnHolds(l, s, after, before, TimeOf(step));
    } else {
      LaterRemembers(l, s.grants, s.requestTimes, before, TimeOf(step));
    }
  }

  lemma {:induction false} RunsHold(l: Limits, steps: seq<Step>, now: int)
    requires InTime(steps) && (steps != [] ==> TimeOf(steps[|steps| - 1]) <= now)
    ensures var s := Run(l, steps); Remembers(l, s.grants, s.requestTimes, now) && WindowHolds(l, s.grants)
  {
    if steps != [] {
      var init, last := steps[..|steps| - 1], steps[|steps| - 1];
      assert InTime(init) by {
        assert forall i :: 0 <= i < |init| ==> init[i] == steps[i];
      }
      assert init != [] ==> TimeOf(init[|init| - 1]) <= TimeOf(last);
      RunsHold(l, init, TimeOf(last));
      hide Next, Remembers, WindowHolds;
      NextHolds(l, Run(l, init), last, TimeOf(last));
      var s := Run(l, steps);
      LaterRemembers(l, s.grants, s.requestTimes, TimeOf(last), now);
    }
  }

  // The grants of a closed window.
  function GrantsIn(grants: seq<int>, start: int): nat {
    if grants == [] then 0
    else
      GrantsIn(grants[..|grants| - 1], start)
      + if start <= grants[|grants| - 1] <= start + 10 * 60 * 1000 then 1 else 0
  }

  lemma {:induction false} GrantsBefore(grants: seq<int>, start: int, k: nat)
    requires NonDecreasing(grants) && k <= |grants|
    requires k < |grants| ==> grants[k] >= start
    requires forall i :: 0 <= i < k ==> grants[i] < start
    ensures GrantsIn(grants, start) <= |grants| - k
  {
    if |grants| > k {
      var init := grants[..|grants| - 1];
      GrantsBefore(init, start, k);
    } else if grants != [] {
      GrantsBefore(grants[..|grants| - 1], start, k - 1);
    }
  }

  lemma {:induction false} WindowHoldsOfPrefix(l: Limits, grants: seq<int>, n: nat)
    requires WindowHolds(l, grants) && NonDecreasing(grants) && n <= |grants|
    ensures WindowHolds(l, grants[..n]) && NonDecreasing(grants[..n])
  {
  }

  // No closed ten-minute window ever holds more grants than the pacing limit, whatever the callers do.
  lemma {:induction false} WindowsHoldAtMost(l: Limits, grants: seq<int>, start: int)
    requires WindowHolds(l, grants) && NonDecreasing(grants)
    ensures GrantsIn(grants, start) <= l.pacing
  {
    if grants != [] {
      var init, last := grants[..|grants| - 1], grants[|grants| - 1];
      WindowHoldsOfPrefix(l, grants, |grants| - 1);
      if last < start || last > start + WINDOW {
        WindowsHoldAtMost(l, init, start);
      } else {
        var k := FirstInside(grants, start);
        GrantsBefore(grants, start, k);
        FewInside(l, grants, start, k);
      }
    }
  }

  lemma FewInside(l: Limits, grants: seq<int>, start: int, k: nat)
    requires WindowHolds(l, grants) && NonDecreasing(grants) && k < |grants|
    requires start <= grants[k] && grants[|grants| - 1] <= start + WINDOW
    ensures |grants| - k <= l.pacing
  {
    var n := |grants| - 1;
    if k + l.pacing <= n {
      FarApart(l, grants, k);
    }
  }

  lemma FarApart(l: Limits, grants: seq<int>, k: nat)
    requires WindowHolds(l, grants) && k + l.pacing < |grants|
    ensures grants[k + l.pacing] - grants[k] > WINDOW
  {
    var i := k + l.pacing;
    assert grants[i] - grants[i - l.pacing] > WINDOW;
  }

  lemma {:induction false} FirstInside(grants: seq<int>, start: int) returns (k: nat)
    requires NonDecreasing(grants) && grants != [] && grants[|grants| - 1] >= start
    ensures k < |grants| && grants[k] >= start && forall i :: 0 <= i < k ==> grants[i] < start
  {
    var n := |grants| - 1;
    if n > 0 && grants[n - 1] >= start {
      k := FirstInside(grants[..n], start);
    } else {
      k := n;
    }
  }

  lemma PacingIsSafe(l: Limits, steps: seq<Step>, start: int)
    requires InTime(steps)
    ensures GrantsIn(Run(l, steps).grants, start) <= l.pacing
  {
    var now := if steps == [] then 0 else TimeOf(steps[|steps| - 1]);
    RunsHold(l, steps, now);
    WindowsHoldAtMost(l, Run(l, steps).grants, start);
  }

  // The grants of the last ten minutes, by their places.
  ghost function RecentGrants(grants: seq<int>, now: int): set<int> {
    set i | 0 <= i < |grants| && now - grants[i] <= 10 * 60 * 1000
  }

  lemma ShiftedAreRecent(l: Limits, grants: seq<int>, times: seq<int>, now: int)
    requires Remembers(l, grants, times, now)
    ensures |Shifted(times, now)| == |RecentGrants(grants, now)|
  {
    ShiftingRemembers(l, grants, times, now);
    ShiftedIsSuffix(times, now);
    var kept := Shifted(times, now);
    var first := |grants| - |kept|;
    hide Shifted;
    forall i | 0 <= i < |grants|
      ensures now - grants[i] <= 10 * 60 * 1000 <==> first <= i
    {
      if first <= i {
        assert kept[0] == grants[first];
      }
    }
    PlacesFrom(grants, now, first);
  }

  lemma {:induction false} PlacesFrom(grants: seq<int>, now: int, first: nat)
    requires first <= |grants|
    requires forall i :: 0 <= i < |grants| ==> (now - grants[i] <= 10 * 60 * 1000 <==> first <= i)
    ensures |RecentGrants(grants, now)| == |grants| - first
  {
    if first < |grants| {
      var n := |grants| - 1;
      assert forall i :: 0 <= i < n ==> grants[..n][i] == grants[i];
      PlacesFrom(grants[..n], now, first);
      assert RecentGrants(grants, now) == RecentGrants(grants[..n], now) + {n};
    } else {
      assert RecentGrants(grants, now) == {};
    }
  }

  // A caller with a free slot is granted at once exactly when fewer than the limit were granted in the last ten
  // minutes; otherwise it sleeps. Without a free slot it queues up behind the others.
  lemma GrantedIff(l: Limits, steps: seq<Step>, caller: nat, now: int)
    requires InTime(steps + [Arrive(caller, now)]) && Outside(Run(l, steps), caller)
    ensures var s := Run(l, steps);
      var after := Next(l, s, Arrive(caller, now));
      if s.inFlight >= l.maxConcurrency then
        after == s.(slotWaiters := s.slotWaiters + [caller])
      else if |RecentGrants(s.grants, now)| < l.pacing then
        && after.flying == s.flying + {caller} && after.inFlight == s.inFlight + 1 && after.grants == s.grants + [now]
        && after.sleeping == s.sleeping && after.slotWaiters == s.slotWaiters && after.woken == s.woken
      else
        && after.sleeping == s.sleeping + {caller} && after.inFlight == s.inFlight && after.grants == s.grants
        && after.flying == s.flying && after.slotWaiters == s.slotWaiters && after.woken == s.woken
  {
    InTimePrefix(steps, Arrive(caller, now));
    RunsHold(l, steps, now);
    var s := Run(l, steps);
    ShiftedAreRecent(l, s.grants, s.requestTimes, now);
    hide Run, Shifted, RecentGrants, Remembers, WindowHolds, InTime;
  }

  lemma InTimePrefix(steps: seq<Step>, step: Step)
    requires InTime(steps + [step])
    ensures InTime(steps) && (steps != [] ==> TimeOf(steps[|steps| - 1]) <= TimeOf(step))
  {
    var all := steps + [step];
    assert forall i :: 0 <= i < |steps| ==> all[i] == steps[i];
    assert all[|steps|] == step;
  }

  // A sleeper that wakes is granted by the same rule, whatever slots are free; a woken waiter is treated as one that
  // arrives.
  lemma WokenIff(l: Limits, steps: seq<Step>, caller: nat, now: int)
    requires InTime(steps + [Awake(caller, now)]) && caller in Run(l, steps).sleeping && caller !in Run(l, steps).flying
    ensures var s := Run(l, steps);
      var after := Next(l, s, Awake(caller, now));
      if |RecentGrants(s.grants, now)| < l.pacing then
        && after.flying == s.flying + {caller} && after.inFlight == s.inFlight + 1 && after.grants == s.grants + [now]
        && caller !in after.sleeping
      else after.sleeping == s.sleeping && after.inFlight == s.inFlight && after.grants == s.grants
  {
    InTimePrefix(steps, Awake(caller, now));
    RunsHold(l, steps, now);
    var s := Run(l, steps);
    ShiftedAreRecent(l, s.grants, s.requestTimes, now);
    hide Run, Shifted, RecentGrants, Remembers, WindowHolds, InTime;
    assert s.sleeping - {caller} + {caller} == s.sleeping;
  }

  // A release frees its slot and wakes the one that has waited longest, and only that one.
  lemma ReleaseWakesTheFirst(l: Limits, s: State, caller: nat, now: int)
    requires Placed(s) && caller in s.flying
    ensures var after := Next(l, s, Release(caller, now));
      && after.flying == s.flying - {caller} && after.inFlight == s.inFlight - 1
      && after.sleeping == s.sleeping && after.grants == s.grants && after.requestTimes == s.requestTimes
      && if s.slotWaiters == [] then after.slotWaiters == [] && after.woken == s.woken
         else after.slotWaiters == s.slotWaiters[1..] && after.woken == s.woken + {s.slotWaiters[0]}
  {
    assert s.flying != {};
  }

  // ----- the callers

  // Every caller is in one place, and the count of requests in flight is the number of callers that are.
  ghost predicate Placed(s: State) {
    && s.inFlight == |s.flying|
    && s.flying !! s.sleeping && s.flying !! s.woken && s.sleeping !! s.woken
    && (forall i, j :: 0 <= i < j < |s.slotWaiters| ==> s.slotWaiters[i] != s.slotWaiters[j])
    && (forall c :: c in s.slotWaiters ==> c !in s.flying && c !in s.sleeping && c !in s.woken)
  }

  lemma PacedIsPlaced(l: Limits, s: State, caller: nat, now: int)
    requires Placed(s) && Outside(s, caller)
    ensures Placed(Paced(l, s, caller, now))
  {
    hide Shifted;
  }

  lemma QueuedIsPlaced(s: State, caller: nat)
    requires Placed(s) && Outside(s, caller)
    ensures Placed(s.(slotWaiters := s.slotWaiters + [caller]))
  {
  }

  lemma ReleasedIsPlaced(s: State, caller: nat)
    requires Placed(s) && caller in s.flying
    ensures Placed(Released(s, caller))
  {
    if s.slotWaiters != [] {
      assert s.slotWaiters[0] in s.slotWaiters;
      forall c | c in s.slotWaiters[1..]
        ensures c != s.slotWaiters[0] && c in s.slotWaiters
      {
        var i :| 0 <= i < |s.slotWaiters[1..]| && s.slotWaiters[1..][i] == c;
        assert s.slotWaiters[i + 1] == c;
      }
    }
  }

  // A woken or sleeping caller leaves its place before it moves on.
  lemma LeavingIsPlaced(s: State, caller: nat, left: State)
    requires Placed(s)
    requires (caller in s.woken && left == s.(woken := s.woken - {caller}))
             || (caller in s.sleeping && left == s.(sleeping := s.sleeping - {caller}))
    ensures Placed(left) && Outside(left, caller)
  {
  }

  lemma AdmittedIsPlaced(l: Limits, s: State, caller: nat, now: int)
    requires Placed(s) && Outside(s, caller)
    ensures Placed(Admitted(l, s, caller, now))
  {
    PacedIsPlaced(l, s, caller, now);
    QueuedIsPlaced(s, caller);
    hide Placed, Paced;
  }

  lemma NextIsPlaced(l: Limits, s: State, step: Step)
    requires Placed(s)
    ensures Placed(Next(l, s, step))
  {
    hide Admitted, Paced, Released, Placed, Outside;
    match step
    case Arrive(caller, now) =>
      if Outside(s, caller) {
        AdmittedIsPlaced(l, s, caller, now);
      }
    case Resume(caller, now) =>
      if caller in s.woken {
        LeavingIsPlaced(s, caller, s.(woken := s.woken - {caller}));
        AdmittedIsPlaced(l, s.(woken := s.woken - {caller}), caller, now);
      }
    case Awake(caller, now) =>
      if caller in s.sleeping {
        LeavingIsPlaced(s, caller, s.(sleeping := s.sleeping - {caller}));
        PacedIsPlaced(l, s.(sleeping := s.sleeping - {caller}), caller, now);
      }
    case Release(caller, _) =>
      if caller in s.flying {
        ReleasedIsPlaced(s, caller);
      }
  }

  // The count is exact in every run, so releasing never meets the clamp at zero.
  lemma {:induction false} EveryCallerIsCounted(l: Limits, steps: seq<Step>)
    ensures var s := Run(l, steps); Placed(s) && forall c :: c in s.flying ==> s.inFlight > 0
  {
    if steps != [] {
      EveryCallerIsCounted(l, steps[..|steps| - 1]);
      hide Next;
      NextIsPlaced(l, Run(l, steps[..|steps| - 1]), steps[|steps| - 1]);
    }
    var s := Run(l, steps);
    forall c | c in s.flying
      ensures s.inFlight > 0
    {
      assert s.flying != {};
    }
  }

  // ----- the concurrency bound

  // A caller that slept for its pacing is granted although every slot is taken.
  predicate Oversteps(l: Limits, s: State, step: Step) {
    && step.Awake? && step.caller in s.sleeping && |Shifted(s.requestTimes, step.now)| < l.pacing
    && s.inFlight >= l.maxConcurrency
  }

  // A step takes the limiter over its bound exactly when it grants a paced caller without a free slot.
  lemma BoundFailsIff(l: Limits, s: State, step: Step)
    requires Placed(s) && s.inFlight <= l.maxConcurrency
    ensures Next(l, s, step).inFlight > l.maxConcurrency <==> Oversteps(l, s, step)
  {
    hide Shifted;
  }

  ghost predicate NeverOversteps(l: Limits, steps: seq<Step>) {
    forall k :: 0 <= k < |steps| ==> !Oversteps(l, Run(l, steps[..k]), steps[k])
  }

  // So the bound holds in every run in which no paced caller is granted over it.
  lemma {:induction false} BoundHolds(l: Limits, steps: seq<Step>)
    requires NeverOversteps(l, steps)
    ensures Run(l, steps).inFlight <= l.maxConcurrency
  {
    if steps != [] {
      var n := |steps| - 1;
      assert NeverOversteps(l, steps[..n]) by {
        forall k | 0 <= k < n
          ensures !Oversteps(l, Run(l, steps[..n][..k]), steps[..n][k])
        {
          assert steps[..n][..k] == steps[..k];
        }
      }
      BoundHolds(l, steps[..n]);
      EveryCallerIsCounted(l, steps[..n]);
      assert !Oversteps(l, Run(l, steps[..n]), steps[n]);
      BoundFailsIff(l, Run(l, steps[..n]), steps[n]);
      hide Next, Oversteps;
    }
  }

  // And in no other: the bound holds at every point of a run exactly when no step of it oversteps.
  lemma BoundHoldsThroughoutIff(l: Limits, steps: seq<Step>)
    ensures (forall k :: 0 <= k <= |steps| ==> Run(l, steps[..k]).inFlight <= l.maxConcurrency)
       <==> NeverOversteps(l, steps)
  {
    hide Run, NeverOversteps;
    if NeverOversteps(l, steps) {
      forall k | 0 <= k <= |steps|
        ensures Run(l, steps[..k]).inFlight <= l.maxConcurrency
      {
        PrefixNeverOversteps(l, steps, k);
        BoundHolds(l, steps[..k]);
      }
    } else {
      var k := OverstepBreaksTheBound(l, steps);
    }
  }

  lemma PrefixNeverOversteps(l: Limits, steps: seq<Step>, k: nat)
    requires NeverOversteps(l, steps) && k <= |steps|
    ensures NeverOversteps(l, steps[..k])
  {
    hide Run, Oversteps;
    forall j | 0 <= j < k
      ensures !Oversteps(l, Run(l, steps[..k][..j]), steps[..k][j])
    {
      assert steps[..k][..j] == steps[..j];
    }
  }

  lemma OverstepBreaksTheBound(l: Limits, steps: seq<Step>) returns (k: nat)
    requires !NeverOversteps(l, steps)
    ensures k <= |steps| && Run(l, steps[..k]).inFlight > l.maxConcurrency
  {
    hide Next, Run, Oversteps;
    k :| 0 <= k < |steps| && Oversteps(l, Run(l, steps[..k]), steps[k]);
    if Run(l, steps[..k]).inFlight <= l.maxConcurrency {
      EveryCallerIsCounted(l, steps[..k]);
      BoundFailsIff(l, Run(l, steps[..k]), steps[k]);
      assert steps[..k + 1] == steps[..k] + [steps[k]];
      RunOneMore(l, steps[..k], steps[k]);
      k := k + 1;
    }
  }

  // In particular it holds in every run in which nobody had to sleep for its pacing.
  lemma BoundHoldsWithoutPacing(l: Limits, steps: seq<Step>)
    requires forall k :: 0 <= k < |steps| ==> !steps[k].Awake?
    ensures Run(l, steps).inFlight <= l.maxConcurrency
  {
    hide Run;
    BoundHolds(l, steps);
  }

  // It does not hold in all: with one slot and one grant a window, a caller that slept is granted while another that
  // arrived later is still in flight.
  lemma BoundCanFail()
    ensures var l := Limits(1, 1);
      var steps := [Arrive(1, 0), Release(1, 1), Arrive(2, 2), Arrive(3, 600_001), Awake(2, 1_200_002)];
      InTime(steps) && Run(l, steps).inFlight == 2
  {
    var l := Limits(1, 1);
    var d, e := Arrive(3, 600_001), Awake(2, 1_200_002);
    var early := [Arrive(1, 0), Release(1, 1), Arrive(2, 2)];
    OneCallerSleeps();
    RunOneMore(l, early, d);
    RunOneMore(l, early + [d], e);
    OneIsGrantedTwoFly(l);
    hide Next, Run;
    assert early + [d] + [e] == [Arrive(1, 0), Release(1, 1), Arrive(2, 2), d, e];
  }

  lemma OneCallerSleeps()
    ensures Run(Limits(1, 1), [Arrive(1, 0), Release(1, 1), Arrive(2, 2)]) == State([0], 0, [], {}, {2}, {}, [0])
  {
    hide Next, Run;
    var l := Limits(1, 1);
    var a, b, c := Arrive(1, 0), Release(1, 1), Arrive(2, 2);
    NothingRun(l);
    var none: seq<Step> := [];
    RunOneMore(l, none, a);
    RunOneMore(l, [a], b);
    RunOneMore(l, [a, b], c);
    assert none + [a] == [a] && [a] + [b] == [a, b] && [a, b] + [c] == [a, b, c];
    GrantedReleasedSlept(l);
  }

  lemma NothingRun(l: Limits)
    ensures Run(l, []) == Start()
  {
  }

  lemma GrantedReleasedSlept(l: Limits)
    requires l == Limits(1, 1)
    ensures Next(l, Start(), Arrive(1, 0)) == State([0], 1, [], {}, {}, {1}, [0])
    ensures Next(l, State([0], 1, [], {}, {}, {1}, [0]), Release(1, 1)) == State([0], 0, [], {}, {}, {}, [0])
    ensures Next(l, State([0], 0, [], {}, {}, {}, [0]), Arrive(2, 2)) == State([0], 0, [], {}, {2}, {}, [0])
  {
    assert Shifted([], 0) == [] && Shifted([0], 2) == [0];
  }

  lemma OneIsGrantedTwoFly(l: Limits)
    requires l == Limits(1, 1)
    ensures var s := Next(l, State([0], 0, [], {}, {2}, {}, [0]), Arrive(3, 600_001));
      Next(l, s, Awake(2, 1_200_002)).inFlight == 2
  {
    assert Shifted([0], 600_001) == [] && Shifted([600_001], 1_200_002) == [];
    var s := Next(l, State([0], 0, [], {}, {2}, {}, [0]), Arrive(3, 600_001));
    assert s == State([600_001], 1, [], {}, {2}, {3}, [0, 600_001]);
  }

  lemma RunOneMore(l: Limits, steps: seq<Step>, step: Step)
    ensures Run(l, steps + [step]) == Next(l, Run(l, steps), step)
  {
    assert (steps + [step])[..|steps|] == steps;
  }
}
