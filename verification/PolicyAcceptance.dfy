/**
 * Which policy requests are accepted, told on the tables, the configured policy and the day alone, and what an accepted
 * one makes of its account.
 */
module PolicyAcceptance {
  import opened Outcomes
  import opened PolicyAuthority

  // ----- what the tables register

  // `r` is the account's one run with that manifest.
  ghost predicate OnlyRun(runs: seq<Run>, accountId: string, manifestHash: string, r: Run) {
    exists i :: 0 <= i < |runs| && runs[i] == r && r.accountId == accountId && r.manifestHash == manifestHash
      && forall j :: 0 <= j < |runs| && j != i ==>
           runs[j].accountId != accountId || runs[j].manifestHash != manifestHash
  }

  // The latest row of a run id has that manifest.
  ghost predicate Registers(runs: seq<Run>, runId: string, manifestHash: string) {
    exists i :: 0 <= i < |runs| && runs[i].runId == runId && runs[i].manifestHash == manifestHash
      && forall j :: i < j < |runs| ==> runs[j].runId != runId
  }

  ghost predicate Fresh(events: seq<Event>, requestId: string) {
    forall i :: 0 <= i < |events| ==> events[i].body.request.requestId != requestId
  }

  lemma {:induction false} FreshIff(events: seq<Event>, requestId: string)
    ensures EventOf(events, requestId).None? <==> Fresh(events, requestId)
  {
    if events != [] {
      var n := |events| - 1;
      FreshIff(events[..n], requestId);
      assert forall i :: 0 <= i < n ==> events[..n][i] == events[i];
    }
  }

  lemma {:induction false} RegistersIff(runs: seq<Run>, runId: string, manifestHash: string)
    ensures HashOfRun(runs, runId) == Some(manifestHash) <==> Registers(runs, runId, manifestHash)
  {
    if runs != [] {
      var n := |runs| - 1;
      var init := runs[..n];
      RegistersIff(init, runId, manifestHash);
      if runs[n].runId != runId {
        OtherIdChangesNothing(runs, runId, manifestHash);
      } else {
        assert Registers(runs, runId, manifestHash) ==> runs[n].manifestHash == manifestHash;
      }
    }
  }

  lemma OtherIdChangesNothing(runs: seq<Run>, runId: string, manifestHash: string)
    requires runs != [] && runs[|runs| - 1].runId != runId
    ensures Registers(runs, runId, manifestHash) <==> Registers(runs[..|runs| - 1], runId, manifestHash)
  {
    var n := |runs| - 1;
    var init := runs[..n];
    if Registers(init, runId, manifestHash) {
      var i :| 0 <= i < n && init[i].runId == runId && init[i].manifestHash == manifestHash
                && forall j :: i < j < n ==> init[j].runId != runId;
      assert runs[i] == init[i];
      assert forall j :: 0 <= j < n ==> runs[j] == init[j];
    }
    if Registers(runs, runId, manifestHash) {
      var i :| 0 <= i <= n && runs[i].runId == runId && runs[i].manifestHash == manifestHash
                && forall j :: i < j <= n ==> runs[j].runId != runId;
      assert init[i] == runs[i];
    }
  }

  predicate Matches(r: Run, accountId: string, manifestHash: string) {
    r.accountId == accountId && r.manifestHash == manifestHash
  }

  lemma {:induction false} NoMatchIff(runs: seq<Run>, accountId: string, manifestHash: string)
    ensures RunsWith(runs, accountId, Some(manifestHash)) == [] <==>
            forall i :: 0 <= i < |runs| ==> !Matches(runs[i], accountId, manifestHash)
  {
    if runs != [] {
      var n := |runs| - 1;
      NoMatchIff(runs[..n], accountId, manifestHash);
      assert forall i :: 0 <= i < n ==> runs[..n][i] == runs[i];
    }
  }

  lemma {:induction false} OnlyRunIff(runs: seq<Run>, accountId: string, manifestHash: string, r: Run)
    ensures RunsWith(runs, accountId, Some(manifestHash)) == [r] <==> OnlyRun(runs, accountId, manifestHash, r)
  {
    if runs != [] {
      var n := |runs| - 1;
      var init := runs[..n];
      OnlyRunIff(init, accountId, manifestHash, r);
      NoMatchIff(init, accountId, manifestHash);
      assert forall i :: 0 <= i < n ==> init[i] == runs[i];
      if Matches(runs[n], accountId, manifestHash) {
        LastMatchIsOnly(runs, accountId, manifestHash, r);
        var found := RunsWith(init, accountId, Some(manifestHash));
        assert RunsWith(runs, accountId, Some(manifestHash)) == found + [runs[n]];
        assert found + [runs[n]] == [r] ==> |found| == 0 && (found + [runs[n]])[0] == r;
      } else {
        OtherRunChangesNothing(runs, accountId, manifestHash, r);
      }
    }
  }

  lemma LastMatchIsOnly(runs: seq<Run>, accountId: string, manifestHash: string, r: Run)
    requires runs != [] && Matches(runs[|runs| - 1], accountId, manifestHash)
    ensures OnlyRun(runs, accountId, manifestHash, r) <==>
            r == runs[|runs| - 1] && forall i :: 0 <= i < |runs| - 1 ==> !Matches(runs[i], accountId, manifestHash)
  {
    if OnlyRun(runs, accountId, manifestHash, r) {
      var i :| 0 <= i < |runs| && runs[i] == r && r.accountId == accountId && r.manifestHash == manifestHash
        && forall j :: 0 <= j < |runs| && j != i ==>
             runs[j].accountId != accountId || runs[j].manifestHash != manifestHash;
      assert i == |runs| - 1;
    }
  }

  lemma OtherRunChangesNothing(runs: seq<Run>, accountId: string, manifestHash: string, r: Run)
    requires runs != [] && !Matches(runs[|runs| - 1], accountId, manifestHash)
    ensures OnlyRun(runs, accountId, manifestHash, r) <==>
            OnlyRun(runs[..|runs| - 1], accountId, manifestHash, r)
  {
    var n := |runs| - 1;
    var init := runs[..n];
    if OnlyRun(init, accountId, manifestHash, r) {
      var i :| 0 <= i < n && init[i] == r && r.accountId == accountId && r.manifestHash == manifestHash
        && forall j :: 0 <= j < n && j != i ==>
             init[j].accountId != accountId || init[j].manifestHash != manifestHash;
      assert runs[i] == r;
      assert forall j :: 0 <= j < n ==> runs[j] == init[j];
    }
    if OnlyRun(runs, accountId, manifestHash, r) {
      var i :| 0 <= i <= n && runs[i] == r && r.accountId == accountId && r.manifestHash == manifestHash
        && forall j :: 0 <= j <= n && j != i ==>
             runs[j].accountId != accountId || runs[j].manifestHash != manifestHash;
      assert init[i] == r;
    }
  }

  // ----- the dates of a policy

  ghost predicate Earliest(days: seq<int>, day: int) {
    if days == [] then day == 0 else day in days && forall d :: d in days ==> day <= d
  }

  ghost predicate Latest(days: seq<int>, day: int) {
    if days == [] then day == 0 else day in days && forall d :: d in days ==> d <= day
  }

  lemma {:induction false} FirstIsEarliest(days: seq<int>)
    ensures Earliest(days, FirstDay(days)) && Latest(days, LastDay(days))
  {
    if |days| > 1 {
      FirstIsEarliest(days[1..]);
      assert days == [days[0]] + days[1..];
    }
  }

  // A policy takes effect on its effective day, or on the first day of its windows.
  ghost predicate TakesEffect(p: Policy, day: int) {
    if p.effectiveDay.Some? then day == p.effectiveDay.value else Earliest(p.days, day)
  }

  // It may be adopted until its deadline, or else its expiry, or else the last day of its windows.
  ghost predicate AdoptableUntil(p: Policy, day: int) {
    if p.adoptionDeadlineDay.Some? then day == p.adoptionDeadlineDay.value
    else if p.expiresAfterDay.Some? then day == p.expiresAfterDay.value
    else Latest(p.days, day)
  }

  lemma DatesOf(p: Policy)
    ensures forall day :: TakesEffect(p, day) <==> day == EffectiveDay(p)
    ensures forall day :: AdoptableUntil(p, day) <==> day == ExpiryDay(p)
  {
    FirstIsEarliest(p.days);
  }

  // ----- what each action asks for, and what it makes of the account

  // Scheduling: nothing pending; the configured policy is the one asked for and registered under its own manifest; the
  // prior run is the active one, or a first supervised run of version 1; the dates are in order, for a recurring policy
  // with today inside them, for any other with the effective day still to come; and the evidence is there.
  ghost predicate Schedules(t: Tables, accountId: string, request: Request, s: Surroundings, next: Authority) {
    && (accountId in t.authorities ==> t.authorities[accountId].pending.None?)
    && s.ready && s.policy.Some? && request.priorManifestHash.Some?
    && var target := s.policy.value;
       && target.accountId == accountId && target.manifestHash == request.manifestHash
       && (exists r :: OnlyRun(t.runs, accountId, request.manifestHash, r)
             && r.canonicalManifest == target.canonicalManifest)
       && (exists prior :: OnlyRun(t.runs, accountId, request.priorManifestHash.value, prior)
             && (if accountId in t.authorities then prior.runId == t.authorities[accountId].active
                 else prior.version == 1 && prior.supervisedOneAttempt)
             && prior.runId == next.active)
       && next.active != target.runId
       && next.pending.Some? && next.pending.value.runId == target.runId
       && TakesEffect(target, next.pending.value.effective) && AdoptableUntil(target, next.pending.value.expiry)
       && next.pending.value.effective <= next.pending.value.expiry
       && if target.version == 3 then next.pending.value.effective <= s.today <= next.pending.value.expiry
          else s.today < next.pending.value.effective
  }

  // A run is pending under the manifest asked for.
  ghost predicate Settles(t: Tables, accountId: string, request: Request) {
    && accountId in t.authorities && t.authorities[accountId].pending.Some?
    && Registers(t.runs, t.authorities[accountId].pending.value.runId, request.manifestHash)
  }

  ghost predicate Cancels(t: Tables, accountId: string, request: Request, s: Surroundings, next: Authority) {
    && Settles(t, accountId, request)
    && s.today < t.authorities[accountId].pending.value.effective
    && next.active == t.authorities[accountId].active && next.pending.None?
  }

  // Adopting: today is inside the pending run's dates, it is the configured one, and the evidence is there.
  ghost predicate Adopts(t: Tables, accountId: string, request: Request, s: Surroundings, next: Authority) {
    && Settles(t, accountId, request) && s.ready && s.policy.Some?
    && var pending, target := t.authorities[accountId].pending.value, s.policy.value;
       && pending.effective <= s.today <= pending.expiry
       && target.accountId == accountId && target.runId == pending.runId && target.manifestHash == request.manifestHash
       && next.active == pending.runId && next.pending.None?
  }

  // A paused account, a new request id, the revision expected, and the action's own conditions.
  ghost predicate Accepts(t: Tables, body: Body, s: Surroundings, next: Authority) {
    var known := body.accountId in t.authorities;
    && s.paused && Fresh(t.events, body.request.requestId)
    && body.request.expectedRevision == (if known then t.authorities[body.accountId].revision else 0)
    && next.revision == body.request.expectedRevision + 1
    && match body.action
       case Schedule => Schedules(t, body.accountId, body.request, s, next)
       case Cancel => Cancels(t, body.accountId, body.request, s, next)
       case Adopt => Adopts(t, body.accountId, body.request, s, next)
  }

  // The tables with the account's new authority and its event.
  function With(t: Tables, body: Body, next: Authority): Tables {
    t.(authorities := t.authorities[body.accountId := next],
       events := t.events + [Event(body, next.revision, next.active, next.pending)])
  }

  lemma SchedulesIff(t: Tables, accountId: string, request: Request, s: Surroundings, next: Authority)
    requires next.revision == RevisionOf(t, accountId) + 1
    ensures Schedules(t, accountId, request, s, next) <==>
            Scheduling(t, accountId, request, s) == Success(next) && s.ready
  {
    if s.policy.Some? {
      DatesOf(s.policy.value);
    }
    hide EffectiveDay, ExpiryDay, TakesEffect, AdoptableUntil, OnlyRun, RunsWith;
    var registered := RunsWith(t.runs, accountId, Some(request.manifestHash));
    forall r
      ensures registered == [r] <==> OnlyRun(t.runs, accountId, request.manifestHash, r)
    {
      OnlyRunIff(t.runs, accountId, request.manifestHash, r);
    }
    if request.priorManifestHash.Some? {
      var prior := RunsWith(t.runs, accountId, request.priorManifestHash);
      forall r
        ensures prior == [r] <==> OnlyRun(t.runs, accountId, request.priorManifestHash.value, r)
      {
        OnlyRunIff(t.runs, accountId, request.priorManifestHash.value, r);
      }
      assert |prior| == 1 ==> prior == [prior[0]];
    } else {
      NoPriorAsked(t.runs, accountId);
    }
    assert |registered| == 1 ==> registered == [registered[0]];
  }

  lemma {:induction false} NoPriorAsked(runs: seq<Run>, accountId: string)
    ensures RunsWith(runs, accountId, None) == []
  {
    if runs != [] {
      NoPriorAsked(runs[..|runs| - 1], accountId);
    }
  }

  // A new request is accepted exactly when its conditions hold, and then makes exactly the authority they describe.
  lemma AcceptedIff(t: Tables, body: Body, s: Surroundings, next: Authority)
    requires Fresh(t.events, body.request.requestId)
    ensures Accepts(t, body, s, next) <==>
            Changed(t, body, s) == Success((With(t, body, next), Reply(next.revision, false)))
    ensures Changed(t, body, s).Success? ==> exists next :: Accepts(t, body, s, next)
  {
    AnyAcceptedIff(t, body, s, next);
    if Changed(t, body, s).Success? {
      FreshIff(t.events, body.request.requestId);
      var got := Changed(t, body, s).value.0.authorities[body.accountId];
      AnyAcceptedIff(t, body, s, got);
    }
    hide Accepts, Scheduling, Settling, Fresh;
  }

  lemma SettlesIff(t: Tables, accountId: string, action: Action, request: Request, s: Surroundings, next: Authority)
    requires next.revision == RevisionOf(t, accountId) + 1 && !action.Schedule?
    ensures (if action.Cancel? then Cancels(t, accountId, request, s, next) else Adopts(t, accountId, request, s, next))
       <==> Settling(t, accountId, action, request, s) == Success(next) && (action.Adopt? ==> s.ready)
  {
    if accountId in t.authorities && t.authorities[accountId].pending.Some? {
      RegistersIff(t.runs, t.authorities[accountId].pending.value.runId, request.manifestHash);
    }
    hide Registers, HashOfRun;
  }

  // The outcome of a new request in terms of the authority its action makes.
  lemma FreshOutcome(t: Tables, body: Body, s: Surroundings, made: Result<Authority, Conflict>)
    requires Fresh(t.events, body.request.requestId)
    requires made == if body.action.Schedule? then Scheduling(t, body.accountId, body.request, s)
                     else Settling(t, body.accountId, body.action, body.request, s)
    ensures Changed(t, body, s).Success? <==>
            s.paused && RevisionOf(t, body.accountId) == body.request.expectedRevision && made.Success?
            && (body.action.Cancel? || s.ready)
    ensures Changed(t, body, s).Success? ==>
              Changed(t, body, s) == Success((With(t, body, made.value), Reply(made.value.revision, false)))
              && made.value.revision == RevisionOf(t, body.accountId) + 1
  {
    FreshIff(t.events, body.request.requestId);
    hide Fresh, EventOf, RunsWith, PriorRun, MayBeScheduled, EffectiveDay, ExpiryDay, HashOfRun;
  }

  lemma AnyAcceptedIff(t: Tables, body: Body, s: Surroundings, next: Authority)
    requires Fresh(t.events, body.request.requestId)
    ensures Accepts(t, body, s, next) <==>
            Changed(t, body, s) == Success((With(t, body, next), Reply(next.revision, false)))
  {
    var made := if body.action.Schedule? then Scheduling(t, body.accountId, body.request, s)
                else Settling(t, body.accountId, body.action, body.request, s);
    FreshOutcome(t, body, s, made);
    OtherAuthority(t, body, next);
    if next.revision == RevisionOf(t, body.accountId) + 1 {
      if body.action.Schedule? {
        SchedulesIff(t, body.accountId, body.request, s, next);
      } else {
        SettlesIff(t, body.accountId, body.action, body.request, s, next);
      }
    }
    hide Fresh, Schedules, Cancels, Adopts, Scheduling, Settling, Changed, With;
  }

  lemma OtherAuthority(t: Tables, body: Body, next: Authority)
    ensures forall other :: With(t, body, other) == With(t, body, next) ==> other == next
  {
    forall other | With(t, body, other) == With(t, body, next)
      ensures other == next
    {
      assert With(t, body, other).authorities[body.accountId] == other;
    }
  }

  // ----- runs

  // Every event ever logged was accepted by the tables of its time: in particular it came while the account was paused,
  // and, for a schedule or an adoption, with the readiness evidence at hand.
  lemma {:induction false} LoggedEventsWereAccepted(runs: seq<Run>, calls: seq<Call>, e: Event) returns (i: nat)
    requires e in RunCalls(runs, calls).events
    ensures i < |calls| && calls[i].body == e.body
    ensures Accepts(RunCalls(runs, calls[..i]), calls[i].body, calls[i].s, Authority(e.revision, e.active, e.pending))
    ensures calls[i].s.paused && (e.body.action.Schedule? || e.body.action.Adopt? ==> calls[i].s.ready)
  {
    var n := |calls| - 1;
    var t, c := RunCalls(runs, calls[..n]), calls[n];
    if e in t.events {
      i := LoggedEventsWereAccepted(runs, calls[..n], e);
      assert calls[..n][..i] == calls[..i];
    } else {
      i := n;
      FreshIff(t.events, c.body.request.requestId);
      AcceptedIff(t, c.body, c.s, Authority(e.revision, e.active, e.pending));
    }
  }
}
