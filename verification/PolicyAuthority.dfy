/**
 * The hand-over of the paper-trading policy from one run to the next: schedule, cancel, adopt and replay, one account
 * at a time under its lock. Each change is one atomic transaction; a refused one is rolled back. Dates are day numbers
 * of the account's time zone.
 */
module PolicyAuthority {
  import opened Outcomes

  datatype Action = Schedule | Cancel | Adopt

  datatype Run = Run(
    runId: string, accountId: string, manifestHash: string, canonicalManifest: string, version: nat,
    supervisedOneAttempt: bool)

  // The policy the process is configured with; `days` are the account days of its windows.
  datatype Policy = Policy(
    version: nat, runId: string, accountId: string, manifestHash: string, canonicalManifest: string,
    effectiveDay: Option<int>, expiresAfterDay: Option<int>, adoptionDeadlineDay: Option<int>, days: seq<int>)

  datatype Request = Request(
    requestId: string, expectedRevision: nat, manifestHash: string, priorManifestHash: Option<string>, reason: string)

  datatype Body = Body(action: Action, accountId: string, request: Request)

  datatype Pending = Pending(runId: string, effective: int, expiry: int)

  datatype Authority = Authority(revision: nat, active: string, pending: Option<Pending>)

  datatype Event = Event(body: Body, revision: nat, active: string, pending: Option<Pending>)

  // What the transaction finds outside its tables: the configured policy, the day, and whether the pause and the
  // readiness evidence hold through to the commit.
  datatype Surroundings = Surroundings(policy: Option<Policy>, today: int, paused: bool, ready: bool)

  datatype Tables = Tables(runs: seq<Run>, authorities: map<string, Authority>, events: seq<Event>)

  datatype Reply = Reply(revision: nat, replay: bool)

  datatype Conflict =
    | NotPaused | RequestReused | RevisionConflict | TransitionPending | TargetRequired | TargetUnregistered
    | PriorRequired | Unchanged | SubsequentDayRequired | PendingRequired | PendingMismatch | CancelTooLate
    | OutsideDates | NotReady

  // ----- looking things up

  function RunsWith(runs: seq<Run>, accountId: string, hash: Option<string>): seq<Run> {
    if runs == [] then []
    else
      var init, r := RunsWith(runs[..|runs| - 1], accountId, hash), runs[|runs| - 1];
      if r.accountId == accountId && Some(r.manifestHash) == hash then init + [r] else init
  }

  function HashOfRun(runs: seq<Run>, runId: string): Option<string> {
    if runs == [] then None
    else if runs[|runs| - 1].runId == runId then Some(runs[|runs| - 1].manifestHash)
    else HashOfRun(runs[..|runs| - 1], runId)
  }

  function EventOf(events: seq<Event>, requestId: string): Option<Event> {
    if events == [] then None
    else if events[|events| - 1].body.request.requestId == requestId then Some(events[|events| - 1])
    else EventOf(events[..|events| - 1], requestId)
  }

  function FirstDay(days: seq<int>): int {
    if days == [] then 0
    else if |days| == 1 then days[0]
    else
      var rest := FirstDay(days[1..]);
      if days[0] < rest then days[0] else rest
  }

  function LastDay(days: seq<int>): int {
    if days == [] then 0
    else if |days| == 1 then days[0]
    else
      var rest := LastDay(days[1..]);
      if rest < days[0] then days[0] else rest
  }

  function EffectiveDay(p: Policy): int {
    if p.effectiveDay.Some? then p.effectiveDay.value else FirstDay(p.days)
  }

  function ExpiryDay(p: Policy): int {
    if p.adoptionDeadlineDay.Some? then p.adoptionDeadlineDay.value
    else if p.expiresAfterDay.Some? then p.expiresAfterDay.value
    else LastDay(p.days)
  }

  // A recurring policy is scheduled inside its adoption dates; any other for a later day.
  predicate MayBeScheduled(p: Policy, today: int) {
    var effective, expiry := EffectiveDay(p), ExpiryDay(p);
    effective <= expiry && if p.version == 3 then effective <= today <= expiry else today < effective
  }

  function RevisionOf(t: Tables, accountId: string): nat {
    if accountId in t.authorities then t.authorities[accountId].revision else 0
  }

  // ----- one change

  // The run active after scheduling: that of the existing authority, or a first version-1 supervised run.
  function PriorRun(t: Tables, accountId: string, request: Request): Option<string> {
    var prior := RunsWith(t.runs, accountId, request.priorManifestHash);
    if |prior| != 1 then None
    else if accountId in t.authorities then
      if t.authorities[accountId].active == prior[0].runId then Some(prior[0].runId) else None
    else if prior[0].version == 1 && prior[0].supervisedOneAttempt then Some(prior[0].runId)
    else None
  }

  function Scheduling(t: Tables, accountId: string, request: Request, s: Surroundings): Result<Authority, Conflict> {
    if accountId in t.authorities && t.authorities[accountId].pending.Some? then Failure(TransitionPending)
    else if s.policy.None? || s.policy.value.accountId != accountId
            || s.policy.value.manifestHash != request.manifestHash then Failure(TargetRequired)
    else
      var target := s.policy.value;
      var registered := RunsWith(t.runs, accountId, Some(request.manifestHash));
      if |registered| != 1 || registered[0].canonicalManifest != target.canonicalManifest
      then Failure(TargetUnregistered)
      else
        var prior := PriorRun(t, accountId, request);
        if prior.None? then Failure(PriorRequired)
        else if prior.value == target.runId then Failure(Unchanged)
        else if !MayBeScheduled(target, s.today) then Failure(SubsequentDayRequired)
        else
          Success(Authority(RevisionOf(t, accountId) + 1, prior.value,
                            Some(Pending(target.runId, EffectiveDay(target), ExpiryDay(target)))))
  }

  function Settling(t: Tables, accountId: string, action: Action, request: Request, s: Surroundings)
    : Result<Authority, Conflict>
  {
    if accountId !in t.authorities || t.authorities[accountId].pending.None? then Failure(PendingRequired)
    else
      var authority := t.authorities[accountId];
      var pending := authority.pending.value;
      if HashOfRun(t.runs, pending.runId) != Some(request.manifestHash) then Failure(PendingMismatch)
      else if action.Cancel? then
        if s.today >= pending.effective then Failure(CancelTooLate)
        else Success(Authority(authority.revision + 1, authority.active, None))
      else if s.today < pending.effective || s.today > pending.expiry then Failure(OutsideDates)
      else if s.policy.None? || s.policy.value.accountId != accountId || s.policy.value.runId != pending.runId
              || s.policy.value.manifestHash != request.manifestHash then Failure(TargetRequired)
      else Success(Authority(authority.revision + 1, pending.runId, None))
  }

  // The tables and the answer after one request; a conflict leaves the tables as they were.
  function Changed(t: Tables, body: Body, s: Surroundings): Result<(Tables, Reply), Conflict> {
    var accountId, request := body.accountId, body.request;
    if !s.paused then Failure(NotPaused)
    else
      var replay := EventOf(t.events, request.requestId);
      if replay.Some? then
        if replay.value.body != body then Failure(RequestReused) else Success((t, Reply(replay.value.revision, true)))
      else if RevisionOf(t, accountId) != request.expectedRevision then Failure(RevisionConflict)
      else
        var next :- if body.action.Schedule? then Scheduling(t, accountId, request, s)
                    else Settling(t, accountId, body.action, request, s);
        if !body.action.Cancel? && !s.ready then Failure(NotReady)
        else
          Success((t.(authorities := t.authorities[accountId := next],
                      events := t.events + [Event(body, next.revision, next.active, next.pending)]),
                   Reply(next.revision, false)))
  }

  function After(t: Tables, body: Body, s: Surroundings): Tables {
    var r := Changed(t, body, s);
    if r.Success? then r.value.0 else t
  }

  class PaperPolicyAuthority {
    var runs: seq<Run>
    var authorities: map<string, Authority>
    var events: seq<Event>

    ghost function View(): Tables
      reads this
    {
      Tables(runs, authorities, events)
    }

    constructor (runs: seq<Run>)
      ensures View() == Tables(runs, map[], [])
    {
      this.runs, authorities, events := runs, map[], [];
    }

    method Change(accountId: string, action: Action, request: Request, s: Surroundings)
      returns (r: Result<Reply, Conflict>)
      modifies this
      ensures var spec := Changed(old(View()), Body(action, accountId, request), s);
        if spec.Success? then r == Success(spec.value.1) && View() == spec.value.0
        else r == Failure(spec.error) && View() == old(View())
    {
      if !s.paused {
        return Failure(NotPaused);
      }
      var body := Body(action, accountId, request);
      var replay := EventOf(events, request.requestId);
      if replay.Some? {
        return if replay.value.body != body then Failure(RequestReused)
          else Success(Reply(replay.value.revision, true));
      }
      var known := accountId in authorities;
      var revision := if known then authorities[accountId].revision else 0;
      if revision != request.expectedRevision {
        return Failure(RevisionConflict);
      }
      var active := if known then authorities[accountId].active else "";
      var pending: Option<Pending> := None;
      if action == Schedule {
        if known && authorities[accountId].pending.Some? {
          return Failure(TransitionPending);
        }
        if s.policy.None? || s.policy.value.accountId != accountId
           || s.policy.value.manifestHash != request.manifestHash {
          return Failure(TargetRequired);
        }
        var target := s.policy.value;
        var registered := RunsWith(runs, accountId, Some(request.manifestHash));
        if |registered| != 1 || registered[0].canonicalManifest != target.canonicalManifest {
          return Failure(TargetUnregistered);
        }
        var prior := RunsWith(runs, accountId, request.priorManifestHash);
        if |prior| != 1 || (if known then active != prior[0].runId
                            else prior[0].version != 1 || !prior[0].supervisedOneAttempt) {
          return Failure(PriorRequired);
        }
        active := prior[0].runId;
        if active == target.runId {
          return Failure(Unchanged);
        }
        if !MayBeScheduled(target, s.today) {
          return Failure(SubsequentDayRequired);
        }
        pending := Some(Pending(target.runId, EffectiveDay(target), ExpiryDay(target)));
      } else {
        if !known || authorities[accountId].pending.None? {
          return Failure(PendingRequired);
        }
        var waiting := authorities[accountId].pending.value;
        if HashOfRun(runs, waiting.runId) != Some(request.manifestHash) {
          return Failure(PendingMismatch);
        }
        if action == Cancel {
          if s.today >= waiting.effective {
            return Failure(CancelTooLate);
          }
        } else {
          if s.today < waiting.effective || s.today > waiting.expiry {
            return Failure(OutsideDates);
          }
          if s.policy.None? || s.policy.value.accountId != accountId || s.policy.value.runId != waiting.runId
             || s.policy.value.manifestHash != request.manifestHash {
            return Failure(TargetRequired);
          }
          active := waiting.runId;
        }
      }
      if action != Cancel && !s.ready {
        return Failure(NotReady);
      }
      events := events + [Event(body, revision + 1, active, pending)];
      authorities := authorities[accountId := Authority(revision + 1, active, pending)];
      return Success(Reply(revision + 1, false));
    }
  }

  // ----- what every reachable table satisfies

  function EventsOf(events: seq<Event>, accountId: string): seq<Event> {
    if events == [] then []
    else
      var init, e := EventsOf(events[..|events| - 1], accountId), events[|events| - 1];
      if e.body.accountId == accountId then init + [e] else init
  }

  lemma AppendEvent(events: seq<Event>, e: Event, accountId: string)
    ensures EventsOf(events + [e], accountId)
         == if e.body.accountId == accountId then EventsOf(events, accountId) + [e] else EventsOf(events, accountId)
  {
    assert (events + [e])[..|events|] == events;
  }

  // An account's events are numbered from one without gaps, and its authority is what the last of them says.
  ghost predicate Logged(t: Tables, accountId: string) {
    var log := EventsOf(t.events, accountId);
    && (forall i :: 0 <= i < |log| ==> log[i].revision == i + 1)
    && (accountId in t.authorities <==> log != [])
    && (log != [] ==>
         t.authorities[accountId] == Authority(|log|, log[|log| - 1].active, log[|log| - 1].pending))
  }

  ghost predicate DatesHold(pending: Option<Pending>) {
    pending.Some? ==> pending.value.effective <= pending.value.expiry
  }

  // The active run changes only by adopting the run that was pending.
  ghost predicate Continues(before: Event, e: Event) {
    match e.body.action
    case Adopt => before.pending.Some? && e.active == before.pending.value.runId && e.pending.None?
    case Cancel => before.pending.Some? && e.active == before.active && e.pending.None?
    case Schedule => before.pending.None? && e.active == before.active && e.pending.Some?
  }

  ghost predicate HandsOver(log: seq<Event>) {
    && (log != [] ==> log[0].body.action.Schedule? && log[0].pending.Some?)
    && (forall i :: 0 < i < |log| ==> Continues(log[i - 1], log[i]))
    && (forall i :: 0 <= i < |log| ==> DatesHold(log[i].pending))
  }

  ghost predicate RequestsOnce(events: seq<Event>) {
    forall i, j :: 0 <= i < j < |events| ==>
      events[i].body.request.requestId != events[j].body.request.requestId
  }

  ghost predicate Consistent(t: Tables) {
    && (forall accountId :: Logged(t, accountId) && HandsOver(EventsOf(t.events, accountId)))
    && RequestsOnce(t.events)
  }

  lemma {:induction false} NewRequest(events: seq<Event>, requestId: string)
    requires EventOf(events, requestId).None?
    ensures forall i :: 0 <= i < |events| ==> events[i].body.request.requestId != requestId
  {
    if events != [] {
      NewRequest(events[..|events| - 1], requestId);
      forall i | 0 <= i < |events|
        ensures events[i].body.request.requestId != requestId
      {
        assert i < |events| - 1 ==> events[..|events| - 1][i] == events[i];
      }
    }
  }

  // What an accepted, new request did to its account.
  ghost predicate Accepted(t: Tables, body: Body, s: Surroundings, next: Authority) {
    var known := body.accountId in t.authorities;
    && next.revision == RevisionOf(t, body.accountId) + 1 && DatesHold(next.pending)
    && (body.action.Schedule? ==>
         next.pending.Some? && (known ==> t.authorities[body.accountId].pending.None?
                                          && next.active == t.authorities[body.accountId].active))
    && (!body.action.Schedule? ==>
         && known && t.authorities[body.accountId].pending.Some? && next.pending.None?
         && var pending := t.authorities[body.accountId].pending.value;
            if body.action.Adopt? then pending.effective <= s.today <= pending.expiry && next.active == pending.runId
            else s.today < pending.effective && next.active == t.authorities[body.accountId].active)
  }

  lemma ChangeIsAccepted(t: Tables, body: Body, s: Surroundings)
    requires var r := Changed(t, body, s); r.Success? && !r.value.1.replay
    ensures var after := Changed(t, body, s).value.0;
      && EventOf(t.events, body.request.requestId).None?
      && body.accountId in after.authorities
      && var next := after.authorities[body.accountId];
         && Accepted(t, body, s, next)
         && after == t.(authorities := t.authorities[body.accountId := next],
                        events := t.events + [Event(body, next.revision, next.active, next.pending)])
  {
    hide EffectiveDay, ExpiryDay, RunsWith, HashOfRun, EventOf;
  }

  lemma ChangeKeepsConsistent(t: Tables, body: Body, s: Surroundings)
    requires Consistent(t)
    ensures Consistent(After(t, body, s))
  {
    var r := Changed(t, body, s);
    if r.Success? && !r.value.1.replay {
      ChangeIsAccepted(t, body, s);
      NewRequest(t.events, body.request.requestId);
      var after := r.value.0;
      hide Changed;
      forall accountId
        ensures Logged(after, accountId) && HandsOver(EventsOf(after.events, accountId))
      {
        assert Logged(t, accountId) && HandsOver(EventsOf(t.events, accountId));
        AccountLogged(t, body, s, after, accountId);
      }
    }
  }

  lemma AccountLogged(t: Tables, body: Body, s: Surroundings, after: Tables, accountId: string)
    requires Logged(t, accountId) && HandsOver(EventsOf(t.events, accountId))
    requires body.accountId in after.authorities && Accepted(t, body, s, after.authorities[body.accountId])
    requires var next := after.authorities[body.accountId];
      after == t.(authorities := t.authorities[body.accountId := next],
                  events := t.events + [Event(body, next.revision, next.active, next.pending)])
    ensures Logged(after, accountId) && HandsOver(EventsOf(after.events, accountId))
  {
    var next := after.authorities[body.accountId];
    AppendEvent(t.events, Event(body, next.revision, next.active, next.pending), accountId);
  }

  // ----- runs

  datatype Call = Call(body: Body, s: Surroundings)

  function RunCalls(runs: seq<Run>, calls: seq<Call>): Tables {
    if calls == [] then Tables(runs, map[], [])
    else
      var c := calls[|calls| - 1];
      After(RunCalls(runs, calls[..|calls| - 1]), c.body, c.s)
  }

  // In every run: the revision of an account counts its events, there is at most one pending run, the requests logged
  // are all different, and the active run of an authority changes only by adopting the pending one.
  lemma {:induction false} EveryRunIsConsistent(runs: seq<Run>, calls: seq<Call>)
    ensures Consistent(RunCalls(runs, calls))
  {
    if calls != [] {
      var c := calls[|calls| - 1];
      EveryRunIsConsistent(runs, calls[..|calls| - 1]);
      ChangeKeepsConsistent(RunCalls(runs, calls[..|calls| - 1]), c.body, c.s);
    }
  }

  lemma {:induction false} EventIsFound(events: seq<Event>, i: nat)
    requires RequestsOnce(events) && i < |events|
    ensures EventOf(events, events[i].body.request.requestId) == Some(events[i])
  {
    if i < |events| - 1 {
      assert events[..|events| - 1][i] == events[i];
      assert events[i].body.request.requestId != events[|events| - 1].body.request.requestId;
      EventIsFound(events[..|events| - 1], i);
    }
  }

  // Sending a logged request again answers with the revision it got and changes nothing, at any later time; sending
  // anything else under its id is refused.
  lemma ReplayChangesNothing(t: Tables, i: nat, body: Body, s: Surroundings)
    requires Consistent(t) && i < |t.events| && body.request.requestId == t.events[i].body.request.requestId && s.paused
    ensures After(t, body, s) == t
    ensures var r := Changed(t, body, s);
      if body == t.events[i].body then r == Success((t, Reply(t.events[i].revision, true)))
      else r == Failure(RequestReused)
  {
    EventIsFound(t.events, i);
  }

  // The active run of an existing authority changes only by adopting the pending run inside its dates, and the first
  // authority of an account starts from a registered version-1 supervised run.
  lemma ActiveChangesByAdoptionOnly(t: Tables, body: Body, s: Surroundings, accountId: string)
    ensures var after := After(t, body, s);
      && (accountId in t.authorities ==>
           && accountId in after.authorities
           && (after.authorities[accountId].active != t.authorities[accountId].active ==>
                && body.action.Adopt? && body.accountId == accountId && t.authorities[accountId].pending.Some?
                && var pending := t.authorities[accountId].pending.value;
                   pending.effective <= s.today <= pending.expiry
                   && after.authorities[accountId].active == pending.runId))
      && (accountId !in t.authorities && accountId in after.authorities ==>
           && body.action.Schedule?
           && exists r :: r in t.runs && r.accountId == accountId && r.version == 1 && r.supervisedOneAttempt
                && r.runId == after.authorities[accountId].active)
  {
    var r := Changed(t, body, s);
    if r.Success? && !r.value.1.replay {
      ChangeIsAccepted(t, body, s);
      if accountId !in t.authorities && body.accountId == accountId {
        RunsWithAreRuns(t.runs, accountId, body.request.priorManifestHash);
      }
    }
    hide EventOf, MayBeScheduled, HashOfRun;
  }

  lemma {:induction false} RunsWithAreRuns(runs: seq<Run>, accountId: string, hash: Option<string>)
    ensures forall r :: r in RunsWith(runs, accountId, hash) ==> r in runs && r.accountId == accountId
  {
    if runs != [] {
      var init, last := runs[..|runs| - 1], runs[|runs| - 1];
      assert runs == init + [last];
      RunsWithAreRuns(init, accountId, hash);
    }
  }

  lemma {:induction false} RegisteredRun(runs: seq<Run>, r: Run)
    requires r in runs
    ensures HashOfRun(runs, r.runId).Some?
  {
    var init, last := runs[..|runs| - 1], runs[|runs| - 1];
    assert runs == init + [last];
    if last.runId != r.runId {
      RegisteredRun(init, r);
    }
  }

  // The active run of every reachable authority is a registered one.
  lemma {:induction false} ActiveRunsAreRegistered(runs: seq<Run>, calls: seq<Call>)
    ensures var t := RunCalls(runs, calls);
      t.runs == runs && forall accountId :: accountId in t.authorities ==>
        HashOfRun(runs, t.authorities[accountId].active).Some?
  {
    if calls != [] {
      ActiveRunsAreRegistered(runs, calls[..|calls| - 1]);
      var t, c := RunCalls(runs, calls[..|calls| - 1]), calls[|calls| - 1];
      var prior := RunsWith(t.runs, c.body.accountId, c.body.request.priorManifestHash);
      RunsWithAreRuns(t.runs, c.body.accountId, c.body.request.priorManifestHash);
      if |prior| == 1 {
        assert prior[0] in prior;
        RegisteredRun(runs, prior[0]);
      }
      hide HashOfRun, RunsWith, MayBeScheduled, EventOf, EffectiveDay, ExpiryDay;
    }
  }

  // ----- from the effective day on

  ghost predicate Due(t: Tables, accountId: string, pending: Pending, today: int) {
    && accountId in t.authorities && t.authorities[accountId].pending == Some(pending)
    && pending.effective <= today
  }

  // Once its effective day has come, a pending run can no longer be cancelled or displaced: any request leaves the
  // authority as it is, except an adoption of that run no later than its expiry.
  lemma DueUntilAdopted(t: Tables, body: Body, s: Surroundings, accountId: string, pending: Pending)
    requires Due(t, accountId, pending, s.today)
    ensures var after := After(t, body, s);
      || after.authorities[accountId] == t.authorities[accountId]
      || (body.accountId == accountId && body.action.Adopt? && s.today <= pending.expiry
          && after.authorities[accountId].active == pending.runId && after.authorities[accountId].pending.None?)
  {
    var r := Changed(t, body, s);
    if r.Success? && !r.value.1.replay {
      ChangeIsAccepted(t, body, s);
    }
    hide Changed;
  }

  // Days do not go back.
  ghost predicate FromDay(calls: seq<Call>, day: int) {
    forall i :: 0 <= i < |calls| ==> day <= calls[i].s.today
  }

  function Continue(t: Tables, calls: seq<Call>): Tables {
    if calls == [] then t
    else
      var c := calls[|calls| - 1];
      After(Continue(t, calls[..|calls| - 1]), c.body, c.s)
  }

  // A pending run not adopted by its expiry freezes the account: no later run of requests, whatever they ask, changes
  // its authority again.
  lemma {:induction false} ExpiredPendingFreezes(t: Tables, calls: seq<Call>, accountId: string, pending: Pending)
    requires accountId in t.authorities && t.authorities[accountId].pending == Some(pending)
    requires DatesHold(Some(pending)) && FromDay(calls, pending.expiry + 1)
    ensures var after := Continue(t, calls);
      accountId in after.authorities && after.authorities[accountId] == t.authorities[accountId]
  {
    if calls != [] {
      var init, c := calls[..|calls| - 1], calls[|calls| - 1];
      assert FromDay(init, pending.expiry + 1) by {
        forall i | 0 <= i < |init|
          ensures pending.expiry + 1 <= init[i].s.today
        {
          assert init[i] == calls[i];
        }
      }
      ExpiredPendingFreezes(t, init, accountId, pending);
      DueUntilAdopted(Continue(t, init), c.body, c.s, accountId, pending);
    }
  }

  // ----- until its expiry

  lemma {:induction false} FreshRequest(events: seq<Event>) returns (requestId: string)
    ensures EventOf(events, requestId).None?
    ensures forall e :: e in events ==> |e.body.request.requestId| < |requestId|
  {
    if events == [] {
      requestId := "r";
    } else {
      var init, last := events[..|events| - 1], events[|events| - 1];
      var shorter := FreshRequest(init);
      requestId := shorter + last.body.request.requestId + "r";
      assert events == init + [last];
      LongerIsFresh(events, requestId);
    }
  }

  lemma {:induction false} LongerIsFresh(events: seq<Event>, requestId: string)
    requires forall e :: e in events ==> |e.body.request.requestId| < |requestId|
    ensures EventOf(events, requestId).None?
  {
    if events != [] {
      assert events[|events| - 1] in events;
      LongerIsFresh(events[..|events| - 1], requestId);
    }
  }

  // Before its effective day a registered pending run can be cancelled, and from then to its expiry adopted.
  lemma PendingMovesOn(t: Tables, accountId: string, pending: Pending, today: int) returns (c: Call)
    requires accountId in t.authorities && t.authorities[accountId].pending == Some(pending)
    requires HashOfRun(t.runs, pending.runId).Some? && today <= pending.expiry
    ensures c.s.today == today
    ensures var after := After(t, c.body, c.s);
      accountId in after.authorities && after.authorities[accountId].pending.None?
      && (after.authorities[accountId].active == pending.runId || today < pending.effective)
  {
    var hash := HashOfRun(t.runs, pending.runId).value;
    var requestId := FreshRequest(t.events);
    var request := Request(requestId, t.authorities[accountId].revision, hash, None, "move on");
    var policy := Policy(1, pending.runId, accountId, hash, "", None, None, None, []);
    var action := if today < pending.effective then Cancel else Adopt;
    c := Call(Body(action, accountId, request), Surroundings(Some(policy), today, true, true));
    hide HashOfRun, EventOf;
  }

  // No run of requests from day `today` on changes the account's authority.
  ghost predicate Frozen(t: Tables, accountId: string, today: int)
    requires accountId in t.authorities
  {
    forall calls :: FromDay(calls, today) ==>
      var after := Continue(t, calls);
      accountId in after.authorities && after.authorities[accountId] == t.authorities[accountId]
  }

  // A registered pending run freezes its account exactly from the day after its expiry: until then it can be cancelled
  // or adopted, after that nothing can be done about it.
  lemma FrozenIffExpired(t: Tables, accountId: string, pending: Pending, today: int)
    requires accountId in t.authorities && t.authorities[accountId].pending == Some(pending)
    requires DatesHold(Some(pending)) && HashOfRun(t.runs, pending.runId).Some?
    ensures Frozen(t, accountId, today) <==> today > pending.expiry
  {
    if today <= pending.expiry {
      var c := PendingMovesOn(t, accountId, pending, today);
      var calls := [c];
      assert calls[..0] == [] && Continue(t, []) == t;
      assert Continue(t, calls) == After(t, c.body, c.s);
      assert FromDay(calls, today);
      hide After, HashOfRun;
    } else {
      forall calls | FromDay(calls, today)
        ensures var after := Continue(t, calls);
          accountId in after.authorities && after.authorities[accountId] == t.authorities[accountId]
      {
        assert FromDay(calls, pending.expiry + 1);
        ExpiredPendingFreezes(t, calls, accountId, pending);
      }
    }
  }

  // ----- an example

  // Two registered runs, and a request to hand over from the first to the second, decided on day `today`.
  const TwoRuns := [Run("one", "account", "h1", "h1", 1, true), Run("two", "account", "h2", "h2", 2, true)]

  function Ask(action: Action, revision: nat): Body {
    Body(action, "account",
            Request(if revision == 0 then "first" else "second", revision, "h2", Some("h1"), "hand over"))
  }

  function On(today: int, effective: int): Surroundings {
    Surroundings(
      Some(Policy(2, "two", "account", "h2", "h2", Some(effective), Some(effective), None, [])), today, true, true)
  }

  lemma HandOver(today: int, effective: int)
    requires today < effective
    ensures var t := After(Tables(TwoRuns, map[], []), Ask(Schedule, 0), On(today, effective));
      && t.runs == TwoRuns
      && t.authorities == map["account" := Authority(1, "one", Some(Pending("two", effective, effective)))]
      && var after := After(t, Ask(Adopt, 1), On(effective, effective));
         after.runs == TwoRuns && after.authorities == map["account" := Authority(2, "two", None)]
  {
    assert TwoRuns[..1] == [TwoRuns[0]] && TwoRuns[..1][..0] == [];
    assert RunsWith(TwoRuns[..1], "account", Some("h2")) == [];
    assert RunsWith(TwoRuns, "account", Some("h2")) == [TwoRuns[1]];
    assert RunsWith(TwoRuns[..1], "account", Some("h1")) == [TwoRuns[0]];
    assert RunsWith(TwoRuns, "account", Some("h1")) == [TwoRuns[0]];
    assert HashOfRun(TwoRuns, "two") == Some("h2");
    var body := Ask(Schedule, 0);
    var t := After(Tables(TwoRuns, map[], []), body, On(today, effective));
    assert EventOf([Event(body, 1, "one", Some(Pending("two", effective, effective)))], "second").None? by {
      assert "first" != "second";
    }
  }

  // A hand-over scheduled for day 1, its only day: on that day the account can still move, from the next one on it is
  // frozen.
  lemma ScheduledOnceFreezes()
    ensures var t := RunCalls(TwoRuns, [Call(Ask(Schedule, 0), On(0, 1))]);
      "account" in t.authorities && !Frozen(t, "account", 1) && Frozen(t, "account", 2)
  {
    HandOver(0, 1);
    var calls := [Call(Ask(Schedule, 0), On(0, 1))];
    assert calls[..0] == [] && RunCalls(TwoRuns, []) == Tables(TwoRuns, map[], []);
    var t := RunCalls(TwoRuns, calls);
    assert t == After(Tables(TwoRuns, map[], []), Ask(Schedule, 0), On(0, 1));
    assert HashOfRun(TwoRuns, "two") == Some("h2");
    hide After, Frozen, RunCalls, HashOfRun, Ask, On;
    FrozenIffExpired(t, "account", Pending("two", 1, 1), 1);
    FrozenIffExpired(t, "account", Pending("two", 1, 1), 2);
  }
}
