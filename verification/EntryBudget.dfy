/**
 * The paper-trading entry budget: whether an order may be entered now, and the reservation of its attempt under the
 * account lock. Each reservation is one atomic transaction; the clock is read again before the check decides and once
 * more for the stored row.
 */
module EntryBudget {
  import opened Outcomes
  import PA = PolicyAuthority

  datatype Zone = Warsaw | NewYork

  // The local day of an instant; days do not go back as time goes on.
  type LocalDay = (Zone, int) -> int

  datatype Window = Window(instrumentId: string, conId: nat, instrument: string, startsAt: int, endsAt: int, zone: Zone)

  datatype EntryPolicy = EntryPolicy(
    version: nat, runId: string, accountId: string, configHash: string, manifestHash: string, canonicalManifest: string,
    maxPerDay: nat, effectiveDay: int, expiresAfterDay: int, exitMargin: int, windows: seq<Window>, scopes: seq<Scope>)

  // An instrument of a recurring policy, whose windows are the sessions themselves.
  datatype Scope = Scope(instrumentId: string, conId: nat, instrument: string, zone: Zone)

  datatype Order = Order(id: int, instrumentId: string, conid: nat, instrument: string, closes: bool)

  datatype Binding = Binding(
    runId: string, instrumentId: string, conid: nat, zone: Zone, startsAt: int, endsAt: int)

  // `version` and `maxPerDay` are those of the policy the attempt was reserved under; a legacy row has version 0.
  datatype Attempt = Attempt(
    proposalId: int, accountId: string, conid: nat, zone: Zone, at: int, runId: string, version: nat, maxPerDay: nat)

  datatype SupervisionStatus = Flat | TerminalUnfilled | Protected | OtherStatus

  datatype Supervision = Supervision(status: SupervisionStatus, terminalProof: bool, observedAt: Option<int>)

  datatype RunRow = RunRow(accountId: string, configHash: string, manifestHash: string, canonicalManifest: string)

  datatype Debt = Debt(accountId: string, day: int)

  datatype Budget = Budget(
    adopted: set<string>, heldAll: bool, held: set<string>, runRows: map<string, RunRow>, bindings: map<int, Binding>,
    attempts: seq<Attempt>, debts: set<Debt>, supervision: map<int, Supervision>)

  datatype Denial =
    | Unconfigured | AccountMismatch | AdoptionRequired | MigrationHold | RecurringDenied(reason: string)
    | InstrumentMismatch | BindingMismatch | PolicyAdoptionRequired | AuthorityMismatch | PolicyNotEffective
    | PolicyExpired | OutsideWindow | ConfigurationChanged | ExitMarginInvalid | SessionDenied(reason: string)
    | TimezoneChanged | ClaimMissing | Consumed | ActiveAttempt | ProposalRequired | AlreadyReserved
    | RunUnregistered | AttemptBindingInvalid

  // The session a recurring policy may enter in, as its evidence gives it, and when entries must stop.
  datatype Session = Session(startsAt: int, endsAt: int, entriesEnd: int)

  // The clock at the start of the check and again before it decides, and what the session guards answer.
  datatype Reading = Reading(
    now: int, again: int, recurring: Result<Session, string>, session: Result<int, string>)

  datatype Options = Options(proposalId: Option<int>, dispatch: bool, exitMargin: int, windowStartsAt: Option<int>)

  datatype Admission = Admission(endsAt: int, window: Window)

  const TEN_SECONDS: int := 10_000
  const ONE_SECOND: int := 1_000

  ghost predicate Monotone(day: LocalDay) {
    forall z: Zone, t: int, u: int {:trigger day(z, t), day(z, u)} :: t <= u ==> day(z, t) <= day(z, u)
  }

  // ----- windows

  predicate Suits(w: Window, o: Order) {
    w.instrumentId == o.instrumentId && w.conId == o.conid && w.instrument == o.instrument
  }

  function FindWindow(windows: seq<Window>, suits: Window -> bool): Option<Window> {
    if windows == [] then None
    else if suits(windows[0]) then Some(windows[0])
    else FindWindow(windows[1..], suits)
  }

  function FindScope(scopes: seq<Scope>, o: Order): Option<Scope> {
    if scopes == [] then None
    else if scopes[0].instrumentId == o.instrumentId && scopes[0].conId == o.conid
            && scopes[0].instrument == o.instrument
    then Some(scopes[0])
    else FindScope(scopes[1..], o)
  }

  function PaperWindowForOrder(p: EntryPolicy, o: Order, now: Option<int>): Option<Window> {
    if o.closes then None
    else FindWindow(p.windows, w => Suits(w, o) && (now.Some? ==> w.startsAt <= now.value < w.endsAt))
  }

  function WindowOf(p: EntryPolicy, o: Order, binding: Option<Binding>, options: Options, r: Reading)
    : Result<Window, Denial>
  {
    if p.version == 3 then
      var scope := FindScope(p.scopes, o);
      if scope.None? then Failure(InstrumentMismatch)
      else if r.recurring.Failure? then Failure(RecurringDenied(r.recurring.error))
      else
        var s, session := scope.value, r.recurring.value;
        Success(Window(s.instrumentId, s.conId, s.instrument, session.startsAt, session.endsAt, s.zone))
    else
      var identity := PaperWindowForOrder(p, o, None);
      if identity.None? then Failure(InstrumentMismatch)
      else
        var pinned := if binding.Some? then Some(binding.value.startsAt) else options.windowStartsAt;
        if pinned.Some? then
          var found := FindWindow(p.windows, w => Suits(w, o) && w.startsAt == pinned.value);
          if found.Some? then Success(found.value) else Failure(BindingMismatch)
        else
          var current := PaperWindowForOrder(p, o, Some(r.now));
          Success(if current.Some? then current.value else identity.value)
  }

  // ----- the policy in force

  // The authority as the check reads it, joined with the run it names.
  function AuthorityOf(t: PA.Tables, accountId: string): Option<(PA.Authority, string)> {
    if accountId !in t.authorities then None
    else
      var authority := t.authorities[accountId];
      var hash := PA.HashOfRun(t.runs, authority.active);
      if hash.Some? then Some((authority, hash.value)) else None
  }

  function PolicyFault(t: PA.Tables, p: EntryPolicy, accountId: string, today: int): Option<Denial> {
    var authority := AuthorityOf(t, accountId);
    if authority.None? && p.version != 1 then Some(PolicyAdoptionRequired)
    else if authority.Some?
            && (authority.value.0.active != p.runId || authority.value.1 != p.manifestHash
                || (authority.value.0.pending.Some? && today >= authority.value.0.pending.value.effective))
    then Some(AuthorityMismatch)
    else if p.version == 3 && today < p.effectiveDay then Some(PolicyNotEffective)
    else if p.version == 2 && (today < p.effectiveDay || today > p.expiresAfterDay) then Some(PolicyExpired)
    else None
  }

  predicate RunRowAgrees(b: Budget, p: EntryPolicy, accountId: string) {
    p.runId in b.runRows ==> b.runRows[p.runId] == RunRow(accountId, p.configHash, p.manifestHash, p.canonicalManifest)
  }

  predicate BindingAgrees(binding: Option<Binding>, p: EntryPolicy, w: Window) {
    binding == Some(Binding(p.runId, w.instrumentId, w.conId, w.zone, w.startsAt, w.endsAt))
  }

  // ----- what has been used

  function AccountDay(day: LocalDay, a: Attempt): int {
    day(Warsaw, a.at)
  }

  function SessionDay(day: LocalDay, a: Attempt): int {
    day(a.zone, a.at)
  }

  function OnDay(day: LocalDay, attempts: seq<Attempt>, accountId: string, d: int): nat {
    if attempts == [] then 0
    else
      var a := attempts[|attempts| - 1];
      OnDay(day, attempts[..|attempts| - 1], accountId, d)
      + if a.accountId == accountId && AccountDay(day, a) == d then 1 else 0
  }

  predicate Clashes(day: LocalDay, a: Attempt, accountId: string, conid: nat, accountDay: int, sessionDay: int) {
    && a.accountId == accountId && a.conid == conid
    && (AccountDay(day, a) == accountDay || SessionDay(day, a) == sessionDay)
  }

  function Clashing(
    day: LocalDay, attempts: seq<Attempt>, accountId: string, conid: nat, accountDay: int, sessionDay: int): nat
  {
    if attempts == [] then 0
    else
      Clashing(day, attempts[..|attempts| - 1], accountId, conid, accountDay, sessionDay)
      + if Clashes(day, attempts[|attempts| - 1], accountId, conid, accountDay, sessionDay) then 1 else 0
  }

  predicate Settled(supervision: map<int, Supervision>, proposalId: int) {
    && proposalId in supervision
    && (supervision[proposalId].status.Flat? || supervision[proposalId].status.TerminalUnfilled?)
    && supervision[proposalId].terminalProof
  }

  // A terminal proof is stored for the attempt, whatever its status says now.
  predicate Proven(supervision: map<int, Supervision>, proposalId: int) {
    proposalId in supervision && supervision[proposalId].terminalProof
  }

  // Seen protected within the last ten seconds.
  predicate ProtectedNow(supervision: map<int, Supervision>, proposalId: int, now: int) {
    && proposalId in supervision && supervision[proposalId].status.Protected?
    && supervision[proposalId].observedAt.Some?
    && now - TEN_SECONDS <= supervision[proposalId].observedAt.value <= now
  }

  // An attempt that keeps others out: without terminal proof and, under a recurring policy, on the same contract or
  // not freshly seen protected.
  predicate Blocks(b: Budget, a: Attempt, version: nat, accountId: string, conid: nat, own: Option<int>, now: int) {
    && a.accountId == accountId && own != Some(a.proposalId)
    && (version != 3 || a.conid == conid || !ProtectedNow(b.supervision, a.proposalId, now))
    && !Settled(b.supervision, a.proposalId)
  }

  predicate ZoneChanged(b: Budget, accountId: string, w: Window) {
    exists a :: a in b.attempts && a.accountId == accountId && a.conid == w.conId && a.zone != w.zone
  }

  predicate HasClaim(
    day: LocalDay, b: Budget, p: EntryPolicy, accountId: string, w: Window, options: Options, again: int)
  {
    exists a :: a in b.attempts && options.proposalId == Some(a.proposalId)
      && a.accountId == accountId && AccountDay(day, a) == day(Warsaw, again)
      && SessionDay(day, a) == day(w.zone, again)
      && a.runId == p.runId && a.version != 0
  }

  function UseFault(
    day: LocalDay, b: Budget, p: EntryPolicy, accountId: string, o: Order, w: Window, options: Options, again: int)
    : Option<Denial>
  {
    var accountDay, sessionDay := day(Warsaw, again), day(w.zone, again);
    var onDay := OnDay(day, b.attempts, accountId, accountDay);
    var clashing := Clashing(day, b.attempts, accountId, w.conId, accountDay, sessionDay);
    var indebted := Debt(accountId, accountDay) in b.debts;
    if ZoneChanged(b, accountId, w) then Some(TimezoneChanged)
    else if options.dispatch
            && (!HasClaim(day, b, p, accountId, w, options, again)
                || (p.version != 3 && (onDay > p.maxPerDay || clashing != 1)) || indebted) then Some(ClaimMissing)
    else if !options.dispatch && ((p.version != 3 && (onDay >= p.maxPerDay || clashing > 0)) || indebted)
    then Some(Consumed)
    else if (p.version == 2 || p.version == 3)
            && exists a :: a in b.attempts
                 && Blocks(b, a, p.version, accountId, o.conid,
                           if options.dispatch then options.proposalId else None, again)
    then Some(ActiveAttempt)
    else None
  }

  // ----- the check

  function SessionEnd(p: EntryPolicy, r: Reading): Result<int, Denial> {
    if p.version == 3 && r.recurring.Success? then Success(r.recurring.value.entriesEnd)
    else if r.session.Success? then Success(r.session.value)
    else Failure(SessionDenied(r.session.error))
  }

  function Least(a: int, b: int): int {
    if b < a then b else a
  }

  // The checks on policy, window, binding and session, in order; what has been used is looked at last.
  function Admitted(
    day: LocalDay, t: PA.Tables, b: Budget, p: EntryPolicy, accountId: string, o: Order, options: Options, r: Reading)
    : Result<Admission, Denial>
  {
    var binding := if options.proposalId.Some? && options.proposalId.value in b.bindings
                   then Some(b.bindings[options.proposalId.value]) else None;
    var w :- WindowOf(p, o, binding, options, r);
    var fault := PolicyFault(t, p, accountId, day(Warsaw, r.now));
    if fault.Some? then Failure(fault.value)
    else if r.now < w.startsAt || r.now >= w.endsAt then Failure(OutsideWindow)
    else if !RunRowAgrees(b, p, accountId) then Failure(ConfigurationChanged)
    else if options.proposalId.Some? && !BindingAgrees(binding, p, w) then Failure(BindingMismatch)
    else
      var margin := if p.version == 3 then p.exitMargin else options.exitMargin;
      if margin < 15 || margin > 60 then Failure(ExitMarginInvalid)
      else
        var sessionEnd :- SessionEnd(p, r);
        var end := Least(w.endsAt, sessionEnd);
        if r.again < w.startsAt || r.again >= end then Failure(OutsideWindow)
        else
          var used := UseFault(day, b, p, accountId, o, w, options, r.again);
          if used.Some? then Failure(used.value) else Success(Admission(end, w))
  }

  function CheckPaperEntryBudget(
    day: LocalDay, t: PA.Tables, b: Budget, policy: Option<EntryPolicy>, accountId: string, o: Order, options: Options,
    r: Reading): Result<Admission, Denial>
  {
    if policy.None? then Failure(Unconfigured)
    else if policy.value.accountId != accountId then Failure(AccountMismatch)
    else if accountId !in b.adopted then Failure(AdoptionRequired)
    else if b.heldAll || accountId in b.held then Failure(MigrationHold)
    else Admitted(day, t, b, policy.value, accountId, o, options, r)
  }

  // ----- the guard on the attempts table

  // How many attempts a day the registered run may have, as the database decides it by its own clock: the run has to
  // be the active one, with no hand-over due. `None` is a recurring policy's answer.
  function Cap(day: LocalDay, t: PA.Tables, b: Budget, p: EntryPolicy, accountId: string, guard: int)
    : Result<Option<nat>, Denial>
  {
    var today := day(Warsaw, guard);
    if p.runId !in b.runRows || b.runRows[p.runId].accountId != accountId then Failure(RunUnregistered)
    else if accountId !in t.authorities then
      if p.version == 1 && p.maxPerDay == 1 then Success(Some(1)) else Failure(PolicyAdoptionRequired)
    else
      var authority := t.authorities[accountId];
      if authority.active != p.runId || (authority.pending.Some? && today >= authority.pending.value.effective)
      then Failure(AuthorityMismatch)
      else if p.version == 1 && p.maxPerDay == 1 then Success(Some(1))
      else if p.version == 2 && p.maxPerDay == 2 && p.effectiveDay <= today <= p.expiresAfterDay then Success(Some(2))
      else if p.version == 3 && today >= p.effectiveDay then Success(None)
      else Failure(PolicyExpired)
  }

  // The row is its proposal's, of a registered run, inside the bound window and freshly stamped.
  predicate GuardBinds(b: Budget, p: EntryPolicy, a: Attempt, guard: int) {
    && a.proposalId in b.bindings && p.runId in b.runRows && b.runRows[p.runId].accountId == a.accountId
    && var binding := b.bindings[a.proposalId];
       && binding.runId == a.runId && binding.conid == a.conid && binding.zone == a.zone
       && binding.startsAt <= a.at < binding.endsAt
       && guard - ONE_SECOND <= a.at <= guard + ONE_SECOND
  }

  // What the trigger on the insert finds wrong with a row of policy `p`, at its own time `guard`; days are those of the
  // row's stamp.
  function GuardFault(day: LocalDay, t: PA.Tables, b: Budget, p: EntryPolicy, a: Attempt, guard: int): Option<Denial> {
    if b.heldAll || a.accountId in b.held then Some(MigrationHold)
    else if !GuardBinds(b, p, a, guard) then Some(AttemptBindingInvalid)
    else if exists c :: c in b.attempts && c.accountId == a.accountId && c.conid == a.conid && c.zone != a.zone
    then Some(TimezoneChanged)
    else
      match Cap(day, t, b, p, a.accountId, guard)
      case Failure(e) => Some(e)
      case Success(cap) =>
        var accountDay, sessionDay := AccountDay(day, a), SessionDay(day, a);
        if (cap.Some? && (OnDay(day, b.attempts, a.accountId, accountDay) >= cap.value
                          || Clashing(day, b.attempts, a.accountId, a.conid, accountDay, sessionDay) > 0))
           || Debt(a.accountId, accountDay) in b.debts then Some(Consumed)
        else if cap != Some(1)
                && exists c :: c in b.attempts && Blocks(b, c, p.version, a.accountId, a.conid, None, guard)
        then Some(ActiveAttempt)
        else None
  }

  // ----- the reservation

  // `stamp` is the clock when the row is written, `guard` when the table's guard looks at it.
  function Reserved(
    day: LocalDay, t: PA.Tables, b: Budget, p: EntryPolicy, accountId: string, o: Order, exitMargin: int, r: Reading,
    stamp: int, guard: int): Result<(Budget, Admission), Denial>
  {
    if o.id <= 0 then Failure(ProposalRequired)
    else
      var admission :- CheckPaperEntryBudget(
                         day, t, b, Some(p), accountId, o, Options(Some(o.id), false, exitMargin, None), r);
      var a := Attempt(o.id, accountId, o.conid, admission.window.zone, stamp, p.runId, p.version, p.maxPerDay);
      var fault := GuardFault(day, t, b, p, a, guard);
      if fault.Some? then Failure(fault.value)
      else if exists c :: c in b.attempts && c.proposalId == o.id then Failure(AlreadyReserved)
      else Success((b.(attempts := b.attempts + [a]), admission))
  }

  class PaperEntryBudget {
    const day: LocalDay
    var adopted: set<string>
    var heldAll: bool
    var held: set<string>
    var runRows: map<string, RunRow>
    var bindings: map<int, Binding>
    var attempts: seq<Attempt>
    var debts: set<Debt>
    var supervision: map<int, Supervision>

    ghost function View(): Budget
      reads this
    {
      Budget(adopted, heldAll, held, runRows, bindings, attempts, debts, supervision)
    }

    constructor (day: LocalDay, legacy: seq<Attempt>, debts: set<Debt>)
      ensures View() == Budget({}, false, {}, map[], map[], legacy, debts, map[]) && this.day == day
    {
      this.day := day;
      adopted, heldAll, held, runRows, bindings, attempts := {}, false, {}, map[], map[], legacy;
      this.debts, supervision := debts, map[];
    }

    method ReservePaperEntryAttempt(
      t: PA.Tables, p: EntryPolicy, accountId: string, o: Order, exitMargin: int, r: Reading, stamp: int,
      guard: int)
      returns (answer: Result<Admission, Denial>)
      modifies this`attempts
      ensures var spec := Reserved(day, t, old(View()), p, accountId, o, exitMargin, r, stamp, guard);
        if spec.Success? then answer == Success(spec.value.1) && View() == spec.value.0
        else answer == Failure(spec.error) && View() == old(View())
    {
      hide Admitted;
      if o.id <= 0 {
        return Failure(ProposalRequired);
      }
      var b := Budget(adopted, heldAll, held, runRows, bindings, attempts, debts, supervision);
      answer := CheckPaperEntryBudget(
        day, t, b, Some(p), accountId, o, Options(Some(o.id), false, exitMargin, None), r);
      if answer.Failure? {
        return;
      }
      var zone := answer.value.window.zone;
      var a := Attempt(o.id, accountId, o.conid, zone, stamp, p.runId, p.version, p.maxPerDay);
      var fault := GuardFault(day, t, b, p, a, guard);
      if fault.Some? {
        return Failure(fault.value);
      }
      if exists c :: c in attempts && c.proposalId == o.id {
        return Failure(AlreadyReserved);
      }
      attempts := attempts + [a];
    }
  }

  // ----- what an admitted reservation means

  // The facts a successful check leaves behind.
  ghost predicate Clear(day: LocalDay, b: Budget, p: EntryPolicy, accountId: string, o: Order, w: Window, again: int) {
    && w.conId == o.conid && !ZoneChanged(b, accountId, w)
    && (p.version != 3 ==>
         && OnDay(day, b.attempts, accountId, day(Warsaw, again)) < p.maxPerDay
         && Clashing(day, b.attempts, accountId, o.conid, day(Warsaw, again), day(w.zone, again)) == 0)
    && (p.version == 2 || p.version == 3 ==>
         forall a :: a in b.attempts ==> !Blocks(b, a, p.version, accountId, o.conid, None, again))
  }

  lemma {:induction false} FoundSuits(windows: seq<Window>, suits: Window -> bool)
    ensures var w := FindWindow(windows, suits); w.Some? ==> suits(w.value)
  {
    if windows != [] {
      FoundSuits(windows[1..], suits);
    }
  }

  lemma {:induction false} ScopeSuits(scopes: seq<Scope>, o: Order)
    ensures var s := FindScope(scopes, o); s.Some? ==> s.value.conId == o.conid
  {
    if scopes != [] {
      ScopeSuits(scopes[1..], o);
    }
  }

  lemma WindowSuits(p: EntryPolicy, o: Order, binding: Option<Binding>, options: Options, r: Reading)
    ensures var w := WindowOf(p, o, binding, options, r); w.Success? ==> w.value.conId == o.conid
  {
    if p.version == 3 {
      ScopeSuits(p.scopes, o);
    } else {
      var pinned := if binding.Some? then Some(binding.value.startsAt) else options.windowStartsAt;
      if pinned.Some? {
        FoundSuits(p.windows, w => Suits(w, o) && w.startsAt == pinned.value);
      }
      WindowForOrderSuits(p, o, None);
      WindowForOrderSuits(p, o, Some(r.now));
    }
  }

  lemma WindowForOrderSuits(p: EntryPolicy, o: Order, now: Option<int>)
    ensures var w := PaperWindowForOrder(p, o, now); w.Some? ==> Suits(w.value, o)
  {
    FoundSuits(p.windows, w => Suits(w, o) && (now.Some? ==> w.startsAt <= now.value < w.endsAt));
  }

  lemma AdmittedIsClear(
    day: LocalDay, t: PA.Tables, b: Budget, p: EntryPolicy, accountId: string, o: Order, options: Options, r: Reading)
    requires !options.dispatch
    ensures var a := Admitted(day, t, b, p, accountId, o, options, r);
      a.Success? ==>
        && Clear(day, b, p, accountId, o, a.value.window, r.again)
        && PolicyFault(t, p, accountId, day(Warsaw, r.now)).None?
        && a.value.window.startsAt <= r.again < a.value.endsAt <= a.value.window.endsAt
  {
    var binding := if options.proposalId.Some? && options.proposalId.value in b.bindings
                   then Some(b.bindings[options.proposalId.value]) else None;
    WindowSuits(p, o, binding, options, r);
    hide WindowOf, PolicyFault, RunRowAgrees, BindingAgrees, OnDay, Clashing, Blocks, ZoneChanged, HasClaim;
  }

  // Dispatching an order needs its own stored claim of the same account and session day, made under this run, with no
  // other attempt in the way.
  lemma DispatchNeedsItsClaim(
    day: LocalDay, t: PA.Tables, b: Budget, p: EntryPolicy, accountId: string, o: Order, options: Options, r: Reading)
    requires options.dispatch && Admitted(day, t, b, p, accountId, o, options, r).Success?
    ensures var w := Admitted(day, t, b, p, accountId, o, options, r).value.window;
      && (exists a :: a in b.attempts && options.proposalId == Some(a.proposalId) && a.accountId == accountId
            && a.runId == p.runId && AccountDay(day, a) == day(Warsaw, r.again)
            && SessionDay(day, a) == day(w.zone, r.again))
      && (p.version != 3 ==>
           && OnDay(day, b.attempts, accountId, day(Warsaw, r.again)) <= p.maxPerDay
           && Clashing(day, b.attempts, accountId, w.conId, day(Warsaw, r.again), day(w.zone, r.again)) == 1)
      && (p.version == 2 || p.version == 3 ==>
           forall a :: a in b.attempts ==> !Blocks(b, a, p.version, accountId, o.conid, options.proposalId, r.again))
  {
    hide WindowOf, PolicyFault, RunRowAgrees, BindingAgrees, OnDay, Clashing, Blocks, ZoneChanged;
  }

  // ----- the account's attempts over time

  // No row of the account is stamped later than `time`.
  ghost predicate Stamped(b: Budget, accountId: string, time: int) {
    forall a :: a in b.attempts && a.accountId == accountId ==> a.at <= time
  }

  lemma {:induction false} NoneThatDay(day: LocalDay, attempts: seq<Attempt>, accountId: string, d: int)
    requires forall a :: a in attempts && a.accountId == accountId ==> AccountDay(day, a) != d
    ensures OnDay(day, attempts, accountId, d) == 0
  {
    if attempts != [] {
      assert attempts[|attempts| - 1] in attempts;
      NoneThatDay(day, attempts[..|attempts| - 1], accountId, d);
    }
  }

  lemma {:induction false} NoneClashing(
    day: LocalDay, attempts: seq<Attempt>, accountId: string, conid: nat, accountDay: int, sessionDay: int)
    requires Clashing(day, attempts, accountId, conid, accountDay, sessionDay) == 0
    ensures forall a :: a in attempts ==> !Clashes(day, a, accountId, conid, accountDay, sessionDay)
  {
    if attempts != [] {
      var init, last := attempts[..|attempts| - 1], attempts[|attempts| - 1];
      assert attempts == init + [last];
      NoneClashing(day, init, accountId, conid, accountDay, sessionDay);
    }
  }

  // The same account day or the same session day, on one contract of one account.
  predicate SameSlot(day: LocalDay, a: Attempt, c: Attempt) {
    && a.accountId == c.accountId && a.conid == c.conid
    && (AccountDay(day, a) == AccountDay(day, c) || SessionDay(day, a) == SessionDay(day, c))
  }

  // What a stored attempt keeps to, given the ones stored before it.
  ghost predicate Keeps(day: LocalDay, supervision: map<int, Supervision>, before: seq<Attempt>, a: Attempt) {
    && (a.version == 1 || a.version == 2 ==>
         && OnDay(day, before, a.accountId, AccountDay(day, a)) < a.maxPerDay
         && forall c :: c in before ==> !SameSlot(day, c, a))
    && (a.version == 2 ==> forall c :: c in before && c.accountId == a.accountId ==> Proven(supervision, c.proposalId))
    && (a.version == 3 ==>
         forall c :: c in before && c.accountId == a.accountId && c.conid == a.conid ==>
           Proven(supervision, c.proposalId))
  }

  // Between the check and the insert the day may turn; whatever it turns to, the new row keeps to the budget.
  lemma InsertKeeps(
    day: LocalDay, b: Budget, p: EntryPolicy, accountId: string, o: Order, w: Window, again: int, stamp: int)
    requires Monotone(day) && Stamped(b, accountId, again) && again <= stamp && 1 <= p.version <= 3
    requires Clear(day, b, p, accountId, o, w, again)
    ensures Keeps(day, b.supervision, b.attempts,
                  Attempt(o.id, accountId, o.conid, w.zone, stamp, p.runId, p.version, p.maxPerDay))
  {
    var a := Attempt(o.id, accountId, o.conid, w.zone, stamp, p.runId, p.version, p.maxPerDay);
    if p.version != 3 {
      DayStaysOrIsNew(day, b, accountId, again, stamp);
      SlotStaysOrIsNew(day, b, accountId, o.conid, w, again, stamp, a);
    }
    if p.version >= 2 {
      OthersAreSettled(b, p, accountId, o, again);
    }
    hide Clear, OnDay, SameSlot, Monotone;
  }

  lemma OthersAreSettled(b: Budget, p: EntryPolicy, accountId: string, o: Order, again: int)
    requires p.version == 2 || p.version == 3
    requires forall a :: a in b.attempts ==> !Blocks(b, a, p.version, accountId, o.conid, None, again)
    ensures forall c :: c in b.attempts && c.accountId == accountId && (p.version == 2 || c.conid == o.conid) ==>
              Settled(b.supervision, c.proposalId)
  {
    hide Settled, ProtectedNow;
    forall c | c in b.attempts && c.accountId == accountId && (p.version == 2 || c.conid == o.conid)
      ensures Settled(b.supervision, c.proposalId)
    {
      assert !Blocks(b, c, p.version, accountId, o.conid, None, again);
    }
  }

  lemma DayStaysOrIsNew(day: LocalDay, b: Budget, accountId: string, again: int, stamp: int)
    requires Monotone(day) && Stamped(b, accountId, again) && again <= stamp
    ensures OnDay(day, b.attempts, accountId, day(Warsaw, stamp))
         <= OnDay(day, b.attempts, accountId, day(Warsaw, again))
  {
    if day(Warsaw, stamp) != day(Warsaw, again) {
      forall a | a in b.attempts && a.accountId == accountId
        ensures AccountDay(day, a) != day(Warsaw, stamp)
      {
        assert day(Warsaw, a.at) <= day(Warsaw, again) <= day(Warsaw, stamp);
      }
      NoneThatDay(day, b.attempts, accountId, day(Warsaw, stamp));
    }
  }

  lemma SlotStaysOrIsNew(
    day: LocalDay, b: Budget, accountId: string, conid: nat, w: Window, again: int, stamp: int, a: Attempt)
    requires Monotone(day) && Stamped(b, accountId, again) && again <= stamp
    requires w.conId == conid && !ZoneChanged(b, accountId, w)
    requires Clashing(day, b.attempts, accountId, conid, day(Warsaw, again), day(w.zone, again)) == 0
    requires a.accountId == accountId && a.conid == conid && a.zone == w.zone && a.at == stamp
    ensures forall c :: c in b.attempts ==> !SameSlot(day, c, a)
  {
    NoneClashing(day, b.attempts, accountId, conid, day(Warsaw, again), day(w.zone, again));
    forall c | c in b.attempts && c.accountId == accountId && c.conid == conid
      ensures !SameSlot(day, c, a)
    {
      assert !Clashes(day, c, accountId, conid, day(Warsaw, again), day(w.zone, again));
      assert c.zone == w.zone;
      assert day(Warsaw, c.at) <= day(Warsaw, again) <= day(Warsaw, stamp);
      assert day(w.zone, c.at) <= day(w.zone, again) <= day(w.zone, stamp);
    }
  }

  // ----- runs

  datatype System = System(authority: PA.Tables, budget: Budget)

  // `Reserve` is the locked section of one order, `Decide` a policy request, `Observe` what supervision stores of an
  // attempt, `Rewrite` any change to the tables the budget only reads.
  datatype Step =
    | Reserve(
        policy: EntryPolicy, accountId: string, order: Order, exitMargin: int, reading: Reading, stamp: int, guard: int)
    | Decide(body: PA.Body, surroundings: PA.Surroundings)
    | Observe(proposalId: int, seen: Supervision)
    | Rewrite(
        adopted: set<string>, heldAll: bool, held: set<string>, runRows: map<string, RunRow>,
        bindings: map<int, Binding>, debts: set<Debt>)

  // The status is whatever was seen; a terminal proof, once stored, stays.
  function Observed(b: Budget, proposalId: int, seen: Supervision): Budget {
    var proof := seen.terminalProof || Proven(b.supervision, proposalId);
    b.(supervision := b.supervision[proposalId := seen.(terminalProof := proof)])
  }

  function Next(day: LocalDay, s: System, step: Step): System {
    match step
    case Reserve(p, accountId, o, exitMargin, r, stamp, guard) =>
      var reserved := Reserved(day, s.authority, s.budget, p, accountId, o, exitMargin, r, stamp, guard);
      if reserved.Success? then s.(budget := reserved.value.0) else s
    case Decide(body, surroundings) => s.(authority := PA.After(s.authority, body, surroundings))
    case Observe(proposalId, seen) => s.(budget := Observed(s.budget, proposalId, seen))
    case Rewrite(adopted, heldAll, held, runRows, bindings, debts) =>
      s.(budget := s.budget.(adopted := adopted, heldAll := heldAll, held := held, runRows := runRows,
                             bindings := bindings, debts := debts))
  }

  function RunSteps(day: LocalDay, start: System, steps: seq<Step>): System {
    if steps == [] then start
    else Next(day, RunSteps(day, start, steps[..|steps| - 1]), steps[|steps| - 1])
  }

  predicate Versioned(step: Step) {
    step.Reserve? ==> 1 <= step.policy.version <= 3
  }

  predicate SameAccount(a: Step, b: Step) {
    a.Reserve? && b.Reserve? && a.accountId == b.accountId
  }

  // The clock of one reservation runs on, and later reservations of the account see later times: the account lock.
  predicate InSequence(steps: seq<Step>) {
    && (forall i :: 0 <= i < |steps| ==>
         Versioned(steps[i])
         && (steps[i].Reserve? ==>
              steps[i].reading.now <= steps[i].reading.again <= steps[i].stamp <= steps[i].guard))
    && (forall i, j :: 0 <= i < j < |steps| && SameAccount(steps[i], steps[j]) ==>
         steps[i].stamp <= steps[j].reading.now)
  }

  // Every stored attempt keeps to the budget it was reserved under.
  ghost predicate Kept(day: LocalDay, b: Budget) {
    forall i :: 0 <= i < |b.attempts| ==> Keeps(day, b.supervision, b.attempts[..i], b.attempts[i])
  }

  // A run may start from any table that keeps to its budgets, with nothing stamped after its reservations begin.
  ghost predicate StartsKept(day: LocalDay, s: System, steps: seq<Step>) {
    && Kept(day, s.budget)
    && (forall i :: 0 <= i < |steps| && steps[i].Reserve? ==>
         Stamped(s.budget, steps[i].accountId, steps[i].reading.now))
  }

  // Every row is legacy or was stamped by one of the steps.
  ghost predicate FromSteps(s: System, start: System, steps: seq<Step>) {
    forall a :: a in s.budget.attempts ==>
      a in start.budget.attempts
      || exists i ::
           0 <= i < |steps| && steps[i].Reserve? && steps[i].accountId == a.accountId && steps[i].stamp == a.at
  }

  lemma ProvenStays(b: Budget, proposalId: int, seen: Supervision, other: int)
    requires Proven(b.supervision, other)
    ensures Proven(Observed(b, proposalId, seen).supervision, other)
  {
  }

  lemma KeepsOnObserving(day: LocalDay, b: Budget, proposalId: int, seen: Supervision)
    requires Kept(day, b)
    ensures Kept(day, Observed(b, proposalId, seen))
  {
    var after := Observed(b, proposalId, seen);
    hide OnDay, SameSlot;
    forall i | 0 <= i < |after.attempts|
      ensures Keeps(day, after.supervision, after.attempts[..i], after.attempts[i])
    {
      assert Keeps(day, b.supervision, b.attempts[..i], b.attempts[i]);
      forall c | c in b.attempts[..i] && Proven(b.supervision, c.proposalId)
        ensures Proven(after.supervision, c.proposalId)
      {
        ProvenStays(b, proposalId, seen, c.proposalId);
      }
      hide Proven, Observed;
    }
  }

  lemma KeepsOnReserving(
    day: LocalDay, t: PA.Tables, b: Budget, p: EntryPolicy, accountId: string, o: Order, exitMargin: int, r: Reading,
    stamp: int, guard: int)
    requires Monotone(day) && Kept(day, b) && 1 <= p.version <= 3
    requires Stamped(b, accountId, r.again) && r.again <= stamp
    ensures var reserved := Reserved(day, t, b, p, accountId, o, exitMargin, r, stamp, guard);
      reserved.Success? ==>
        && Kept(day, reserved.value.0)
        && exists a :: reserved.value.0 == b.(attempts := b.attempts + [a]) && a.accountId == accountId && a.at == stamp
  {
    var options := Options(Some(o.id), false, exitMargin, None);
    AdmittedIsClear(day, t, b, p, accountId, o, options, r);
    hide Admitted, Clear, Monotone;
    var reserved := Reserved(day, t, b, p, accountId, o, exitMargin, r, stamp, guard);
    if reserved.Success? {
      var w := reserved.value.1.window;
      InsertKeeps(day, b, p, accountId, o, w, r.again, stamp);
      var a := Attempt(o.id, accountId, o.conid, w.zone, stamp, p.runId, p.version, p.maxPerDay);
      assert reserved.value.0 == b.(attempts := b.attempts + [a]);
      KeptAppends(day, b, a);
    }
  }

  lemma KeptAppends(day: LocalDay, b: Budget, a: Attempt)
    requires Kept(day, b) && Keeps(day, b.supervision, b.attempts, a)
    ensures Kept(day, b.(attempts := b.attempts + [a]))
  {
    hide Keeps;
    var all := b.attempts + [a];
    forall i | 0 <= i < |all|
      ensures Keeps(day, b.supervision, all[..i], all[i])
    {
      if i < |b.attempts| {
        assert all[..i] == b.attempts[..i];
      } else {
        assert all[..i] == b.attempts;
      }
    }
  }

  lemma NextKeeps(day: LocalDay, s: System, start: System, steps: seq<Step>, step: Step)
    requires Monotone(day) && Kept(day, s.budget) && FromSteps(s, start, steps)
    requires InSequence(steps + [step]) && StartsKept(day, start, steps + [step])
    ensures var after := Next(day, s, step); Kept(day, after.budget) && FromSteps(after, start, steps + [step])
  {
    var all := steps + [step];
    assert all[|steps|] == step;
    StillFromSteps(s, start, steps, step);
    var after := Next(day, s, step);
    match step
    case Reserve(p, accountId, o, exitMargin, r, stamp, guard) =>
      SeenSoFar(day, s, start, steps, step);
      KeepsOnReserving(day, s.authority, s.budget, p, accountId, o, exitMargin, r, stamp, guard);
      hide Reserved, Kept;
      NewRowFromStep(s, after, start, steps, step);
    case Decide(_, _) =>
    case Observe(proposalId, seen) => KeepsOnObserving(day, s.budget, proposalId, seen);
    case Rewrite(_, _, _, _, _, _) =>
  }

  lemma StillFromSteps(s: System, start: System, steps: seq<Step>, step: Step)
    requires FromSteps(s, start, steps)
    ensures FromSteps(s, start, steps + [step])
  {
    var all := steps + [step];
    forall a | a in s.budget.attempts && a !in start.budget.attempts
      ensures exists i :: 0 <= i < |all| && all[i].Reserve? && all[i].accountId == a.accountId && all[i].stamp == a.at
    {
      var i :| 0 <= i < |steps| && steps[i].Reserve? && steps[i].accountId == a.accountId && steps[i].stamp == a.at;
      assert all[i] == steps[i];
    }
  }

  lemma NewRowFromStep(s: System, after: System, start: System, steps: seq<Step>, step: Step)
    requires step.Reserve? && FromSteps(s, start, steps + [step])
    requires after.budget.attempts == s.budget.attempts
             || exists a :: after.budget.attempts == s.budget.attempts + [a]
                  && a.accountId == step.accountId && a.at == step.stamp
    ensures FromSteps(after, start, steps + [step])
  {
    assert (steps + [step])[|steps|] == step;
  }

  lemma SeenSoFar(day: LocalDay, s: System, start: System, steps: seq<Step>, step: Step)
    requires FromSteps(s, start, steps) && step.Reserve?
    requires InSequence(steps + [step]) && StartsKept(day, start, steps + [step])
    ensures Stamped(s.budget, step.accountId, step.reading.again) && step.reading.again <= step.stamp
    ensures 1 <= step.policy.version <= 3
  {
    var all := steps + [step];
    assert all[|steps|] == step;
    forall a | a in s.budget.attempts && a.accountId == step.accountId
      ensures a.at <= step.reading.again
    {
      if a !in start.budget.attempts {
        var i :| 0 <= i < |steps| && steps[i].Reserve? && steps[i].accountId == a.accountId && steps[i].stamp == a.at;
        assert all[i] == steps[i];
      } else {
        assert Stamped(start.budget, step.accountId, step.reading.now);
      }
    }
  }

  lemma SequencePrefix(day: LocalDay, start: System, steps: seq<Step>)
    requires steps != [] && InSequence(steps) && StartsKept(day, start, steps)
    ensures var init := steps[..|steps| - 1]; InSequence(init) && StartsKept(day, start, init)
    ensures steps == steps[..|steps| - 1] + [steps[|steps| - 1]]
  {
    hide Versioned, Stamped, Kept;
    var init := steps[..|steps| - 1];
    assert forall i :: 0 <= i < |init| ==> init[i] == steps[i];
  }

  // In every run of reservations, policy requests, supervision and other changes, every attempt ever stored keeps to
  // the budget of the policy it was reserved under.
  lemma {:induction false} BudgetsAreKept(day: LocalDay, start: System, steps: seq<Step>)
    requires Monotone(day) && InSequence(steps) && StartsKept(day, start, steps)
    ensures Kept(day, RunSteps(day, start, steps).budget) && FromSteps(RunSteps(day, start, steps), start, steps)
  {
    hide Next, InSequence, StartsKept, Monotone;
    if steps == [] {
      StartIsKept(day, start, steps);
    } else {
      var init, step := steps[..|steps| - 1], steps[|steps| - 1];
      SequencePrefix(day, start, steps);
      BudgetsAreKept(day, start, init);
      hide Kept, FromSteps;
      NextKeeps(day, RunSteps(day, start, init), start, init, step);
    }
  }

  lemma StartIsKept(day: LocalDay, start: System, steps: seq<Step>)
    requires StartsKept(day, start, steps)
    ensures Kept(day, start.budget) && FromSteps(start, start, steps)
  {
    hide Kept;
  }

  // Legacy rows are under no policy's maximum.
  lemma LegacyIsKept(day: LocalDay, b: Budget)
    requires forall a :: a in b.attempts ==> a.version == 0
    ensures Kept(day, b)
  {
    forall i | 0 <= i < |b.attempts|
      ensures Keeps(day, b.supervision, b.attempts[..i], b.attempts[i])
    {
      assert b.attempts[i] in b.attempts;
    }
  }

  // ----- the guard on its own

  // The guard alone keeps to the budget, whatever the check said and whatever the clocks show.
  lemma GuardKeeps(day: LocalDay, t: PA.Tables, b: Budget, p: EntryPolicy, a: Attempt, guard: int)
    requires GuardFault(day, t, b, p, a, guard).None?
    requires 1 <= p.version <= 3 && a.version == p.version && a.maxPerDay == p.maxPerDay
    ensures Keeps(day, b.supervision, b.attempts, a)
  {
    var cap := Cap(day, t, b, p, a.accountId, guard).value;
    assert cap == if p.version == 3 then None else Some(p.maxPerDay);
    if p.version != 3 {
      NoneClashing(day, b.attempts, a.accountId, a.conid, AccountDay(day, a), SessionDay(day, a));
      forall c | c in b.attempts
        ensures !SameSlot(day, c, a)
      {
        assert !Clashes(day, c, a.accountId, a.conid, AccountDay(day, a), SessionDay(day, a));
      }
    }
    hide OnDay, Clashing, GuardBinds, ProtectedNow, SameSlot;
  }

  ghost predicate AllVersioned(steps: seq<Step>) {
    forall i :: 0 <= i < |steps| ==> Versioned(steps[i])
  }

  // So with the guard in place no run leaves the budget, even if clocks go back or accounts are not locked.
  lemma {:induction false} GuardedBudgetsAreKept(day: LocalDay, start: System, steps: seq<Step>)
    requires Kept(day, start.budget) && AllVersioned(steps)
    ensures Kept(day, RunSteps(day, start, steps).budget)
  {
    if steps != [] {
      var init, step := steps[..|steps| - 1], steps[|steps| - 1];
      assert forall i :: 0 <= i < |init| ==> init[i] == steps[i];
      GuardedBudgetsAreKept(day, start, init);
      var s := RunSteps(day, start, init);
      hide Kept, CheckPaperEntryBudget, GuardFault;
      match step
      case Reserve(p, accountId, o, exitMargin, r, stamp, guard) =>
        GuardedRowIsKept(day, s.authority, s.budget, p, accountId, o, exitMargin, r, stamp, guard);
      case Decide(_, _) =>
      case Observe(proposalId, seen) => KeepsOnObserving(day, s.budget, proposalId, seen);
      case Rewrite(adopted, heldAll, held, runRows, bindings, debts) =>
        RewritingKeeps(day, s.budget, Next(day, s, step).budget);
    }
  }

  lemma GuardedRowIsKept(
    day: LocalDay, t: PA.Tables, b: Budget, p: EntryPolicy, accountId: string, o: Order, exitMargin: int, r: Reading,
    stamp: int, guard: int)
    requires Kept(day, b) && 1 <= p.version <= 3
    ensures var reserved := Reserved(day, t, b, p, accountId, o, exitMargin, r, stamp, guard);
      reserved.Success? ==> Kept(day, reserved.value.0)
  {
    hide CheckPaperEntryBudget, GuardFault, Kept, Keeps;
    var reserved := Reserved(day, t, b, p, accountId, o, exitMargin, r, stamp, guard);
    if reserved.Success? {
      var a := reserved.value.0.attempts[|b.attempts|];
      GuardKeeps(day, t, b, p, a, guard);
      KeptAppends(day, b, a);
    }
  }

  lemma RewritingKeeps(day: LocalDay, b: Budget, after: Budget)
    requires Kept(day, b) && after.attempts == b.attempts && after.supervision == b.supervision
    ensures Kept(day, after)
  {
    hide Keeps;
  }

  // ----- what keeping to the budget means for an account

  function BudgetedOnDay(day: LocalDay, attempts: seq<Attempt>, accountId: string, d: int): nat {
    if attempts == [] then 0
    else
      var a := attempts[|attempts| - 1];
      BudgetedOnDay(day, attempts[..|attempts| - 1], accountId, d)
      + if a.accountId == accountId && AccountDay(day, a) == d && 1 <= a.version <= 2 then 1 else 0
  }

  lemma {:induction false} BudgetedAreSome(day: LocalDay, attempts: seq<Attempt>, accountId: string, d: int)
    ensures BudgetedOnDay(day, attempts, accountId, d) <= OnDay(day, attempts, accountId, d)
  {
    if attempts != [] {
      BudgetedAreSome(day, attempts[..|attempts| - 1], accountId, d);
    }
  }

  lemma {:induction false} KeptRowsFit(
    day: LocalDay, supervision: map<int, Supervision>, attempts: seq<Attempt>, accountId: string, d: int, most: nat)
    requires forall i :: 0 <= i < |attempts| ==> Keeps(day, supervision, attempts[..i], attempts[i])
    requires forall a :: a in attempts && a.accountId == accountId && AccountDay(day, a) == d && 1 <= a.version <= 2 ==>
               a.maxPerDay <= most
    ensures BudgetedOnDay(day, attempts, accountId, d) <= most
  {
    if attempts != [] {
      var init, last := attempts[..|attempts| - 1], attempts[|attempts| - 1];
      assert attempts == init + [last];
      forall i | 0 <= i < |init|
        ensures Keeps(day, supervision, init[..i], init[i])
      {
        assert init[..i] == attempts[..i] && init[i] == attempts[i];
      }
      KeptRowsFit(day, supervision, init, accountId, d, most);
      BudgetedAreSome(day, init, accountId, d);
      assert Keeps(day, supervision, init, last) && last in attempts;
    }
  }

  // After any run, the attempts of an account on a day that were reserved under version 1 or 2 are at most what their
  // policies allow, whatever else is stored.
  lemma AtMostADay(day: LocalDay, start: System, steps: seq<Step>, accountId: string, d: int, most: nat)
    requires Monotone(day) && InSequence(steps) && StartsKept(day, start, steps)
    requires forall a :: a in RunSteps(day, start, steps).budget.attempts ==>
               a.accountId == accountId && AccountDay(day, a) == d && 1 <= a.version <= 2 ==> a.maxPerDay <= most
    ensures BudgetedOnDay(day, RunSteps(day, start, steps).budget.attempts, accountId, d) <= most
  {
    BudgetsAreKept(day, start, steps);
    hide RunSteps;
    var b := RunSteps(day, start, steps).budget;
    KeptRowsFit(day, b.supervision, b.attempts, accountId, d, most);
  }

  // After any run, two attempts on one contract never share an account day or a session day, if the later one was
  // reserved under version 1 or 2.
  lemma OneAContractADay(day: LocalDay, start: System, steps: seq<Step>, i: nat, j: nat)
    requires Monotone(day) && InSequence(steps) && StartsKept(day, start, steps)
    requires var attempts := RunSteps(day, start, steps).budget.attempts;
      i < j < |attempts| && 1 <= attempts[j].version <= 2
    ensures var attempts := RunSteps(day, start, steps).budget.attempts; !SameSlot(day, attempts[i], attempts[j])
  {
    BudgetsAreKept(day, start, steps);
    hide RunSteps;
    var b := RunSteps(day, start, steps).budget;
    assert Keeps(day, b.supervision, b.attempts[..j], b.attempts[j]);
    assert b.attempts[..j][i] == b.attempts[i];
    hide OnDay, SameSlot;
  }

  // Version 2 leaves at most one attempt of the account without terminal proof, version 3 at most one per contract:
  // whatever was stored before such an attempt has one.
  lemma OneUnproven(day: LocalDay, start: System, steps: seq<Step>, i: nat, j: nat)
    requires Monotone(day) && InSequence(steps) && StartsKept(day, start, steps)
    requires var attempts := RunSteps(day, start, steps).budget.attempts;
      && i < j < |attempts| && attempts[i].accountId == attempts[j].accountId
      && (attempts[j].version == 2 || (attempts[j].version == 3 && attempts[i].conid == attempts[j].conid))
    ensures var b := RunSteps(day, start, steps).budget; Proven(b.supervision, b.attempts[i].proposalId)
  {
    BudgetsAreKept(day, start, steps);
    hide RunSteps;
    var b := RunSteps(day, start, steps).budget;
    assert Keeps(day, b.supervision, b.attempts[..j], b.attempts[j]);
    assert b.attempts[..j][i] == b.attempts[i];
    hide OnDay, SameSlot;
  }

  // ----- statuses beside the proof

  // The later attempt went in because the earlier one was settled.
  predicate ReliesOn(later: Attempt, earlier: Attempt) {
    && earlier.accountId == later.accountId
    && (later.version == 2 || (later.version == 3 && earlier.conid == later.conid))
  }

  ghost predicate OlderSettled(b: Budget) {
    forall i, j :: 0 <= i < j < |b.attempts| && ReliesOn(b.attempts[j], b.attempts[i]) ==>
      Settled(b.supervision, b.attempts[i].proposalId)
  }

  // Some later attempt relies on one of this proposal.
  ghost predicate ReliedOn(attempts: seq<Attempt>, proposalId: int) {
    exists i, j :: 0 <= i < j < |attempts| && ReliesOn(attempts[j], attempts[i]) && attempts[i].proposalId == proposalId
  }

  // The step puts an attempt that a later one relies on back to a status that is not settled.
  ghost predicate Reopens(b: Budget, step: Step) {
    && step.Observe? && !step.seen.status.Flat? && !step.seen.status.TerminalUnfilled?
    && ReliedOn(b.attempts, step.proposalId)
  }

  lemma ObservingKeepsSettledIff(b: Budget, proposalId: int, seen: Supervision)
    requires OlderSettled(b)
    ensures OlderSettled(Observed(b, proposalId, seen)) <==> !Reopens(b, Observe(proposalId, seen))
  {
    hide ReliesOn;
    var after := Observed(b, proposalId, seen);
    assert after.attempts == b.attempts;
    if Reopens(b, Observe(proposalId, seen)) {
      var i, j :| 0 <= i < j < |b.attempts| && ReliesOn(b.attempts[j], b.attempts[i])
                  && b.attempts[i].proposalId == proposalId;
      assert !Settled(after.supervision, after.attempts[i].proposalId);
    } else {
      forall i, j | 0 <= i < j < |after.attempts| && ReliesOn(after.attempts[j], after.attempts[i])
        ensures Settled(after.supervision, after.attempts[i].proposalId)
      {
        assert Settled(b.supervision, b.attempts[i].proposalId);
      }
    }
  }

  lemma ReservingKeepsSettled(
    day: LocalDay, t: PA.Tables, b: Budget, p: EntryPolicy, accountId: string, o: Order, exitMargin: int, r: Reading,
    stamp: int, guard: int)
    requires OlderSettled(b)
    ensures var reserved := Reserved(day, t, b, p, accountId, o, exitMargin, r, stamp, guard);
      reserved.Success? ==> OlderSettled(reserved.value.0)
  {
    var reserved := Reserved(day, t, b, p, accountId, o, exitMargin, r, stamp, guard);
    if reserved.Success? {
      AdmittedIsClear(day, t, b, p, accountId, o, Options(Some(o.id), false, exitMargin, None), r);
      if p.version == 2 || p.version == 3 {
        OthersAreSettled(b, p, accountId, o, r.again);
      }
      hide Admitted, GuardFault, Settled, OnDay, Clashing, Blocks, ZoneChanged;
      var after := reserved.value.0;
      forall i, j | 0 <= i < j < |after.attempts| && ReliesOn(after.attempts[j], after.attempts[i])
        ensures Settled(after.supervision, after.attempts[i].proposalId)
      {
        assert after.attempts[i] == b.attempts[i];
        if j == |b.attempts| {
          assert b.attempts[i] in b.attempts;
        }
      }
    }
  }

  lemma NextKeepsSettledIff(day: LocalDay, s: System, step: Step)
    requires OlderSettled(s.budget)
    ensures OlderSettled(Next(day, s, step).budget) <==> !Reopens(s.budget, step)
  {
    hide OlderSettled, Reserved, Observed, Reopens;
    match step
    case Reserve(p, accountId, o, exitMargin, r, stamp, guard) =>
      ReservingKeepsSettled(day, s.authority, s.budget, p, accountId, o, exitMargin, r, stamp, guard);
      OnlyObserving(s.budget, step);
    case Decide(_, _) => OnlyObserving(s.budget, step);
    case Observe(proposalId, seen) => ObservingKeepsSettledIff(s.budget, proposalId, seen);
    case Rewrite(_, _, _, _, _, _) =>
      OnlyObserving(s.budget, step);
      RewritingKeepsSettled(s.budget, Next(day, s, step).budget);
  }

  lemma OnlyObserving(b: Budget, step: Step)
    requires !step.Observe?
    ensures !Reopens(b, step)
  {
  }

  lemma RewritingKeepsSettled(b: Budget, after: Budget)
    requires OlderSettled(b) && after.attempts == b.attempts && after.supervision == b.supervision
    ensures OlderSettled(after)
  {
  }

  // At every point of the run, whatever an attempt relied on is still settled.
  ghost predicate SettledThroughout(day: LocalDay, start: System, steps: seq<Step>) {
    && OlderSettled(RunSteps(day, start, steps).budget)
    && (steps != [] ==> SettledThroughout(day, start, steps[..|steps| - 1]))
  }

  ghost predicate NothingReopened(day: LocalDay, start: System, steps: seq<Step>) {
    steps != [] ==>
      var init := steps[..|steps| - 1];
      NothingReopened(day, start, init) && !Reopens(RunSteps(day, start, init).budget, steps[|steps| - 1])
  }

  // What let a reservation through stays settled through a whole run exactly when supervision never writes another
  // status to it.
  lemma {:induction false} SettledThroughoutIff(day: LocalDay, start: System, steps: seq<Step>)
    requires OlderSettled(start.budget)
    ensures SettledThroughout(day, start, steps) <==> NothingReopened(day, start, steps)
  {
    hide OlderSettled, Reopens, Next;
    if steps != [] {
      var init := steps[..|steps| - 1];
      SettledThroughoutIff(day, start, init);
      if SettledThroughout(day, start, init) {
        NextKeepsSettledIff(day, RunSteps(day, start, init), steps[|steps| - 1]);
      }
    }
  }

  // ----- what the budget does not promise

  // A policy of one window, for contract 1.
  function OneWindow(version: nat, runId: string, hash: string, startsAt: int, endsAt: int): EntryPolicy {
    EntryPolicy(version, runId, "account", "config", hash, hash, 2, 0, 0, 0,
                [Window("I", 1, "X", startsAt, endsAt, Warsaw)], [])
  }

  const OneLot := Order(2, "I", 1, "X", false)

  // Proposal 2 is bound to the policy's window; `attempts` are stored.
  function Holding(p: EntryPolicy, attempts: seq<Attempt>, supervision: map<int, Supervision>): Budget
    requires p.windows != []
  {
    var w := p.windows[0];
    Budget({p.accountId}, false, {},
           map[p.runId := RunRow(p.accountId, p.configHash, p.manifestHash, p.canonicalManifest)],
           map[2 := Binding(p.runId, w.instrumentId, w.conId, w.zone, w.startsAt, w.endsAt)], attempts, {}, supervision)
  }

  function AtOnce(now: int): Reading {
    Reading(now, now, Failure("none"), Success(now + 1))
  }

  // A reservation of proposal 2 in its window, stored in the same instant, succeeds when policy and budget allow it.
  lemma ReservesUnder(day: LocalDay, t: PA.Tables, b: Budget, p: EntryPolicy, now: int)
    requires p == OneWindow(2, p.runId, p.manifestHash, now, now + 1)
    requires b == Holding(p, b.attempts, b.supervision)
    requires PolicyFault(t, p, "account", day(Warsaw, now)).None?
    requires Cap(day, t, b, p, "account", now) == Success(Some(2))
    requires UseFault(day, b, p, "account", OneLot, p.windows[0], Options(Some(2), false, 15, None), now).None?
    requires forall a :: a in b.attempts ==> a.proposalId != 2
    ensures var reserved := Reserved(day, t, b, p, "account", OneLot, 15, AtOnce(now), now, now);
      reserved.Success? && reserved.value.0.supervision == b.supervision && reserved.value.0.attempts
        == b.attempts + [Attempt(2, "account", 1, Warsaw, now, p.runId, 2, 2)]
  {
    var w := p.windows[0];
    var a := Attempt(2, "account", 1, Warsaw, now, p.runId, 2, 2);
    assert GuardFault(day, t, b, p, a, now).None?;
    hide PolicyFault, UseFault, GuardFault;
    var options := Options(Some(2), false, 15, None);
    assert Suits(w, OneLot);
    assert WindowOf(p, OneLot, Some(b.bindings[2]), options, AtOnce(now)) == Success(w);
    assert Admitted(day, t, b, p, "account", OneLot, options, AtOnce(now)) == Success(Admission(now + 1, w));
  }

  // The account's two attempts, the later one of version 2, are both without a settled status.
  ghost predicate TwoUnsettled(b: Budget) {
    && |b.attempts| == 2 && b.attempts[0].accountId == b.attempts[1].accountId && b.attempts[1].version == 2
    && !Settled(b.supervision, b.attempts[0].proposalId) && !Settled(b.supervision, b.attempts[1].proposalId)
  }

  const Legacy := Attempt(1, "account", 9, Warsaw, 0, "before", 0, 0)
  const Bounded := OneWindow(2, "two", "h2", 5, 6)
  const Before := Holding(Bounded, [Legacy], map[1 := Supervision(Flat, true, Some(1))])
  const Begin := System(PA.Tables(PA.TwoRuns, map[], []), Before)

  const Schedules := Decide(PA.Ask(PA.Schedule, 0), PA.On(-1, 0))
  const Adopts := Decide(PA.Ask(PA.Adopt, 1), PA.On(0, 0))
  const Reserves := Reserve(Bounded, "account", OneLot, 15, AtOnce(5), 5, 5)
  const Faults := Observe(1, Supervision(OtherStatus, false, Some(7)))

  // Only the proof is kept, not the status: after a version-2 reservation an older attempt that was flat and proven can
  // be put on hold again, and then two attempts of the account are without a settled status.
  lemma ProvenCanBeOnHold() returns (day: LocalDay)
    ensures var steps := [Schedules, Adopts, Reserves, Faults];
      && Monotone(day) && InSequence(steps) && StartsKept(day, Begin, steps)
      && TwoUnsettled(RunSteps(day, Begin, steps).budget)
  {
    hide TwoUnsettled, Kept;
    day := (z, t) => if t < 0 then -1 else 0;
    BothDecided(day);
    FourSteps(day, Begin, Schedules, Adopts, Reserves, Faults);
    HoldReopens(day, Next(day, Next(day, Begin, Schedules), Adopts));
    LegacyIsKept(day, Before);
    OneReservation(day);
    hide InSequence, StartsKept, Stamped, RunSteps, Next;
  }

  lemma OneReservation(day: LocalDay)
    requires Kept(day, Before)
    ensures var steps := [Schedules, Adopts, Reserves, Faults]; InSequence(steps) && StartsKept(day, Begin, steps)
  {
    hide Kept;
    assert forall a :: a in Before.attempts ==> a == Legacy;
  }

  lemma BothDecided(day: LocalDay)
    ensures var adopted := Next(day, Next(day, Begin, Schedules), Adopts);
      && adopted.budget == Before && adopted.authority.runs == PA.TwoRuns
      && adopted.authority.authorities == map["account" := PA.Authority(2, "two", None)]
  {
    PA.HandOver(-1, 0);
    hide PA.After, PA.Ask, PA.On;
  }

  lemma HoldReopens(day: LocalDay, adopted: System)
    requires adopted.budget == Before && adopted.authority.runs == PA.TwoRuns
    requires adopted.authority.authorities == map["account" := PA.Authority(2, "two", None)]
    requires forall z :: day(z, 0) == day(z, 5) == 0
    ensures TwoUnsettled(Next(day, Next(day, adopted, Reserves), Faults).budget)
  {
    ReservesBeside(day, adopted.authority);
    hide Reserved;
    assert Next(day, adopted, Reserves).budget
        == Reserved(day, adopted.authority, Before, Bounded, "account", OneLot, 15, AtOnce(5), 5, 5).value.0;
  }

  lemma ReservesBeside(day: LocalDay, t: PA.Tables)
    requires t.runs == PA.TwoRuns && t.authorities == map["account" := PA.Authority(2, "two", None)]
    requires forall z :: day(z, 0) == day(z, 5) == 0
    ensures var reserved := Reserved(day, t, Before, Bounded, "account", OneLot, 15, AtOnce(5), 5, 5);
      reserved.Success? && reserved.value.0.supervision == Before.supervision
      && reserved.value.0.attempts == [Legacy, Attempt(2, "account", 1, Warsaw, 5, "two", 2, 2)]
  {
    assert OnDay(day, [Legacy], "account", 0) == 1;
    assert Clashing(day, [Legacy], "account", 1, 0, 0) == 0;
    assert PA.HashOfRun(PA.TwoRuns, "two") == Some("h2");
    ReservesUnder(day, t, Before, Bounded, 5);
    hide Reserved;
  }

  lemma FourSteps(day: LocalDay, start: System, a: Step, b: Step, c: Step, d: Step)
    ensures RunSteps(day, start, [a, b, c, d]) == Next(day, Next(day, Next(day, Next(day, start, a), b), c), d)
  {
    hide Next;
    assert [a, b, c, d][..3] == [a, b, c] && [a, b, c][..2] == [a, b] && [a, b][..1] == [a] && [a][..0] == [];
    assert RunSteps(day, start, [a]) == Next(day, start, a);
    assert RunSteps(day, start, [a, b]) == Next(day, RunSteps(day, start, [a]), b);
    assert RunSteps(day, start, [a, b, c]) == Next(day, RunSteps(day, start, [a, b]), c);
  }

  // ----- with the policy authority

  function RowsOf(attempts: seq<Attempt>, accountId: string): seq<Attempt> {
    if attempts == [] then []
    else
      var init, a := RowsOf(attempts[..|attempts| - 1], accountId), attempts[|attempts| - 1];
      if a.accountId == accountId then init + [a] else init
  }

  lemma AppendRow(attempts: seq<Attempt>, a: Attempt, accountId: string)
    ensures RowsOf(attempts + [a], accountId)
         == if a.accountId == accountId then RowsOf(attempts, accountId) + [a] else RowsOf(attempts, accountId)
  {
    assert (attempts + [a])[..|attempts|] == attempts;
  }

  // A pending run is due at `time`, and the run still active is a registered one.
  ghost predicate DueAt(day: LocalDay, t: PA.Tables, accountId: string, pending: PA.Pending, time: int) {
    && PA.Due(t, accountId, pending, day(Warsaw, time))
    && PA.HashOfRun(t.runs, t.authorities[accountId].active).Some?
  }

  // The check turns the account away, whatever the policy and the order.
  lemma DueAdmitsNothing(
    day: LocalDay, t: PA.Tables, b: Budget, policy: Option<EntryPolicy>, accountId: string, o: Order, options: Options,
    r: Reading, pending: PA.Pending)
    requires DueAt(day, t, accountId, pending, r.now)
    ensures CheckPaperEntryBudget(day, t, b, policy, accountId, o, options, r).Failure?
  {
    if policy.Some? {
      assert PolicyFault(t, policy.value, accountId, day(Warsaw, r.now)).Some?;
      hide WindowOf, RunRowAgrees, BindingAgrees, UseFault, PolicyFault;
    }
  }

  // The guard refuses the row, whatever the check found earlier.
  lemma DueStoresNothing(
    day: LocalDay, t: PA.Tables, b: Budget, p: EntryPolicy, accountId: string, o: Order, exitMargin: int, r: Reading,
    stamp: int, guard: int, pending: PA.Pending)
    requires PA.Due(t, accountId, pending, day(Warsaw, guard))
    ensures Reserved(day, t, b, p, accountId, o, exitMargin, r, stamp, guard).Failure?
  {
    hide CheckPaperEntryBudget, OnDay, Clashing, Blocks, GuardBinds;
  }

  // From the day of `time` on the account's reservations reach the guard and policy requests are decided. The guard
  // never looks at a row before its stamp, so this takes in every row stamped from `time` on, whenever it was begun.
  ghost predicate FromTime(day: LocalDay, steps: seq<Step>, accountId: string, time: int) {
    forall i :: 0 <= i < |steps| ==>
      && (steps[i].Reserve? && steps[i].accountId == accountId ==> day(Warsaw, time) <= day(Warsaw, steps[i].guard))
      && (steps[i].Decide? ==> day(Warsaw, time) <= steps[i].surroundings.today)
  }

  // A request to adopt the account's pending run while it still may be adopted.
  predicate AsksToAdopt(step: Step, accountId: string, pending: PA.Pending) {
    && step.Decide? && step.body.action.Adopt? && step.body.accountId == accountId
    && step.surroundings.today <= pending.expiry
  }

  // The account's authority is as it was, and nothing has been reserved.
  ghost predicate StillWaits(s: System, start: System, accountId: string)
    requires accountId in start.authority.authorities
  {
    && accountId in s.authority.authorities && s.authority.runs == start.authority.runs
    && s.authority.authorities[accountId] == start.authority.authorities[accountId]
    && RowsOf(s.budget.attempts, accountId) == RowsOf(start.budget.attempts, accountId)
  }

  lemma NextWaits(
    day: LocalDay, s: System, start: System, step: Step, accountId: string, pending: PA.Pending, time: int)
    requires accountId in start.authority.authorities && StillWaits(s, start, accountId)
    requires PA.Due(start.authority, accountId, pending, day(Warsaw, time)) && FromTime(day, [step], accountId, time)
    requires !AsksToAdopt(step, accountId, pending)
    ensures StillWaits(Next(day, s, step), start, accountId)
  {
    assert [step][0] == step;
    match step
    case Reserve(p, account, o, exitMargin, r, stamp, guard) =>
      ReservingWaits(day, s, start, step, accountId, pending, time);
    case Decide(body, surroundings) =>
      PA.DueUntilAdopted(s.authority, body, surroundings, accountId, pending);
      hide PA.Changed;
    case Observe(proposalId, seen) =>
      assert Observed(s.budget, proposalId, seen).attempts == s.budget.attempts;
    case Rewrite(_, _, _, _, _, _) =>
  }

  lemma ReservingWaits(
    day: LocalDay, s: System, start: System, step: Step, accountId: string, pending: PA.Pending, time: int)
    requires accountId in start.authority.authorities && StillWaits(s, start, accountId) && step.Reserve?
    requires PA.Due(start.authority, accountId, pending, day(Warsaw, time))
    requires step.accountId == accountId ==> day(Warsaw, time) <= day(Warsaw, step.guard)
    ensures StillWaits(Next(day, s, step), start, accountId)
  {
    hide CheckPaperEntryBudget;
    var after := Next(day, s, step);
    if after.budget != s.budget {
      var a := after.budget.attempts[|s.budget.attempts|];
      assert after.budget.attempts == s.budget.attempts + [a] && a.accountId == step.accountId;
      AppendRow(s.budget.attempts, a, accountId);
      if step.accountId == accountId {
        DueStoresNothing(day, s.authority, s.budget, step.policy, accountId, step.order, step.exitMargin, step.reading,
                         step.stamp, step.guard, pending);
      }
    }
  }

  // Once a pending run's effective day has come, no run of steps without a timely request to adopt it changes the
  // account's authority or stores an attempt of the account, not even one whose reservation began before that day:
  // cancelling and scheduling are refused, and the check or else the table's guard turns the old run away.
  lemma {:induction false} NothingIsAdmittedUntilAdopted(
    day: LocalDay, start: System, steps: seq<Step>, accountId: string, pending: PA.Pending, time: int)
    requires PA.Due(start.authority, accountId, pending, day(Warsaw, time)) && FromTime(day, steps, accountId, time)
    requires forall i :: 0 <= i < |steps| ==> !AsksToAdopt(steps[i], accountId, pending)
    ensures StillWaits(RunSteps(day, start, steps), start, accountId)
  {
    if steps != [] {
      var init, step := steps[..|steps| - 1], steps[|steps| - 1];
      assert forall i :: 0 <= i < |init| ==> init[i] == steps[i];
      assert FromTime(day, [step], accountId, time) by {
        assert [step][0] == steps[|steps| - 1];
      }
      NothingIsAdmittedUntilAdopted(day, start, init, accountId, pending, time);
      hide Next, StillWaits;
      NextWaits(day, RunSteps(day, start, init), start, step, accountId, pending, time);
    }
  }
}
