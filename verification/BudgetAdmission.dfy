/**
 * When the entry budget admits an order, told on the readings, the policy and the tables alone: every condition a
 * successful check implies, and that together they suffice. The same for the guard on the attempts table.
 */
module BudgetAdmission {
  import opened Outcomes
  import opened EntryBudget
  import PA = PolicyAuthority
  import PolicyAcceptance

  // ----- counting

  // The places of the account's attempts on a day.
  ghost function OnDayRows(day: LocalDay, attempts: seq<Attempt>, accountId: string, d: int): set<int> {
    set i | 0 <= i < |attempts| && attempts[i].accountId == accountId && day(Warsaw, attempts[i].at) == d
  }

  predicate SharesDay(
    day: LocalDay, a: Attempt, accountId: string, conid: nat, accountDay: int, sessionDay: int)
  {
    && a.accountId == accountId && a.conid == conid
    && (day(Warsaw, a.at) == accountDay || day(a.zone, a.at) == sessionDay)
  }

  // The places of its attempts on a contract that share the account day or, each in its own zone, the session day.
  ghost function SharedDayRows(
    day: LocalDay, attempts: seq<Attempt>, accountId: string, conid: nat, accountDay: int, sessionDay: int): set<int>
  {
    set i | 0 <= i < |attempts| && SharesDay(day, attempts[i], accountId, conid, accountDay, sessionDay)
  }

  lemma {:induction false} OnDayCounts(day: LocalDay, attempts: seq<Attempt>, accountId: string, d: int)
    ensures OnDay(day, attempts, accountId, d) == |OnDayRows(day, attempts, accountId, d)|
  {
    if attempts != [] {
      var n := |attempts| - 1;
      OnDayCounts(day, attempts[..n], accountId, d);
      var init := OnDayRows(day, attempts[..n], accountId, d);
      var all := if attempts[n].accountId == accountId && day(Warsaw, attempts[n].at) == d then init + {n} else init;
      forall i
        ensures i in OnDayRows(day, attempts, accountId, d) <==> i in all
      {
        assert 0 <= i < n ==> attempts[..n][i] == attempts[i];
      }
      assert OnDayRows(day, attempts, accountId, d) == all;
    }
  }

  lemma {:induction false} SharedDaysCount(
    day: LocalDay, attempts: seq<Attempt>, accountId: string, conid: nat, accountDay: int, sessionDay: int)
    ensures Clashing(day, attempts, accountId, conid, accountDay, sessionDay)
         == |SharedDayRows(day, attempts, accountId, conid, accountDay, sessionDay)|
  {
    if attempts != [] {
      var n := |attempts| - 1;
      SharedDaysCount(day, attempts[..n], accountId, conid, accountDay, sessionDay);
      assert Clashes(day, attempts[n], accountId, conid, accountDay, sessionDay)
        <==> SharesDay(day, attempts[n], accountId, conid, accountDay, sessionDay);
      hide SharesDay, Clashes;
      var init := SharedDayRows(day, attempts[..n], accountId, conid, accountDay, sessionDay);
      var all := if SharesDay(day, attempts[n], accountId, conid, accountDay, sessionDay) then init + {n} else init;
      forall i
        ensures i in SharedDayRows(day, attempts, accountId, conid, accountDay, sessionDay) <==> i in all
      {
        assert 0 <= i < n ==> attempts[..n][i] == attempts[i];
      }
      assert SharedDayRows(day, attempts, accountId, conid, accountDay, sessionDay) == all;
    }
  }

  // ----- the window

  predicate ForOrder(instrumentId: string, conId: nat, instrument: string, o: Order) {
    instrumentId == o.instrumentId && conId == o.conid && instrument == o.instrument
  }

  // The first window of the policy for the order that starts at `start`, or, without one, that is open at `now`.
  ghost predicate FirstWindow(windows: seq<Window>, o: Order, start: Option<int>, now: int, w: Window) {
    exists k :: 0 <= k < |windows| && windows[k] == w && Fits(w, o, start, now)
      && forall j :: 0 <= j < k ==> !Fits(windows[j], o, start, now)
  }

  predicate Fits(w: Window, o: Order, start: Option<int>, now: int) {
    ForOrder(w.instrumentId, w.conId, w.instrument, o)
    && if start.Some? then w.startsAt == start.value else w.startsAt <= now < w.endsAt
  }

  ghost predicate FirstScope(scopes: seq<Scope>, o: Order, s: Scope) {
    exists k :: 0 <= k < |scopes| && scopes[k] == s && ForOrder(s.instrumentId, s.conId, s.instrument, o)
      && forall j :: 0 <= j < k ==> !ForOrder(scopes[j].instrumentId, scopes[j].conId, scopes[j].instrument, o)
  }

  // The window an admitted order is in: under a recurring policy the session now offered to its instrument; under any
  // other, for an opening order, the one its binding or the caller names, or the one open now.
  ghost predicate InWindow(
    p: EntryPolicy, o: Order, binding: Option<Binding>, options: Options, r: Reading, w: Window)
  {
    if p.version == 3 then
      r.recurring.Success?
      && exists s :: FirstScope(p.scopes, o, s)
           && w == Window(s.instrumentId, s.conId, s.instrument, r.recurring.value.startsAt, r.recurring.value.endsAt,
                          s.zone)
    else
      !o.closes
      && FirstWindow(p.windows, o, if binding.Some? then Some(binding.value.startsAt) else options.windowStartsAt,
                     r.now, w)
  }

  lemma {:induction false} FoundIsFirst(
    windows: seq<Window>, suits: Window -> bool, o: Order, start: Option<int>, now: int, w: Window)
    requires forall x :: x in windows ==> (suits(x) <==> Fits(x, o, start, now))
    ensures FindWindow(windows, suits) == Some(w) <==> FirstWindow(windows, o, start, now, w)
  {
    if windows != [] {
      assert forall x :: x in windows[1..] ==> x in windows;
      assert windows[0] in windows;
      FoundIsFirst(windows[1..], suits, o, start, now, w);
      ShiftFirst(windows, o, start, now, w);
    }
  }

  lemma ShiftFirst(windows: seq<Window>, o: Order, start: Option<int>, now: int, w: Window)
    requires windows != []
    ensures FirstWindow(windows, o, start, now, w) <==>
            if Fits(windows[0], o, start, now) then w == windows[0] else FirstWindow(windows[1..], o, start, now, w)
  {
    var rest := windows[1..];
    if Fits(windows[0], o, start, now) {
      if w == windows[0] {
        assert FirstWindow(windows, o, start, now, w);
      }
    } else {
      if FirstWindow(windows, o, start, now, w) {
        var k :| 0 <= k < |windows| && windows[k] == w && Fits(w, o, start, now)
                  && forall j :: 0 <= j < k ==> !Fits(windows[j], o, start, now);
        assert rest[k - 1] == w;
        assert forall j :: 0 <= j < k - 1 ==> rest[j] == windows[j + 1];
      }
      if FirstWindow(rest, o, start, now, w) {
        var k :| 0 <= k < |rest| && rest[k] == w && Fits(w, o, start, now)
                  && forall j :: 0 <= j < k ==> !Fits(rest[j], o, start, now);
        assert windows[k + 1] == w;
        forall j | 0 <= j < k + 1
          ensures !Fits(windows[j], o, start, now)
        {
          assert j > 0 ==> windows[j] == rest[j - 1];
        }
      }
    }
  }

  lemma {:induction false} FoundScopeIsFirst(scopes: seq<Scope>, o: Order, s: Scope)
    ensures FindScope(scopes, o) == Some(s) <==> FirstScope(scopes, o, s)
  {
    if scopes != [] {
      FoundScopeIsFirst(scopes[1..], o, s);
      var rest, first := scopes[1..], scopes[0];
      if ForOrder(first.instrumentId, first.conId, first.instrument, o) {
        assert s == first ==> FirstScope(scopes, o, s);
      } else {
        if FirstScope(scopes, o, s) {
          var k :| 0 <= k < |scopes| && scopes[k] == s && ForOrder(s.instrumentId, s.conId, s.instrument, o)
            && forall j :: 0 <= j < k ==> !ForOrder(scopes[j].instrumentId, scopes[j].conId, scopes[j].instrument, o);
          assert rest[k - 1] == s;
          assert forall j :: 0 <= j < k - 1 ==> rest[j] == scopes[j + 1];
        }
        if FirstScope(rest, o, s) {
          var k :| 0 <= k < |rest| && rest[k] == s && ForOrder(s.instrumentId, s.conId, s.instrument, o)
            && forall j :: 0 <= j < k ==> !ForOrder(rest[j].instrumentId, rest[j].conId, rest[j].instrument, o);
          assert scopes[k + 1] == s;
          forall j | 0 <= j < k + 1
            ensures !ForOrder(scopes[j].instrumentId, scopes[j].conId, scopes[j].instrument, o)
          {
            assert j > 0 ==> scopes[j] == rest[j - 1];
          }
        }
      }
    }
  }

  // The window found, if the clock is inside it, is the one the order is in.
  lemma WindowIsIn(p: EntryPolicy, o: Order, binding: Option<Binding>, options: Options, r: Reading, w: Window)
    ensures w.startsAt <= r.now < w.endsAt ==>
              (WindowOf(p, o, binding, options, r) == Success(w) <==> InWindow(p, o, binding, options, r, w))
  {
    if p.version == 3 {
      forall s
        ensures FindScope(p.scopes, o) == Some(s) <==> FirstScope(p.scopes, o, s)
      {
        FoundScopeIsFirst(p.scopes, o, s);
      }
      hide FindScope, FirstScope;
    } else if w.startsAt <= r.now < w.endsAt {
      PinnedIsIn(p, o, binding, options, r, w);
    }
  }

  lemma PinnedIsIn(p: EntryPolicy, o: Order, binding: Option<Binding>, options: Options, r: Reading, w: Window)
    requires p.version != 3 && w.startsAt <= r.now < w.endsAt
    ensures WindowOf(p, o, binding, options, r) == Success(w) <==> InWindow(p, o, binding, options, r, w)
  {
    var pinned := if binding.Some? then Some(binding.value.startsAt) else options.windowStartsAt;
    if !o.closes {
      IdentityIsSome(p, o);
      if pinned.Some? {
        FoundIsFirst(p.windows, w => Suits(w, o) && w.startsAt == pinned.value, o, pinned, r.now, w);
      } else {
        CoveringIs(p, o, Some(r.now), w);
        IdentityCovers(p, o, r.now);
      }
      if FirstWindow(p.windows, o, pinned, r.now, w) {
        assert w in p.windows && Suits(w, o);
      }
    }
    hide FindWindow, FirstWindow;
  }

  lemma {:induction false} FoundIff(windows: seq<Window>, suits: Window -> bool)
    ensures FindWindow(windows, suits).Some? <==> exists x :: x in windows && suits(x)
    ensures var w := FindWindow(windows, suits); w.Some? ==> w.value in windows && suits(w.value)
  {
    if windows != [] {
      FoundIff(windows[1..], suits);
      assert windows == [windows[0]] + windows[1..];
    }
  }

  lemma IdentityIsSome(p: EntryPolicy, o: Order)
    requires !o.closes
    ensures PaperWindowForOrder(p, o, None).Some? <==> exists x :: x in p.windows && Suits(x, o)
    ensures var w := PaperWindowForOrder(p, o, None); w.Some? ==> w.value in p.windows && Suits(w.value, o)
  {
    IdentityFound(p, o, None);
  }

  lemma IdentityFound(p: EntryPolicy, o: Order, now: Option<int>)
    requires !o.closes && now.None?
    ensures PaperWindowForOrder(p, o, now).Some? <==> exists x :: x in p.windows && Suits(x, o)
    ensures var w := PaperWindowForOrder(p, o, now); w.Some? ==> w.value in p.windows && Suits(w.value, o)
  {
    FoundIff(p.windows, w => Suits(w, o) && (now.Some? ==> w.startsAt <= now.value < w.endsAt));
    hide Suits;
  }

  lemma CoveringIs(p: EntryPolicy, o: Order, now: Option<int>, w: Window)
    requires !o.closes && now.Some?
    ensures PaperWindowForOrder(p, o, now) == Some(w) <==> FirstWindow(p.windows, o, None, now.value, w)
  {
    FoundIsFirst(p.windows, w => Suits(w, o) && (now.Some? ==> w.startsAt <= now.value < w.endsAt), o, None, now.value,
                 w);
  }

  // The window of the order's instrument that is not open now cannot be the one the order is in.
  lemma IdentityCovers(p: EntryPolicy, o: Order, now: int)
    requires !o.closes
    ensures PaperWindowForOrder(p, o, None).Some? && PaperWindowForOrder(p, o, Some(now)).None? ==>
              var w := PaperWindowForOrder(p, o, None).value; !(w.startsAt <= now < w.endsAt)
  {
    IdentityIsSome(p, o);
    CoveringFound(p, o, Some(now));
  }

  lemma CoveringFound(p: EntryPolicy, o: Order, now: Option<int>)
    requires !o.closes && now.Some?
    ensures PaperWindowForOrder(p, o, now).Some? <==>
            exists x :: x in p.windows && Suits(x, o) && x.startsAt <= now.value < x.endsAt
  {
    FoundIff(p.windows, w => Suits(w, o) && (now.Some? ==> w.startsAt <= now.value < w.endsAt));
    hide Suits;
  }

  // ----- the policy in force

  // The account's authority, joined with the registered run it names, is for this run and manifest with no hand-over
  // due; without such an authority only a version-1 policy will do. A scheduled policy is inside its dates, a recurring
  // one past its effective day.
  ghost predicate InForceOn(t: PA.Tables, p: EntryPolicy, accountId: string, today: int) {
    && (if accountId in t.authorities
           && exists hash :: PolicyAcceptance.Registers(t.runs, t.authorities[accountId].active, hash)
        then
          var authority := t.authorities[accountId];
          && authority.active == p.runId && PolicyAcceptance.Registers(t.runs, p.runId, p.manifestHash)
          && (authority.pending.Some? ==> today < authority.pending.value.effective)
        else p.version == 1)
    && (p.version == 2 ==> p.effectiveDay <= today <= p.expiresAfterDay)
    && (p.version == 3 ==> p.effectiveDay <= today)
  }

  lemma InForceIff(t: PA.Tables, p: EntryPolicy, accountId: string, today: int)
    ensures PolicyFault(t, p, accountId, today).None? <==> InForceOn(t, p, accountId, today)
  {
    if accountId in t.authorities {
      var active := t.authorities[accountId].active;
      forall hash
        ensures PA.HashOfRun(t.runs, active) == Some(hash) <==> PolicyAcceptance.Registers(t.runs, active, hash)
      {
        PolicyAcceptance.RegistersIff(t.runs, active, hash);
      }
      PolicyAcceptance.RegistersIff(t.runs, p.runId, p.manifestHash);
      assert PA.HashOfRun(t.runs, active).Some? ==>
          PolicyAcceptance.Registers(t.runs, active, PA.HashOfRun(t.runs, active).value);
      hide PA.HashOfRun, PolicyAcceptance.Registers;
    }
  }

  // The stored run, if there is one, and the proposal's binding, if it has to have one, are the policy's own.
  predicate RowsAgree(
    b: Budget, p: EntryPolicy, accountId: string, w: Window, options: Options)
  {
    && (p.runId in b.runRows ==>
         var row := b.runRows[p.runId];
         && row.accountId == accountId && row.configHash == p.configHash && row.manifestHash == p.manifestHash
         && row.canonicalManifest == p.canonicalManifest)
    && (options.proposalId.Some? ==>
         && options.proposalId.value in b.bindings
         && var binding := b.bindings[options.proposalId.value];
            && binding.runId == p.runId && binding.instrumentId == w.instrumentId && binding.conid == w.conId
            && binding.zone == w.zone && binding.startsAt == w.startsAt && binding.endsAt == w.endsAt)
  }

  // ----- what has been used

  // Flat or terminally unfilled, with the proof.
  predicate Finished(supervision: map<int, Supervision>, proposalId: int) {
    && proposalId in supervision && supervision[proposalId].terminalProof
    && (supervision[proposalId].status == Flat || supervision[proposalId].status == TerminalUnfilled)
  }

  // Seen protected no more than ten seconds before `now`, and not after it.
  predicate SeenProtected(supervision: map<int, Supervision>, proposalId: int, now: int) {
    && proposalId in supervision && supervision[proposalId].status == Protected
    && supervision[proposalId].observedAt.Some?
    && 0 <= now - supervision[proposalId].observedAt.value <= 10 * 1000
  }

  // No attempt of the account keeps another out: each is finished, or, under a recurring policy, on another contract
  // and seen protected.
  ghost predicate NoneActive(
    b: Budget, version: nat, accountId: string, conid: nat, own: Option<int>, now: int)
  {
    forall a :: a in b.attempts && a.accountId == accountId && own != Some(a.proposalId) ==>
      || Finished(b.supervision, a.proposalId)
      || (version == 3 && a.conid != conid && SeenProtected(b.supervision, a.proposalId, now))
  }

  lemma NoneActiveIff(b: Budget, version: nat, accountId: string, conid: nat, own: Option<int>, now: int)
    ensures NoneActive(b, version, accountId, conid, own, now) <==>
            forall a :: a in b.attempts ==> !Blocks(b, a, version, accountId, conid, own, now)
  {
  }

  // What is left at an instant of the day: the attempts of the account's contract are all in the window's zone; a
  // dispatch has its own claim and is within the day's maximum, alone on its contract; a reservation finds room; the
  // account owes nothing for the day; and from version 2 on no other attempt is active.
  ghost predicate HasRoom(
    day: LocalDay, b: Budget, p: EntryPolicy, accountId: string, o: Order, w: Window, options: Options, at: int)
  {
    var today, sessionDay := day(Warsaw, at), day(w.zone, at);
    var used := |OnDayRows(day, b.attempts, accountId, today)|;
    var shared := |SharedDayRows(day, b.attempts, accountId, w.conId, today, sessionDay)|;
    && (forall a :: a in b.attempts && a.accountId == accountId && a.conid == w.conId ==> a.zone == w.zone)
    && Debt(accountId, today) !in b.debts
    && (options.dispatch ==>
         && (exists a :: a in b.attempts && options.proposalId == Some(a.proposalId) && a.accountId == accountId
               && a.runId == p.runId && a.version != 0
               && day(Warsaw, a.at) == today && day(a.zone, a.at) == sessionDay)
         && (p.version != 3 ==> used <= p.maxPerDay && shared == 1))
    && (!options.dispatch && p.version != 3 ==> used < p.maxPerDay && shared == 0)
    && (p.version == 2 || p.version == 3 ==>
         NoneActive(b, p.version, accountId, o.conid, if options.dispatch then options.proposalId else None, at))
  }

  lemma RoomIff(
    day: LocalDay, b: Budget, p: EntryPolicy, accountId: string, o: Order, w: Window, options: Options, at: int)
    ensures UseFault(day, b, p, accountId, o, w, options, at).None? <==>
            HasRoom(day, b, p, accountId, o, w, options, at)
  {
    var today, sessionDay := day(Warsaw, at), day(w.zone, at);
    OnDayCounts(day, b.attempts, accountId, today);
    SharedDaysCount(day, b.attempts, accountId, w.conId, today, sessionDay);
    NoneActiveIff(b, p.version, accountId, o.conid, if options.dispatch then options.proposalId else None, at);
    hide OnDay, Clashing, OnDayRows, SharedDayRows, Blocks, NoneActive;
  }

  // ----- the check

  // The session's end of entries: a recurring policy's own, or what the session guard answers.
  predicate EntriesEndAt(p: EntryPolicy, r: Reading, end: int) {
    if p.version == 3 then r.recurring.Success? && end == r.recurring.value.entriesEnd
    else r.session.Success? && end == r.session.value
  }

  // Everything an admitted order meets.
  ghost predicate Admits(
    day: LocalDay, t: PA.Tables, b: Budget, p: EntryPolicy, accountId: string, o: Order, options: Options, r: Reading,
    admission: Admission)
  {
    var w := admission.window;
    var binding := if options.proposalId.Some? && options.proposalId.value in b.bindings
                   then Some(b.bindings[options.proposalId.value]) else None;
    var margin := if p.version == 3 then p.exitMargin else options.exitMargin;
    && p.accountId == accountId && accountId in b.adopted && !b.heldAll && accountId !in b.held
    && InWindow(p, o, binding, options, r, w) && w.startsAt <= r.now < w.endsAt
    && InForceOn(t, p, accountId, day(Warsaw, r.now)) && RowsAgree(b, p, accountId, w, options)
    && 15 <= margin <= 60
    && (exists end :: EntriesEndAt(p, r, end)
          && admission.endsAt == (if end < w.endsAt then end else w.endsAt)
          && w.startsAt <= r.again && r.again < end && r.again < w.endsAt)
    && HasRoom(day, b, p, accountId, o, w, options, r.again)
  }

  // The check succeeds exactly when all of that holds.
  lemma CheckAdmitsIff(
    day: LocalDay, t: PA.Tables, b: Budget, p: EntryPolicy, accountId: string, o: Order, options: Options, r: Reading,
    admission: Admission)
    ensures CheckPaperEntryBudget(day, t, b, Some(p), accountId, o, options, r) == Success(admission) <==>
            Admits(day, t, b, p, accountId, o, options, r, admission)
  {
    var w := admission.window;
    var binding := if options.proposalId.Some? && options.proposalId.value in b.bindings
                   then Some(b.bindings[options.proposalId.value]) else None;
    WindowIsIn(p, o, binding, options, r, w);
    InForceIff(t, p, accountId, day(Warsaw, r.now));
    RoomIff(day, b, p, accountId, o, w, options, r.again);
    assert p.version == 3 && r.recurring.Failure? ==>
        WindowOf(p, o, binding, options, r).Failure? && !InWindow(p, o, binding, options, r, w);
    hide WindowOf, InWindow, PolicyFault, InForceOn, UseFault, HasRoom;
    var end := SessionEnd(p, r);
    assert forall x :: EntriesEndAt(p, r, x) ==> end == Success(x);
    if end.Success? && (p.version == 3 ==> r.recurring.Success?) {
      assert EntriesEndAt(p, r, end.value);
    }
  }

  // ----- the guard

  // The guard's own test of the policy, by its own clock: a registered run; the first supervised policy alone needs no
  // authority; any other has to be the active run, with no hand-over due, and inside its dates.
  predicate GuardInForce(
    t: PA.Tables, b: Budget, p: EntryPolicy, accountId: string, today: int)
  {
    && p.runId in b.runRows && b.runRows[p.runId].accountId == accountId
    && (accountId in t.authorities ==>
         var authority := t.authorities[accountId];
         authority.active == p.runId && (authority.pending.Some? ==> today < authority.pending.value.effective))
    && ((p.version == 1 && p.maxPerDay == 1)
        || (accountId in t.authorities
            && ((p.version == 2 && p.maxPerDay == 2 && p.effectiveDay <= today <= p.expiresAfterDay)
                || (p.version == 3 && p.effectiveDay <= today))))
  }

  // Everything a row the guard lets in meets.
  ghost predicate GuardAdmits(
    day: LocalDay, t: PA.Tables, b: Budget, p: EntryPolicy, a: Attempt, guard: int)
  {
    var today, sessionDay := day(Warsaw, a.at), day(a.zone, a.at);
    && !b.heldAll && a.accountId !in b.held
    && a.proposalId in b.bindings
    && (var binding := b.bindings[a.proposalId];
        binding.runId == a.runId && binding.conid == a.conid && binding.zone == a.zone
        && binding.startsAt <= a.at < binding.endsAt)
    && -1000 <= guard - a.at <= 1000
    && (forall c :: c in b.attempts && c.accountId == a.accountId && c.conid == a.conid ==> c.zone == a.zone)
    && GuardInForce(t, b, p, a.accountId, day(Warsaw, guard))
    && Debt(a.accountId, today) !in b.debts
    && (p.version != 3 ==>
         && |OnDayRows(day, b.attempts, a.accountId, today)| < p.maxPerDay
         && SharedDayRows(day, b.attempts, a.accountId, a.conid, today, sessionDay) == {})
    && (p.version != 1 ==> NoneActive(b, p.version, a.accountId, a.conid, None, guard))
  }

  lemma CapIff(day: LocalDay, t: PA.Tables, b: Budget, p: EntryPolicy, accountId: string, guard: int)
    ensures Cap(day, t, b, p, accountId, guard).Success? <==>
            GuardInForce(t, b, p, accountId, day(Warsaw, guard))
    ensures var cap := Cap(day, t, b, p, accountId, guard);
      cap.Success? ==>
        && 1 <= p.version <= 3 && cap.value == (if p.version == 3 then None else Some(p.maxPerDay))
        && (cap.value == Some(1) <==> p.version == 1)
  {
  }

  // The guard lets a row in exactly when all of that holds.
  lemma GuardAdmitsIff(day: LocalDay, t: PA.Tables, b: Budget, p: EntryPolicy, a: Attempt, guard: int)
    ensures GuardFault(day, t, b, p, a, guard).None? <==> GuardAdmits(day, t, b, p, a, guard)
  {
    var today, sessionDay := day(Warsaw, a.at), day(a.zone, a.at);
    CapIff(day, t, b, p, a.accountId, guard);
    OnDayCounts(day, b.attempts, a.accountId, today);
    SharedDaysCount(day, b.attempts, a.accountId, a.conid, today, sessionDay);
    NoneActiveIff(b, p.version, a.accountId, a.conid, None, guard);
    var shared := SharedDayRows(day, b.attempts, a.accountId, a.conid, today, sessionDay);
    assert |shared| == 0 <==> shared == {};
    hide OnDay, Clashing, OnDayRows, SharedDayRows, Blocks, NoneActive, Cap, GuardInForce;
    assert GuardInForce(t, b, p, a.accountId, day(Warsaw, guard)) ==> p.runId in b.runRows;
  }

  // ----- the reservation

  // A reservation goes through exactly when the check admits the proposal, the guard its row, and the proposal has none
  // yet; then that row, stamped with the written time and the policy it was made under, is all that is added.
  lemma ReservedIff(
    day: LocalDay, t: PA.Tables, b: Budget, p: EntryPolicy, accountId: string, o: Order, exitMargin: int, r: Reading,
    stamp: int, guard: int, admission: Admission, after: Budget)
    ensures
      var options := Options(Some(o.id), false, exitMargin, None);
      var a := Attempt(o.id, accountId, o.conid, admission.window.zone, stamp, p.runId, p.version, p.maxPerDay);
      Reserved(day, t, b, p, accountId, o, exitMargin, r, stamp, guard) == Success((after, admission)) <==>
        && o.id > 0 && Admits(day, t, b, p, accountId, o, options, r, admission)
        && GuardAdmits(day, t, b, p, a, guard) && (forall c :: c in b.attempts ==> c.proposalId != o.id)
        && after == b.(attempts := b.attempts + [a])
  {
    var options := Options(Some(o.id), false, exitMargin, None);
    var a := Attempt(o.id, accountId, o.conid, admission.window.zone, stamp, p.runId, p.version, p.maxPerDay);
    CheckAdmitsIff(day, t, b, p, accountId, o, options, r, admission);
    GuardAdmitsIff(day, t, b, p, a, guard);
    hide CheckPaperEntryBudget, Admits, GuardFault, GuardAdmits;
  }
}
