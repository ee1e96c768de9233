/**
 * The one-shot claim of a research experiment, with crash recovery. Database sessions take session-level advisory
 * locks; every statement is one atomic step, any session may die between two of them, and steps of different sessions
 * interleave freely.
 */
module ExperimentClaim {
  import opened Outcomes

  datatype Status = Running | Finished

  datatype Row = Row(request: string, status: Status, result: Option<string>, writes: nat)

  // Where a session is in its operation; a claiming session that succeeded stays `Owning` until it closes.
  datatype Phase =
    | Idle | Dead
    | ClaimLocked(experiment: string, request: string) | Owning(experiment: string) | RecoverLocked(experiment: string)

  datatype Lock = Lock(session: nat, count: nat)

  // `claims` counts the successful claims of an experiment. A session never seen is an idle one.
  datatype World = World(
    rows: map<string, Row>, locks: map<int, Lock>, phases: map<nat, Phase>, claims: map<string, nat>)

  // The statements of the repository's operations, and a session's death.
  datatype Step =
    | ClaimTryLock(session: nat, experiment: string, request: string)
    | ClaimInsert(session: nat)
    | ClaimFails(session: nat)
    | RecoverTryLock(session: nat, experiment: string)
    | RecoverFinish(session: nat, result: string)
    | RecoverFails(session: nat)
    | Save(experiment: string, result: string)
    | Close(session: nat)
    | Die(session: nat)

  // `hashtext` of the lock key; nothing keeps two experiments from sharing a hash.
  type Hash = string -> int

  function PhaseOf(w: World, session: nat): Phase {
    if session in w.phases then w.phases[session] else Idle
  }

  function InPhase(w: World, session: nat, phase: Phase): World {
    w.(phases := w.phases[session := phase])
  }

  predicate CanLock(w: World, key: int, session: nat) {
    key in w.locks ==> w.locks[key].session == session
  }

  // A session may take a lock it holds once more, and must then release it as often.
  function Locked(w: World, key: int, session: nat): World {
    w.(locks := w.locks[key := Lock(session, if key in w.locks then w.locks[key].count + 1 else 1)])
  }

  function Unlocked(w: World, key: int, session: nat): World {
    if key !in w.locks || w.locks[key].session != session then w
    else if w.locks[key].count <= 1 then w.(locks := w.locks - {key})
    else w.(locks := w.locks[key := Lock(session, w.locks[key].count - 1)])
  }

  predicate IsRunning(w: World, experiment: string) {
    experiment in w.rows && w.rows[experiment].status.Running?
  }

  function WithResult(w: World, experiment: string, result: string): World
    requires experiment in w.rows
  {
    var row := w.rows[experiment];
    w.(rows := w.rows[experiment := row.(status := Finished, result := Some(result), writes := row.writes + 1)])
  }

  function Claims(w: World, experiment: string): nat {
    if experiment in w.claims then w.claims[experiment] else 0
  }

  // One step; a step its session is not ready for does nothing.
  function Next(hash: Hash, w: World, step: Step): World {
    match step
    case ClaimTryLock(s, experiment, request) =>
      if PhaseOf(w, s).Idle? && CanLock(w, hash(experiment), s)
      then InPhase(Locked(w, hash(experiment), s), s, ClaimLocked(experiment, request)) else w
    case ClaimInsert(s) => Inserting(hash, w, s)
    case ClaimFails(s) =>
      // An error after the lock is taken hands the session back with the lock still held.
      if PhaseOf(w, s).ClaimLocked? then InPhase(w, s, Idle) else w
    case RecoverTryLock(s, experiment) =>
      if PhaseOf(w, s).Idle? && CanLock(w, hash(experiment), s)
      then InPhase(Locked(w, hash(experiment), s), s, RecoverLocked(experiment)) else w
    case RecoverFinish(s, result) => Recovering(hash, w, s, result)
    case RecoverFails(s) =>
      if PhaseOf(w, s).RecoverLocked? then InPhase(Unlocked(w, hash(PhaseOf(w, s).experiment), s), s, Idle) else w
    case Save(experiment, result) =>
      if IsRunning(w, experiment) then WithResult(w, experiment, result) else w
    case Close(s) =>
      if PhaseOf(w, s).Owning? then InPhase(Unlocked(w, hash(PhaseOf(w, s).experiment), s), s, Idle) else w
    case Die(s) => InPhase(w.(locks := map k | k in w.locks && w.locks[k].session != s :: w.locks[k]), s, Dead)
  }

  function Inserting(hash: Hash, w: World, s: nat): World {
    if !PhaseOf(w, s).ClaimLocked? then w
    else
      var experiment := PhaseOf(w, s).experiment;
      if experiment in w.rows then InPhase(Unlocked(w, hash(experiment), s), s, Idle)
      else
        InPhase(w.(rows := w.rows[experiment := Row(PhaseOf(w, s).request, Running, None, 0)],
                   claims := w.claims[experiment := Claims(w, experiment) + 1]), s, Owning(experiment))
  }

  function Recovering(hash: Hash, w: World, s: nat, result: string): World {
    if !PhaseOf(w, s).RecoverLocked? then w
    else
      var experiment := PhaseOf(w, s).experiment;
      var written := if IsRunning(w, experiment) then WithResult(w, experiment, result) else w;
      InPhase(Unlocked(written, hash(experiment), s), s, Idle)
  }

  // ----- the repository object

  // The database as one object: each method is one statement.
  class Database {
    const hash: Hash
    var rows: map<string, Row>
    var locks: map<int, Lock>
    var phases: map<nat, Phase>
    var claims: map<string, nat>

    ghost function View(): World
      reads this
    {
      World(rows, locks, phases, claims)
    }

    constructor (hash: Hash)
      ensures View() == World(map[], map[], map[], map[]) && this.hash == hash
    {
      this.hash, rows, locks, phases, claims := hash, map[], map[], map[], map[];
    }

    method Execute(step: Step)
      modifies this
      ensures View() == Next(hash, old(View()), step)
    {
      var after := Next(hash, World(rows, locks, phases, claims), step);
      rows, locks, phases, claims := after.rows, after.locks, after.phases, after.claims;
    }
  }

  class BacktestRepository {
    const db: Database
    var researchClaimClient: Option<nat>
    var researchClaimLockKey: Option<string>

    constructor (db: Database)
      ensures this.db == db && researchClaimClient == None && researchClaimLockKey == None
    {
      this.db, researchClaimClient, researchClaimLockKey := db, None, None;
    }

    // `client` is the session the pool hands out. Refuses when this repository already owns a claim.
    method ClaimResearchExperiment(client: nat, experiment: string, request: string) returns (claimed: Option<bool>)
      requires PhaseOf(db.View(), client).Idle?
      modifies this, db
      ensures claimed.None? <==> old(researchClaimClient).Some?
      ensures claimed.None? ==> db.View() == old(db.View()) && researchClaimClient == old(researchClaimClient)
      ensures claimed.Some? ==>
                var locked := Next(db.hash, old(db.View()), ClaimTryLock(client, experiment, request));
                db.View() == Next(db.hash, locked, ClaimInsert(client))
      ensures claimed == Some(true) <==> researchClaimClient == Some(client) && old(researchClaimClient).None?
      ensures claimed.Some? ==>
                (claimed.value <==> experiment !in old(db.View()).rows
                                    && CanLock(old(db.View()), db.hash(experiment), client))
    {
      if researchClaimClient.Some? {
        return None;
      }
      db.Execute(ClaimTryLock(client, experiment, request));
      var acquired := client in db.phases && db.phases[client].ClaimLocked?;
      db.Execute(ClaimInsert(client));
      if !acquired {
        return Some(false);
      }
      var inserted := db.phases[client].Owning?;
      if !inserted {
        return Some(false);
      }
      researchClaimClient := Some(client);
      researchClaimLockKey := Some(experiment);
      return Some(true);
    }

    method Close()
      modifies this, db
      ensures if old(researchClaimClient).Some? && old(researchClaimLockKey).Some? then
                && researchClaimClient == None && researchClaimLockKey == None
                && db.View() == Next(db.hash, old(db.View()), Step.Close(old(researchClaimClient).value))
              else
                && researchClaimClient == old(researchClaimClient) && researchClaimLockKey == old(researchClaimLockKey)
                && db.View() == old(db.View())
    {
      if researchClaimClient.Some? && researchClaimLockKey.Some? {
        db.Execute(Step.Close(researchClaimClient.value));
        researchClaimClient := None;
        researchClaimLockKey := None;
      }
    }

    method RecoverAbandonedResearchExperiment(client: nat, experiment: string, artifact: string)
      returns (recovered: bool)
      requires PhaseOf(db.View(), client).Idle?
      modifies db
      ensures var locked := Next(db.hash, old(db.View()), RecoverTryLock(client, experiment));
        db.View() == Next(db.hash, locked, RecoverFinish(client, artifact))
      ensures recovered <==> IsRunning(old(db.View()), experiment)
                             && CanLock(old(db.View()), db.hash(experiment), client)
    {
      db.Execute(RecoverTryLock(client, experiment));
      var acquired := client in db.phases && db.phases[client].RecoverLocked?;
      recovered := acquired && experiment in db.rows && db.rows[experiment].status.Running?;
      db.Execute(RecoverFinish(client, artifact));
    }

    method SaveResearchExperimentArtifact(experiment: string, result: string) returns (saved: bool)
      modifies db
      ensures db.View() == Next(db.hash, old(db.View()), Save(experiment, result))
      ensures saved <==> IsRunning(old(db.View()), experiment)
    {
      saved := experiment in db.rows && db.rows[experiment].status.Running?;
      db.Execute(Save(experiment, result));
    }
  }

  // ----- what every interleaving keeps

  // The experiment a session is working on under its lock.
  function Works(phase: Phase): Option<string> {
    match phase
    case ClaimLocked(experiment, _) => Some(experiment)
    case Owning(experiment) => Some(experiment)
    case RecoverLocked(experiment) => Some(experiment)
    case _ => None
  }

  // A session at work holds its experiment's lock.
  ghost predicate LocksHold(hash: Hash, w: World) {
    && (forall s :: s in w.phases && Works(w.phases[s]).Some? ==>
         var key := hash(Works(w.phases[s]).value);
         key in w.locks && w.locks[key].session == s)
    && (forall k :: k in w.locks ==> w.locks[k].count > 0)
  }

  predicate RowHolds(row: Row) {
    if row.status.Running? then row.result.None? && row.writes == 0 else row.result.Some? && row.writes == 1
  }

  // Each row was claimed once and its result is written at most once.
  ghost predicate RowsHold(w: World) {
    && (forall e :: e in w.rows ==> RowHolds(w.rows[e]) && Claims(w, e) == 1)
    && (forall e :: e !in w.rows ==> Claims(w, e) == 0)
    && (forall s :: s in w.phases && w.phases[s].Owning? ==> w.phases[s].experiment in w.rows)
  }

  ghost predicate Safe(hash: Hash, w: World) {
    LocksHold(hash, w) && RowsHold(w)
  }

  // The status only goes from running to finished, and a finished row never changes again.
  ghost predicate RowsAdvance(w: World, after: World) {
    forall e :: e in w.rows ==>
      && e in after.rows && after.rows[e].request == w.rows[e].request
      && (w.rows[e].status.Finished? ==> after.rows[e] == w.rows[e])
  }

  lemma LockingKeepsLocks(hash: Hash, w: World, s: nat, phase: Phase)
    requires LocksHold(hash, w) && PhaseOf(w, s).Idle? && Works(phase).Some?
    requires CanLock(w, hash(Works(phase).value), s)
    ensures LocksHold(hash, InPhase(Locked(w, hash(Works(phase).value), s), s, phase))
  {
  }

  // Releasing the one lock a session works under leaves everyone else's in place.
  lemma UnlockingKeepsLocks(hash: Hash, w: World, s: nat)
    requires LocksHold(hash, w) && s in w.phases && Works(w.phases[s]).Some?
    ensures LocksHold(hash, InPhase(Unlocked(w, hash(Works(w.phases[s]).value), s), s, Idle))
  {
  }

  lemma DyingKeepsLocks(hash: Hash, w: World, s: nat)
    requires LocksHold(hash, w)
    ensures LocksHold(hash, Next(hash, w, Die(s)))
  {
  }

  lemma NextKeepsLocks(hash: Hash, w: World, step: Step)
    requires LocksHold(hash, w)
    ensures LocksHold(hash, Next(hash, w, step))
  {
    match step
    case ClaimTryLock(s, experiment, request) =>
      if PhaseOf(w, s).Idle? && CanLock(w, hash(experiment), s) {
        LockingKeepsLocks(hash, w, s, ClaimLocked(experiment, request));
      }
    case ClaimInsert(s) =>
      if PhaseOf(w, s).ClaimLocked? && PhaseOf(w, s).experiment in w.rows {
        UnlockingKeepsLocks(hash, w, s);
      }
    case ClaimFails(s) =>
    case RecoverTryLock(s, experiment) =>
      if PhaseOf(w, s).Idle? && CanLock(w, hash(experiment), s) {
        LockingKeepsLocks(hash, w, s, RecoverLocked(experiment));
      }
    case RecoverFinish(s, result) =>
      if PhaseOf(w, s).RecoverLocked? {
        var experiment := PhaseOf(w, s).experiment;
        var written := if IsRunning(w, experiment) then WithResult(w, experiment, result) else w;
        UnlockingKeepsLocks(hash, written, s);
      }
    case RecoverFails(s) =>
      if PhaseOf(w, s).RecoverLocked? {
        UnlockingKeepsLocks(hash, w, s);
      }
    case Save(experiment, result) =>
    case Close(s) =>
      if PhaseOf(w, s).Owning? {
        UnlockingKeepsLocks(hash, w, s);
      }
    case Die(s) => DyingKeepsLocks(hash, w, s);
  }

  // Nothing stored, and no new owner.
  ghost predicate SameRows(w: World, after: World) {
    && after.rows == w.rows && after.claims == w.claims
    && forall s :: s in after.phases && after.phases[s].Owning? ==> s in w.phases && w.phases[s] == after.phases[s]
  }

  lemma SameRowsHold(w: World, after: World)
    requires RowsHold(w) && SameRows(w, after)
    ensures RowsHold(after) && RowsAdvance(w, after)
  {
  }

  lemma InsertingHolds(hash: Hash, w: World, s: nat)
    requires RowsHold(w)
    ensures RowsHold(Inserting(hash, w, s)) && RowsAdvance(w, Inserting(hash, w, s))
  {
    if PhaseOf(w, s).ClaimLocked? && PhaseOf(w, s).experiment in w.rows {
      SameRowsHold(w, Inserting(hash, w, s));
    }
    hide Unlocked;
  }

  lemma FinishingHolds(w: World, experiment: string, result: string)
    requires RowsHold(w) && IsRunning(w, experiment)
    ensures RowsHold(WithResult(w, experiment, result)) && RowsAdvance(w, WithResult(w, experiment, result))
  {
  }

  lemma RecoveringHolds(hash: Hash, w: World, s: nat, result: string)
    requires RowsHold(w)
    ensures RowsHold(Recovering(hash, w, s, result)) && RowsAdvance(w, Recovering(hash, w, s, result))
  {
    if PhaseOf(w, s).RecoverLocked? {
      var experiment := PhaseOf(w, s).experiment;
      var written := if IsRunning(w, experiment) then WithResult(w, experiment, result) else w;
      if IsRunning(w, experiment) {
        FinishingHolds(w, experiment, result);
      }
      hide WithResult, RowsHold;
      SameRowsHold(written, Recovering(hash, w, s, result));
    }
  }

  lemma NextKeepsRows(hash: Hash, w: World, step: Step)
    requires RowsHold(w)
    ensures RowsHold(Next(hash, w, step)) && RowsAdvance(w, Next(hash, w, step))
  {
    hide CanLock, Locked, Unlocked, RowsHold, RowsAdvance, WithResult, Inserting, Recovering;
    match step
    case ClaimInsert(s) => InsertingHolds(hash, w, s);
    case RecoverFinish(s, result) => RecoveringHolds(hash, w, s, result);
    case Save(experiment, result) =>
      if IsRunning(w, experiment) {
        FinishingHolds(w, experiment, result);
      } else {
        SameRowsHold(w, w);
      }
    case ClaimTryLock(s, experiment, request) => LockingStores(hash, w, step);
    case RecoverTryLock(s, experiment) => LockingStores(hash, w, step);
    case _ => ReleasingStores(hash, w, step);
  }

  lemma LockingStores(hash: Hash, w: World, step: Step)
    requires RowsHold(w) && (step.ClaimTryLock? || step.RecoverTryLock?)
    ensures RowsHold(Next(hash, w, step)) && RowsAdvance(w, Next(hash, w, step))
  {
    hide RowsHold, RowsAdvance, CanLock;
    SameRowsHold(w, Next(hash, w, step));
  }

  lemma ReleasingStores(hash: Hash, w: World, step: Step)
    requires RowsHold(w) && (step.ClaimFails? || step.RecoverFails? || step.Close? || step.Die?)
    ensures RowsHold(Next(hash, w, step)) && RowsAdvance(w, Next(hash, w, step))
  {
    hide RowsHold, RowsAdvance;
    SameRowsHold(w, Next(hash, w, step));
  }

  // A live session that owns the claim.
  ghost predicate OwnedAlive(w: World, experiment: string) {
    exists s :: s in w.phases && w.phases[s] == Owning(experiment)
  }

  // Recovery finishes a row only when no live session owns the experiment.
  lemma RecoveryNeedsNoOwner(hash: Hash, w: World, s: nat, result: string)
    requires Safe(hash, w) && PhaseOf(w, s).RecoverLocked?
    ensures !OwnedAlive(w, PhaseOf(w, s).experiment)
  {
    var experiment := PhaseOf(w, s).experiment;
    forall o | o in w.phases && w.phases[o] == Owning(experiment)
      ensures w.locks[hash(experiment)].session == o
    {
      assert Works(w.phases[o]) == Some(experiment);
    }
    assert Works(w.phases[s]) == Some(experiment);
  }

  function Run(hash: Hash, steps: seq<Step>): World {
    if steps == [] then World(map[], map[], map[], map[])
    else Next(hash, Run(hash, steps[..|steps| - 1]), steps[|steps| - 1])
  }

  // Over all interleavings of claims, saves, recoveries, closes and deaths: locks protect, at most one claim of an
  // experiment ever succeeds, and its result is written at most once.
  lemma {:induction false} EveryRunIsSafe(hash: Hash, steps: seq<Step>)
    ensures Safe(hash, Run(hash, steps))
    ensures forall e :: Claims(Run(hash, steps), e) <= 1
  {
    if steps != [] {
      var w := Run(hash, steps[..|steps| - 1]);
      EveryRunIsSafe(hash, steps[..|steps| - 1]);
      NextKeepsLocks(hash, w, steps[|steps| - 1]);
      NextKeepsRows(hash, w, steps[|steps| - 1]);
      hide Next;
    }
  }

  // From any point of a run on: rows stay, a finished row keeps its result, and no claim of an experiment already
  // there succeeds again.
  lemma {:induction false} RowsOnlyAdvance(hash: Hash, steps: seq<Step>, k: nat)
    requires k <= |steps|
    ensures var before, after := Run(hash, steps[..k]), Run(hash, steps);
      && RowsAdvance(before, after)
      && forall e :: e in before.rows ==> Claims(after, e) == Claims(before, e)
  {
    EveryRunIsSafe(hash, steps);
    EveryRunIsSafe(hash, steps[..k]);
    if k == |steps| {
      assert steps[..k] == steps;
    } else {
      var init := steps[..|steps| - 1];
      assert init[..k] == steps[..k];
      RowsOnlyAdvance(hash, init, k);
      EveryRunIsSafe(hash, init);
      NextKeepsRows(hash, Run(hash, init), steps[|steps| - 1]);
      hide Next, Safe, LocksHold;
      assert RowsHold(Run(hash, steps)) && RowsHold(Run(hash, steps[..k]));
    }
  }

  // The step of a run that takes a row from running to finished is a save, or a recovery at a moment when no live
  // session owns the experiment.
  lemma FinishersAreEntitled(hash: Hash, steps: seq<Step>, step: Step, experiment: string)
    requires IsRunning(Run(hash, steps), experiment)
    requires !IsRunning(Next(hash, Run(hash, steps), step), experiment)
    ensures (step.Save? && step.experiment == experiment)
            || (step.RecoverFinish? && PhaseOf(Run(hash, steps), step.session) == RecoverLocked(experiment)
                && !OwnedAlive(Run(hash, steps), experiment))
  {
    EveryRunIsSafe(hash, steps);
    var w := Run(hash, steps);
    if step.RecoverFinish? && PhaseOf(w, step.session).RecoverLocked? {
      RecoveryNeedsNoOwner(hash, w, step.session, step.result);
    }
    hide Run, Safe, OwnedAlive, CanLock;
  }

  // ----- a leaked lock

  function Continue(hash: Hash, w: World, steps: seq<Step>): World {
    if steps == [] then w else Next(hash, Continue(hash, w, steps[..|steps| - 1]), steps[|steps| - 1])
  }

  // The session holds the key at least once more than its work in hand will release it.
  predicate Leaked(hash: Hash, w: World, s: nat, key: int) {
    && key in w.locks && w.locks[key].session == s
    && var work := Works(PhaseOf(w, s));
       w.locks[key].count >= if work.Some? && hash(work.value) == key then 2 else 1
  }

  lemma NextKeepsLeak(hash: Hash, w: World, step: Step, s: nat, key: int)
    requires Leaked(hash, w, s, key) && step != Die(s)
    ensures Leaked(hash, Next(hash, w, step), s, key)
  {
    hide WithResult, IsRunning, Claims;
    match step
    case ClaimInsert(t) =>
      InsertingTouchesItsLock(hash, w, t);
      hide Inserting;
    case RecoverFinish(t, result) =>
      RecoveringTouchesItsLock(hash, w, t, result);
      hide Recovering;
    case Save(experiment, result) => SavingKeepsSessions(hash, w, experiment, result);
    case _ =>
  }

  lemma SavingKeepsSessions(hash: Hash, w: World, experiment: string, result: string)
    ensures var after := Next(hash, w, Save(experiment, result)); after.locks == w.locks && after.phases == w.phases
  {
  }

  lemma InsertingTouchesItsLock(hash: Hash, w: World, s: nat)
    ensures var after := Inserting(hash, w, s);
      if PhaseOf(w, s).ClaimLocked? then
        var experiment := PhaseOf(w, s).experiment;
        if experiment in w.rows then
          after.locks == Unlocked(w, hash(experiment), s).locks && after.phases == w.phases[s := Idle]
        else after.locks == w.locks && after.phases == w.phases[s := Owning(experiment)]
      else after == w
  {
  }

  lemma RecoveringTouchesItsLock(hash: Hash, w: World, s: nat, result: string)
    ensures var after := Recovering(hash, w, s, result);
      if PhaseOf(w, s).RecoverLocked? then
        && after.locks == Unlocked(w, hash(PhaseOf(w, s).experiment), s).locks
        && after.phases == w.phases[s := Idle]
      else after == w
  {
  }

  lemma LeakBlocks(hash: Hash, w: World, s: nat, key: int, other: nat, e: string, request: string)
    requires Leaked(hash, w, s, key) && other != s && hash(e) == key
    ensures Next(hash, w, ClaimTryLock(other, e, request)) == w && Next(hash, w, RecoverTryLock(other, e)) == w
  {
  }

  // A claim that fails between its lock and its insert leaves the lock behind: whatever happens then, until that
  // session dies nobody else can claim or recover the experiment, or any whose key shares its hash; once it dies, any
  // idle session can take the lock.
  lemma {:induction false} FailedClaimsKeepTheLock(hash: Hash, w: World, s: nat, steps: seq<Step>)
    requires Safe(hash, w) && PhaseOf(w, s).ClaimLocked? && Die(s) !in steps
    ensures var key := hash(PhaseOf(w, s).experiment);
      var after := Continue(hash, Next(hash, w, ClaimFails(s)), steps);
      && Leaked(hash, after, s, key)
      && (forall other, e, request :: other != s && hash(e) == key ==>
           && Next(hash, after, ClaimTryLock(other, e, request)) == after
           && Next(hash, after, RecoverTryLock(other, e)) == after)
      && (forall other :: CanLock(Next(hash, after, Die(s)), key, other))
  {
    var key := hash(PhaseOf(w, s).experiment);
    if steps == [] {
      assert Works(w.phases[s]) == Some(PhaseOf(w, s).experiment);
    } else {
      var init, step := steps[..|steps| - 1], steps[|steps| - 1];
      FailedClaimsKeepTheLock(hash, w, s, init);
      NextKeepsLeak(hash, Continue(hash, Next(hash, w, ClaimFails(s)), init), step, s, key);
    }
    var after := Continue(hash, Next(hash, w, ClaimFails(s)), steps);
    forall other, e, request | other != s && hash(e) == key
      ensures Next(hash, after, ClaimTryLock(other, e, request)) == after
      ensures Next(hash, after, RecoverTryLock(other, e)) == after
    {
      LeakBlocks(hash, after, s, key, other, e, request);
    }
    hide Safe, Inserting, Recovering, Continue;
  }

  // Every held lock is held once, by a session at work under it.
  ghost predicate Tight(hash: Hash, w: World) {
    forall key :: key in w.locks ==>
      && w.locks[key].count == 1
      && var work := Works(PhaseOf(w, w.locks[key].session)); work.Some? && hash(work.value) == key
  }

  // A claim that fails between its lock and its insert.
  predicate Leaks(w: World, step: Step) {
    step.ClaimFails? && PhaseOf(w, step.session).ClaimLocked?
  }

  lemma LockingKeepsTightness(hash: Hash, w: World, s: nat, phase: Phase)
    requires LocksHold(hash, w) && Tight(hash, w) && PhaseOf(w, s).Idle? && Works(phase).Some?
    requires CanLock(w, hash(Works(phase).value), s)
    ensures Tight(hash, InPhase(Locked(w, hash(Works(phase).value), s), s, phase))
  {
    assert hash(Works(phase).value) !in w.locks;
  }

  lemma UnlockingKeepsTightness(hash: Hash, w: World, s: nat, after: World)
    requires LocksHold(hash, w) && Tight(hash, w) && Works(PhaseOf(w, s)).Some?
    requires after.locks == Unlocked(w, hash(Works(PhaseOf(w, s)).value), s).locks
    requires after.phases == w.phases[s := Idle]
    ensures Tight(hash, after)
  {
  }

  lemma OwningKeepsTightness(hash: Hash, w: World, s: nat, after: World)
    requires Tight(hash, w) && PhaseOf(w, s).ClaimLocked?
    requires after.locks == w.locks && after.phases == w.phases[s := Owning(PhaseOf(w, s).experiment)]
    ensures Tight(hash, after)
  {
  }

  lemma LeakingIsNotTight(hash: Hash, w: World, s: nat)
    requires LocksHold(hash, w) && PhaseOf(w, s).ClaimLocked?
    ensures !Tight(hash, InPhase(w, s, Idle))
  {
    var key := hash(PhaseOf(w, s).experiment);
    assert Works(w.phases[s]) == Some(PhaseOf(w, s).experiment);
    assert key in InPhase(w, s, Idle).locks;
  }

  lemma DyingKeepsTightness(hash: Hash, w: World, s: nat)
    requires Tight(hash, w)
    ensures Tight(hash, Next(hash, w, Die(s)))
  {
  }

  // A step leaves a lock without a session at work exactly when it is such a failing claim.
  lemma NextIsTightIff(hash: Hash, w: World, step: Step)
    requires LocksHold(hash, w) && Tight(hash, w)
    ensures Tight(hash, Next(hash, w, step)) <==> !Leaks(w, step)
  {
    match step
    case ClaimTryLock(s, experiment, request) =>
      if PhaseOf(w, s).Idle? && CanLock(w, hash(experiment), s) {
        LockingKeepsTightness(hash, w, s, ClaimLocked(experiment, request));
      }
    case RecoverTryLock(s, experiment) =>
      if PhaseOf(w, s).Idle? && CanLock(w, hash(experiment), s) {
        LockingKeepsTightness(hash, w, s, RecoverLocked(experiment));
      }
    case ClaimInsert(s) =>
      InsertingTouchesItsLock(hash, w, s);
      if PhaseOf(w, s).ClaimLocked? {
        if PhaseOf(w, s).experiment in w.rows {
          UnlockingKeepsTightness(hash, w, s, Inserting(hash, w, s));
        } else {
          OwningKeepsTightness(hash, w, s, Inserting(hash, w, s));
        }
      }
    case ClaimFails(s) =>
      if PhaseOf(w, s).ClaimLocked? {
        LeakingIsNotTight(hash, w, s);
      }
    case RecoverFinish(s, result) =>
      RecoveringTouchesItsLock(hash, w, s, result);
      if PhaseOf(w, s).RecoverLocked? {
        UnlockingKeepsTightness(hash, w, s, Recovering(hash, w, s, result));
      }
    case RecoverFails(s) =>
      if PhaseOf(w, s).RecoverLocked? {
        UnlockingKeepsTightness(hash, w, s, Next(hash, w, step));
      }
    case Save(experiment, result) => SavingKeepsSessions(hash, w, experiment, result);
    case Close(s) =>
      if PhaseOf(w, s).Owning? {
        UnlockingKeepsTightness(hash, w, s, Next(hash, w, step));
      }
    case Die(s) => DyingKeepsTightness(hash, w, s);
  }

  ghost predicate TightThroughout(hash: Hash, steps: seq<Step>) {
    Tight(hash, Run(hash, steps)) && (steps != [] ==> TightThroughout(hash, steps[..|steps| - 1]))
  }

  ghost predicate NothingLeaks(hash: Hash, steps: seq<Step>) {
    steps != [] ==>
      NothingLeaks(hash, steps[..|steps| - 1]) && !Leaks(Run(hash, steps[..|steps| - 1]), steps[|steps| - 1])
  }

  // At every point of a run each held lock is held once by a session at work under it, exactly when no claim of the run
  // fails between its lock and its insert.
  lemma {:induction false} TightThroughoutIff(hash: Hash, steps: seq<Step>)
    ensures TightThroughout(hash, steps) <==> NothingLeaks(hash, steps)
  {
    if steps != [] {
      var init := steps[..|steps| - 1];
      TightThroughoutIff(hash, init);
      EveryRunIsSafe(hash, init);
      hide Next, Tight, LocksHold, RowsHold, Leaks;
      if TightThroughout(hash, init) {
        NextIsTightIff(hash, Run(hash, init), steps[|steps| - 1]);
      }
    }
  }

  // Two steps: a session locks the experiment and its claim fails. It is idle, nothing is stored, and the lock is held.
  lemma ClaimCanLeak(hash: Hash)
    ensures var w := Run(hash, [ClaimTryLock(0, "e", "r"), ClaimFails(0)]);
      && PhaseOf(w, 0).Idle? && w.rows == map[] && w.locks == map[hash("e") := Lock(0, 1)]
      && !CanLock(w, hash("e"), 1) && !Tight(hash, w)
  {
    var steps := [ClaimTryLock(0, "e", "r"), ClaimFails(0)];
    assert steps[..1] == [steps[0]] && steps[..1][..0] == [];
    var w := Run(hash, steps);
    assert w == Next(hash, Next(hash, Run(hash, []), steps[0]), steps[1]);
    assert hash("e") in w.locks;
  }

  // ----- what is stored

  // An idle session gets the lock of an experiment exactly when no other session holds it, once more if it holds it
  // already, and goes on to insert or to recover; otherwise nothing changes.
  lemma TryLockTakesIff(hash: Hash, w: World, step: Step)
    requires step.ClaimTryLock? || step.RecoverTryLock?
    ensures var after, key, s := Next(hash, w, step), hash(step.experiment), step.session;
      if (s in w.phases ==> w.phases[s] == Idle) && (key in w.locks ==> w.locks[key].session == s) then
        && after.locks == w.locks[key := Lock(s, if key in w.locks then w.locks[key].count + 1 else 1)]
        && after.phases == w.phases[s := if step.ClaimTryLock? then ClaimLocked(step.experiment, step.request)
                                         else RecoverLocked(step.experiment)]
      else after == w
  {
  }

  // What each storing step stores: a claim its request, still running and without a result; a save or a recovery of a
  // running experiment its result, once.
  lemma StepsStore(hash: Hash, w: World, step: Step)
    ensures var after := Next(hash, w, step);
      match step
      case ClaimInsert(s) =>
        PhaseOf(w, s).ClaimLocked? && PhaseOf(w, s).experiment !in w.rows ==>
          var experiment := PhaseOf(w, s).experiment;
          after.rows == w.rows[experiment := Row(PhaseOf(w, s).request, Running, None, 0)]
          && PhaseOf(after, s) == Owning(experiment)
      case Save(experiment, result) =>
        if experiment in w.rows && w.rows[experiment].status == Running then
          after.rows == w.rows[experiment := w.rows[experiment].(
            status := Finished, result := Some(result), writes := w.rows[experiment].writes + 1)]
        else after == w
      case RecoverFinish(s, result) =>
        PhaseOf(w, s).RecoverLocked? ==>
          var experiment := PhaseOf(w, s).experiment;
          if experiment in w.rows && w.rows[experiment].status == Running then
            after.rows == w.rows[experiment := w.rows[experiment].(
              status := Finished, result := Some(result), writes := w.rows[experiment].writes + 1)]
          else after.rows == w.rows
      case _ => after.rows == w.rows
  {
  }

  // A step that gives the experiment its result, or that asks for it under its request.
  predicate Finishes(w: World, step: Step, experiment: string, result: string) {
    || step == Save(experiment, result)
    || (step.RecoverFinish? && step.result == result && PhaseOf(w, step.session) == RecoverLocked(experiment))
  }

  // In every run a finished experiment's result is the one saved for it, or written by a recovery of it, at some step.
  lemma {:induction false} ResultsWereWritten(hash: Hash, steps: seq<Step>, experiment: string) returns (i: nat)
    requires experiment in Run(hash, steps).rows && Run(hash, steps).rows[experiment].result.Some?
    ensures i < |steps|
    ensures Finishes(Run(hash, steps[..i]), steps[i], experiment, Run(hash, steps).rows[experiment].result.value)
  {
    var n := |steps| - 1;
    var w := Run(hash, steps[..n]);
    StepsStore(hash, w, steps[n]);
    InsertingStores(hash, w, steps[n]);
    hide Next, Inserting, Recovering;
    if experiment in w.rows && w.rows[experiment].result == Run(hash, steps).rows[experiment].result {
      i := ResultsWereWritten(hash, steps[..n], experiment);
      assert steps[..n][..i] == steps[..i];
    } else {
      i := n;
    }
  }

  lemma InsertingStores(hash: Hash, w: World, step: Step)
    ensures step.ClaimInsert? && !(PhaseOf(w, step.session).ClaimLocked?
                                   && PhaseOf(w, step.session).experiment !in w.rows) ==>
              Next(hash, w, step).rows == w.rows
    ensures step.RecoverFinish? && !PhaseOf(w, step.session).RecoverLocked? ==> Next(hash, w, step).rows == w.rows
  {
  }
}
