/**
 * The attempt budget of a task over its whole life, when no command crashes
 * between its commits (lib/claimManager.ts, lib/claimLeaseManager.ts).
 */
module AttemptBudget {
  import opened Prelude
  import opened TaskContract
  import opened TaskStore
  import opened TaskInvariants
  import opened ProjectTasks
  import opened Claims
  import opened Reconcile
  import opened Lifecycle
  import opened CrashSafety
  import opened LifecycleConsistency

  // ----- the backoff ---------------------------------------------------------------------------

  /** The first requeue waits half a minute; each further one twice as long, up to ten minutes. */
  lemma BackoffDoubles(n: nat)
    requires n >= 1
    ensures RequeueBackoff(1) == 30000
    ensures RequeueBackoff(n + 1) == Min(2 * RequeueBackoff(n), 600000)
    ensures 30000 <= RequeueBackoff(n) <= 600000
  {
    assert Pow2(n) == 2 * Pow2(n - 1);
    PowIsPositive(n - 1);
  }

  lemma {:induction false} PowIsPositive(n: nat)
    ensures Pow2(n) >= 1
  {
    if n > 0 { PowIsPositive(n - 1); }
  }

  // ----- what counts ---------------------------------------------------------------------------

  /** The finish reports a failure of this active task that counts against its budget. */
  predicate FailsTask(s: Life, op: Op, ref: Ref) {
    op.FinishOp? && !op.success && op.failure == Counted &&
    var i := FindRun(s.claims, op.run);
    i.Some? && s.claims[i.value].agent == op.agent && ActiveClaim(s.claims[i.value]) && s.claims[i.value].ref == ref
    && ref in s.store && Active(s.store[ref].status)
  }

  /** The command records a counted failure of this task. */
  predicate Counts(s: Life, op: Op, ref: Ref) {
    FailsTask(s, op, ref) || (op.ExpireOp? && !op.block && ref in ExpiredTasks(s, op.now))
  }

  function When(op: Op): Time {
    match op
    case FinishOp(_, _, _, _, _, now) => now
    case ExpireOp(now, _) => now
    case _ => 0
  }

  /** A counted failure adds one attempt, and requeues with a backoff or blocks at the limit. */
  predicate FailureRecorded(s: Slot, t: Slot, at: Time) {
    && t.attempts == s.attempts + 1
    && (if t.attempts < MAX_ATTEMPTS
        then t.status == Todo && t.dispatch.requeueAfter == Some(at + RequeueBackoff(t.attempts))
        else t.status == Blocked)
  }

  // ----- commands that keep the count -------------------------------------------------------------

  /** No edited row touches the attempt count. */
  predicate KeepsCounts(store: Store, edits: map<Ref, Row>) {
    forall r :: r in edits && r in store ==> Or(edits[r].attempts, 0) == store[r].attempts
  }

  ghost predicate SameCount(s: Life, t: Life, ref: Ref) {
    ref in s.store && ref in t.store && t.store[ref].attempts == s.store[ref].attempts
  }

  lemma CommitKeepsCount(s: Life, claims: seq<RunClaim>, edits: map<Ref, Row>, changes: map<Ref, Change>, ref: Ref)
    requires StoreInv(s.store) && ProperEdits(s.store, edits, changes) && KeepsCounts(s.store, edits) && ref in s.store
    ensures SameCount(s, ApplyWrites(s, ClaimsThenTasks(s, claims, edits, changes)), ref)
    ensures SameCount(s, ApplyWrites(s, StoreWrite(s.store, edits, changes)), ref)
  {
    hide StoreInv, ProperEdits, CommitEdits, ApplyWrites, ClaimsThenTasks, StoreWrite, SlotInv;
    BothCommitsLand(s, claims, edits, changes);
    OneCommitLands(s, edits, changes);
    if CommitEdits(s.store, edits, changes).Ok? {
      CommitOutcome(s.store, edits, changes);
      assert Outcome(s.store[ref], CommitEdits(s.store, edits, changes).value[ref], RowIn(edits, ref));
    }
  }

  /** The row after a counted failure, as the commit stores it. */
  lemma CommitRecords(s: Life, claims: seq<RunClaim>, edits: map<Ref, Row>, changes: map<Ref, Change>, ref: Ref, at: Time)
    requires StoreInv(s.store) && ProperEdits(s.store, edits, changes) && CommitEdits(s.store, edits, changes).Ok?
    requires ref in s.store && ref in edits && edits[ref] == FailedRow(RowOf(s.store, ref), Counted, at)
    ensures var t := ApplyWrites(s, ClaimsThenTasks(s, claims, edits, changes)); ref in t.store && FailureRecorded(s.store[ref], t.store[ref], at)
  {
    hide StoreInv, ProperEdits, CommitEdits, ApplyWrites, ClaimsThenTasks, SlotInv, RequeueBackoff, ProjectedDefinition;
    BothCommitsLand(s, claims, edits, changes);
    CommitOutcome(s.store, edits, changes);
    assert Outcome(s.store[ref], CommitEdits(s.store, edits, changes).value[ref], RowIn(edits, ref));
  }

  lemma StartCount(s: Life, run: RunId, agent: string, ref: Ref)
    requires StoreInv(s.store) && ref in s.store
    ensures SameCount(s, Complete(s, StartOp(run, agent)), ref)
  {
    hide StoreInv, ApplyWrites, ClaimsThenTasks, ProperEdits;
    NoWrites(s);
    var i := FindRun(s.claims, run);
    if i.Some? {
      var claims, r := StartedClaims(s, i.value), s.claims[i.value].ref;
      ClaimWriteLands(s, claims);
      if r in s.store {
        StartEditsAreProper(s, r, run);
        CommitKeepsCount(s, claims, StartEdits(s, r), StartChanges(r, run), ref);
      }
    }
  }

  lemma FinishCount(s: Life, op: Op, ref: Ref)
    requires StoreInv(s.store) && ref in s.store && op.FinishOp?
    ensures ref in Complete(s, op).store
    ensures if FailsTask(s, op, ref) then FailureRecorded(s.store[ref], Complete(s, op).store[ref], op.now) else SameCount(s, Complete(s, op), ref)
  {
    hide StoreInv, ApplyWrites, ClaimsThenTasks, ProperEdits, CommitEdits, FailureRecorded;
    NoWrites(s);
    var i := FindRun(s.claims, op.run);
    if i.Some? && s.claims[i.value].agent == op.agent && ActiveClaim(s.claims[i.value]) {
      var claims, r := FinishedClaims(s, i.value, op.success), s.claims[i.value].ref;
      if r !in s.store || !Active(s.store[r].status) {
        ClaimWriteLands(s, claims);
      } else if op.success {
        EmptyCommit(s.store);
        CommitKeepsCount(s, claims, map[], map[], ref);
      } else {
        FailedFinishCount(s, op, i.value, ref);
      }
    }
  }

  lemma FailedFinishCount(s: Life, op: Op, i: nat, ref: Ref)
    requires StoreInv(s.store) && ref in s.store && op.FinishOp? && !op.success && i < |s.claims|
    requires s.claims[i].ref in s.store && Active(s.store[s.claims[i].ref].status)
    ensures var r := s.claims[i].ref;
            var t := ApplyWrites(s, ClaimsThenTasks(s, FinishedClaims(s, i, false), FailureEdits(s, r, op.failure, op.now),
                                                    FailureChanges(s, r, op.failure, op.now, op.run, op.why)));
            && ref in t.store
            && if r == ref && op.failure == Counted then FailureRecorded(s.store[ref], t.store[ref], op.now) else SameCount(s, t, ref)
  {
    hide StoreInv, ApplyWrites, ClaimsThenTasks, ProperEdits, CommitEdits, FailureRecorded, FailureChange, RequeueBackoff, ProjectedDefinition;
    var r, claims := s.claims[i].ref, FinishedClaims(s, i, false);
    var edits := FailureEdits(s, r, op.failure, op.now);
    var changes := FailureChanges(s, r, op.failure, op.now, op.run, op.why);
    FailureEditsLeave(s, r, op.failure, op.now, op.run, op.why);
    if op.failure == Counted {
      FailureLands(s, r, op.failure, op.now, op.run, op.why);
      CommitRecords(s, claims, edits, changes, r, op.now);
      if r != ref { OtherCount(s, claims, edits, changes, ref); }
    } else {
      CommitKeepsCount(s, claims, edits, changes, ref);
    }
  }

  lemma OtherCount(s: Life, claims: seq<RunClaim>, edits: map<Ref, Row>, changes: map<Ref, Change>, ref: Ref)
    requires StoreInv(s.store) && ProperEdits(s.store, edits, changes) && ref in s.store && ref !in edits
    ensures SameCount(s, ApplyWrites(s, ClaimsThenTasks(s, claims, edits, changes)), ref)
  {
    hide StoreInv, ProperEdits, CommitEdits, ApplyWrites, ClaimsThenTasks, SlotInv;
    BothCommitsLand(s, claims, edits, changes);
    if CommitEdits(s.store, edits, changes).Ok? {
      CommitOutcome(s.store, edits, changes);
      assert Outcome(s.store[ref], CommitEdits(s.store, edits, changes).value[ref], RowIn(edits, ref));
    }
  }

  lemma ExpireCount(s: Life, now: Time, block: bool, ref: Ref)
    requires StoreInv(s.store) && ref in s.store
    ensures var t := Complete(s, ExpireOp(now, block));
            && ref in t.store
            && if !block && ref in ExpiredTasks(s, now) then FailureRecorded(s.store[ref], t.store[ref], now) else SameCount(s, t, ref)
  {
    hide StoreInv, ApplyWrites, ClaimsThenTasks, ProperEdits, CommitEdits, FailureRecorded, ExpireChanges, RequeueBackoff, ProjectedDefinition, LeaseOver;
    NoWrites(s);
    var f := if block then BlockPolicy else Counted;
    var claims, edits, changes := ExpiredClaims(s, now), ExpireEdits(s, now, f), ExpireChanges(s, now, f);
    ExpireEditsLeave(s, now, f);
    ExpireLands(s, now, f);
    if ref !in edits {
      OtherCount(s, claims, edits, changes, ref);
    } else if block {
      CommitKeepsCount(s, claims, edits, changes, ref);
    } else {
      CommitRecords(s, claims, edits, changes, ref, now);
    }
  }

  lemma ResetCount(s: Life, r: Ref, ref: Ref)
    requires StoreInv(s.store) && ref in s.store
    ensures SameCount(s, Complete(s, ResetOp(r)), ref)
  {
    hide StoreInv, ApplyWrites, ClaimsThenTasks, ProjectedDefinition;
    NoWrites(s);
    if r in s.store { CommitKeepsCount(s, DroppedClaims(s, r), ResetEdits(s, r), ResetChanges(s, r), ref); }
  }

  lemma CancelCount(s: Life, r: Ref, why: Option<string>, ref: Ref)
    requires StoreInv(s.store) && ref in s.store
    ensures SameCount(s, Complete(s, CancelOp(r, why)), ref)
  {
    hide StoreInv, ApplyWrites, ClaimsThenTasks, StoreWrite, ProjectedDefinition, RemoveActive;
    NoWrites(s);
    if r in s.store { CommitKeepsCount(s, RemoveActive(s.claims, r), CancelEdits(s, r), map[r := Change(Cancel, why, None, None)], ref); }
  }

  lemma ExpireRunCount(s: Life, run: RunId, ref: Ref)
    requires StoreInv(s.store) && ref in s.store
    ensures SameCount(s, Complete(s, ExpireRunOp(run)), ref)
  {
    hide StoreInv, ApplyWrites, ClaimsThenTasks, ProjectedDefinition, FailedClaims, FindRun;
    NoWrites(s);
    var i := FindRun(s.claims, run);
    if i.Some? && s.claims[i.value].ref in s.store {
      var r := s.claims[i.value].ref;
      CommitKeepsCount(s, FailedClaims(s, i.value), RequeueEdits(s, r), ManualExpiry(r, run), ref);
    }
  }

  lemma MergeCount(s: Life, r: Ref, ref: Ref)
    requires StoreInv(s.store) && ref in s.store
    ensures SameCount(s, Complete(s, MergeOp(r)), ref)
  {
    hide StoreInv, ApplyWrites, StoreWrite, ProjectedDefinition;
    NoWrites(s);
    if r in s.store {
      CommitKeepsCount(s, [], MergeEdits(s, r), map[r := Change(MergeSucceeded, None, ActiveRunId(s.store[r]), None)], ref);
    }
  }

  lemma UnblockCount(s: Life, r: Ref, why: Option<string>, ref: Ref)
    requires StoreInv(s.store) && ref in s.store
    ensures SameCount(s, Complete(s, UnblockOp(r, why)), ref)
  {
    hide StoreInv, ApplyWrites, StoreWrite, ProjectedDefinition;
    NoWrites(s);
    if r in s.store { CommitKeepsCount(s, [], UnblockEdits(s, r), map[r := Change(Unblock, why, None, None)], ref); }
  }

  lemma SessionResetCount(s: Life, ref: Ref)
    requires StoreInv(s.store) && ref in s.store
    ensures SameCount(s, Complete(s, SessionResetOp), ref)
  {
    hide StoreInv, ApplyWrites, CommitEdits, ProperEdits, SlotInv, ProjectedDefinition, EndedClaims;
    SessionResetLands(s);
    SessionResetCompletes(s);
    CommitOutcome(s.store, SessionResetEdits(s), SessionResetChanges(s));
    assert Outcome(s.store[ref], CommitEdits(s.store, SessionResetEdits(s), SessionResetChanges(s)).value[ref], RowIn(SessionResetEdits(s), ref));
  }

  lemma ReconcileCount(s: Life, ref: Ref)
    requires Recoverable(s) && ref in s.store
    ensures SameCount(s, Complete(s, ReconcileOp), ref)
  {
    hide StoreInv, Recoverable, Complete, SlotInv, ProjectedDefinition, RepairedStore, Winner;
    RecoverableStore(s);
    ReconcileIsSafe(s);
    RepairCommits(s);
    assert Outcome(s.store[ref], RepairedStore(s)[ref], RowIn(ReconcileEdits(s), ref));
  }

  lemma CompensatedCount(s: Life, ref: Ref, run: RunId, agent: string, now: Time, lease: Time, r: Ref)
    requires StoreInv(s.store) && ref in s.store && !HasActive(s.claims, ref) && ClaimTask(s.store, ref, run, agent).Ok? && r in s.store
    ensures SameCount(s, Complete(s, ClaimOp(ref, run, agent, now, lease, true)), r)
  {
    hide StoreInv, SlotInv;
    var next := ClaimTask(s.store, ref, run, agent).value;
    TaskInvariants.ClaimedSlot(s.store, ref, run, agent);
    CompensationLands(next[ref], run);
    var undone := next[ref := CompensateClaim(next[ref], run).value];
    var plan := [PutStore(next), PutStore(undone)];
    assert plan[1..] == [PutStore(undone)] && plan[1..][1..] == [];
    assert ApplyWrites(s.(store := next), plan[1..]) == s.(store := undone);
  }

  lemma ClaimCount(s: Life, op: Op, r: Ref)
    requires StoreInv(s.store) && r in s.store && op.ClaimOp?
    ensures SameCount(s, Complete(s, op), r)
  {
    hide StoreInv, ApplyWrites, CompensateClaim;
    NoWrites(s);
    if op.ref in s.store && !HasActive(s.claims, op.ref) && ClaimTask(s.store, op.ref, op.run, op.agent).Ok? {
      if op.secondCommitFails {
        CompensatedCount(s, op.ref, op.run, op.agent, op.now, op.lease, r);
      } else {
        NewClaimCompletes(s, op.ref, op.run, op.agent, op.now, op.lease);
      }
    }
  }

  lemma CreateCount(s: Life, op: Op, r: Ref)
    requires r in s.store && op.CreateOp?
    ensures SameCount(s, Complete(s, op), r)
  {
    NoWrites(s);
    if CreateTask(s.store, op.ref, op.spec).Ok? {
      var plan := [PutStore(CreateTask(s.store, op.ref, op.spec).value)];
      assert plan[1..] == [] && ApplyWrites(s, plan) == s.(store := CreateTask(s.store, op.ref, op.spec).value);
    }
  }

  /** One command: the count grows by one exactly when it records a counted failure. */
  lemma CommandCount(s: Life, op: Op, ref: Ref)
    requires Recoverable(s) && ref in s.store
    ensures ref in Complete(s, op).store
    ensures if Counts(s, op, ref) then FailureRecorded(s.store[ref], Complete(s, op).store[ref], When(op)) else SameCount(s, Complete(s, op), ref)
  {
    hide Recoverable, StoreInv, Complete, FailureRecorded, ExpiredTasks;
    RecoverableStore(s);
    match op
    case ClaimOp(_, _, _, _, _, _) => ClaimCount(s, op, ref);
    case StartOp(run, agent) => StartCount(s, run, agent, ref);
    case FinishOp(_, _, _, _, _, _) => FinishCount(s, op, ref);
    case ExpireOp(now, block) => ExpireCount(s, now, block, ref);
    case SessionResetOp => SessionResetCount(s, ref);
    case ReconcileOp => ReconcileCount(s, ref);
    case CreateOp(_, _) => CreateCount(s, op, ref);
    case ResetOp(r) => ResetCount(s, r, ref);
    case CancelOp(r, why) => CancelCount(s, r, why, ref);
    case ExpireRunOp(run) => ExpireRunCount(s, run, ref);
    case MergeOp(r) => MergeCount(s, r, ref);
    case UnblockOp(r, why) => UnblockCount(s, r, why, ref);
  }

  // ----- a task's whole life -------------------------------------------------------------------------

  ghost function RunComplete(s: Life, ops: seq<Op>): Life
    decreases |ops|
  {
    if ops == [] then s else RunComplete(Complete(s, ops[0]), ops[1..])
  }

  /** The counted failures of a task in a run. */
  ghost function Failures(s: Life, ops: seq<Op>, ref: Ref): nat
    decreases |ops|
  {
    if ops == [] then 0
    else (if Counts(s, ops[0], ref) then 1 else 0) + Failures(Complete(s, ops[0]), ops[1..], ref)
  }

  /** A counted failure after which the task is todo again. */
  ghost predicate Requeues(s: Life, op: Op, ref: Ref) {
    Counts(s, op, ref) && ref in Complete(s, op).store && Complete(s, op).store[ref].status == Todo
  }

  ghost function Requeued(s: Life, ops: seq<Op>, ref: Ref): nat
    decreases |ops|
  {
    if ops == [] then 0
    else (if Requeues(s, ops[0], ref) then 1 else 0) + Requeued(Complete(s, ops[0]), ops[1..], ref)
  }

  /** The attempt count is its initial value plus the counted failures since. */
  lemma {:induction false} AttemptsAreTheFailures(s: Life, ops: seq<Op>, ref: Ref)
    requires Recoverable(s) && ref in s.store
    ensures ref in RunComplete(s, ops).store
    ensures RunComplete(s, ops).store[ref].attempts == s.store[ref].attempts + Failures(s, ops, ref)
    decreases |ops|
  {
    hide Recoverable, Complete, Counts;
    if ops != [] {
      CommandCount(s, ops[0], ref);
      CompletedIsRecoverable(s, ops[0]);
      AttemptsAreTheFailures(Complete(s, ops[0]), ops[1..], ref);
    }
  }

  /**
   * However often operators unblock or reset the task, its counted failures
   * return it to todo at most MAX_ATTEMPTS - 1 times.
   */
  lemma {:induction false} RequeuesAreBounded(s: Life, ops: seq<Op>, ref: Ref)
    requires Recoverable(s) && ref in s.store
    ensures Requeued(s, ops, ref) <= MAX_ATTEMPTS - 1
    ensures Requeued(s, ops, ref) > 0 ==> Requeued(s, ops, ref) <= MAX_ATTEMPTS - 1 - s.store[ref].attempts
    decreases |ops|
  {
    hide Recoverable, Complete, Counts, RequeueBackoff;
    if ops != [] {
      CommandCount(s, ops[0], ref);
      CompletedIsRecoverable(s, ops[0]);
      RequeuesAreBounded(Complete(s, ops[0]), ops[1..], ref);
    }
  }

  /** A counted failure requeues with a doubling backoff until the limit, and blocks from there on. */
  lemma FailureOutcome(s: Life, op: Op, ref: Ref)
    requires Recoverable(s) && ref in s.store && Counts(s, op, ref)
    ensures ref in Complete(s, op).store
    ensures var was, now := s.store[ref].attempts, Complete(s, op).store[ref];
            && now.attempts == was + 1
            && (now.status == Todo <==> was + 1 < MAX_ATTEMPTS) && (now.status == Blocked <==> was + 1 >= MAX_ATTEMPTS)
            && (now.status == Todo ==> now.dispatch.requeueAfter == Some(When(op) + RequeueBackoff(was + 1)))
  {
    hide Recoverable, Complete, Counts, RequeueBackoff;
    CommandCount(s, op, ref);
  }

  // ----- repeated reports ----------------------------------------------------------------------------

  lemma {:induction false} FindRunAt(claims: seq<RunClaim>, run: RunId, i: nat)
    requires i < |claims| && claims[i].run == run && forall j :: 0 <= j < i ==> claims[j].run != run
    ensures FindRun(claims, run) == Some(i)
    decreases |claims|
  {
    if i < |claims| - 1 {
      FindRunAt(claims[..|claims| - 1], run, i);
    } else {
      FindRunAbsent(claims[..|claims| - 1], run);
    }
  }

  lemma {:induction false} FindRunAbsent(claims: seq<RunClaim>, run: RunId)
    requires forall j :: 0 <= j < |claims| ==> claims[j].run != run
    ensures FindRun(claims, run) == None
    decreases |claims|
  {
    if claims != [] { FindRunAbsent(claims[..|claims| - 1], run); }
  }

  lemma {:induction false} FindRunIsFirst(claims: seq<RunClaim>, run: RunId)
    requires FindRun(claims, run).Some?
    ensures forall j :: 0 <= j < FindRun(claims, run).value ==> claims[j].run != run
    decreases |claims|
  {
    var init := claims[..|claims| - 1];
    if FindRun(init, run).Some? {
      FindRunIsFirst(init, run);
    } else {
      FindRunNone(init, run);
    }
  }

  lemma {:induction false} FindRunNone(claims: seq<RunClaim>, run: RunId)
    requires FindRun(claims, run).None?
    ensures forall j :: 0 <= j < |claims| ==> claims[j].run != run
    decreases |claims|
  {
    if claims != [] {
      FindRunNone(claims[..|claims| - 1], run);
    }
  }

  /** After a finish with its agent, the claim of the run is terminal. */
  lemma FinishEndsTheClaim(s: Life, op: Op)
    requires op.FinishOp? && FindRun(s.claims, op.run).Some? && s.claims[FindRun(s.claims, op.run).value].agent == op.agent
    ensures var t := Complete(s, op); var i := FindRun(s.claims, op.run).value;
            FindRun(t.claims, op.run) == Some(i) && i < |t.claims| && !ActiveClaim(t.claims[i])
  {
    hide CommitEdits, ApplyWrites, ClaimsThenTasks, FindRun, FailureEdits, FailureChanges;
    NoWrites(s);
    var i := FindRun(s.claims, op.run).value;
    var claims := FinishedClaims(s, i, op.success);
    FindRunIsFirst(s.claims, op.run);
    FindRunAt(claims, op.run, i);
    ClaimWriteLands(s, claims);
    BothCommitsLand(s, claims, map[], map[]);
    var ref := s.claims[i].ref;
    if ref in s.store {
      BothCommitsLand(s, claims, FailureEdits(s, ref, op.failure, op.now), FailureChanges(s, ref, op.failure, op.now, op.run, op.why));
    }
  }

  /** A run is finished once: any further finish report changes nothing. */
  lemma RepeatedFinishChangesNothing(s: Life, op: Op, again: Op)
    requires op.FinishOp? && again.FinishOp? && again.run == op.run
    requires FindRun(s.claims, op.run).Some? && s.claims[FindRun(s.claims, op.run).value].agent == op.agent
    ensures Complete(Complete(s, op), again) == Complete(s, op)
    ensures forall ref :: !Counts(Complete(s, op), again, ref)
  {
    hide Complete;
    FinishEndsTheClaim(s, op);
    var t := Complete(s, op);
    assert PlanFinish(t, again.run, again.agent, again.success, again.failure, again.why, again.now) == [];
    CompleteNothing(t, again);
  }

  lemma CompleteNothing(s: Life, op: Op)
    requires Plan(s, op) == []
    ensures Complete(s, op) == s
  {
  }

  // ----- what a crash costs ----------------------------------------------------------------------------

  /** At most two writes, at most one of them to the task store. */
  predicate OneStoreWrite(ws: seq<Write>) {
    |ws| <= 2 && (|ws| == 2 ==> !(ws[0].PutStore? && ws[1].PutStore?))
  }

  /** A command cut anywhere leaves the store as it was or as the whole command leaves it. */
  lemma CutStore(s: Life, op: Op, k: nat)
    requires OneStoreWrite(Plan(s, op))
    ensures Crashed(s, op, k).store == s.store || Crashed(s, op, k).store == Complete(s, op).store
    ensures k >= 2 ==> Crashed(s, op, k) == Complete(s, op)
  {
    hide Plan;
    var ws := Plan(s, op);
    NoWrites(s);
    assert ws[..|ws|] == ws;
    if k == 0 {
      assert ws[..0] == [];
    } else if k == 1 && |ws| == 2 {
      assert ws[..1] == [ws[0]] && ws == [ws[0], ws[1]] && ws[1..] == [ws[1]] && ws[1..][1..] == [] && [ws[0]][1..] == [];
      assert ApplyWrites(s, ws[..1]) == ApplyWrite(s, ws[0]);
      assert ApplyWrites(ApplyWrite(s, ws[0]), ws[1..]) == ApplyWrite(ApplyWrite(s, ws[0]), ws[1]);
    }
  }

  /** The only command that writes the task store twice is a claim that is taken back. */
  lemma PlansWriteTheStoreOnce(s: Life, op: Op)
    requires !(op.ClaimOp? && op.secondCommitFails)
    ensures OneStoreWrite(Plan(s, op))
  {
    hide StoreWrite, RepairedClaims, ReconcileEdits, ReconcileChanges, FindRun, ClaimTask, CreateTask;
    forall edits, changes ensures var ws := StoreWrite(s.store, edits, changes); ws == [] || (|ws| == 1 && ws[0].PutStore?) {
      StoreWriteShape(s.store, edits, changes);
    }
  }

  /** A cut claim that is taken back keeps every count. */
  lemma TakenBackCount(s: Life, op: Op, k: nat, r: Ref)
    requires StoreInv(s.store) && r in s.store && op.ClaimOp? && op.secondCommitFails
    ensures SameCount(s, Crashed(s, op, k), r)
  {
    hide StoreInv, SlotInv, ApplyWrites, CompensateClaim;
    NoWrites(s);
    ClaimCount(s, op, r);
    var ws := Plan(s, op);
    assert ws[..|ws|] == ws && ws[..0] == [];
    if op.ref in s.store && !HasActive(s.claims, op.ref) && TaskStore.ClaimTask(s.store, op.ref, op.run, op.agent).Ok? {
      var next := TaskStore.ClaimTask(s.store, op.ref, op.run, op.agent).value;
      TaskInvariants.ClaimedSlot(s.store, op.ref, op.run, op.agent);
      CompensationLands(next[op.ref], op.run);
      assert ws[..1] == [PutStore(next)];
      StoreWriteLands(s, next);
    }
  }

  lemma StoreWriteLands(s: Life, next: Store)
    ensures ApplyWrites(s, [PutStore(next)]) == Life(next, s.claims)
  {
    assert [PutStore(next)][1..] == [];
  }

  /** A command that counts nothing counts nothing wherever it is cut. */
  lemma CutCommandCount(s: Life, op: Op, k: nat, ref: Ref)
    requires Recoverable(s) && ref in s.store && !Counts(s, op, ref)
    ensures SameCount(s, Crashed(s, op, k), ref)
  {
    hide Recoverable, StoreInv, Complete, Crashed, Counts, Plan;
    RecoverableStore(s);
    if op.ClaimOp? && op.secondCommitFails {
      TakenBackCount(s, op, k, ref);
    } else {
      PlansWriteTheStoreOnce(s, op);
      CutStore(s, op, k);
      CommandCount(s, op, ref);
    }
  }

  /** The two writes of a counted failure: the claims, then the tasks. */
  lemma CountedPlan(s: Life, op: Op, ref: Ref)
    requires StoreInv(s.store) && ref in s.store && Counts(s, op, ref)
    ensures |Plan(s, op)| == 2 && Plan(s, op)[0].PutClaims? && Plan(s, op)[1].PutStore?
    ensures Plan(s, op)[0].claims ==
            if op.FinishOp? then FinishedClaims(s, FindRun(s.claims, op.run).value, false) else ExpiredClaims(s, op.now)
  {
    hide StoreInv, CommitEdits, FailureEdits, FailureChanges, ExpireEdits, ExpireChanges, FindRun, LeaseOver;
    if FailsTask(s, op, ref) {
      FailureLands(s, ref, op.failure, op.now, op.run, op.why);
    } else {
      ExpireLands(s, op.now, Counted);
    }
  }

  /** The state between the two commits of a counted failure. */
  lemma CutAfterTheClaims(s: Life, op: Op, ref: Ref)
    requires StoreInv(s.store) && ref in s.store && Counts(s, op, ref)
    ensures Crashed(s, op, 0) == s
    ensures Crashed(s, op, 1) == Life(s.store, if op.FinishOp? then FinishedClaims(s, FindRun(s.claims, op.run).value, false)
                                               else ExpiredClaims(s, op.now))
  {
    hide StoreInv, Counts, Plan, FinishedClaims, ExpiredClaims, FindRun;
    CountedPlan(s, op, ref);
    NoWrites(s);
    var ws := Plan(s, op);
    assert ws[..0] == [] && ws[..1] == [ws[0]];
    ClaimWriteLands(s, ws[0].claims);
  }

  /** A counted failure, of either kind and cut anywhere, is counted exactly when its second commit landed. */
  lemma CountLandsExactlyWhen(s: Life, op: Op, k: nat, ref: Ref)
    requires Recoverable(s) && ref in s.store && Counts(s, op, ref)
    ensures ref in Crashed(s, op, k).store
    ensures Crashed(s, op, k).store[ref].attempts == s.store[ref].attempts + (if k >= 2 then 1 else 0)
    ensures k >= 2 ==> FailureRecorded(s.store[ref], Crashed(s, op, k).store[ref], When(op))
  {
    hide Recoverable, StoreInv, Complete, Crashed, Counts, Plan, RequeueBackoff;
    RecoverableStore(s);
    if k >= 2 {
      CountedIsNoClaim(s, op, ref);
      PlansWriteTheStoreOnce(s, op);
      CutStore(s, op, k);
      CommandCount(s, op, ref);
    } else {
      CutAfterTheClaims(s, op, ref);
    }
  }

  lemma CountedIsNoClaim(s: Life, op: Op, ref: Ref)
    requires Counts(s, op, ref)
    ensures !op.ClaimOp?
  {
  }

  /** The counted failures of a task whose second commit landed, in a run of commands cut anywhere. */
  ghost function LandedFailures(s: Life, attempts: seq<Attempt>, ref: Ref): nat
    decreases |attempts|
  {
    if attempts == [] then 0
    else (if Counts(s, attempts[0].op, ref) && attempts[0].writes >= 2 then 1 else 0)
         + LandedFailures(Crashed(s, attempts[0].op, attempts[0].writes), attempts[1..], ref)
  }

  /** With crashes anywhere, the attempt count is its initial value plus the counted failures that landed. */
  lemma {:induction false} AttemptsAreTheLandedFailures(s: Life, attempts: seq<Attempt>, ref: Ref)
    requires Recoverable(s) && ref in s.store
    ensures ref in RunLife(s, attempts).store
    ensures RunLife(s, attempts).store[ref].attempts == s.store[ref].attempts + LandedFailures(s, attempts, ref)
    decreases |attempts|
  {
    hide Recoverable, Crashed, Counts;
    if attempts != [] {
      var op, k := attempts[0].op, attempts[0].writes;
      if Counts(s, op, ref) { CountLandsExactlyWhen(s, op, k, ref); } else { CutCommandCount(s, op, k, ref); }
      CrashIsRecoverable(s, op, k);
      AttemptsAreTheLandedFailures(Crashed(s, op, k), attempts[1..], ref);
    }
  }

  // ----- the repair of a lost count ----------------------------------------------------------------------

  lemma EndedTaskHasNoClaim(s: Life, i: nat)
    requires Consistent(s) && i < |s.claims| && ActiveClaim(s.claims[i])
    ensures Winner(FinishedClaims(s, i, false), s.claims[i].ref).None?
  {
    hide StoreInv;
    var after := FinishedClaims(s, i, false);
    forall j | 0 <= j < |after| ensures !ActiveOn(after[j], s.claims[i].ref) {
      if j != i { assert after[j] == s.claims[j]; }
    }
  }

  lemma ExpiredTaskHasNoClaim(s: Life, now: Time, ref: Ref)
    requires Consistent(s) && ref in ExpiredTasks(s, now)
    ensures Winner(ExpiredClaims(s, now), ref).None?
  {
    hide Consistent, Recoverable, ExpiredClaims, LeaseOver;
    ConsistentIsRecoverable(s);
    ExpiredClaimsHold(s, now);
    var i :| 0 <= i < |s.claims| && s.claims[i].ref == ref && Expires(s.store, s.claims[i], now);
    assert Holds(s.claims, s.claims[i]);
    forall c | Holds(ExpiredClaims(s, now), c) ensures c.ref != ref {
      if c.ref == ref { OnlyClaimOnItsTask(s, c, s.claims[i]); }
    }
  }

  lemma UnclaimedIsRequeued(s: Life, ref: Ref)
    requires ref in s.store && Active(s.store[ref].status) && Winner(s.claims, ref).None?
    requires Committed(s.store, ReconcileEdits(s), RepairedStore(s))
    ensures ref in RepairedStore(s) && RepairedStore(s)[ref].status == Todo && RepairedStore(s)[ref].attempts == s.store[ref].attempts
  {
    hide RepairedStore, SlotInv, Winner, ProjectedDefinition;
    assert ref in ReconcileEdits(s);
    assert Outcome(s.store[ref], RepairedStore(s)[ref], RowIn(ReconcileEdits(s), ref));
  }

  /** A counted failure of either kind, cut between its commits, is requeued by the repair without being counted. */
  lemma CrashLosesTheCount(s: Life, op: Op, ref: Ref)
    requires Consistent(s) && ref in s.store && Counts(s, op, ref)
    ensures var t := Complete(Crashed(s, op, 1), ReconcileOp);
            ref in t.store && t.store[ref].status == Todo && t.store[ref].attempts == s.store[ref].attempts
  {
    hide StoreInv, Recoverable, Complete, Crashed, Consistent, ReconcileEdits, Committed, RepairedStore, FinishedClaims, ExpiredClaims, LeaseOver;
    ConsistentStore(s);
    ConsistentIsRecoverable(s);
    var mid := Crashed(s, op, 1);
    CutAfterTheClaims(s, op, ref);
    if FailsTask(s, op, ref) {
      EndedTaskHasNoClaim(s, FindRun(s.claims, op.run).value);
    } else {
      ExpiredTaskHasNoClaim(s, op.now, ref);
    }
    CrashIsRecoverable(s, op, 1);
    RecoverableStore(mid);
    ReconcileIsSafe(mid);
    RepairCommits(mid);
    UnclaimedIsRequeued(mid, ref);
  }
}
