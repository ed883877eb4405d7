/**
 * A command that runs to its end keeps claims, tasks and bindings in agreement,
 * with one exception that is characterised exactly.
 */
module LifecycleConsistency {
  import opened Prelude
  import opened TaskContract
  import opened TaskStore
  import opened TaskInvariants
  import opened ProjectTasks
  import opened Claims
  import opened Reconcile
  import opened Lifecycle
  import opened CrashSafety

  // ----- commands that move tasks out of their runs ---------------------------------------------

  predicate Holds(claims: seq<RunClaim>, c: RunClaim) {
    c in claims && ActiveClaim(c)
  }

  /**
   * The tasks of the claims that end are edited (or not active), no claim
   * becomes active, and an edited task keeps a claim only when it is finished.
   */
  ghost predicate Balanced(s: Life, claims: seq<RunClaim>, edits: map<Ref, Row>) {
    && (forall c :: Holds(claims, c) ==> Holds(s.claims, c))
    && (forall c :: Holds(s.claims, c) && !Holds(claims, c) && c.ref in s.store ==> c.ref in edits || !Active(s.store[c.ref].status))
    && (forall c :: Holds(claims, c) && c.ref in edits ==> Finished(edits[c.ref].status))
    && (forall r :: r in edits ==> !Active(edits[r].status))
  }

  lemma UneditedTaskStaysServed(s: Life, claims: seq<RunClaim>, edits: map<Ref, Row>, next: Store, r: Ref)
    requires r in s.store && Served(s, r) && r in next && r !in edits && Active(s.store[r].status)
    requires Balanced(s, claims, edits) && Outcome(s.store[r], next[r], None)
    ensures Served(Life(next, claims), r)
  {
    hide SlotInv;
    var i :| 0 <= i < |s.claims| && ActiveOn(s.claims[i], r) && s.store[r].status == Expected(s.claims[i]) && HoldsTask(s.store[r], s.claims[i].run);
    assert Holds(s.claims, s.claims[i]);
    var j :| 0 <= j < |claims| && claims[j] == s.claims[i];
  }

  lemma KeptClaimStaysMatched(s: Life, claims: seq<RunClaim>, edits: map<Ref, Row>, next: Store, c: RunClaim)
    requires Consistent(s) && Balanced(s, claims, edits) && Committed(s.store, edits, next) && Holds(claims, c)
    ensures c.ref in next && Matched(next[c.ref], c)
  {
    hide StoreInv, SlotInv;
    assert Holds(s.claims, c);
    var i :| 0 <= i < |s.claims| && s.claims[i] == c;
    assert Bound(s.store, c) && Matched(s.store[c.ref], c);
    assert Outcome(s.store[c.ref], next[c.ref], RowIn(edits, c.ref));
  }

  lemma BalancedKeepsConsistency(s: Life, claims: seq<RunClaim>, edits: map<Ref, Row>, next: Store)
    requires Consistent(s) && Balanced(s, claims, edits) && Committed(s.store, edits, next)
    requires Recoverable(Life(next, claims))
    ensures Consistent(Life(next, claims))
  {
    hide Recoverable, Balanced, Served, Matched, SlotInv;
    var t := Life(next, claims);
    RecoverableBinds(t);
    forall r | r in t.store && Active(t.store[r].status) ensures Served(t, r) {
      assert Outcome(s.store[r], next[r], RowIn(edits, r));
      EditsLeave(s, claims, edits, r);
      UneditedTaskStaysServed(s, claims, edits, next, r);
    }
    forall i | 0 <= i < |claims| && ActiveClaim(claims[i]) ensures claims[i].ref in next && Matched(next[claims[i].ref], claims[i]) {
      assert Holds(claims, claims[i]);
      KeptClaimStaysMatched(s, claims, edits, next, claims[i]);
    }
  }

  lemma EditsLeave(s: Life, claims: seq<RunClaim>, edits: map<Ref, Row>, r: Ref)
    requires Balanced(s, claims, edits)
    ensures r in edits ==> !Active(edits[r].status)
  {
  }

  lemma RecoverableBinds(s: Life)
    requires Recoverable(s)
    ensures forall i :: 0 <= i < |s.claims| ==> s.claims[i].ref in s.store
  {
    forall i | 0 <= i < |s.claims| ensures s.claims[i].ref in s.store { assert Bound(s.store, s.claims[i]); }
  }

  lemma CompletedIsRecoverable(s: Life, op: Op)
    requires Recoverable(s)
    ensures Recoverable(Complete(s, op))
  {
    hide Recoverable, Plan;
    EveryCommandIsSafe(s, op);
    var plan := Plan(s, op);
    SafePrefix(s, plan, |plan|);
    assert plan[..|plan|] == plan;
  }

  lemma ClaimWriteLands(s: Life, claims: seq<RunClaim>)
    ensures ApplyWrites(s, [PutClaims(claims)]) == Life(s.store, claims)
  {
  }

  lemma OneCommitLands(s: Life, edits: map<Ref, Row>, changes: map<Ref, Change>)
    ensures var r := CommitEdits(s.store, edits, changes);
            ApplyWrites(s, StoreWrite(s.store, edits, changes)) == Life(if r.Ok? then r.value else s.store, s.claims)
  {
    hide CommitEdits;
  }

  lemma BothCommitsLand(s: Life, claims: seq<RunClaim>, edits: map<Ref, Row>, changes: map<Ref, Change>)
    ensures var r := CommitEdits(s.store, edits, changes);
            ApplyWrites(s, ClaimsThenTasks(s, claims, edits, changes)) == Life(if r.Ok? then r.value else s.store, claims)
  {
    hide CommitEdits, StoreWrite;
    var rest := StoreWrite(s.store, edits, changes);
    assert ([PutClaims(claims)] + rest)[1..] == rest;
    OneCommitLands(s.(claims := claims), edits, changes);
  }

  /** A balanced command whose store commit is accepted keeps the agreement. */
  lemma BalancedCommand(s: Life, op: Op, claims: seq<RunClaim>, edits: map<Ref, Row>, changes: map<Ref, Change>)
    requires Consistent(s) && Balanced(s, claims, edits) && ProperEdits(s.store, edits, changes)
    requires CommitEdits(s.store, edits, changes).Ok?
    requires Complete(s, op) == Life(CommitEdits(s.store, edits, changes).value, claims)
    ensures Consistent(Complete(s, op))
  {
    hide StoreInv, Balanced, ProperEdits, CommitEdits, Committed, Complete;
    CompletedIsRecoverable(s, op);
    CommitOutcome(s.store, edits, changes);
    BalancedKeepsConsistency(s, claims, edits, CommitEdits(s.store, edits, changes).value);
  }

  /** One edited task: the commit succeeds when its change does. */
  lemma SingleCommit(store: Store, ref: Ref, row: Row, changes: map<Ref, Change>)
    requires StoreInv(store) && ProperEdits(store, map[ref := row], changes)
    ensures CommitEdits(store, map[ref := row], changes).Ok? <==> CommitStatus(store[ref], row, ChangeOf(changes, ref)).Ok?
  {
    hide StoreInv, ProperEdits, CommitEdits, CommitStatus;
    assert ref in map[ref := row];
    CommitSucceedsExactlyWhen(store, map[ref := row], changes);
  }

  lemma OnlyClaimOnItsTask(s: Life, c: RunClaim, d: RunClaim)
    requires Recoverable(s) && Holds(s.claims, c) && Holds(s.claims, d) && c.ref == d.ref
    ensures c == d
  {
    hide StoreInv;
    var i :| 0 <= i < |s.claims| && s.claims[i] == c;
    var j :| 0 <= j < |s.claims| && s.claims[j] == d;
  }

  lemma HeldClaimIsMatched(s: Life, c: RunClaim)
    requires Consistent(s) && Holds(s.claims, c)
    ensures c.ref in s.store && Matched(s.store[c.ref], c)
  {
    hide StoreInv;
    var i :| 0 <= i < |s.claims| && s.claims[i] == c;
    assert Bound(s.store, c);
  }

  lemma ConsistentStore(s: Life)
    requires Consistent(s)
    ensures StoreInv(s.store)
  {
  }

  /** An active task has no block reason left over. */
  lemma ActiveHasNoReason(store: Store, r: Ref)
    requires StoreInv(store) && r in store && Active(store[r].status)
    ensures store[r].blockedReason.None?
  {
    assert SlotInv(store[r]);
  }

  // ----- ending one claim --------------------------------------------------------------------------

  /** Ending claim `i` and moving its task out is balanced. */
  lemma EndingOneIsBalanced(s: Life, i: nat, ended: RunClaim, edits: map<Ref, Row>)
    requires Consistent(s) && i < |s.claims| && ActiveClaim(s.claims[i]) && !ActiveClaim(ended)
    requires (forall r :: r in edits ==> r == s.claims[i].ref && !Active(edits[r].status))
    requires s.claims[i].ref in s.store
    requires Active(s.store[s.claims[i].ref].status) ==> s.claims[i].ref in edits
    ensures Balanced(s, s.claims[i := ended], edits)
  {
    hide StoreInv, Matched, Served;
    var c, after := s.claims[i], s.claims[i := ended];
    assert Holds(s.claims, c);
    forall d | Holds(after, d) ensures Holds(s.claims, d) && d.ref != c.ref {
      var j :| 0 <= j < |after| && after[j] == d;
      assert j != i && s.claims[j] == d;
    }
    forall d | Holds(s.claims, d) && d != c ensures Holds(after, d) {
      var j :| 0 <= j < |s.claims| && s.claims[j] == d;
      assert after[j] == d;
    }
  }

  lemma FailureLands(s: Life, ref: Ref, f: Failure, at: Time, run: RunId, why: Option<string>)
    requires StoreInv(s.store) && ref in s.store && Active(s.store[ref].status)
    ensures CommitEdits(s.store, FailureEdits(s, ref, f, at), FailureChanges(s, ref, f, at, run, why)).Ok? <==>
            !(f == BlockPolicy && why.Some? && Blank(why.value))
  {
    hide StoreInv, CommitEdits, ProperEdits, ProjectedDefinition, RequeueBackoff;
    var edits, changes := FailureEdits(s, ref, f, at), FailureChanges(s, ref, f, at, run, why);
    FailureEditsLeave(s, ref, f, at, run, why);
    SingleCommit(s.store, ref, edits[ref], changes);
    ActiveHasNoReason(s.store, ref);
    FailedRowLands(s.store[ref], RowOf(s.store, ref), f, at, run, why);
  }

  lemma FailedRowLands(s: Slot, row: Row, f: Failure, at: Time, run: RunId, why: Option<string>)
    requires Active(s.status) && row.blockedReason.None?
    ensures var out := FailedRow(row, f, at);
            CommitStatus(s, out, Some(FailureChange(out, run, BlockReason(f, why)))).Ok? <==>
            !(f == BlockPolicy && why.Some? && Blank(why.value))
  {
    hide RequeueBackoff;
    assert !Blank(TOO_MANY) by { assert TOO_MANY[0] == 'm'; }
    var fallback := "run failed with block policy";
    assert !Blank(fallback) by { assert fallback[0] == 'r'; }
  }

  /** The one way a finish leaves an active task behind. */
  predicate LeavesTaskBehind(s: Life, op: Op) {
    op.FinishOp? &&
    var i := FindRun(s.claims, op.run);
    && i.Some? && s.claims[i.value].agent == op.agent && ActiveClaim(s.claims[i.value])
    && s.claims[i.value].ref in s.store && Active(s.store[s.claims[i.value].ref].status)
    && (op.success || (op.failure == BlockPolicy && op.why.Some? && Blank(op.why.value)))
  }

  /** An active task whose only claim ended is not served. */
  lemma UnservedIsInconsistent(s: Life, i: nat, success: bool, next: Store)
    requires Recoverable(s) && i < |s.claims| && ActiveClaim(s.claims[i])
    requires s.claims[i].ref in next && Active(next[s.claims[i].ref].status)
    ensures !Consistent(Life(next, FinishedClaims(s, i, success)))
  {
    hide StoreInv;
    var ref, t := s.claims[i].ref, Life(next, FinishedClaims(s, i, success));
    assert forall j :: 0 <= j < |t.claims| && ActiveClaim(t.claims[j]) ==> t.claims[j] == s.claims[j] && j != i && s.claims[j].ref != ref;
    assert !Served(t, ref);
  }

  lemma EmptyCommit(store: Store)
    requires StoreInv(store)
    ensures CommitEdits(store, map[], map[]).Ok?
    ensures ProperEdits(store, map[], map[]) && Committed(store, map[], CommitEdits(store, map[], map[]).value)
  {
    hide StoreInv, CommitEdits, Committed;
    CommitSucceedsExactlyWhen(store, map[], map[]);
    CommitOutcome(store, map[], map[]);
  }

  lemma EmptyCommitKeepsStatus(store: Store, next: Store, r: Ref)
    requires Committed(store, map[], next) && r in store
    ensures r in next && next[r].status == store[r].status
  {
    assert Outcome(store[r], next[r], RowIn(map[], r));
  }

  /** A claim may end beside its finished task without a store commit. */
  lemma FinishBesideTheTask(s: Life, i: nat, success: bool, op: Op)
    requires Consistent(s) && i < |s.claims| && ActiveClaim(s.claims[i]) && s.claims[i].ref in s.store
    requires !Active(s.store[s.claims[i].ref].status)
    requires Complete(s, op) == Life(s.store, FinishedClaims(s, i, success))
    ensures Consistent(Complete(s, op))
  {
    hide StoreInv, Committed, Balanced, Complete;
    CompletedIsRecoverable(s, op);
    NothingCommitted(s.store);
    EndingOneIsBalanced(s, i, FinishedClaims(s, i, success)[i], map[]);
    BalancedKeepsConsistency(s, FinishedClaims(s, i, success), map[], s.store);
  }

  lemma FailedFinish(s: Life, i: nat, op: Op)
    requires Consistent(s) && op.FinishOp? && !op.success && FindRun(s.claims, op.run) == Some(i) && s.claims[i].agent == op.agent
    requires ActiveClaim(s.claims[i]) && s.claims[i].ref in s.store && Active(s.store[s.claims[i].ref].status)
    ensures Consistent(Complete(s, op)) <==> !LeavesTaskBehind(s, op)
  {
    hide StoreInv, CommitEdits, Balanced, ProperEdits, ApplyWrites, FailedRow, FailureChange, Consistent, ClaimsThenTasks;
    var ref, claims := s.claims[i].ref, FinishedClaims(s, i, false);
    var edits := FailureEdits(s, ref, op.failure, op.now);
    var changes := FailureChanges(s, ref, op.failure, op.now, op.run, op.why);
    BothCommitsLand(s, claims, edits, changes);
    ConsistentStore(s);
    FailureLands(s, ref, op.failure, op.now, op.run, op.why);
    FailureEditsLeave(s, ref, op.failure, op.now, op.run, op.why);
    if CommitEdits(s.store, edits, changes).Ok? {
      EndingOneIsBalanced(s, i, claims[i], edits);
      BalancedCommand(s, op, claims, edits, changes);
    } else {
      ConsistentIsRecoverable(s);
      UnservedIsInconsistent(s, i, false, s.store);
    }
  }

  lemma ConsistentIsRecoverable(s: Life)
    requires Consistent(s)
    ensures Recoverable(s)
  {
  }

  /** A successful finish before the merge leaves the task active with no claim. */
  lemma EarlySuccess(s: Life, i: nat, op: Op)
    requires Consistent(s) && op.FinishOp? && op.success && FindRun(s.claims, op.run) == Some(i) && s.claims[i].agent == op.agent
    requires ActiveClaim(s.claims[i]) && s.claims[i].ref in s.store && Active(s.store[s.claims[i].ref].status)
    ensures !Consistent(Complete(s, op))
  {
    hide StoreInv, CommitEdits, Committed, ApplyWrites, Consistent, ClaimsThenTasks, Recoverable;
    var ref, claims := s.claims[i].ref, FinishedClaims(s, i, true);
    BothCommitsLand(s, claims, map[], map[]);
    ConsistentStore(s);
    EmptyCommit(s.store);
    var next := CommitEdits(s.store, map[], map[]).value;
    EmptyCommitKeepsStatus(s.store, next, ref);
    ConsistentIsRecoverable(s);
    UnservedIsInconsistent(s, i, true, next);
  }

  lemma FinishKeepsConsistencyExactlyWhen(s: Life, op: Op)
    requires Consistent(s) && op.FinishOp?
    ensures Consistent(Complete(s, op)) <==> !LeavesTaskBehind(s, op)
  {
    hide Consistent, ClaimsThenTasks, FinishedClaims, FailureEdits, FailureChanges;
    var i := FindRun(s.claims, op.run);
    if i.Some? && s.claims[i.value].agent == op.agent && ActiveClaim(s.claims[i.value]) {
      ConsistentBinds(s);
      var ref := s.claims[i.value].ref;
      if !Active(s.store[ref].status) {
        ClaimWriteLands(s, FinishedClaims(s, i.value, op.success));
        FinishBesideTheTask(s, i.value, op.success, op);
      } else if op.success {
        EarlySuccess(s, i.value, op);
      } else {
        FailedFinish(s, i.value, op);
      }
    }
  }

  /** assertRunMayFinish: a worker's success is accepted only once the merge is recorded. */
  predicate RunMayFinish(store: Store, ref: Ref) {
    ref in store && Finished(store[ref].status)
  }

  /** A success that passes the workers' guard keeps the agreement. */
  lemma GuardedSuccessKeepsConsistency(s: Life, op: Op)
    requires Consistent(s) && op.FinishOp? && op.success
    requires FindRun(s.claims, op.run).Some? ==> RunMayFinish(s.store, s.claims[FindRun(s.claims, op.run).value].ref)
    ensures Consistent(Complete(s, op))
  {
    hide Consistent, Complete, FindRun;
    FinishKeepsConsistencyExactlyWhen(s, op);
  }

  lemma ConsistentBinds(s: Life)
    requires Consistent(s)
    ensures forall i :: 0 <= i < |s.claims| ==> s.claims[i].ref in s.store
  {
    RecoverableBinds(s);
  }

  // ----- the other commands ------------------------------------------------------------------------

  lemma ExpireRunKeepsConsistency(s: Life, run: RunId)
    requires Consistent(s)
    ensures Consistent(Complete(s, ExpireRunOp(run)))
  {
    hide Consistent, ApplyWrites, CommitEdits, Balanced, ProperEdits, ClaimsThenTasks, StoreInv, ProjectRow, FindRun;
    NoWrites(s);
    var i := FindRun(s.claims, run);
    if i.Some? && ActiveClaim(s.claims[i.value]) {
      var c := s.claims[i.value];
      ConsistentBinds(s);
      if !TerminalStatus(s.store[c.ref].status) {
        HeldClaimIsMatched(s, c);
        var edits, changes := RequeueEdits(s, c.ref), ManualExpiry(c.ref, run);
        ConsistentStore(s);
        RequeueLands(s, c.ref, run);
        EndingOneIsBalanced(s, i.value, c.(state := ClaimFailed), edits);
        BothCommitsLand(s, FailedClaims(s, i.value), edits, changes);
        BalancedCommand(s, ExpireRunOp(run), FailedClaims(s, i.value), edits, changes);
      }
    }
  }

  lemma NoWrites(s: Life)
    ensures ApplyWrites(s, []) == s
  {
  }

  lemma RequeueLands(s: Life, ref: Ref, run: RunId)
    requires StoreInv(s.store) && ref in s.store && Active(s.store[ref].status)
    ensures var edits, changes := RequeueEdits(s, ref), ManualExpiry(ref, run);
            ProperEdits(s.store, edits, changes) && CommitEdits(s.store, edits, changes).Ok?
  {
    hide StoreInv, CommitEdits, ProjectedDefinition;
    var edits, changes := RequeueEdits(s, ref), ManualExpiry(ref, run);
    SingleCommit(s.store, ref, edits[ref], changes);
    LegalChangeLands(s.store[ref], edits[ref], changes[ref]);
  }

  lemma ResetLands(s: Life, ref: Ref)
    requires StoreInv(s.store) && ref in s.store
    ensures ProperEdits(s.store, ResetEdits(s, ref), ResetChanges(s, ref)) && CommitEdits(s.store, ResetEdits(s, ref), ResetChanges(s, ref)).Ok?
  {
    hide StoreInv, CommitEdits, ProjectedDefinition;
    var edits, changes := ResetEdits(s, ref), ResetChanges(s, ref);
    SingleCommit(s.store, ref, edits[ref], changes);
    if s.store[ref].status != Todo {
      LegalChangeLands(s.store[ref], edits[ref], changes[ref]);
    }
  }

  /** Ending every active claim on the edited tasks, and no other, is balanced. */
  lemma EndingTasksIsBalanced(s: Life, claims: seq<RunClaim>, edits: map<Ref, Row>)
    requires Recoverable(s)
    requires forall c :: Holds(claims, c) <==> Holds(s.claims, c) && c.ref !in edits
    requires forall r :: r in edits ==> !Active(edits[r].status)
    ensures Balanced(s, claims, edits)
  {
  }

  lemma DroppedAreThose(s: Life, ref: Ref)
    ensures forall c :: Holds(DroppedClaims(s, ref), c) <==> Holds(s.claims, c) && c.ref != ref
  {
    var out := DroppedClaims(s, ref);
    forall c | Holds(s.claims, c) && c.ref != ref ensures Holds(out, c) {
      var i :| 0 <= i < |s.claims| && s.claims[i] == c;
      assert out[i] == c;
    }
  }

  lemma ResetKeepsConsistency(s: Life, ref: Ref)
    requires Consistent(s)
    ensures Consistent(Complete(s, ResetOp(ref)))
  {
    hide Consistent, ApplyWrites, CommitEdits, Balanced, ProperEdits, ClaimsThenTasks, DroppedClaims, ResetChanges, Recoverable, StoreInv, ProjectRow;
    NoWrites(s);
    if ref in s.store {
      var claims, edits, changes := DroppedClaims(s, ref), ResetEdits(s, ref), ResetChanges(s, ref);
      ConsistentStore(s);
      ConsistentIsRecoverable(s);
      ResetLands(s, ref);
      DroppedAreThose(s, ref);
      EndingTasksIsBalanced(s, claims, edits);
      BothCommitsLand(s, claims, edits, changes);
      BalancedCommand(s, ResetOp(ref), claims, edits, changes);
    }
  }

  lemma CancelLands(s: Life, ref: Ref, why: Option<string>)
    requires StoreInv(s.store) && ref in s.store && !TerminalStatus(s.store[ref].status)
    ensures var changes := map[ref := Change(Cancel, why, None, None)];
            ProperEdits(s.store, CancelEdits(s, ref), changes) && CommitEdits(s.store, CancelEdits(s, ref), changes).Ok?
  {
    hide StoreInv, CommitEdits, ProjectedDefinition;
    var edits, changes := CancelEdits(s, ref), map[ref := Change(Cancel, why, None, None)];
    SingleCommit(s.store, ref, edits[ref], changes);
    LegalChangeLands(s.store[ref], edits[ref], changes[ref]);
  }

  lemma CancelKeepsConsistency(s: Life, ref: Ref, why: Option<string>)
    requires Consistent(s)
    ensures Consistent(Complete(s, CancelOp(ref, why)))
  {
    hide Consistent, ApplyWrites, CommitEdits, Balanced, ProperEdits, ClaimsThenTasks, StoreWrite, RemoveActive, Recoverable, StoreInv, ProjectRow;
    NoWrites(s);
    if ref in s.store && !TerminalStatus(s.store[ref].status) {
      var edits, changes := CancelEdits(s, ref), map[ref := Change(Cancel, why, None, None)];
      ConsistentStore(s);
      ConsistentIsRecoverable(s);
      CancelLands(s, ref, why);
      if HasActive(s.claims, ref) {
        var claims := RemoveActive(s.claims, ref);
        RemovalIsASelection(s.claims, ref);
        EndingTasksIsBalanced(s, claims, edits);
        BothCommitsLand(s, claims, edits, changes);
        BalancedCommand(s, CancelOp(ref, why), claims, edits, changes);
      } else {
        EndingTasksIsBalanced(s, s.claims, edits);
        OneCommitLands(s, edits, changes);
        BalancedCommand(s, CancelOp(ref, why), s.claims, edits, changes);
      }
    }
  }

  lemma MergeKeepsConsistency(s: Life, ref: Ref)
    requires Consistent(s)
    ensures Consistent(Complete(s, MergeOp(ref)))
  {
    hide Consistent, ApplyWrites, CommitEdits, ProperEdits, StoreWrite;
    NoWrites(s);
    if ref in s.store {
      var edits, changes := MergeEdits(s, ref), map[ref := Change(MergeSucceeded, None, ActiveRunId(s.store[ref]), None)];
      MergeIsProper(s, ref);
      OneCommitLands(s, edits, changes);
      if CommitEdits(s.store, edits, changes).Ok? && s.store[ref].status !in {Blocked, Released, TaskContract.Cancelled, Done} {
        BalancedCommand(s, MergeOp(ref), s.claims, edits, changes);
      }
    }
  }

  lemma MergeIsProper(s: Life, ref: Ref)
    requires ref in s.store
    ensures ProperEdits(s.store, MergeEdits(s, ref), map[ref := Change(MergeSucceeded, None, ActiveRunId(s.store[ref]), None)])
  {
  }

  lemma UnblockLands(s: Life, ref: Ref, why: Option<string>)
    requires StoreInv(s.store) && ref in s.store && s.store[ref].status == Blocked
    ensures var changes := map[ref := Change(Unblock, why, None, None)];
            ProperEdits(s.store, UnblockEdits(s, ref), changes) && CommitEdits(s.store, UnblockEdits(s, ref), changes).Ok?
  {
    hide StoreInv, CommitEdits, ProjectedDefinition;
    var edits, changes := UnblockEdits(s, ref), map[ref := Change(Unblock, why, None, None)];
    SingleCommit(s.store, ref, edits[ref], changes);
    LegalChangeLands(s.store[ref], edits[ref], changes[ref]);
  }

  lemma UnblockKeepsConsistency(s: Life, ref: Ref, why: Option<string>)
    requires Consistent(s)
    ensures Consistent(Complete(s, UnblockOp(ref, why)))
  {
    hide Consistent, ApplyWrites, CommitEdits, ProperEdits, StoreWrite, Balanced, Recoverable, StoreInv, ProjectedDefinition, ProjectRow;
    NoWrites(s);
    if ref in s.store && s.store[ref].status == Blocked {
      var edits, changes := UnblockEdits(s, ref), map[ref := Change(Unblock, why, None, None)];
      ConsistentStore(s);
      ConsistentIsRecoverable(s);
      UnblockLands(s, ref, why);
      OneCommitLands(s, edits, changes);
      forall c | Holds(s.claims, c) ensures c.ref !in edits {
        HeldClaimIsMatched(s, c);
      }
      EndingTasksIsBalanced(s, s.claims, edits);
      BalancedCommand(s, UnblockOp(ref, why), s.claims, edits, changes);
    }
  }

  // ----- commands over every task ------------------------------------------------------------------

  lemma SessionResetLands(s: Life)
    requires StoreInv(s.store)
    ensures ProperEdits(s.store, SessionResetEdits(s), SessionResetChanges(s))
    ensures CommitEdits(s.store, SessionResetEdits(s), SessionResetChanges(s)).Ok?
  {
    hide StoreInv, CommitEdits, ProjectedDefinition, CommitStatus;
    var edits, changes := SessionResetEdits(s), SessionResetChanges(s);
    CommitSucceedsExactlyWhen(s.store, edits, changes);
    forall r | r in edits ensures CommitStatus(s.store[r], edits[r], ChangeOf(changes, r)).Ok? {
      LegalChangeLands(s.store[r], edits[r], changes[r]);
    }
  }

  lemma EndingAllIsBalanced(s: Life)
    requires Consistent(s)
    ensures Balanced(s, EndedClaims(s), SessionResetEdits(s))
  {
    hide Consistent;
    assert forall c :: !Holds(EndedClaims(s), c);
  }

  lemma SessionResetCompletes(s: Life)
    requires CommitEdits(s.store, SessionResetEdits(s), SessionResetChanges(s)).Ok?
    ensures Complete(s, SessionResetOp) == Life(CommitEdits(s.store, SessionResetEdits(s), SessionResetChanges(s)).value, EndedClaims(s))
  {
    hide CommitEdits, EndedClaims, SessionResetEdits, SessionResetChanges;
    var next := CommitEdits(s.store, SessionResetEdits(s), SessionResetChanges(s)).value;
    var rest := [PutClaims(EndedClaims(s))];
    assert ([PutStore(next)] + rest)[1..] == rest;
    ClaimWriteLands(s.(store := next), EndedClaims(s));
  }

  lemma SessionResetKeepsConsistency(s: Life)
    requires Consistent(s)
    ensures Consistent(Complete(s, SessionResetOp))
  {
    hide Consistent, Complete, CommitEdits, ProperEdits, Balanced;
    ConsistentStore(s);
    SessionResetLands(s);
    SessionResetCompletes(s);
    EndingAllIsBalanced(s);
    BalancedCommand(s, SessionResetOp, EndedClaims(s), SessionResetEdits(s), SessionResetChanges(s));
  }

  lemma ExpiryLands(s: Life, r: Ref, f: Failure, now: Time, first: Option<RunClaim>)
    requires StoreInv(s.store) && r in s.store && Active(s.store[r].status)
    ensures var row := ExpiredRow(s, r, f, now);
            CommitStatus(s.store[r], row, Some(ExpiryChange(row, first))).Ok?
  {
    hide StoreInv, RequeueBackoff, ProjectedDefinition;
    ActiveHasNoReason(s.store, r);
    var row := ExpiredRow(s, r, f, now);
    assert !Blank(TOO_MANY) by { assert TOO_MANY[0] == 'm'; }
    var lease, input, fallback := "ERR_LEASE_EXPIRED", "ERR_INPUT_TIMEOUT", "failure_block";
    assert !Blank(lease) by { assert lease[0] == 'E'; }
    assert !Blank(input) by { assert input[0] == 'E'; }
    assert !Blank(fallback) by { assert fallback[0] == 'f'; }
    LegalChangeLands(s.store[r], row, ExpiryChange(row, first));
  }

  lemma ExpireLands(s: Life, now: Time, f: Failure)
    requires StoreInv(s.store)
    ensures CommitEdits(s.store, ExpireEdits(s, now, f), ExpireChanges(s, now, f)).Ok?
  {
    hide StoreInv, CommitEdits, ProperEdits, CommitStatus, ExpiryChange, ExpiredRow, FirstExpired;
    var edits, changes := ExpireEdits(s, now, f), ExpireChanges(s, now, f);
    ExpireEditsLeave(s, now, f);
    CommitSucceedsExactlyWhen(s.store, edits, changes);
    forall r | r in edits ensures CommitStatus(s.store[r], edits[r], ChangeOf(changes, r)).Ok? {
      ExpiryLands(s, r, f, now, FirstExpired(s.store, s.claims, r, now));
    }
  }

  lemma ExpiredClaimsHold(s: Life, now: Time)
    ensures forall c :: Holds(ExpiredClaims(s, now), c) <==> Holds(s.claims, c) && !Expires(s.store, c, now)
  {
    hide Expires;
    var out := ExpiredClaims(s, now);
    forall c | Holds(s.claims, c) && !Expires(s.store, c, now) ensures Holds(out, c) {
      var i :| 0 <= i < |s.claims| && s.claims[i] == c;
      assert out[i] == c;
    }
    forall c | Holds(out, c) ensures Holds(s.claims, c) && !Expires(s.store, c, now) {
      var i :| 0 <= i < |out| && out[i] == c;
      assert out[i] == s.claims[i];
    }
  }

  /** In agreement, a claim expires exactly when its task does. */
  lemma ExpiresWithItsTask(s: Life, c: RunClaim, now: Time, f: Failure)
    requires Consistent(s) && Holds(s.claims, c)
    ensures Expires(s.store, c, now) <==> c.ref in ExpireEdits(s, now, f)
  {
    hide Consistent, Recoverable, ExpiredRow, LeaseOver;
    ConsistentIsRecoverable(s);
    HeldClaimIsMatched(s, c);
    var i :| 0 <= i < |s.claims| && s.claims[i] == c;
    if Expires(s.store, c, now) {
      assert ExpiredOn(s, c.ref, now);
    }
    if c.ref in ExpireEdits(s, now, f) {
      var j :| 0 <= j < |s.claims| && s.claims[j].ref == c.ref && Expires(s.store, s.claims[j], now);
      OnlyClaimOnItsTask(s, c, s.claims[j]);
    }
  }

  lemma ExpiringIsBalanced(s: Life, now: Time, f: Failure)
    requires Consistent(s)
    ensures Balanced(s, ExpiredClaims(s, now), ExpireEdits(s, now, f))
  {
    hide Consistent, Recoverable, ExpireEdits, Expires, ExpiredClaims;
    ConsistentIsRecoverable(s);
    ExpireEditsLeave(s, now, f);
    ExpiredClaimsHold(s, now);
    forall c | Holds(s.claims, c) ensures Expires(s.store, c, now) <==> c.ref in ExpireEdits(s, now, f) {
      ExpiresWithItsTask(s, c, now, f);
    }
    EndingTasksIsBalanced(s, ExpiredClaims(s, now), ExpireEdits(s, now, f));
  }

  lemma ExpireKeepsConsistency(s: Life, now: Time, block: bool)
    requires Consistent(s)
    ensures Consistent(Complete(s, ExpireOp(now, block)))
  {
    hide Consistent, ApplyWrites, CommitEdits, ProperEdits, Balanced, ClaimsThenTasks, Expires, ExpireEdits, ExpireChanges, ExpiredClaims;
    NoWrites(s);
    var f := if block then BlockPolicy else Counted;
    var claims, edits, changes := ExpiredClaims(s, now), ExpireEdits(s, now, f), ExpireChanges(s, now, f);
    ConsistentStore(s);
    ExpireLands(s, now, f);
    ExpireEditsLeave(s, now, f);
    ExpiringIsBalanced(s, now, f);
    BothCommitsLand(s, claims, edits, changes);
    if PlanExpire(s, now, block) != [] {
      BalancedCommand(s, ExpireOp(now, block), claims, edits, changes);
    }
  }

  // ----- taking and starting -------------------------------------------------------------------------

  /** As far as its claim can tell, the task is as before. */
  ghost predicate SameTask(s: Slot, t: Slot) {
    t.status == s.status && (Active(t.status) ==> forall run :: HoldsTask(s, run) ==> HoldsTask(t, run))
  }

  /** One task changed and its claim is in place; every other task and claim is as before. */
  lemma OneTaskChanged(s: Life, t: Life, i: nat)
    requires Consistent(s) && Recoverable(t) && i < |t.claims|
    requires var ref := t.claims[i].ref;
             && (forall r :: r in s.store && r != ref ==> r in t.store && SameTask(s.store[r], t.store[r]))
             && (forall r :: r in t.store && r != ref ==> r in s.store)
             && (forall c :: Holds(s.claims, c) && c.ref != ref ==> Holds(t.claims, c))
             && (forall c :: Holds(t.claims, c) && c != t.claims[i] ==> Holds(s.claims, c) && c.ref != ref)
             && ActiveClaim(t.claims[i]) && ref in t.store && Matched(t.store[ref], t.claims[i])
    ensures Consistent(t)
  {
    hide Recoverable, StoreInv;
    RecoverableBinds(t);
    var ref := t.claims[i].ref;
    forall r | r in t.store && Active(t.store[r].status) ensures Served(t, r) {
      if r != ref {
        assert Served(s, r);
        var j :| 0 <= j < |s.claims| && ActiveOn(s.claims[j], r) && s.store[r].status == Expected(s.claims[j]) && HoldsTask(s.store[r], s.claims[j].run);
        assert Holds(s.claims, s.claims[j]);
        var k :| 0 <= k < |t.claims| && t.claims[k] == s.claims[j];
        assert SameTask(s.store[r], t.store[r]);
      }
    }
    forall j | 0 <= j < |t.claims| && ActiveClaim(t.claims[j]) ensures Matched(t.store[t.claims[j].ref], t.claims[j]) {
      assert Holds(t.claims, t.claims[j]);
      if t.claims[j] != t.claims[i] {
        HeldClaimIsMatched(s, t.claims[j]);
        assert SameTask(s.store[t.claims[j].ref], t.store[t.claims[j].ref]);
      }
    }
  }

  lemma NewClaimCompletes(s: Life, ref: Ref, run: RunId, agent: string, now: Time, lease: Time)
    requires ref in s.store && !HasActive(s.claims, ref) && ClaimTask(s.store, ref, run, agent).Ok?
    ensures Complete(s, ClaimOp(ref, run, agent, now, lease, false)) ==
            Life(ClaimTask(s.store, ref, run, agent).value,
                 s.claims + [RunClaim(run, ref, agent, ClaimClaimed, now, Some(now + lease), None)])
  {
    hide ClaimTask;
    var next := ClaimTask(s.store, ref, run, agent).value;
    var claims := s.claims + [RunClaim(run, ref, agent, ClaimClaimed, now, Some(now + lease), None)];
    var plan := [PutStore(next), PutClaims(claims)];
    assert plan[1..] == [PutClaims(claims)];
    ClaimWriteLands(s.(store := next), claims);
  }

  lemma TakingKeepsConsistency(s: Life, ref: Ref, run: RunId, agent: string, now: Time, lease: Time)
    requires Consistent(s) && ref in s.store && !HasActive(s.claims, ref) && ClaimTask(s.store, ref, run, agent).Ok?
    ensures Consistent(Complete(s, ClaimOp(ref, run, agent, now, lease, false)))
  {
    hide Consistent, Recoverable, StoreInv, SlotInv, Complete;
    var t := Complete(s, ClaimOp(ref, run, agent, now, lease, false));
    ConsistentIsRecoverable(s);
    ConsistentStore(s);
    CompletedIsRecoverable(s, ClaimOp(ref, run, agent, now, lease, false));
    NewClaimCompletes(s, ref, run, agent, now, lease);
    TaskInvariants.ClaimedSlot(s.store, ref, run, agent);
    var i := |s.claims|;
    forall c | Holds(t.claims, c) && c != t.claims[i] ensures Holds(s.claims, c) && c.ref != ref {
      var j :| 0 <= j < |t.claims| && t.claims[j] == c;
      assert s.claims[j] == c;
    }
    OneTaskChanged(s, t, i);
  }

  lemma StartLands(s: Life, ref: Ref, run: RunId)
    requires StoreInv(s.store) && ref in s.store && s.store[ref].status == Claimed
    ensures ProperEdits(s.store, StartEdits(s, ref), StartChanges(ref, run)) && CommitEdits(s.store, StartEdits(s, ref), StartChanges(ref, run)).Ok?
  {
    hide StoreInv, CommitEdits, ProjectedDefinition;
    var edits, changes := StartEdits(s, ref), StartChanges(ref, run);
    SingleCommit(s.store, ref, edits[ref], changes);
    LegalChangeLands(s.store[ref], edits[ref], changes[ref]);
  }

  /** Starting a claim replaces one held claim by its started self. */
  lemma StartedClaimsHold(s: Life, i: nat)
    requires Recoverable(s) && i < |s.claims| && ActiveClaim(s.claims[i])
    ensures var after := StartedClaims(s, i);
            && (forall c :: Holds(s.claims, c) && c.ref != s.claims[i].ref ==> Holds(after, c))
            && (forall c :: Holds(after, c) && c != after[i] ==> Holds(s.claims, c) && c.ref != s.claims[i].ref)
  {
    hide StoreInv;
    var after := StartedClaims(s, i);
    forall c | Holds(s.claims, c) && c.ref != s.claims[i].ref ensures Holds(after, c) {
      var j :| 0 <= j < |s.claims| && s.claims[j] == c;
      assert after[j] == c;
    }
    forall c | Holds(after, c) && c != after[i] ensures Holds(s.claims, c) && c.ref != s.claims[i].ref {
      var j :| 0 <= j < |after| && after[j] == c;
      assert s.claims[j] == c && j != i;
    }
  }

  lemma CommittedIsSame(store: Store, edits: map<Ref, Row>, next: Store)
    requires Committed(store, edits, next)
    ensures next.Keys == store.Keys && forall r :: r in store && r !in edits ==> SameTask(store[r], next[r])
  {
    hide SlotInv;
    forall r | r in store && r !in edits ensures SameTask(store[r], next[r]) {
      assert Outcome(store[r], next[r], RowIn(edits, r));
    }
  }

  lemma StartedTaskMatches(s: Life, i: nat, next: Store)
    requires i < |s.claims| && s.claims[i].state == ClaimClaimed && s.claims[i].ref in s.store && Matched(s.store[s.claims[i].ref], s.claims[i])
    requires s.store[s.claims[i].ref].status == Claimed && Committed(s.store, StartEdits(s, s.claims[i].ref), next)
    ensures s.claims[i].ref in next && Matched(next[s.claims[i].ref], StartedClaims(s, i)[i])
  {
    hide SlotInv;
    var ref := s.claims[i].ref;
    assert Outcome(s.store[ref], next[ref], RowIn(StartEdits(s, ref), ref));
  }

  lemma StartingKeepsConsistency(s: Life, i: nat, op: Op)
    requires Consistent(s) && i < |s.claims| && s.claims[i].state == ClaimClaimed && s.claims[i].ref in s.store
    requires op == StartOp(s.claims[i].run, s.claims[i].agent) && FindRun(s.claims, s.claims[i].run) == Some(i)
    ensures Consistent(Complete(s, op))
  {
    hide Consistent, Recoverable, StoreInv, ApplyWrites, CommitEdits, ProperEdits, Committed, ClaimsThenTasks, StartedClaims, StoreWrite;
    var c, ref, run := s.claims[i], s.claims[i].ref, s.claims[i].run;
    var claims := StartedClaims(s, i);
    assert Holds(s.claims, c);
    HeldClaimIsMatched(s, c);
    ConsistentIsRecoverable(s);
    ConsistentStore(s);
    CompletedIsRecoverable(s, op);
    BothCommitsLand(s, claims, StartEdits(s, ref), StartChanges(ref, run));
    StartedClaimsHold(s, i);
    StartedClaimIs(s, i);
    var t := Complete(s, op);
    if s.store[ref].status == Claimed {
      StartLands(s, ref, run);
      CommitOutcome(s.store, StartEdits(s, ref), StartChanges(ref, run));
      CommittedIsSame(s.store, StartEdits(s, ref), t.store);
      StartedTaskMatches(s, i, t.store);
    } else {
      IllegalStartFails(s, ref, run);
      RefusedCommit(s.store, StartEdits(s, ref), StartChanges(ref, run));
    }
    OneTaskChanged(s, t, i);
  }

  lemma RefusedCommit(store: Store, edits: map<Ref, Row>, changes: map<Ref, Change>)
    requires StoreWrite(store, edits, changes) == []
    ensures CommitEdits(store, edits, changes).Err?
  {
    hide CommitEdits;
  }

  lemma StartedClaimIs(s: Life, i: nat)
    requires i < |s.claims|
    ensures var after := StartedClaims(s, i); |after| == |s.claims| && ActiveClaim(after[i]) && after[i].ref == s.claims[i].ref
  {
  }

  /** A task without an active claim changed and is not active; nothing else did. */
  lemma IdleTaskChanged(s: Life, t: Life, ref: Ref)
    requires Consistent(s) && Recoverable(t) && t.claims == s.claims && !HasActive(s.claims, ref)
    requires t.store.Keys == s.store.Keys + {ref} && !Active(t.store[ref].status)
    requires forall r :: r in s.store && r != ref ==> t.store[r] == s.store[r]
    ensures Consistent(t)
  {
    hide Recoverable, StoreInv;
    RecoverableBinds(t);
    ConsistentBinds(s);
    forall r | r in t.store && Active(t.store[r].status) ensures Served(t, r) {
      assert Served(s, r);
    }
  }

  lemma CompensationLands(s: Slot, run: RunId)
    requires s.status == Claimed
    ensures CompensateClaim(s, run).Ok? && CompensateClaim(s, run).value.status == Todo
  {
  }

  lemma CompensatedClaimCompletes(s: Life, ref: Ref, run: RunId, agent: string, now: Time, lease: Time)
    requires StoreInv(s.store) && ref in s.store && !HasActive(s.claims, ref) && ClaimTask(s.store, ref, run, agent).Ok?
    ensures var t := Complete(s, ClaimOp(ref, run, agent, now, lease, true));
            && t.claims == s.claims && t.store.Keys == s.store.Keys && t.store[ref].status == Todo
            && forall r :: r in s.store && r != ref ==> t.store[r] == s.store[r]
  {
    hide StoreInv, SlotInv, CompensateClaim;
    var next := ClaimTask(s.store, ref, run, agent).value;
    TaskInvariants.ClaimedSlot(s.store, ref, run, agent);
    CompensationLands(next[ref], run);
    var undone := next[ref := CompensateClaim(next[ref], run).value];
    var plan := [PutStore(next), PutStore(undone)];
    assert plan[1..] == [PutStore(undone)] && plan[1..][1..] == [];
    assert ApplyWrites(s.(store := next), plan[1..]) == s.(store := undone);
  }

  lemma ClaimKeepsConsistency(s: Life, ref: Ref, run: RunId, agent: string, now: Time, lease: Time, fails: bool)
    requires Consistent(s)
    ensures Consistent(Complete(s, ClaimOp(ref, run, agent, now, lease, fails)))
  {
    hide Consistent, Recoverable, StoreInv, ClaimTask, ApplyWrites, CompensateClaim;
    NoWrites(s);
    if ref in s.store && !HasActive(s.claims, ref) && ClaimTask(s.store, ref, run, agent).Ok? {
      if fails {
        ConsistentStore(s);
        ConsistentIsRecoverable(s);
        CompletedIsRecoverable(s, ClaimOp(ref, run, agent, now, lease, true));
        CompensatedClaimCompletes(s, ref, run, agent, now, lease);
        IdleTaskChanged(s, Complete(s, ClaimOp(ref, run, agent, now, lease, true)), ref);
      } else {
        TakingKeepsConsistency(s, ref, run, agent, now, lease);
      }
    }
  }

  lemma StartKeepsConsistency(s: Life, run: RunId, agent: string)
    requires Consistent(s)
    ensures Consistent(Complete(s, StartOp(run, agent)))
  {
    hide Consistent, ApplyWrites, ClaimsThenTasks, StartEdits, StartChanges;
    NoWrites(s);
    ConsistentBinds(s);
    var i := FindRun(s.claims, run);
    if i.Some? && s.claims[i.value].agent == agent && s.claims[i.value].state == ClaimClaimed {
      StartingKeepsConsistency(s, i.value, StartOp(run, agent));
    }
  }

  lemma CreateKeepsConsistency(s: Life, ref: Ref, spec: Spec)
    requires Consistent(s)
    ensures Consistent(Complete(s, CreateOp(ref, spec)))
  {
    hide Consistent, Recoverable, StoreInv;
    NoWrites(s);
    if CreateTask(s.store, ref, spec).Ok? {
      ConsistentIsRecoverable(s);
      CompletedIsRecoverable(s, CreateOp(ref, spec));
      ConsistentBinds(s);
      var plan := [PutStore(CreateTask(s.store, ref, spec).value)];
      assert plan[1..] == [] && ApplyWrites(s, plan) == s.(store := CreateTask(s.store, ref, spec).value);
      IdleTaskChanged(s, Complete(s, CreateOp(ref, spec)), ref);
    }
  }

  /**
   * Every command that runs to its end keeps claims, tasks and bindings in
   * agreement, except a finish that leaves its active task behind: a success
   * reported before the merge, or a block without a usable reason.
   */
  lemma CompleteKeepsConsistencyExactlyWhen(s: Life, op: Op)
    requires Consistent(s)
    ensures Consistent(Complete(s, op)) <==> !LeavesTaskBehind(s, op)
  {
    hide Consistent, Complete, LeavesTaskBehind;
    if op.FinishOp? {
      FinishKeepsConsistencyExactlyWhen(s, op);
    } else {
      OnlyFinishLeaves(s, op);
      match op
      case ClaimOp(ref, run, agent, now, lease, fails) => ClaimKeepsConsistency(s, ref, run, agent, now, lease, fails);
      case StartOp(run, agent) => StartKeepsConsistency(s, run, agent);
      case ExpireOp(now, block) => ExpireKeepsConsistency(s, now, block);
      case ResetOp(ref) => ResetKeepsConsistency(s, ref);
      case CancelOp(ref, why) => CancelKeepsConsistency(s, ref, why);
      case ExpireRunOp(run) => ExpireRunKeepsConsistency(s, run);
      case MergeOp(ref) => MergeKeepsConsistency(s, ref);
      case UnblockOp(ref, why) => UnblockKeepsConsistency(s, ref, why);
      case SessionResetOp => SessionResetKeepsConsistency(s);
      case ReconcileOp => ConsistentIsRecoverable(s); OnePassRepairs(s);
      case CreateOp(ref, spec) => CreateKeepsConsistency(s, ref, spec);
    }
  }

  lemma OnlyFinishLeaves(s: Life, op: Op)
    requires !op.FinishOp?
    ensures !LeavesTaskBehind(s, op)
  {
  }

  // ----- the exception occurs ------------------------------------------------------------------------

  const EMPTY := Life(map[], [])
  const DemoSpec := Spec("t", "", [], Normal, None, [])
  const DemoClaim := RunClaim(1, 1, "w", ClaimClaimed, 0, Some(10), None)

  /** A task created, claimed and started, each command run to its end. */
  ghost function Created(): Life { Complete(EMPTY, CreateOp(1, DemoSpec)) }
  ghost function Taken(): Life { Complete(Created(), ClaimOp(1, 1, "w", 0, 10, false)) }
  ghost function Working(): Life { Complete(Taken(), StartOp(1, "w")) }

  lemma CreatedIs()
    ensures Created() == Life(map[1 := NewSlot(DemoSpec)], [])
  {
    assert !Blank("t") by { assert "t"[0] == 't'; }
    var next := CreateTask(map[], 1, DemoSpec).value;
    assert next == map[1 := NewSlot(DemoSpec)];
    assert [PutStore(next)][1..] == [];
  }

  lemma TakenIs()
    ensures var t := Taken();
            t.claims == [DemoClaim] && 1 in t.store && t.store[1].status == Claimed && Consistent(Created()) && Consistent(t)
  {
    hide Consistent, RevisionMetadata, StoreInv, SlotInv, Complete;
    EmptyIsConsistent();
    CreateKeepsConsistency(EMPTY, 1, DemoSpec);
    CreatedIs();
    var s := Created();
    ClaimableExactlyWhenReady(s.store, 1, 1, "w");
    ConsistentStore(s);
    NewClaimCompletes(s, 1, 1, "w", 0, 10);
    TaskInvariants.ClaimedSlot(s.store, 1, 1, "w");
    ClaimKeepsConsistency(s, 1, 1, "w", 0, 10, false);
  }

  lemma EmptyIsConsistent()
    ensures Consistent(EMPTY)
  {
  }

  lemma DemoRunIsFound(c: RunClaim)
    requires c.run == 1
    ensures FindRun([c], 1) == Some(0)
  {
    assert [c][..0] == [];
  }

  lemma WorkingIs()
    ensures var w := Working();
            && Consistent(w) && w.claims == [DemoClaim.(state := ClaimInProgress)]
            && 1 in w.store && w.store[1].status == InProgress
  {
    hide Consistent, StoreInv, SlotInv, ApplyWrites, CommitEdits, ClaimsThenTasks, FindRun, Taken;
    TakenIs();
    var t := Taken();
    DemoRunIsFound(DemoClaim);
    ConsistentStore(t);
    StartKeepsConsistency(t, 1, "w");
    StartLands(t, 1, 1);
    BothCommitsLand(t, StartedClaims(t, 0), StartEdits(t, 1), StartChanges(1, 1));
    CommitOutcome(t.store, StartEdits(t, 1), StartChanges(1, 1));
    assert Outcome(t.store[1], CommitEdits(t.store, StartEdits(t, 1), StartChanges(1, 1)).value[1], RowIn(StartEdits(t, 1), 1));
  }

  /**
   * Both ways of leaving a task behind start from a state that commands reach:
   * a success reported before the merge, and a block with a blank reason.
   */
  lemma TasksAreLeftBehind()
    ensures var early, blank := FinishOp(1, "w", true, Counted, None, 0), FinishOp(1, "w", false, BlockPolicy, Some(""), 0);
            && Consistent(Working())
            && LeavesTaskBehind(Working(), early) && !Consistent(Complete(Working(), early))
            && LeavesTaskBehind(Working(), blank) && !Consistent(Complete(Working(), blank))
  {
    hide Consistent, Complete, Working, FindRun;
    var early, blank := FinishOp(1, "w", true, Counted, None, 0), FinishOp(1, "w", false, BlockPolicy, Some(""), 0);
    WorkingIs();
    DemoRunIsFound(DemoClaim.(state := ClaimInProgress));
    FinishKeepsConsistencyExactlyWhen(Working(), early);
    FinishKeepsConsistencyExactlyWhen(Working(), blank);
  }
}
