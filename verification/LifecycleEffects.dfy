/**
 * What each lifecycle command leaves behind when it runs to its end, task by
 * task and claim by claim (lib/claimManager.ts, lib/claimLeaseManager.ts,
 * lib/operatorMutations.ts, lib/sessionState.ts, lib/taskCompletion.ts).
 */
module LifecycleEffects {
  import opened Prelude
  import opened TaskContract
  import opened TaskStore
  import opened TaskInvariants
  import opened ProjectTasks
  import opened Claims
  import opened Reconcile
  import opened Lifecycle
  import opened CrashSafety
  import opened LifecycleConsistency

  // ----- one task in a commit ---------------------------------------------------------------------

  /** A task nobody edited: a commit only turns empty dispatch strings into absent ones. */
  predicate Kept(s: Slot, t: Slot) {
    t == s.(dispatch := s.dispatch.(owner := if s.dispatch.owner == Some("") then None else s.dispatch.owner,
                                    delegatedBy := if s.dispatch.delegatedBy == Some("") then None else s.dispatch.delegatedBy))
  }

  /** How the bindings of a task end when it leaves its run. */
  predicate RunsEnd(before: map<RunId, Binding>, after: map<RunId, Binding>, how: RunState) {
    && after.Keys == before.Keys
    && forall q :: q in before ==>
         after[q] == if before[q].state in {RunClaimed, RunInProgress, RunWorkComplete} then before[q].(state := how) else before[q]
  }

  /** One recorded transition; specs, revisions and earlier entries stay. */
  predicate Moved(s: Slot, t: Slot, to: Status, cause: Cause) {
    && t.status == to && (t.blockedReason.Some? <==> to == Blocked)
    && |t.log| == |s.log| + 1 && t.log[..|s.log|] == s.log
    && t.log[|s.log|].from == s.status && t.log[|s.log|].to == to && t.log[|s.log|].cause == cause
    && t == s.(status := t.status, blockedReason := t.blockedReason, log := t.log, runs := t.runs, attempts := t.attempts, dispatch := t.dispatch)
  }

  /** The task and its bindings end together, for the given cause. */
  predicate Ends(s: Slot, t: Slot, to: Status, cause: Cause, how: RunState) {
    Moved(s, t, to, cause) && (Active(s.status) ==> RunsEnd(s.runs, t.runs, how)) && (!Active(s.status) ==> t.runs == s.runs)
  }

  lemma UneditedIsKept(ref: Ref, s: Slot, change: Option<Change>)
    requires s.revisions != []
    ensures CommitSlot(s, ProjectRow(ref, s), change).Ok? && Kept(s, CommitSlot(s, ProjectRow(ref, s), change).value)
  {
  }

  /** The state a binding takes, cause by cause. */
  lemma BindingsEnd(s: Slot, cause: Cause)
    requires Active(s.status)
    ensures cause == MergeSucceeded ==> RunsEnd(s.runs, MovedRuns(s.runs, s.status, cause), RunFinished)
    ensures cause in {FailureRequeue, FailureBlock} ==> RunsEnd(s.runs, MovedRuns(s.runs, s.status, cause), RunFailed)
    ensures cause in {OperatorReset, Cancel} ==> RunsEnd(s.runs, MovedRuns(s.runs, s.status, cause), RunCancelled)
  {
  }

  function EndedAs(cause: Cause): RunState {
    if cause == MergeSucceeded then RunFinished else if cause == FailureRequeue || cause == FailureBlock then RunFailed else RunCancelled
  }

  /** A row whose status changes for a cause that ends runs. */
  lemma EditedEnds(ref: Ref, s: Slot, row: Row, c: Change)
    requires s.revisions != [] && RuntimeEdit(ref, s, row) && row.status != s.status && c.key.None?
    requires c.cause in {FailureRequeue, FailureBlock, OperatorReset, Cancel, Unblock} && CommitSlot(s, row, Some(c)).Ok?
    ensures var t := CommitSlot(s, row, Some(c)).value;
            && Ends(s, t, row.status, c.cause, EndedAs(c.cause))
            && t.attempts == Or(row.attempts, 0) && t.dispatch.requeueAfter == row.requeueAfter && t.dispatch.owner == row.owner
            && t.dispatch.planning == row.planning && t.dispatch.delegatedBy == row.delegatedBy
            && t.log[|s.log|].run == c.run && (row.status == Blocked ==> t.blockedReason == ChangeReason(row, c))
  {
    hide TriggerAllows, ProjectedDefinition;
    if Active(s.status) { BindingsEnd(s, c.cause); }
    assert c.cause == Unblock ==> s.status == Blocked by { UnblockIsFromBlocked(s, row, c); }
  }

  lemma UnblockIsFromBlocked(s: Slot, row: Row, c: Change)
    requires row.status != s.status && c.key.None? && CommitStatus(s, row, Some(c)).Ok?
    ensures c.cause == Unblock ==> s.status == Blocked
  {
  }

  /** Every task of a commit: unedited ones are kept. */
  lemma OthersAreKept(store: Store, edits: map<Ref, Row>, changes: map<Ref, Change>, r: Ref)
    requires StoreInv(store) && ProperEdits(store, edits, changes) && CommitEdits(store, edits, changes).Ok? && r in store && r !in edits
    ensures r in CommitEdits(store, edits, changes).value && Kept(store[r], CommitEdits(store, edits, changes).value[r])
  {
    hide CommitEdits, CommitSlot, Kept, ProjectRow;
    assert SlotInv(store[r]);
    CommitOutcome(store, edits, changes);
    CommittedSlotIs(store, edits, changes, r);
    UneditedIsKept(r, store[r], ChangeOf(changes, r));
  }

  lemma ProperEdit(store: Store, edits: map<Ref, Row>, changes: map<Ref, Change>, r: Ref)
    requires StoreInv(store) && ProperEdits(store, edits, changes)
    ensures r in edits ==> r in store && store[r].revisions != [] && RuntimeEdit(r, store[r], edits[r])
    ensures r in changes ==> changes[r].key.None? && changes[r].cause != Claim
    ensures forall q :: q in edits ==> edits[q].ref == q
  {
    if r in edits { assert SlotInv(store[r]); }
  }

  lemma TheEditEnds(store: Store, edits: map<Ref, Row>, changes: map<Ref, Change>, r: Ref)
    requires StoreInv(store) && ProperEdits(store, edits, changes) && CommitEdits(store, edits, changes).Ok? && r in edits && r in changes
    requires edits[r].status != store[r].status && changes[r].cause in {FailureRequeue, FailureBlock, OperatorReset, Cancel, Unblock}
    ensures r in CommitEdits(store, edits, changes).value
    ensures var s, t, row := store[r], CommitEdits(store, edits, changes).value[r], edits[r];
            && Ends(s, t, row.status, changes[r].cause, EndedAs(changes[r].cause))
            && t.attempts == Or(row.attempts, 0) && t.dispatch.requeueAfter == row.requeueAfter
            && t.log[|s.log|].run == changes[r].run && (row.status == Blocked ==> t.blockedReason == ChangeReason(row, changes[r]))
  {
    hide CommitEdits, CommitSlot, Ends, EndedAs, StoreInv, ProperEdits, Committed, RuntimeEdit, ChangeReason;
    ProperEdit(store, edits, changes, r);
    CommitOutcome(store, edits, changes);
    CommittedDomain(store, edits, CommitEdits(store, edits, changes).value);
    CommittedSlotIs(store, edits, changes, r);
    EditedEnds(r, store[r], edits[r], changes[r]);
  }

  /** Nothing but this task changed in the store. */
  ghost predicate OnlyTask(s: Life, t: Life, ref: Ref) {
    t.store.Keys == s.store.Keys && forall r :: r in s.store && r != ref ==> Kept(s.store[r], t.store[r])
  }

  lemma OnlyTheEdited(s: Life, t: Life, ref: Ref, edits: map<Ref, Row>, changes: map<Ref, Change>)
    requires StoreInv(s.store) && ProperEdits(s.store, edits, changes) && CommitEdits(s.store, edits, changes).Ok? && edits.Keys == {ref}
    requires t.store == CommitEdits(s.store, edits, changes).value
    ensures OnlyTask(s, t, ref)
  {
    hide CommitEdits, Kept, StoreInv, ProperEdits;
    CommitOutcome(s.store, edits, changes);
    forall r | r in s.store && r != ref ensures Kept(s.store[r], t.store[r]) {
      OthersAreKept(s.store, edits, changes, r);
    }
  }

  /** Exactly the active claims on the task have failed. */
  predicate ClaimsFailed(before: seq<RunClaim>, after: seq<RunClaim>, ref: Ref) {
    && |after| == |before|
    && forall i :: 0 <= i < |before| ==>
         after[i] == if before[i].ref == ref && before[i].state in {ClaimClaimed, ClaimInProgress} then before[i].(state := ClaimFailed) else before[i]
  }

  // ----- operator commands ---------------------------------------------------------------------------

  /**
   * A reset returns the task to todo from any status, without block reason or
   * backoff, fails its active claims and cancels its active binding; nothing else changes.
   */
  lemma ResetEffect(s: Life, ref: Ref)
    requires StoreInv(s.store) && ref in s.store
    ensures var t := Complete(s, ResetOp(ref));
            && OnlyTask(s, t, ref) && ClaimsFailed(s.claims, t.claims, ref)
            && t.store[ref].status == Todo && t.store[ref].blockedReason == None && t.store[ref].dispatch.requeueAfter == None
            && t.store[ref].attempts == s.store[ref].attempts
            && (s.store[ref].status != Todo ==> Ends(s.store[ref], t.store[ref], Todo, OperatorReset, RunCancelled))
  {
    hide StoreInv, ApplyWrites, CommitEdits, ClaimsThenTasks, ProperEdits, Ends, ProjectedDefinition, SlotInv, Kept;
    var claims, edits, changes := DroppedClaims(s, ref), ResetEdits(s, ref), ResetChanges(s, ref);
    ResetLands(s, ref);
    BothCommitsLand(s, claims, edits, changes);
    OnlyTheEdited(s, Complete(s, ResetOp(ref)), ref, edits, changes);
    if s.store[ref].status != Todo {
      TheEditEnds(s.store, edits, changes, ref);
      EndsUnblocked(s.store[ref], Complete(s, ResetOp(ref)).store[ref], Todo, OperatorReset, RunCancelled);
    } else {
      CommitOutcome(s.store, edits, changes);
      assert Outcome(s.store[ref], Complete(s, ResetOp(ref)).store[ref], RowIn(edits, ref));
      SoundTodo(Complete(s, ResetOp(ref)).store[ref]);
    }
  }

  lemma EndsUnblocked(s: Slot, t: Slot, to: Status, cause: Cause, how: RunState)
    requires Ends(s, t, to, cause, how) && to != Blocked
    ensures t.status == to && t.blockedReason == None
  {
  }

  lemma SoundTodo(t: Slot)
    requires SlotInv(t) && t.status != Blocked
    ensures t.blockedReason == None
  {
  }

  /** A cancellation ends an unfinished task and drops its active claims; a terminal task is left alone. */
  lemma CancelEffect(s: Life, ref: Ref, why: Option<string>)
    requires StoreInv(s.store) && ref in s.store
    ensures var t := Complete(s, CancelOp(ref, why));
            if s.store[ref].status in {Done, Released, TaskContract.Cancelled} then t == s
            else && OnlyTask(s, t, ref) && Ends(s.store[ref], t.store[ref], TaskContract.Cancelled, Cancel, RunCancelled)
                 && (forall c :: c in t.claims <==> c in s.claims && !(c.ref == ref && c.state in {ClaimClaimed, ClaimInProgress}))
                 && |t.claims| <= |s.claims|
  {
    hide StoreInv, ApplyWrites, CommitEdits, ClaimsThenTasks, StoreWrite, ProperEdits, Ends, ProjectedDefinition, Kept, RemoveActive;
    NoWrites(s);
    if !TerminalStatus(s.store[ref].status) {
      var edits, changes := CancelEdits(s, ref), map[ref := Change(Cancel, why, None, None)];
      CancelLands(s, ref, why);
      BothCommitsLand(s, RemoveActive(s.claims, ref), edits, changes);
      OneCommitLands(s, edits, changes);
      RemovalKeepsTheOthers(s.claims, ref);
      RemovalShrinks(s.claims, ref);
      OnlyTheEdited(s, Complete(s, CancelOp(ref, why)), ref, edits, changes);
      TheEditEnds(s.store, edits, changes, ref);
    }
  }

  lemma {:induction false} RemovalShrinks(claims: seq<RunClaim>, ref: Ref)
    ensures |RemoveActive(claims, ref)| <= |claims|
    decreases |claims|
  {
    if claims != [] { RemovalShrinks(claims[..|claims| - 1], ref); }
  }

  /** Unblocking returns a blocked task to todo and does nothing to any other. */
  lemma UnblockEffect(s: Life, ref: Ref, why: Option<string>)
    requires StoreInv(s.store) && ref in s.store
    ensures var t := Complete(s, UnblockOp(ref, why));
            if s.store[ref].status != Blocked then t == s
            else && t.claims == s.claims && OnlyTask(s, t, ref) && Ends(s.store[ref], t.store[ref], Todo, Unblock, RunCancelled)
                 && t.store[ref].runs == s.store[ref].runs && t.store[ref].attempts == s.store[ref].attempts
  {
    hide StoreInv, ApplyWrites, CommitEdits, StoreWrite, ProperEdits, ProjectedDefinition, Kept;
    NoWrites(s);
    if s.store[ref].status == Blocked {
      var edits, changes := UnblockEdits(s, ref), map[ref := Change(Unblock, why, None, None)];
      UnblockLands(s, ref, why);
      OneCommitLands(s, edits, changes);
      OnlyTheEdited(s, Complete(s, UnblockOp(ref, why)), ref, edits, changes);
      TheEditEnds(s.store, edits, changes, ref);
    }
  }

  // ----- runs -------------------------------------------------------------------------------------------

  /** Only claim `i` changed, to the given state. */
  predicate OneClaim(before: seq<RunClaim>, after: seq<RunClaim>, i: nat, to: ClaimState) {
    && i < |before| == |after| && after[i] == before[i].(state := to, inputSince := after[i].inputSince)
    && forall j :: 0 <= j < |before| && j != i ==> after[j] == before[j]
  }

  /** A manual expiry fails the run's claim and requeues its active task, without counting an attempt. */
  lemma ExpireRunEffect(s: Life, run: RunId, i: nat)
    requires StoreInv(s.store) && FindRun(s.claims, run) == Some(i) && s.claims[i].ref in s.store
    requires s.claims[i].state in {ClaimClaimed, ClaimInProgress}
    ensures var t, ref := Complete(s, ExpireRunOp(run)), s.claims[i].ref;
            if s.store[ref].status in {Done, Released, TaskContract.Cancelled} then t == s
            else && OneClaim(s.claims, t.claims, i, ClaimFailed)
                 && (Active(s.store[ref].status) ==>
                       && OnlyTask(s, t, ref) && Ends(s.store[ref], t.store[ref], Todo, FailureRequeue, RunFailed)
                       && t.store[ref].attempts == s.store[ref].attempts)
  {
    hide StoreInv, ApplyWrites, CommitEdits, ClaimsThenTasks, ProperEdits, Ends, ProjectedDefinition, Kept, FindRun;
    NoWrites(s);
    var ref := s.claims[i].ref;
    if !TerminalStatus(s.store[ref].status) {
      var edits, changes := RequeueEdits(s, ref), ManualExpiry(ref, run);
      BothCommitsLand(s, FailedClaims(s, i), edits, changes);
      if Active(s.store[ref].status) {
        RequeueLands(s, ref, run);
        OnlyTheEdited(s, Complete(s, ExpireRunOp(run)), ref, edits, changes);
        TheEditEnds(s.store, edits, changes, ref);
      }
    }
  }

  lemma SessionResetEditsAre(s: Life, r: Ref)
    requires r in s.store
    ensures (r in SessionResetEdits(s) <==> Active(s.store[r].status)) && (r in SessionResetChanges(s) <==> Active(s.store[r].status))
    ensures Active(s.store[r].status) ==>
              && SessionResetEdits(s)[r].status == Todo && SessionResetEdits(s)[r].attempts == Some(s.store[r].attempts)
              && SessionResetChanges(s)[r].cause == FailureRequeue
  {
    hide ProjectedDefinition;
  }

  lemma EndedClaimsAre(s: Life)
    ensures var after := EndedClaims(s);
            && |after| == |s.claims|
            && forall i :: 0 <= i < |s.claims| ==>
                 after[i] == if s.claims[i].state in {ClaimClaimed, ClaimInProgress} then s.claims[i].(state := ClaimFailed) else s.claims[i]
  {
  }

  /** A session reset requeues every active task and fails every active claim; nothing else changes. */
  lemma SessionResetEffect(s: Life, r: Ref)
    requires StoreInv(s.store) && r in s.store
    ensures var t := Complete(s, SessionResetOp);
            && t.store.Keys == s.store.Keys
            && (if Active(s.store[r].status) then Ends(s.store[r], t.store[r], Todo, FailureRequeue, RunFailed) && t.store[r].attempts == s.store[r].attempts
                else Kept(s.store[r], t.store[r]))
            && |t.claims| == |s.claims|
            && forall i :: 0 <= i < |s.claims| ==>
                 t.claims[i] == if s.claims[i].state in {ClaimClaimed, ClaimInProgress} then s.claims[i].(state := ClaimFailed) else s.claims[i]
  {
    hide StoreInv, CommitEdits, ProperEdits, Ends, Kept, Complete, Committed, EndedClaims, SessionResetEdits, SessionResetChanges;
    var edits, changes := SessionResetEdits(s), SessionResetChanges(s);
    SessionResetEditsAre(s, r);
    EndedClaimsAre(s);
    SessionResetLands(s);
    SessionResetCompletes(s);
    CommitOutcome(s.store, edits, changes);
    CommittedDomain(s.store, edits, CommitEdits(s.store, edits, changes).value);
    if Active(s.store[r].status) {
      TheEditEnds(s.store, edits, changes, r);
    } else {
      OthersAreKept(s.store, edits, changes, r);
    }
  }

  /** A merge ends with done, preceded by the start when it was not recorded yet. */
  predicate Merges(s: Slot, t: Slot) {
    && t.status == Done && t.blockedReason == None && RunsEnd(s.runs, t.runs, RunFinished)
    && |t.log| == |s.log| + (if s.status == Claimed then 2 else 1) && t.log[..|s.log|] == s.log
    && t.log[|t.log| - 1].cause == MergeSucceeded && t.log[|t.log| - 1].from == InProgress && t.log[|t.log| - 1].to == Done
    && (s.status == Claimed ==> t.log[|s.log|].cause == RunStart && t.log[|s.log|].from == Claimed && t.log[|s.log|].to == InProgress)
    && t == s.(status := t.status, blockedReason := t.blockedReason, log := t.log, runs := t.runs, attempts := t.attempts, dispatch := t.dispatch)
  }

  lemma InProgressMerges(s: Slot, row: Row, c: Change)
    requires s.status == InProgress && c.cause == MergeSucceeded && c.key.None? && row.status == Done
    ensures CommitStatus(s, row, Some(c)).Ok? && Merges(s, CommitStatus(s, row, Some(c)).value)
  {
    BindingsEnd(s, MergeSucceeded);
  }

  lemma ClaimedMerges(s: Slot, row: Row, c: Change)
    requires s.status == Claimed && c.cause == MergeSucceeded && c.key.None? && row.status == Done
    ensures CommitStatus(s, row, Some(c)).Ok? && Merges(s, CommitStatus(s, row, Some(c)).value)
  {
    var started := ApplyTransition(s, TransitionInput(RunStart, InProgress, None, c.run, None)).value;
    InProgressMerges(started, row, c);
    var t := CommitStatus(s, row, Some(c)).value;
    assert t == CommitStatus(started, row, Some(c)).value;
    assert t.log[..|s.log|] == s.log;
  }

  lemma MergeLands(s: Life, ref: Ref)
    requires StoreInv(s.store) && ref in s.store
    ensures var edits, changes := MergeEdits(s, ref), map[ref := Change(MergeSucceeded, None, ActiveRunId(s.store[ref]), None)];
            && ProperEdits(s.store, edits, changes)
            && (Active(s.store[ref].status) ==> CommitEdits(s.store, edits, changes).Ok?)
            && (s.store[ref].status == Todo ==> CommitEdits(s.store, edits, changes).Err?)
  {
    hide StoreInv, CommitEdits, ProjectedDefinition, ProperEdits, Merges;
    var edits, changes := MergeEdits(s, ref), map[ref := Change(MergeSucceeded, None, ActiveRunId(s.store[ref]), None)];
    MergeIsProper(s, ref);
    SingleCommit(s.store, ref, edits[ref], changes);
    if s.store[ref].status == Claimed { ClaimedMerges(s.store[ref], edits[ref], changes[ref]); }
    if s.store[ref].status == InProgress { InProgressMerges(s.store[ref], edits[ref], changes[ref]); }
  }

  lemma MergedSlot(ref: Ref, s: Slot, row: Row, c: Change)
    requires s.revisions != [] && RuntimeEdit(ref, s, row) && Active(s.status) && row.status == Done
    requires c.cause == MergeSucceeded && c.key.None? && CommitSlot(s, row, Some(c)).Ok?
    ensures Merges(s, CommitSlot(s, row, Some(c)).value) && CommitSlot(s, row, Some(c)).value.attempts == Or(row.attempts, 0)
  {
    hide CommitStatus;
    EditedRow(ref, s, row, Some(c));
    if s.status == Claimed { ClaimedMerges(s, row, c); } else { InProgressMerges(s, row, c); }
  }

  /** The merge confirmation makes an active task done and finishes its binding; any other task is left alone. */
  lemma MergeEffect(s: Life, ref: Ref)
    requires StoreInv(s.store) && ref in s.store
    ensures var t := Complete(s, MergeOp(ref));
            if !Active(s.store[ref].status) then t == s
            else t.claims == s.claims && OnlyTask(s, t, ref) && Merges(s.store[ref], t.store[ref]) && t.store[ref].attempts == s.store[ref].attempts
  {
    hide StoreInv, ApplyWrites, CommitEdits, StoreWrite, ProperEdits, ProjectedDefinition, Kept, Merges, CommitSlot;
    NoWrites(s);
    var edits, changes := MergeEdits(s, ref), map[ref := Change(MergeSucceeded, None, ActiveRunId(s.store[ref]), None)];
    MergeLands(s, ref);
    OneCommitLands(s, edits, changes);
    if Active(s.store[ref].status) {
      OnlyTheEdited(s, Complete(s, MergeOp(ref)), ref, edits, changes);
      ProperEdit(s.store, edits, changes, ref);
      CommittedSlotIs(s.store, edits, changes, ref);
      MergedSlot(ref, s.store[ref], edits[ref], changes[ref]);
    }
  }

  // ----- claiming, starting, finishing ------------------------------------------------------------------

  /**
   * A claim is recorded when the store accepts it: the task is claimed and
   * bound to its latest revision, and the claim holds until the lease ends.
   */
  lemma ClaimEffect(s: Life, ref: Ref, run: RunId, agent: string, now: Time, lease: Time)
    requires StoreInv(s.store) && ref in s.store && ClaimTask(s.store, ref, run, agent).Ok?
    requires forall i :: 0 <= i < |s.claims| && s.claims[i].ref == ref ==> s.claims[i].state !in {ClaimClaimed, ClaimInProgress}
    ensures var t := Complete(s, ClaimOp(ref, run, agent, now, lease, false));
            && t.claims == s.claims + [RunClaim(run, ref, agent, ClaimClaimed, now, Some(now + lease), None)]
            && ref in t.store && t.store == s.store[ref := t.store[ref]]
            && Moved(s.store[ref], t.store[ref], Claimed, Claim) && t.store[ref].attempts == s.store[ref].attempts
            && t.store[ref].runs == s.store[ref].runs[run := Binding(|s.store[ref].revisions|, Some(agent), RunClaimed)]
  {
    hide StoreInv, ApplyWrites, SlotInv, Waiting;
    assert !HasActive(s.claims, ref);
    NewClaimCompletes(s, ref, run, agent, now, lease);
    ClaimedSlotIs(s.store, ref, run, agent);
  }

  lemma ClaimedSlotIs(store: Store, ref: Ref, run: RunId, agent: string)
    requires StoreInv(store) && ClaimTask(store, ref, run, agent).Ok?
    ensures var next := ClaimTask(store, ref, run, agent).value;
            && ref in next && next == store[ref := next[ref]]
            && Moved(store[ref], next[ref], Claimed, Claim) && next[ref].attempts == store[ref].attempts
            && next[ref].runs == store[ref].runs[run := Binding(|store[ref].revisions|, Some(agent), RunClaimed)]
  {
    hide Waiting, LogChain;
    assert SlotInv(store[ref]);
    TodoHasNothingToClose(store[ref]);
  }

  /** A start moves the claim, its claimed task and its binding to in progress together. */
  lemma StartEffect(s: Life, run: RunId, agent: string, i: nat)
    requires StoreInv(s.store) && FindRun(s.claims, run) == Some(i) && s.claims[i].ref in s.store
    ensures var t, c, ref := Complete(s, StartOp(run, agent)), s.claims[i], s.claims[i].ref;
            if c.agent != agent || c.state != ClaimClaimed then t == s
            else && OneClaim(s.claims, t.claims, i, ClaimInProgress)
                 && (s.store[ref].status == Claimed ==>
                       && OnlyTask(s, t, ref) && Moved(s.store[ref], t.store[ref], InProgress, RunStart) && t.store[ref].attempts == s.store[ref].attempts
                       && t.store[ref].runs.Keys == s.store[ref].runs.Keys
                       && forall q :: q in s.store[ref].runs ==>
                            t.store[ref].runs[q] == if s.store[ref].runs[q].state == RunClaimed then s.store[ref].runs[q].(state := RunInProgress) else s.store[ref].runs[q])
                 && (s.store[ref].status !in {Claimed, InProgress} ==> t.store == s.store)
  {
    hide StoreInv, ApplyWrites, CommitEdits, ClaimsThenTasks, ProperEdits, ProjectedDefinition, Kept, FindRun, CommitSlot, StoreWrite, Moved;
    NoWrites(s);
    var ref := s.claims[i].ref;
    var edits, changes := StartEdits(s, ref), StartChanges(ref, run);
    BothCommitsLand(s, StartedClaims(s, i), edits, changes);
    if s.claims[i].agent == agent && s.claims[i].state == ClaimClaimed {
      if s.store[ref].status == Claimed {
        StartLands(s, ref, run);
        OnlyTheEdited(s, Complete(s, StartOp(run, agent)), ref, edits, changes);
        ProperEdit(s.store, edits, changes, ref);
        CommittedSlotIs(s.store, edits, changes, ref);
        StartedSlot(ref, s.store[ref], edits[ref], changes[ref]);
      } else if s.store[ref].status != InProgress {
        IllegalStartFails(s, ref, run);
        RefusedCommit(s.store, edits, changes);
      }
    }
  }

  lemma StartedSlot(ref: Ref, s: Slot, row: Row, c: Change)
    requires s.revisions != [] && RuntimeEdit(ref, s, row) && s.status == Claimed && row.status == InProgress
    requires c.cause == RunStart && c.key.None? && CommitSlot(s, row, Some(c)).Ok?
    ensures var t := CommitSlot(s, row, Some(c)).value;
            && Moved(s, t, InProgress, RunStart) && t.attempts == Or(row.attempts, 0) && t.runs.Keys == s.runs.Keys
            && forall q :: q in s.runs ==> t.runs[q] == if s.runs[q].state == RunClaimed then s.runs[q].(state := RunInProgress) else s.runs[q]
  {
    hide ProjectedDefinition;
  }

  /** A finished run's claim is terminal; a success leaves the tasks to the merge. */
  lemma SuccessEffect(s: Life, op: Op, i: nat)
    requires StoreInv(s.store) && op.FinishOp? && op.success && FindRun(s.claims, op.run) == Some(i)
    ensures var t := Complete(s, op);
            if s.claims[i].agent != op.agent || s.claims[i].state in {ClaimDone, ClaimFailed} then t == s
            else OneClaim(s.claims, t.claims, i, ClaimDone) && t.claims[i].inputSince == None
                 && t.store.Keys == s.store.Keys && forall r :: r in s.store ==> t.store[r] == s.store[r] || Kept(s.store[r], t.store[r])
  {
    hide StoreInv, ApplyWrites, CommitEdits, ClaimsThenTasks, Kept, FindRun, Committed, ProperEdits;
    NoWrites(s);
    var claims := FinishedClaims(s, i, true);
    ClaimWriteLands(s, claims);
    BothCommitsLand(s, claims, map[], map[]);
    EmptyCommit(s.store);
    CommittedDomain(s.store, map[], CommitEdits(s.store, map[], map[]).value);
    forall r | r in s.store ensures Kept(s.store[r], CommitEdits(s.store, map[], map[]).value[r]) {
      OthersAreKept(s.store, map[], map[], r);
    }
  }

  /** What a failed run does to its task. */
  predicate TaskFails(s: Slot, t: Slot, f: Failure, why: Option<string>, at: Time) {
    match f
    case BlockPolicy => Ends(s, t, Blocked, FailureBlock, RunFailed) && t.attempts == s.attempts && t.blockedReason == (if why.Some? then why else Some("run failed with block policy"))
    case Infrastructure => Ends(s, t, Todo, FailureRequeue, RunFailed) && t.attempts == s.attempts && t.dispatch.requeueAfter == s.dispatch.requeueAfter
    case Counted =>
      && t.attempts == s.attempts + 1
      && if t.attempts >= 5 then Ends(s, t, Blocked, FailureBlock, RunFailed)
         else Ends(s, t, Todo, FailureRequeue, RunFailed) && t.dispatch.requeueAfter == Some(at + RequeueBackoff(t.attempts))
  }

  lemma FinishedClaimIs(s: Life, i: nat, success: bool)
    requires i < |s.claims|
    ensures OneClaim(s.claims, FinishedClaims(s, i, success), i, if success then ClaimDone else ClaimFailed)
    ensures FinishedClaims(s, i, success)[i].inputSince == None
  {
  }

  /** A block without a usable reason is refused by the task store. */
  predicate BlankBlock(op: Op) {
    op.FinishOp? && op.failure == BlockPolicy && op.why.Some? && Blank(op.why.value)
  }

  /** The task of a run that failed while it held the task. */
  lemma FailedRunEffect(s: Life, op: Op, i: nat)
    requires StoreInv(s.store) && op.FinishOp? && !op.success && FindRun(s.claims, op.run) == Some(i) && s.claims[i].ref in s.store
    requires s.claims[i].agent == op.agent && s.claims[i].state in {ClaimClaimed, ClaimInProgress} && Active(s.store[s.claims[i].ref].status)
    ensures var t, ref := Complete(s, op), s.claims[i].ref;
            && t.claims == FinishedClaims(s, i, false)
            && (if BlankBlock(op) then t.store == s.store
                else && OnlyTask(s, t, ref) && TaskFails(s.store[ref], t.store[ref], op.failure, op.why, op.now)
                     && |t.store[ref].log| == |s.store[ref].log| + 1 && t.store[ref].log[|s.store[ref].log|].run == Some(op.run))
  {
    hide StoreInv, ApplyWrites, CommitEdits, ClaimsThenTasks, ProperEdits, FindRun, TaskFails, FailureEdits, FailureChanges, OnlyTask,
      FinishedClaims, Blank;
    var ref, claims := s.claims[i].ref, FinishedClaims(s, i, false);
    var edits := FailureEdits(s, ref, op.failure, op.now);
    var changes := FailureChanges(s, ref, op.failure, op.now, op.run, op.why);
    BothCommitsLand(s, claims, edits, changes);
    FailureLands(s, ref, op.failure, op.now, op.run, op.why);
    if CommitEdits(s.store, edits, changes).Ok? {
      FailedTask(s, ref, op);
      FailureEditsLeave(s, ref, op.failure, op.now, op.run, op.why);
      FailureEditsAre(s, ref, op.failure, op.now);
      OnlyTheEdited(s, Life(CommitEdits(s.store, edits, changes).value, claims), ref, edits, changes);
      SameStore(s, Life(CommitEdits(s.store, edits, changes).value, claims), Complete(s, op), ref);
    }
  }

  lemma SameStore(s: Life, t: Life, u: Life, ref: Ref)
    requires OnlyTask(s, t, ref) && u.store == t.store
    ensures OnlyTask(s, u, ref)
  {
  }

  lemma OnlyTaskKnows(s: Life, t: Life, ref: Ref)
    requires OnlyTask(s, t, ref)
    ensures t.store.Keys == s.store.Keys
  {
  }

  /** A failed run's claim fails; its task, if the run still holds it, is blocked or requeued as the failure says. */
  lemma FailureEffect(s: Life, op: Op, i: nat)
    requires StoreInv(s.store) && op.FinishOp? && !op.success && FindRun(s.claims, op.run) == Some(i) && s.claims[i].ref in s.store
    ensures var t, ref := Complete(s, op), s.claims[i].ref;
            if s.claims[i].agent != op.agent || s.claims[i].state in {ClaimDone, ClaimFailed} then t == s
            else && OneClaim(s.claims, t.claims, i, ClaimFailed) && t.claims[i].inputSince == None
                 && (if !Active(s.store[ref].status) || BlankBlock(op) then t.store == s.store
                     else && OnlyTask(s, t, ref) && ref in t.store && TaskFails(s.store[ref], t.store[ref], op.failure, op.why, op.now)
                          && |t.store[ref].log| == |s.store[ref].log| + 1 && t.store[ref].log[|s.store[ref].log|].run == Some(op.run))
  {
    hide StoreInv, ApplyWrites, ClaimsThenTasks, FindRun, TaskFails, FailureEdits, FailureChanges, OnlyTask, OneClaim, FinishedClaims, BlankBlock;
    NoWrites(s);
    FinishedClaimIs(s, i, false);
    if s.claims[i].agent == op.agent && ActiveClaim(s.claims[i]) {
      if Active(s.store[s.claims[i].ref].status) {
        FailedRunEffect(s, op, i);
        if !BlankBlock(op) { OnlyTaskKnows(s, Complete(s, op), s.claims[i].ref); }
      } else {
        ClaimWriteLands(s, FinishedClaims(s, i, false));
      }
    }
  }

  lemma FailureEditsAre(s: Life, ref: Ref, f: Failure, at: Time)
    requires ref in s.store
    ensures FailureEdits(s, ref, f, at).Keys == {ref}
  {
    hide FailedRow;
  }

  /** A committed failure row is the failure of the task. */
  lemma FailedRowFails(ref: Ref, s: Slot, t: Slot, f: Failure, run: RunId, why: Option<string>, at: Time)
    requires Active(s.status) && s.blockedReason.None? && (f == BlockPolicy ==> why.Some?)
    requires var row := FailedRow(ProjectRow(ref, s), f, at);
             var c := FailureChange(row, run, why);
             && Ends(s, t, row.status, c.cause, EndedAs(c.cause)) && t.attempts == Or(row.attempts, 0)
             && t.dispatch.requeueAfter == row.requeueAfter && (row.status == Blocked ==> t.blockedReason == ChangeReason(row, c))
    ensures TaskFails(s, t, f, why, at)
  {
    hide ProjectedDefinition, RequeueBackoff, Ends;
  }

  lemma FailedTask(s: Life, ref: Ref, op: Op)
    requires StoreInv(s.store) && ref in s.store && Active(s.store[ref].status) && op.FinishOp?
    requires CommitEdits(s.store, FailureEdits(s, ref, op.failure, op.now), FailureChanges(s, ref, op.failure, op.now, op.run, op.why)).Ok?
    ensures var next := CommitEdits(s.store, FailureEdits(s, ref, op.failure, op.now), FailureChanges(s, ref, op.failure, op.now, op.run, op.why)).value;
            && ref in next && TaskFails(s.store[ref], next[ref], op.failure, op.why, op.now)
            && |next[ref].log| == |s.store[ref].log| + 1 && next[ref].log[|s.store[ref].log|].run == Some(op.run)
  {
    hide StoreInv, CommitEdits, ProperEdits, ProjectedDefinition, RequeueBackoff, RunsEnd, TaskFails;
    var edits := FailureEdits(s, ref, op.failure, op.now);
    var changes := FailureChanges(s, ref, op.failure, op.now, op.run, op.why);
    FailureEditsLeave(s, ref, op.failure, op.now, op.run, op.why);
    ActiveHasNoReason(s.store, ref);
    TheEditEnds(s.store, edits, changes, ref);
    var t := CommitEdits(s.store, edits, changes).value[ref];
    FailedRowFails(ref, s.store[ref], t, op.failure, op.run, BlockReason(op.failure, op.why), op.now);
    SameReason(s.store[ref], t, op.failure, op.why, op.now);
  }

  lemma SameReason(s: Slot, t: Slot, f: Failure, why: Option<string>, at: Time)
    requires TaskFails(s, t, f, BlockReason(f, why), at)
    ensures TaskFails(s, t, f, why, at)
  {
    hide Ends, RequeueBackoff;
  }

  // ----- leases -------------------------------------------------------------------------------------------

  /** An active run of an unfinished task whose input wait (one hour) or lease is over. */
  predicate Stale(store: Store, c: RunClaim, now: Time) {
    && c.state in {ClaimClaimed, ClaimInProgress}
    && !(c.ref in store && store[c.ref].status in {Done, Released})
    && (if c.inputSince.Some? then c.inputSince.value + 3600000 <= now else c.leaseUntil.Some? && c.leaseUntil.value <= now)
  }

  /** The code an expiry records. */
  function ExpiryCode(c: RunClaim): string {
    if c.inputSince.Some? then "ERR_INPUT_TIMEOUT" else "ERR_LEASE_EXPIRED"
  }

  lemma StaleIsExpiry(store: Store, c: RunClaim, now: Time)
    ensures Stale(store, c, now) <==> Expires(store, c, now)
  {
  }

  lemma {:induction false} FirstExpiredIsStale(store: Store, claims: seq<RunClaim>, ref: Ref, now: Time)
    requires FirstExpired(store, claims, ref, now).Some?
    ensures var c := FirstExpired(store, claims, ref, now).value; c in claims && c.ref == ref && Stale(store, c, now)
    decreases |claims|
  {
    hide Expires, Stale;
    var init, last := claims[..|claims| - 1], claims[|claims| - 1];
    StaleIsExpiry(store, last, now);
    if FirstExpired(store, init, ref, now).Some? { FirstExpiredIsStale(store, init, ref, now); }
  }

  predicate StaleFailed(s: Life, after: seq<RunClaim>, now: Time) {
    && |after| == |s.claims|
    && forall i :: 0 <= i < |s.claims| ==>
         after[i] == if Stale(s.store, s.claims[i], now) then s.claims[i].(state := ClaimFailed, inputSince := None) else s.claims[i]
  }

  lemma ExpiredClaimsAre(s: Life, now: Time)
    ensures StaleFailed(s, ExpiredClaims(s, now), now)
  {
    hide Expires, Stale;
    forall i | 0 <= i < |s.claims| ensures Stale(s.store, s.claims[i], now) <==> Expires(s.store, s.claims[i], now) {
      StaleIsExpiry(s.store, s.claims[i], now);
    }
  }

  lemma NothingStale(s: Life, now: Time)
    requires forall i :: 0 <= i < |s.claims| ==> !Expires(s.store, s.claims[i], now)
    ensures StaleFailed(s, s.claims, now)
  {
    hide Expires, Stale;
    forall i | 0 <= i < |s.claims| ensures !Stale(s.store, s.claims[i], now) {
      StaleIsExpiry(s.store, s.claims[i], now);
    }
  }

  /** Exactly the stale claims fail. */
  lemma ExpireClaimsEffect(s: Life, now: Time, block: bool)
    ensures StaleFailed(s, Complete(s, ExpireOp(now, block)).claims, now)
  {
    hide ApplyWrites, ClaimsThenTasks, Expires, Stale, ExpireEdits, ExpireChanges, StaleFailed, ExpiredClaims;
    NoWrites(s);
    var f := if block then BlockPolicy else Counted;
    if forall i :: 0 <= i < |s.claims| ==> !Expires(s.store, s.claims[i], now) {
      NothingStale(s, now);
    } else {
      ExpiredClaimsAre(s, now);
      BothCommitsLand(s, ExpiredClaims(s, now), ExpireEdits(s, now, f), ExpireChanges(s, now, f));
    }
  }

  predicate HasStale(s: Life, ref: Ref, now: Time) {
    exists i :: 0 <= i < |s.claims| && s.claims[i].ref == ref && Stale(s.store, s.claims[i], now)
  }

  /** An active task with a stale claim fails once, for one of its stale runs; every other task is kept. */
  ghost predicate ExpiredFor(s: Life, slot: Slot, r: Ref, f: Failure, now: Time)
    requires r in s.store
  {
    exists c :: c in s.claims && c.ref == r && Stale(s.store, c, now) && TaskFails(s.store[r], slot, f, Some(ExpiryCode(c)), now)
                && |slot.log| == |s.store[r].log| + 1 && slot.log[|s.store[r].log|].run == Some(c.run)
  }

  lemma ExpireEditsAt(s: Life, r: Ref, f: Failure, now: Time, c: RunClaim)
    requires r in ExpiredTasks(s, now) && FirstExpired(s.store, s.claims, r, now) == Some(c)
    ensures r in ExpireEdits(s, now, f) && r in ExpireChanges(s, now, f)
    ensures ExpireEdits(s, now, f)[r] == FailedRow(ProjectRow(r, s.store[r]), f, now)
    ensures ExpireChanges(s, now, f)[r] == FailureChange(ExpireEdits(s, now, f)[r], c.run, Some(ExpiryCode(c)))
  {
    hide FailedRow, ProjectRow, FailureChange, FirstExpired, ExpiredOn;
  }

  lemma FailedRowKeepsRef(ref: Ref, s: Slot, f: Failure, at: Time)
    ensures FailedRow(ProjectRow(ref, s), f, at).ref == ref
  {
    hide ProjectedDefinition, RequeueBackoff;
  }

  lemma ExpiredTaskIsActive(s: Life, r: Ref, now: Time)
    requires r in ExpiredTasks(s, now)
    ensures r in s.store && Active(s.store[r].status) && FirstExpired(s.store, s.claims, r, now).Some?
  {
    hide Expires;
  }

  lemma ExpiredSlot(s: Life, r: Ref, f: Failure, now: Time)
    requires StoreInv(s.store) && r in ExpiredTasks(s, now) && f != Infrastructure
    requires CommitEdits(s.store, ExpireEdits(s, now, f), ExpireChanges(s, now, f)).Ok?
    ensures r in CommitEdits(s.store, ExpireEdits(s, now, f), ExpireChanges(s, now, f)).value
    ensures ExpiredFor(s, CommitEdits(s.store, ExpireEdits(s, now, f), ExpireChanges(s, now, f)).value[r], r, f, now)
  {
    hide StoreInv, CommitEdits, ProperEdits, FailedRow, FailureChange, FirstExpired, Stale, TaskFails, Ends, EndedAs, ChangeReason, ExpiredTasks,
      ExpireEdits, ExpireChanges, ProjectRow;
    var edits, changes := ExpireEdits(s, now, f), ExpireChanges(s, now, f);
    ExpireEditsLeave(s, now, f);
    ExpiredTaskIsActive(s, r, now);
    ActiveHasNoReason(s.store, r);
    FirstExpiredIsStale(s.store, s.claims, r, now);
    var c := FirstExpired(s.store, s.claims, r, now).value;
    ExpireEditsAt(s, r, f, now, c);
    FailedRowKeepsRef(r, s.store[r], f, now);
    FailureCauses(edits[r], c.run, Some(ExpiryCode(c)), s.store[r], f, now);
    TheEditEnds(s.store, edits, changes, r);
    var t := CommitEdits(s.store, edits, changes).value[r];
    EndsGrows(s.store[r], t, edits[r].status, changes[r].cause, EndedAs(changes[r].cause));
    FailedRowFails(r, s.store[r], t, f, c.run, Some(ExpiryCode(c)), now);
  }

  lemma EndsGrows(s: Slot, t: Slot, to: Status, cause: Cause, how: RunState)
    requires Ends(s, t, to, cause, how)
    ensures |t.log| == |s.log| + 1
  {
  }

  lemma FailureCauses(row: Row, run: RunId, why: Option<string>, s: Slot, f: Failure, at: Time)
    requires Active(s.status) && row == FailedRow(ProjectRow(row.ref, s), f, at)
    ensures FailureChange(row, run, why).cause in {FailureRequeue, FailureBlock} && FailureChange(row, run, why).run == Some(run)
    ensures row.status != s.status
  {
    hide ProjectedDefinition, RequeueBackoff;
  }

  lemma ExpireTaskEffect(s: Life, now: Time, block: bool, r: Ref)
    requires StoreInv(s.store) && r in s.store
    ensures var t, f := Complete(s, ExpireOp(now, block)), if block then BlockPolicy else Counted;
            && t.store.Keys == s.store.Keys
            && if Active(s.store[r].status) && HasStale(s, r, now) then ExpiredFor(s, t.store[r], r, f, now)
               else t.store[r] == s.store[r] || Kept(s.store[r], t.store[r])
  {
    hide StoreInv, ApplyWrites, ClaimsThenTasks, CommitEdits, ProperEdits, Expires, Stale, ExpireEdits, ExpireChanges, ExpiredFor, Kept, Committed,
      ExpiredClaims;
    NoWrites(s);
    var f := if block then BlockPolicy else Counted;
    var edits, changes := ExpireEdits(s, now, f), ExpireChanges(s, now, f);
    forall i | 0 <= i < |s.claims| ensures Stale(s.store, s.claims[i], now) <==> Expires(s.store, s.claims[i], now) {
      StaleIsExpiry(s.store, s.claims[i], now);
    }
    ExpireLands(s, now, f);
    ExpireEditsLeave(s, now, f);
    BothCommitsLand(s, ExpiredClaims(s, now), edits, changes);
    CommitOutcome(s.store, edits, changes);
    CommittedDomain(s.store, edits, CommitEdits(s.store, edits, changes).value);
    if r in ExpiredTasks(s, now) {
      ExpiredSlot(s, r, f, now);
    } else {
      NotAnEdit(s, now, f, r);
      OthersAreKept(s.store, edits, changes, r);
    }
  }

  lemma NotAnEdit(s: Life, now: Time, f: Failure, r: Ref)
    requires r !in ExpiredTasks(s, now)
    ensures r !in ExpireEdits(s, now, f)
  {
    hide ExpiredRow, ExpiredTasks;
  }

  // ----- reconciling ----------------------------------------------------------------------------------------

  /** A pass over a consistent state changes nothing: no claim is failed and no task requeued without cause. */
  lemma ConsistentIsLeftAlone(s: Life)
    requires Consistent(s)
    ensures Complete(s, ReconcileOp) == s
  {
    hide Recoverable, StoreInv, Winner, ApplyWrites, ProjectRow, SlotInv;
    ConsistentIsRecoverable(s);
    forall r | r in s.store ensures StatusFor(Project, s.store[r].status, Winner(s.claims, r)) == s.store[r].status {
      SettledTask(s, r);
    }
    assert |ReconcileEdits(s)| == 0 by { assert ReconcileEdits(s) == map[]; }
    var out := RepairedClaims(Project, Statuses(s.store), s.claims);
    forall i | 0 <= i < |s.claims| ensures out[i] == s.claims[i] {
      SettledClaim(s, i);
    }
    assert out == s.claims;
    assert PlanReconcile(s) == [] by { var nothing: seq<Write> := []; assert nothing + nothing == []; }
    NoWrites(s);
  }

  lemma SettledClaim(s: Life, i: nat)
    requires Consistent(s) && i < |s.claims|
    ensures RepairedClaim(Project, Statuses(s.store), s.claims, s.claims[i]) == s.claims[i]
  {
    hide StoreInv, Winner, SlotInv;
    if ActiveClaim(s.claims[i]) {
      assert Bound(s.store, s.claims[i]);
      WinnerIsTheActiveClaim(s, i);
    }
  }

  lemma SettledTask(s: Life, r: Ref)
    requires Consistent(s) && r in s.store
    ensures StatusFor(Project, s.store[r].status, Winner(s.claims, r)) == s.store[r].status
  {
    hide StoreInv, SlotInv;
    var w := Winner(s.claims, r);
    if w.Some? {
      var i :| 0 <= i < |s.claims| && s.claims[i] == w.value;
      assert Matched(s.store[r], s.claims[i]);
    }
  }

  // ----- the order of the commits -----------------------------------------------------------------------------

  /** The claims are committed before the tasks. */
  predicate ClaimsFirst(ws: seq<Write>) {
    forall i, j :: 0 <= i < j < |ws| && ws[j].PutClaims? ==> ws[i].PutClaims?
  }

  /** The tasks are committed before the claims. */
  predicate TasksFirst(ws: seq<Write>) {
    forall i, j :: 0 <= i < j < |ws| && ws[j].PutStore? ==> ws[i].PutStore?
  }

  lemma WritesShape(s: Life)
    ensures forall edits, changes :: var ws := StoreWrite(s.store, edits, changes); ws == [] || (|ws| == 1 && ws[0].PutStore?)
  {
    hide StoreWrite;
    forall edits, changes ensures var ws := StoreWrite(s.store, edits, changes); ws == [] || (|ws| == 1 && ws[0].PutStore?) {
      StoreWriteShape(s.store, edits, changes);
    }
  }

  lemma PairIsClaimsFirst(s: Life, claims: seq<RunClaim>, edits: map<Ref, Row>, changes: map<Ref, Change>)
    ensures ClaimsFirst(ClaimsThenTasks(s, claims, edits, changes)) && ClaimsFirst(StoreWrite(s.store, edits, changes))
  {
    hide StoreWrite;
    StoreWriteShape(s.store, edits, changes);
  }

  lemma ShortIsClaimsFirst(ws: seq<Write>)
    requires |ws| <= 1
    ensures ClaimsFirst(ws)
  {
  }

  /** Runs and operator commands commit the claims first. */
  lemma ClaimsCommitFirst(s: Life, op: Op)
    requires op.StartOp? || op.FinishOp? || op.ExpireOp? || op.ResetOp? || op.CancelOp? || op.ExpireRunOp?
    ensures ClaimsFirst(Plan(s, op))
  {
    hide StoreWrite, ClaimsThenTasks, FindRun, ClaimsFirst, Expires, FailureEdits, FailureChanges, ExpireEdits, ExpireChanges, ExpiredClaims,
      ResetEdits, ResetChanges, DroppedClaims, CancelEdits, RemoveActive, StartEdits, RequeueEdits;
    forall ws: seq<Write> | |ws| <= 1 ensures ClaimsFirst(ws) { ShortIsClaimsFirst(ws); }
    forall claims, edits, changes ensures ClaimsFirst(ClaimsThenTasks(s, claims, edits, changes)) { PairIsClaimsFirst(s, claims, edits, changes); }
    forall edits, changes ensures ClaimsFirst(StoreWrite(s.store, edits, changes)) { PairIsClaimsFirst(s, [], edits, changes); }
  }

  /** Claiming, session resets and repairs commit the tasks first; merges, unblocks and creations write only tasks. */
  lemma TasksCommitFirst(s: Life, op: Op)
    requires op.ClaimOp? || op.SessionResetOp? || op.ReconcileOp? || op.MergeOp? || op.UnblockOp? || op.CreateOp?
    ensures TasksFirst(Plan(s, op))
    ensures op.MergeOp? || op.UnblockOp? || op.CreateOp? ==> forall i :: 0 <= i < |Plan(s, op)| ==> Plan(s, op)[i].PutStore?
  {
    hide StoreWrite, RepairedClaims, ReconcileEdits, ReconcileChanges, ClaimTask, CreateTask, SessionResetEdits, SessionResetChanges, EndedClaims,
      MergeEdits, UnblockEdits;
    WritesShape(s);
  }

  // ----- commands that change nothing, and claims taken back -----------------------------------------------------

  /** A command about an unknown task or an unknown run changes nothing. */
  lemma UnknownChangesNothing(s: Life, op: Op)
    requires || ((op.ResetOp? || op.CancelOp? || op.UnblockOp? || op.MergeOp? || op.ClaimOp?) && op.ref !in s.store)
             || ((op.StartOp? || op.FinishOp? || op.ExpireRunOp?) && forall i :: 0 <= i < |s.claims| ==> s.claims[i].run != op.run)
    ensures Complete(s, op) == s
  {
    hide ApplyWrites, ClaimsThenTasks, StoreWrite;
    NoWrites(s);
  }

  /** A claim is refused, and nothing changes, when the task has an active claim or the store refuses it. */
  lemma RefusedClaimChangesNothing(s: Life, op: Op)
    requires op.ClaimOp? && op.ref in s.store
    requires (exists i :: 0 <= i < |s.claims| && s.claims[i].ref == op.ref && s.claims[i].state in {ClaimClaimed, ClaimInProgress})
             || ClaimTask(s.store, op.ref, op.run, op.agent).Err?
    ensures Complete(s, op) == s
  {
    hide ApplyWrites, ClaimTask;
    NoWrites(s);
  }

  /** A claim whose record fails is taken back: the task is todo again, its binding failed, and no attempt is counted. */
  lemma TakenBackEffect(s: Life, op: Op)
    requires StoreInv(s.store) && op.ClaimOp? && op.secondCommitFails && op.ref in s.store
    requires !HasActive(s.claims, op.ref) && ClaimTask(s.store, op.ref, op.run, op.agent).Ok?
    ensures var t := Complete(s, op);
            && t.claims == s.claims && op.ref in t.store && t.store == s.store[op.ref := t.store[op.ref]]
            && var was, now := s.store[op.ref], t.store[op.ref];
               && now.status == Todo && now.attempts == was.attempts && now.dispatch == was.dispatch && now.revisions == was.revisions
               && now.runs == was.runs[op.run := Binding(|was.revisions|, Some(op.agent), RunFailed)]
               && |now.log| == |was.log| + 2 && now.log[|was.log|].cause == Claim && now.log[|was.log| + 1].cause == FailureRequeue
  {
    hide StoreInv, SlotInv, CompensateClaim;
    var next := ClaimTask(s.store, op.ref, op.run, op.agent).value;
    ClaimedSlotIs(s.store, op.ref, op.run, op.agent);
    StoredIsCoherent(s.store, op.ref);
    CompensatedSlot(s.store[op.ref], next[op.ref], op.run, op.agent);
    var undone := next[op.ref := CompensateClaim(next[op.ref], op.run).value];
    var plan := [PutStore(next), PutStore(undone)];
    assert plan[1..] == [PutStore(undone)] && plan[1..][1..] == [];
    assert ApplyWrites(s.(store := next), plan[1..]) == s.(store := undone);
  }

  lemma StoredIsCoherent(store: Store, ref: Ref)
    requires StoreInv(store) && ref in store
    ensures Coherent(store[ref])
  {
    assert SlotInv(store[ref]);
  }

  lemma CompensatedSlot(was: Slot, claimed: Slot, run: RunId, agent: string)
    requires Coherent(was) && was.status == Todo && Moved(was, claimed, Claimed, Claim) && claimed.attempts == was.attempts && claimed.dispatch == was.dispatch
    requires claimed.runs == was.runs[run := Binding(|was.revisions|, Some(agent), RunClaimed)]
    ensures CompensateClaim(claimed, run).Ok?
    ensures var now := CompensateClaim(claimed, run).value;
            && now.status == Todo && now.attempts == was.attempts && now.dispatch == was.dispatch && now.revisions == was.revisions
            && now.runs == was.runs[run := Binding(|was.revisions|, Some(agent), RunFailed)]
            && |now.log| == |was.log| + 2 && now.log[|was.log|].cause == Claim && now.log[|was.log| + 1].cause == FailureRequeue
  {
  }
}
