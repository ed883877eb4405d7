/**
 * Crash safety of the two-store lifecycle: after any commands and any crashes,
 * one reconcile pass restores the agreement of claims, tasks and bindings.
 */
module CrashSafety {
  import opened Prelude
  import opened TaskContract
  import opened TaskStore
  import opened TaskInvariants
  import opened ProjectTasks
  import opened Claims
  import opened Reconcile
  import opened Lifecycle

  // ----- the invariants -----------------------------------------------------------------------

  predicate OneActivePerTask(claims: seq<RunClaim>) {
    forall i, j :: 0 <= i < j < |claims| && ActiveClaim(claims[i]) && ActiveClaim(claims[j]) ==> claims[i].ref != claims[j].ref
  }

  /** The binding of this run is the task's active one. */
  predicate HoldsTask(s: Slot, run: RunId) {
    run in s.runs && ActiveRun(s.runs[run].state)
  }

  /** A started claim may run ahead of its task, never behind it. */
  predicate Compatible(status: Status, c: RunClaim) {
    status == Expected(c) || (status == Claimed && c.state == ClaimInProgress)
  }

  /** An active claim on an active task is the claim of its active binding. */
  predicate Linked(s: Slot, c: RunClaim) {
    Active(s.status) ==> HoldsTask(s, c.run) && Compatible(s.status, c)
  }

  /** The claim's run was bound to its task when it was claimed. */
  predicate Bound(store: Store, c: RunClaim) {
    c.ref in store && c.run in store[c.ref].runs
  }

  /** What every single write keeps, crash or not. */
  ghost predicate Recoverable(s: Life) {
    && StoreInv(s.store)
    && DistinctRuns(s.claims) && OneActivePerTask(s.claims)
    && (forall i :: 0 <= i < |s.claims| ==> Bound(s.store, s.claims[i]))
    && (forall i :: 0 <= i < |s.claims| && ActiveClaim(s.claims[i]) ==> Linked(s.store[s.claims[i].ref], s.claims[i]))
  }

  /** The active task has an active claim in the same state, of the run of its active binding. */
  ghost predicate Served(s: Life, ref: Ref)
    requires ref in s.store
  {
    exists i :: 0 <= i < |s.claims| && ActiveOn(s.claims[i], ref)
      && s.store[ref].status == Expected(s.claims[i]) && HoldsTask(s.store[ref], s.claims[i].run)
  }

  /** The claim's task matches it, or is merged and waits for finalization. */
  predicate Matched(s: Slot, c: RunClaim) {
    (s.status == Expected(c) && HoldsTask(s, c.run)) || Finished(s.status)
  }

  /**
   * At most one active claim per task; an active task has exactly one active
   * claim and one active binding with the same run and state; an active claim's
   * task matches it or is finished.
   */
  ghost predicate Consistent(s: Life) {
    && Recoverable(s)
    && (forall r :: r in s.store && Active(s.store[r].status) ==> Served(s, r))
    && (forall i :: 0 <= i < |s.claims| && ActiveClaim(s.claims[i]) ==> Matched(s.store[s.claims[i].ref], s.claims[i]))
  }

  // ----- committing edits ------------------------------------------------------------------------

  lemma UneditedRow(ref: Ref, s: Slot, change: Option<Change>)
    requires s.revisions != []
    ensures CommitSlot(s, ProjectRow(ref, s), change).Ok?
    ensures var t := CommitSlot(s, ProjectRow(ref, s), change).value; t == s.(dispatch := t.dispatch)
  {
  }

  /** A row edited only in its runtime fields. */
  predicate RuntimeEdit(ref: Ref, s: Slot, row: Row) {
    row.ref == ref && row.definition == ProjectedDefinition(s)
  }

  lemma EditedRow(ref: Ref, s: Slot, row: Row, change: Option<Change>)
    requires s.revisions != [] && RuntimeEdit(ref, s, row)
    ensures CommitSlot(s, row, change).Ok? <==> CommitStatus(s, row, change).Ok?
    ensures CommitSlot(s, row, change).Ok? ==>
              var t, m := CommitSlot(s, row, change).value, CommitStatus(s, row, change).value;
              t == m.(dispatch := t.dispatch, attempts := Or(row.attempts, 0)) && t.dispatch.requeueAfter == row.requeueAfter
  {
  }

  lemma DispatchDoesNotMatter(s: Slot, t: Slot)
    requires SlotInv(s) && t == s.(dispatch := t.dispatch, attempts := t.attempts)
    ensures SlotInv(t)
  {
    assert Coherent(t);
  }

  lemma CommitStatusKeepsSlot(s: Slot, row: Row, change: Option<Change>)
    requires SlotInv(s) && CommitStatus(s, row, change).Ok?
    requires change.Some? ==> change.value.cause != Claim
    ensures SlotInv(CommitStatus(s, row, change).value)
    ensures CommitStatus(s, row, change).value.runs.Keys == s.runs.Keys
  {
    if row.status != s.status {
      var c := change.value;
      var started := StartedFirst(s, c).value;
      if c.cause == MergeSucceeded && s.status == Claimed {
        TransitionKeepsSlot(s, TransitionInput(RunStart, InProgress, None, c.run, None));
      }
      TransitionKeepsSlot(started, TransitionInput(c.cause, row.status, ChangeReason(row, c), c.run, c.key));
    }
  }

  /** Edits touch only known tasks and only their runtime fields; no change is a bare claim or carries a key. */
  predicate ProperEdits(store: Store, edits: map<Ref, Row>, changes: map<Ref, Change>) {
    && (forall r :: r in edits ==> r in store && RuntimeEdit(r, store[r], edits[r]))
    && (forall r :: r in changes ==> changes[r].cause != Claim && changes[r].key.None?)
  }

  /** A keyless legal change is accepted by its task. */
  lemma LegalChangeLands(s: Slot, row: Row, c: Change)
    requires CanTransition(s.status, row.status, c.cause) && c.cause != MigrationImport && c.key.None?
    requires row.status == Blocked ==> ChangeReason(row, c).Some? && !Blank(ChangeReason(row, c).value)
    ensures CommitStatus(s, row, Some(c)).Ok?
  {
    TriggerIsTheContract(s.log, s.status, row.status, c.cause);
  }

  /** Without a key the task ends in the row's status, and a run it still holds stays bound. */
  lemma CommitStatusOutcome(s: Slot, row: Row, change: Option<Change>, run: RunId)
    requires CommitStatus(s, row, change).Ok? && (change.Some? ==> change.value.cause != Claim && change.value.key.None?)
    ensures CommitStatus(s, row, change).value.status == row.status
    ensures Active(row.status) && HoldsTask(s, run) ==> HoldsTask(CommitStatus(s, row, change).value, run)
  {
  }

  /** What a commit makes of one task. */
  ghost predicate Outcome(s: Slot, t: Slot, row: Option<Row>) {
    && SlotInv(t) && t.runs.Keys == s.runs.Keys
    && t.status == (if row.Some? then row.value.status else s.status)
    && t.attempts == (if row.Some? then Or(row.value.attempts, 0) else s.attempts)
    && t.dispatch.requeueAfter == (if row.Some? then row.value.requeueAfter else s.dispatch.requeueAfter)
    && (Active(t.status) ==> forall run :: HoldsTask(s, run) ==> HoldsTask(t, run))
  }

  function RowIn(edits: map<Ref, Row>, r: Ref): Option<Row> {
    if r in edits then Some(edits[r]) else None
  }

  lemma EditedOutcome(ref: Ref, s: Slot, row: Row, change: Option<Change>)
    requires SlotInv(s) && RuntimeEdit(ref, s, row) && CommitSlot(s, row, change).Ok?
    requires change.Some? ==> change.value.cause != Claim && change.value.key.None?
    ensures Outcome(s, CommitSlot(s, row, change).value, Some(row))
  {
    var t := CommitSlot(s, row, change).value;
    EditedRow(ref, s, row, change);
    CommitStatusKeepsSlot(s, row, change);
    var m := CommitStatus(s, row, change).value;
    DispatchDoesNotMatter(m, t);
    forall run | Active(row.status) && HoldsTask(s, run) ensures HoldsTask(t, run) {
      CommitStatusOutcome(s, row, change, run);
    }
    CommitStatusOutcome(s, row, change, 0);
  }

  lemma UneditedOutcome(ref: Ref, s: Slot, change: Option<Change>)
    requires SlotInv(s) && CommitSlot(s, ProjectRow(ref, s), change).Ok?
    ensures Outcome(s, CommitSlot(s, ProjectRow(ref, s), change).value, None)
  {
    UneditedRow(ref, s, change);
    DispatchDoesNotMatter(s, CommitSlot(s, ProjectRow(ref, s), change).value);
  }

  /** The commit of a whole backlog is slot by slot. */
  lemma CommittedSlotIs(store: Store, edits: map<Ref, Row>, changes: map<Ref, Change>, r: Ref)
    requires CommitEdits(store, edits, changes).Ok? && r in store
    requires forall q :: q in edits ==> edits[q].ref == q
    ensures var row := if r in edits then edits[r] else ProjectRow(r, store[r]);
            CommitSlot(store[r], row, ChangeOf(changes, r)) == Ok(CommitEdits(store, edits, changes).value[r])
  {
    var row := Backlog(store, edits)[r];
    assert Committer(changes)(store[r], row) == CommitSlot(store[r], row, ChangeOf(changes, row.ref));
  }

  lemma CommittedSlot(store: Store, edits: map<Ref, Row>, changes: map<Ref, Change>, r: Ref)
    requires r in store && SlotInv(store[r]) && ProperEdits(store, edits, changes)
    requires CommitEdits(store, edits, changes).Ok?
    ensures Outcome(store[r], CommitEdits(store, edits, changes).value[r], RowIn(edits, r))
  {
    hide SlotInv, CommitEdits, CommitSlot;
    CommittedSlotIs(store, edits, changes, r);
    if r in edits {
      EditedOutcome(r, store[r], edits[r], ChangeOf(changes, r));
    } else {
      UneditedOutcome(r, store[r], ChangeOf(changes, r));
    }
  }

  /** A commit of runtime edits succeeds exactly when each status change is accepted. */
  lemma CommitSucceedsExactlyWhen(store: Store, edits: map<Ref, Row>, changes: map<Ref, Change>)
    requires StoreInv(store) && ProperEdits(store, edits, changes)
    ensures CommitEdits(store, edits, changes).Ok? <==>
            forall r :: r in edits ==> CommitStatus(store[r], edits[r], ChangeOf(changes, r)).Ok?
  {
    hide CommitSlot, CommitStatus, ProjectedDefinition;
    var rows, write := Backlog(store, edits), Committer(changes);
    forall r | r in store
      ensures write(store[r], rows[r]).Ok? <==> (r in edits ==> CommitStatus(store[r], edits[r], ChangeOf(changes, r)).Ok?)
    {
      assert SlotInv(store[r]);
      assert write(store[r], rows[r]) == CommitSlot(store[r], rows[r], ChangeOf(changes, r));
      if r in edits { EditedRow(r, store[r], rows[r], ChangeOf(changes, r)); } else { UneditedRow(r, store[r], ChangeOf(changes, r)); }
    }
  }

  lemma SameRunsKeepStore(store: Store, next: Store)
    requires StoreInv(store) && next.Keys == store.Keys
    requires forall r :: r in next ==> SlotInv(next[r]) && next[r].runs.Keys == store[r].runs.Keys
    ensures StoreInv(next)
  {
    forall r, q | r in next && q in next && r != q ensures NoSharedRun(next[r], next[q]) {
      assert NoSharedRun(store[r], store[q]);
    }
  }

  /** What a commit makes of the store. */
  ghost predicate Committed(store: Store, edits: map<Ref, Row>, next: Store) {
    next.Keys == store.Keys && forall r :: r in store ==> Outcome(store[r], next[r], RowIn(edits, r))
  }

  lemma CommitOutcome(store: Store, edits: map<Ref, Row>, changes: map<Ref, Change>)
    requires StoreInv(store) && ProperEdits(store, edits, changes) && CommitEdits(store, edits, changes).Ok?
    ensures Committed(store, edits, CommitEdits(store, edits, changes).value)
  {
    forall r | r in store ensures Outcome(store[r], CommitEdits(store, edits, changes).value[r], RowIn(edits, r)) {
      CommittedSlot(store, edits, changes, r);
    }
  }

  lemma CommittedKeepsStore(store: Store, edits: map<Ref, Row>, next: Store)
    requires StoreInv(store) && Committed(store, edits, next)
    ensures StoreInv(next)
  {
    forall r | r in next ensures SlotInv(next[r]) && next[r].runs.Keys == store[r].runs.Keys {
      assert Outcome(store[r], next[r], RowIn(edits, r));
    }
    SameRunsKeepStore(store, next);
  }

  // ----- writes that keep the state recoverable -----------------------------------------------------

  /** The state is recoverable before and after every write of the list. */
  ghost predicate Safe(s: Life, ws: seq<Write>)
    decreases |ws|
  {
    Recoverable(s) && (ws != [] ==> Safe(ApplyWrite(s, ws[0]), ws[1..]))
  }

  lemma {:induction false} SafePrefix(s: Life, ws: seq<Write>, k: nat)
    requires Safe(s, ws) && k <= |ws|
    ensures Recoverable(ApplyWrites(s, ws[..k]))
    decreases k
  {
    if k > 0 {
      SafePrefix(ApplyWrite(s, ws[0]), ws[1..], k - 1);
      assert ws[..k][1..] == ws[1..][..k - 1];
    }
  }

  lemma SafeNothing(s: Life)
    requires Recoverable(s)
    ensures Safe(s, [])
  {
  }

  lemma SafeOne(s: Life, w: Write)
    requires Recoverable(s) && Recoverable(ApplyWrite(s, w))
    ensures Safe(s, [w])
  {
  }

  lemma SafeThen(s: Life, w: Write, rest: seq<Write>)
    requires Recoverable(s) && Safe(ApplyWrite(s, w), rest)
    ensures Safe(s, [w] + rest)
  {
    assert ([w] + rest)[1..] == rest;
  }

  /** Claims may be failed at any time: that only removes obligations. */
  lemma FailingClaimsIsSafe(s: Life, claims: seq<RunClaim>)
    requires Recoverable(s) && OnlyFails(s.claims, claims)
    ensures Recoverable(s.(claims := claims))
  {
  }

  /** An edit that keeps a task active keeps it compatible with its claim. */
  predicate KeepsLinks(s: Life, edits: map<Ref, Row>) {
    forall i :: 0 <= i < |s.claims| && ActiveClaim(s.claims[i]) && s.claims[i].ref in edits && Active(edits[s.claims[i].ref].status) ==>
      s.claims[i].ref in s.store && Active(s.store[s.claims[i].ref].status) && Compatible(edits[s.claims[i].ref].status, s.claims[i])
  }

  lemma CommittedIsSafe(s: Life, edits: map<Ref, Row>, next: Store)
    requires Recoverable(s) && KeepsLinks(s, edits) && Committed(s.store, edits, next)
    ensures Recoverable(s.(store := next))
  {
    CommittedKeepsStore(s.store, edits, next);
    forall i | 0 <= i < |s.claims|
      ensures Bound(next, s.claims[i])
      ensures ActiveClaim(s.claims[i]) ==> Linked(next[s.claims[i].ref], s.claims[i])
    {
      var c := s.claims[i];
      assert Bound(s.store, c);
      assert Outcome(s.store[c.ref], next[c.ref], RowIn(edits, c.ref));
      if ActiveClaim(c) { assert Linked(s.store[c.ref], c); }
    }
  }

  lemma StoreWriteIsSafe(s: Life, edits: map<Ref, Row>, changes: map<Ref, Change>)
    requires Recoverable(s) && ProperEdits(s.store, edits, changes) && KeepsLinks(s, edits)
    ensures Safe(s, StoreWrite(s.store, edits, changes))
  {
    var r := CommitEdits(s.store, edits, changes);
    if r.Ok? {
      CommitOutcome(s.store, edits, changes);
      CommittedIsSafe(s, edits, r.value);
    }
  }

  // ----- every command is safe at every write -------------------------------------------------------

  /** An edit that moves tasks out of claimed/in_progress breaks no link. */
  lemma LeavingIsSafe(s: Life, edits: map<Ref, Row>, changes: map<Ref, Change>)
    requires Recoverable(s) && Leaving(s.store, edits, changes)
    ensures Safe(s, StoreWrite(s.store, edits, changes))
  {
    StoreWriteIsSafe(s, edits, changes);
  }

  /** Claims are only failed, in place. */
  predicate OnlyFails(before: seq<RunClaim>, after: seq<RunClaim>) {
    |after| == |before| && forall i :: 0 <= i < |after| ==>
      after[i].run == before[i].run && after[i].ref == before[i].ref && (after[i] == before[i] || !ActiveClaim(after[i]))
  }

  predicate Leaving(store: Store, edits: map<Ref, Row>, changes: map<Ref, Change>) {
    ProperEdits(store, edits, changes) && forall r :: r in edits ==> !Active(edits[r].status)
  }

  /** The common shape: fail some claims, then move their tasks. */
  lemma FailThenLeaveIsSafe(s: Life, claims: seq<RunClaim>, edits: map<Ref, Row>, changes: map<Ref, Change>)
    requires Recoverable(s) && OnlyFails(s.claims, claims) && Leaving(s.store, edits, changes)
    ensures Safe(s, ClaimsThenTasks(s, claims, edits, changes))
  {
    FailingClaimsIsSafe(s, claims);
    LeavingIsSafe(s.(claims := claims), edits, changes);
    SafeThen(s, PutClaims(claims), StoreWrite(s.store, edits, changes));
  }

  lemma FailureEditsLeave(s: Life, ref: Ref, f: Failure, at: Time, run: RunId, why: Option<string>)
    requires ref in s.store
    ensures Leaving(s.store, FailureEdits(s, ref, f, at), FailureChanges(s, ref, f, at, run, why))
  {
  }

  lemma NothingLeaves(store: Store)
    ensures Leaving(store, map[], map[])
  {
  }

  lemma FinishingFails(s: Life, i: nat, success: bool)
    requires i < |s.claims|
    ensures OnlyFails(s.claims, FinishedClaims(s, i, success))
  {
  }

  lemma ExpiringFails(s: Life, now: Time)
    ensures OnlyFails(s.claims, ExpiredClaims(s, now))
  {
  }

  lemma FailedRowLeaves(row: Row, f: Failure, at: Time)
    ensures var out := FailedRow(row, f, at); !Active(out.status) && out.definition == row.definition && out.ref == row.ref
  {
  }

  lemma ExpiryChangeIsProper(row: Row, first: Option<RunClaim>)
    ensures var c := ExpiryChange(row, first); c.cause != Claim && c.key.None?
  {
  }

  lemma ExpireEditsLeave(s: Life, now: Time, f: Failure)
    ensures Leaving(s.store, ExpireEdits(s, now, f), ExpireChanges(s, now, f))
  {
    hide ProjectedDefinition, FailedRow, ExpiryChange, ExpiredOn;
    var edits, changes := ExpireEdits(s, now, f), ExpireChanges(s, now, f);
    forall r | r in edits ensures r in s.store && RuntimeEdit(r, s.store[r], edits[r]) && !Active(edits[r].status) {
      FailedRowLeaves(RowOf(s.store, r), f, now);
    }
    forall r | r in changes ensures changes[r].cause != Claim && changes[r].key.None? {
      ExpiryChangeIsProper(ExpiredRow(s, r, f, now), FirstExpired(s.store, s.claims, r, now));
    }
  }

  lemma FinishIsSafe(s: Life, run: RunId, agent: string, success: bool, f: Failure, why: Option<string>, at: Time)
    requires Recoverable(s)
    ensures Safe(s, PlanFinish(s, run, agent, success, f, why, at))
  {
    hide Recoverable, Safe, StoreWrite, StoreInv, Leaving, OnlyFails;
    SafeNothing(s);
    var i := FindRun(s.claims, run);
    if i.Some? && s.claims[i.value].agent == agent && ActiveClaim(s.claims[i.value]) {
      var ref, claims := s.claims[i.value].ref, FinishedClaims(s, i.value, success);
      FinishingFails(s, i.value, success);
      if ref !in s.store || !Active(s.store[ref].status) {
        FailingClaimsIsSafe(s, claims);
        SafeOne(s, PutClaims(claims));
      } else if success {
        NothingLeaves(s.store);
        FailThenLeaveIsSafe(s, claims, map[], map[]);
      } else {
        FailureEditsLeave(s, ref, f, at, run, why);
        FailThenLeaveIsSafe(s, claims, FailureEdits(s, ref, f, at), FailureChanges(s, ref, f, at, run, why));
      }
    }
  }

  lemma ExpireIsSafe(s: Life, now: Time, block: bool)
    requires Recoverable(s)
    ensures Safe(s, PlanExpire(s, now, block))
  {
    hide Recoverable, Safe, StoreWrite, StoreInv, Leaving, OnlyFails;
    SafeNothing(s);
    var f := if block then BlockPolicy else Counted;
    ExpireEditsLeave(s, now, f);
    ExpiringFails(s, now);
    FailThenLeaveIsSafe(s, ExpiredClaims(s, now), ExpireEdits(s, now, f), ExpireChanges(s, now, f));
  }

  lemma ResetIsSafe(s: Life, ref: Ref)
    requires Recoverable(s)
    ensures Safe(s, PlanReset(s, ref))
  {
    hide Recoverable, Safe, StoreWrite, StoreInv;
    SafeNothing(s);
    if ref in s.store {
      FailThenLeaveIsSafe(s, DroppedClaims(s, ref), ResetEdits(s, ref), ResetChanges(s, ref));
    }
  }

  lemma ExpireRunIsSafe(s: Life, run: RunId)
    requires Recoverable(s)
    ensures Safe(s, PlanExpireRun(s, run))
  {
    hide Recoverable, Safe, StoreWrite, StoreInv;
    SafeNothing(s);
    var i := FindRun(s.claims, run);
    if i.Some? && s.claims[i.value].ref in s.store && ActiveClaim(s.claims[i.value]) {
      var ref := s.claims[i.value].ref;
      FailThenLeaveIsSafe(s, FailedClaims(s, i.value), RequeueEdits(s, ref),
        ManualExpiry(ref, run));
    }
  }

  lemma {:induction false} RemovalKeepsTheOthers(claims: seq<RunClaim>, ref: Ref)
    ensures forall c :: c in RemoveActive(claims, ref) <==> c in claims && !ActiveOn(c, ref)
    decreases |claims|
  {
    hide ActiveOn;
    if claims != [] {
      RemovalKeepsTheOthers(claims[..|claims| - 1], ref);
      assert claims == claims[..|claims| - 1] + [claims[|claims| - 1]];
    }
  }

  lemma {:induction false} RemovalIsASelection(claims: seq<RunClaim>, ref: Ref)
    ensures forall c :: c in RemoveActive(claims, ref) <==> c in claims && !ActiveOn(c, ref)
    ensures DistinctRuns(claims) ==> DistinctRuns(RemoveActive(claims, ref))
    ensures OneActivePerTask(claims) ==> OneActivePerTask(RemoveActive(claims, ref))
    decreases |claims|
  {
    RemovalKeepsTheOthers(claims, ref);
    if claims != [] {
      var init, last := claims[..|claims| - 1], claims[|claims| - 1];
      RemovalIsASelection(init, ref);
      var kept := RemoveActive(init, ref);
      forall i | 0 <= i < |kept| ensures exists j :: 0 <= j < |claims| - 1 && claims[j] == kept[i] {
        assert kept[i] in kept;
        var j :| 0 <= j < |init| && init[j] == kept[i];
        assert claims[j] == kept[i];
      }
    }
  }

  lemma RemovingClaimsIsSafe(s: Life, ref: Ref)
    requires Recoverable(s)
    ensures Recoverable(s.(claims := RemoveActive(s.claims, ref)))
  {
    RemovalIsASelection(s.claims, ref);
    var kept := RemoveActive(s.claims, ref);
    forall i | 0 <= i < |kept| ensures exists j :: 0 <= j < |s.claims| && s.claims[j] == kept[i] {
      assert kept[i] in kept;
    }
  }

  lemma RemoveThenLeaveIsSafe(s: Life, ref: Ref, edits: map<Ref, Row>, changes: map<Ref, Change>)
    requires Recoverable(s) && Leaving(s.store, edits, changes)
    ensures Safe(s, ClaimsThenTasks(s, RemoveActive(s.claims, ref), edits, changes))
  {
    var left := RemoveActive(s.claims, ref);
    RemovingClaimsIsSafe(s, ref);
    LeavingIsSafe(s.(claims := left), edits, changes);
    SafeThen(s, PutClaims(left), StoreWrite(s.store, edits, changes));
  }

  lemma CancelIsSafe(s: Life, ref: Ref, why: Option<string>)
    requires Recoverable(s)
    ensures Safe(s, PlanCancel(s, ref, why))
  {
    hide Recoverable, Safe, StoreWrite, StoreInv;
    SafeNothing(s);
    if ref in s.store {
      LeavingIsSafe(s, CancelEdits(s, ref), map[ref := Change(Cancel, why, None, None)]);
      RemoveThenLeaveIsSafe(s, ref, CancelEdits(s, ref), map[ref := Change(Cancel, why, None, None)]);
    }
  }

  lemma EndingFails(s: Life)
    ensures OnlyFails(s.claims, EndedClaims(s))
  {
  }

  lemma LeaveThenEndIsSafe(s: Life, first: seq<Write>, claims: seq<RunClaim>)
    requires Safe(s, first) && OnlyFails(s.claims, claims) && |first| == 1 && first[0].PutStore?
    ensures Safe(s, first + [PutClaims(claims)])
  {
    hide Recoverable;
    var mid := ApplyWrite(s, first[0]);
    assert first == [first[0]] && Safe(mid, first[1..]);
    FailingClaimsIsSafe(mid, claims);
    SafeOne(mid, PutClaims(claims));
    SafeThen(s, first[0], [PutClaims(claims)]);
  }

  lemma StoreWriteShape(store: Store, edits: map<Ref, Row>, changes: map<Ref, Change>)
    ensures var ws := StoreWrite(store, edits, changes);
            ws == [] || (|ws| == 1 && ws[0].PutStore?)
  {
    hide CommitEdits;
  }

  lemma SessionResetIsSafe(s: Life)
    requires Recoverable(s)
    ensures Safe(s, PlanSessionReset(s))
  {
    hide Recoverable, Safe, StoreWrite, StoreInv, OnlyFails, EndedClaims;
    SafeNothing(s);
    LeavingIsSafe(s, SessionResetEdits(s), SessionResetChanges(s));
    var first := StoreWrite(s.store, SessionResetEdits(s), SessionResetChanges(s));
    StoreWriteShape(s.store, SessionResetEdits(s), SessionResetChanges(s));
    if first != [] {
      EndingFails(s);
      LeaveThenEndIsSafe(s, first, EndedClaims(s));
    }
  }

  lemma MergeIsSafe(s: Life, ref: Ref)
    requires Recoverable(s)
    ensures Safe(s, PlanMerge(s, ref))
  {
    hide Recoverable, Safe, StoreWrite, StoreInv;
    SafeNothing(s);
    if ref in s.store {
      LeavingIsSafe(s, MergeEdits(s, ref), map[ref := Change(MergeSucceeded, None, ActiveRunId(s.store[ref]), None)]);
    }
  }

  lemma UnblockIsSafe(s: Life, ref: Ref, why: Option<string>)
    requires Recoverable(s)
    ensures Safe(s, PlanUnblock(s, ref, why))
  {
    hide Recoverable, Safe, StoreWrite, StoreInv;
    SafeNothing(s);
    if ref in s.store {
      LeavingIsSafe(s, UnblockEdits(s, ref), map[ref := Change(Unblock, why, None, None)]);
    }
  }

  /** A claim may start ahead of its task. */
  lemma StartingClaimIsSafe(s: Life, i: nat)
    requires Recoverable(s) && i < |s.claims| && s.claims[i].state == ClaimClaimed
    ensures Recoverable(s.(claims := StartedClaims(s, i)))
  {
    assert Bound(s.store, s.claims[i]) && Linked(s.store[s.claims[i].ref], s.claims[i]);
  }

  lemma IllegalStartFails(s: Life, ref: Ref, run: RunId)
    requires StoreInv(s.store) && ref in s.store && !Active(s.store[ref].status)
    ensures StoreWrite(s.store, StartEdits(s, ref), StartChanges(ref, run)) == []
  {
    hide StoreInv, CommitEdits, ProperEdits;
    var edits, changes := StartEdits(s, ref), StartChanges(ref, run);
    StartEditsAreProper(s, ref, run);
    CommitSucceedsExactlyWhen(s.store, edits, changes);
    assert ref in edits && CommitStatus(s.store[ref], edits[ref], ChangeOf(changes, ref)).Err?;
  }

  lemma StartEditsAreProper(s: Life, ref: Ref, run: RunId)
    requires ref in s.store
    ensures ProperEdits(s.store, StartEdits(s, ref), StartChanges(ref, run))
  {
  }

  lemma StartKeepsLinks(s: Life, i: nat)
    requires Recoverable(s) && i < |s.claims| && s.claims[i].state == ClaimInProgress && s.claims[i].ref in s.store
    requires Active(s.store[s.claims[i].ref].status)
    ensures KeepsLinks(s, StartEdits(s, s.claims[i].ref))
  {
    hide StoreInv, ProjectRow, Bound, Linked;
  }

  /** Starting a task keeps it compatible with its started claim; a task that cannot start is not written. */
  lemma TaskStartIsSafe(s: Life, i: nat)
    requires Recoverable(s) && i < |s.claims| && s.claims[i].state == ClaimInProgress && s.claims[i].ref in s.store
    ensures Safe(s, StoreWrite(s.store, StartEdits(s, s.claims[i].ref), StartChanges(s.claims[i].ref, s.claims[i].run)))
  {
    hide Recoverable, StoreInv, Safe, StoreWrite, ProperEdits, KeepsLinks, StartEdits;
    var ref, run := s.claims[i].ref, s.claims[i].run;
    StartEditsAreProper(s, ref, run);
    RecoverableStore(s);
    if Active(s.store[ref].status) {
      StartKeepsLinks(s, i);
      StoreWriteIsSafe(s, StartEdits(s, ref), StartChanges(ref, run));
    } else {
      IllegalStartFails(s, ref, run);
      SafeNothing(s);
    }
  }

  /** The start: the claim runs ahead, then its task follows. */
  lemma StartIsSafe(s: Life, run: RunId, agent: string)
    requires Recoverable(s)
    ensures Safe(s, PlanStart(s, run, agent))
  {
    hide Recoverable, Safe, StoreWrite;
    SafeNothing(s);
    var i := FindRun(s.claims, run);
    if i.Some? && s.claims[i.value].state == ClaimClaimed {
      StartingClaimIsSafe(s, i.value);
      var ahead := s.(claims := StartedClaims(s, i.value));
      var ref := s.claims[i.value].ref;
      SafeOne(s, PutClaims(ahead.claims));
      if ref in s.store {
        TaskStartIsSafe(ahead, i.value);
        SafeThen(s, PutClaims(ahead.claims), StoreWrite(s.store, StartEdits(s, ref), StartChanges(ref, run)));
      }
    }
  }

  lemma ClaimWriteIsSafe(s: Life, ref: Ref, run: RunId, agent: string)
    requires Recoverable(s) && !HasActive(s.claims, ref) && ClaimTask(s.store, ref, run, agent).Ok?
    ensures Recoverable(s.(store := ClaimTask(s.store, ref, run, agent).value))
  {
    hide StoreInv, SlotInv;
    ClaimKeepsStore(s.store, ref, run, agent);
    TaskInvariants.ClaimedSlot(s.store, ref, run, agent);
    var next := ClaimTask(s.store, ref, run, agent).value;
    assert forall q :: q in s.store && q != ref ==> q in next && next[q] == s.store[q];
    forall i | 0 <= i < |s.claims|
      ensures Bound(next, s.claims[i]) && (ActiveClaim(s.claims[i]) ==> Linked(next[s.claims[i].ref], s.claims[i]))
    {
      assert Bound(s.store, s.claims[i]);
      assert ActiveClaim(s.claims[i]) ==> s.claims[i].ref != ref && Linked(s.store[s.claims[i].ref], s.claims[i]);
    }
  }

  /** Recording the claim of a run bound a moment ago. */
  lemma NewClaimIsSafe(s: Life, c: RunClaim)
    requires Recoverable(s) && !HasActive(s.claims, c.ref) && Bound(s.store, c) && c.state == ClaimClaimed
    requires s.store[c.ref].status == Claimed && HoldsTask(s.store[c.ref], c.run)
    requires forall i :: 0 <= i < |s.claims| ==> s.claims[i].run != c.run
    ensures Recoverable(s.(claims := s.claims + [c]))
  {
    hide StoreInv;
    var more := s.claims + [c];
    assert forall i :: 0 <= i < |s.claims| ==> more[i] == s.claims[i];
  }

  lemma CompensationIsSafe(s: Life, ref: Ref, run: RunId)
    requires Recoverable(s) && ref in s.store && CompensateClaim(s.store[ref], run).Ok?
    ensures Recoverable(s.(store := s.store[ref := CompensateClaim(s.store[ref], run).value]))
  {
    hide SlotInv, CompensateClaim;
    var t := CompensateClaim(s.store[ref], run).value;
    CompensationKeepsSlot(s.store[ref], run);
    SlotUpdateKeepsStore(s.store, ref, t);
    var next := s.store[ref := t];
    forall i | 0 <= i < |s.claims|
      ensures Bound(next, s.claims[i]) && (ActiveClaim(s.claims[i]) ==> Linked(next[s.claims[i].ref], s.claims[i]))
    {
      assert Bound(s.store, s.claims[i]);
      assert ActiveClaim(s.claims[i]) ==> Linked(s.store[s.claims[i].ref], s.claims[i]);
    }
  }

  lemma NewRunIsUnclaimed(s: Life, run: RunId)
    requires Recoverable(s) && UnusedRun(s.store, run)
    ensures forall i :: 0 <= i < |s.claims| ==> s.claims[i].run != run
  {
    hide StoreInv;
    assert forall i :: 0 <= i < |s.claims| ==> Bound(s.store, s.claims[i]);
  }

  lemma ClaimIsSafe(s: Life, ref: Ref, run: RunId, agent: string, now: Time, lease: Time, fails: bool)
    requires Recoverable(s)
    ensures Safe(s, PlanClaim(s, ref, run, agent, now, lease, fails))
  {
    hide Recoverable, Safe, StoreInv, SlotInv, CompensateClaim;
    SafeNothing(s);
    if ref in s.store && !HasActive(s.claims, ref) && ClaimTask(s.store, ref, run, agent).Ok? {
      ClaimWriteIsSafe(s, ref, run, agent);
      var next := ClaimTask(s.store, ref, run, agent).value;
      var mid := s.(store := next);
      SafeOne(s, PutStore(next));
      if !fails {
        RecoverableStore(s);
        TaskInvariants.ClaimedSlot(s.store, ref, run, agent);
        NewRunIsUnclaimed(s, run);
        var c := RunClaim(run, ref, agent, ClaimClaimed, now, Some(now + lease), None);
        NewClaimIsSafe(mid, c);
        SafeOne(mid, PutClaims(s.claims + [c]));
        SafeThen(s, PutStore(next), [PutClaims(s.claims + [c])]);
        assert [PutStore(next)] + [PutClaims(s.claims + [c])] == [PutStore(next), PutClaims(s.claims + [c])];
      } else if CompensateClaim(next[ref], run).Ok? {
        CompensationIsSafe(mid, ref, run);
        var undone := next[ref := CompensateClaim(next[ref], run).value];
        SafeOne(mid, PutStore(undone));
        SafeThen(s, PutStore(next), [PutStore(undone)]);
        assert [PutStore(next)] + [PutStore(undone)] == [PutStore(next), PutStore(undone)];
      }
    }
  }

  lemma RecoverableStore(s: Life)
    requires Recoverable(s)
    ensures StoreInv(s.store)
  {
  }

  lemma CreateIsSafe(s: Life, ref: Ref, spec: Spec)
    requires Recoverable(s) && CreateTask(s.store, ref, spec).Ok?
    ensures Recoverable(s.(store := CreateTask(s.store, ref, spec).value))
  {
    hide StoreInv, SlotInv;
    CreateKeepsStore(s.store, ref, spec);
    var next := CreateTask(s.store, ref, spec).value;
    forall i | 0 <= i < |s.claims| ensures s.claims[i].ref in s.store && next[s.claims[i].ref] == s.store[s.claims[i].ref] {
      assert Bound(s.store, s.claims[i]);
    }
  }

  // ----- the repair ----------------------------------------------------------------------------------

  lemma WinnerIsTheActiveClaim(s: Life, i: nat)
    requires OneActivePerTask(s.claims) && i < |s.claims| && ActiveClaim(s.claims[i])
    ensures Winner(s.claims, s.claims[i].ref) == Some(s.claims[i])
  {
    var w := Winner(s.claims, s.claims[i].ref);
    assert s.claims[i] in s.claims;
    var j :| 0 <= j < |s.claims| && s.claims[j] == w.value;
  }

  lemma ReconcileEditsAreProper(s: Life)
    ensures ProperEdits(s.store, ReconcileEdits(s), ReconcileChanges(s))
  {
    hide ProjectedDefinition, Winner, StatusFor;
  }

  lemma ReconcileKeepsLinks(s: Life)
    requires Recoverable(s)
    ensures KeepsLinks(s, ReconcileEdits(s))
  {
    hide StoreInv, Winner, ProjectRow, IsWinner;
    forall i | 0 <= i < |s.claims| && ActiveClaim(s.claims[i]) && s.claims[i].ref in ReconcileEdits(s)
      ensures var c := s.claims[i]; Active(ReconcileEdits(s)[c.ref].status) ==>
                c.ref in s.store && Active(s.store[c.ref].status) && Compatible(ReconcileEdits(s)[c.ref].status, c)
    {
      WinnerIsTheActiveClaim(s, i);
    }
  }

  /** The commit of a repair is accepted: every change it proposes is legal. */
  lemma RepairIsAccepted(s: Life)
    requires StoreInv(s.store)
    ensures CommitEdits(s.store, ReconcileEdits(s), ReconcileChanges(s)).Ok?
  {
    hide StoreInv, CommitEdits, ProperEdits, Winner, ProjectedDefinition, CommitStatus;
    var edits, changes := ReconcileEdits(s), ReconcileChanges(s);
    ReconcileEditsAreProper(s);
    CommitSucceedsExactlyWhen(s.store, edits, changes);
    forall r | r in edits ensures CommitStatus(s.store[r], edits[r], ChangeOf(changes, r)).Ok? {
      RepairsAreLegal(s.store[r].status, Winner(s.claims, r));
      LegalChangeLands(s.store[r], edits[r], changes[r]);
    }
  }

  lemma NothingCommitted(store: Store)
    requires StoreInv(store)
    ensures Committed(store, map[], store)
  {
  }

  /** The store after the first write of a repair: every task has its repaired status. */
  ghost function RepairedStore(s: Life): Store {
    if |ReconcileEdits(s)| == 0 then s.store
    else match CommitEdits(s.store, ReconcileEdits(s), ReconcileChanges(s)) case Ok(next) => next case Err(_) => s.store
  }

  lemma RepairCommits(s: Life)
    requires StoreInv(s.store)
    ensures Committed(s.store, ReconcileEdits(s), RepairedStore(s))
  {
    hide StoreInv, CommitEdits, ProperEdits, Committed, ReconcileEdits, ReconcileChanges;
    if |ReconcileEdits(s)| == 0 {
      assert ReconcileEdits(s) == map[];
      NothingCommitted(s.store);
    } else {
      RepairIsAccepted(s);
      ReconcileEditsAreProper(s);
      CommitOutcome(s.store, ReconcileEdits(s), ReconcileChanges(s));
    }
  }

  /** The plan of a repair: the store first if a task changes, then the claims if one fails. */
  lemma ReconcilePlanIs(s: Life)
    requires StoreInv(s.store)
    ensures var store, claims := RepairedStore(s), RepairedClaims(Project, Statuses(s.store), s.claims);
            PlanReconcile(s) == OptionalWrites(store, claims, |ReconcileEdits(s)| > 0, claims != s.claims)
  {
    hide StoreInv, CommitEdits, ReconcileEdits, ReconcileChanges, RepairedClaim;
    RepairIsAccepted(s);
  }

  lemma RepairingFails(s: Life)
    ensures OnlyFails(s.claims, RepairedClaims(Project, Statuses(s.store), s.claims))
  {
    hide Winner, Statuses;
    PassKeepsClaims(Project, Statuses(s.store), s.claims);
  }

  function OptionalWrites(store: Store, claims: seq<RunClaim>, tasks: bool, runs: bool): seq<Write> {
    (if tasks then [PutStore(store)] else []) + (if runs then [PutClaims(claims)] else [])
  }

  lemma OneWriteIsSafe(s: Life, claims: seq<RunClaim>, runs: bool)
    requires Recoverable(s) && Recoverable(s.(claims := claims)) && (!runs ==> claims == s.claims)
    ensures var ws := if runs then [PutClaims(claims)] else []; Safe(s, ws) && ApplyWrites(s, ws) == Life(s.store, claims)
  {
    hide Recoverable;
    if runs {
      var w := PutClaims(claims);
      assert [w][1..] == [];
      SafeOne(s, w);
      assert ApplyWrites(ApplyWrite(s, w), []) == ApplyWrite(s, w);
    }
  }

  lemma ApplyThen(s: Life, w: Write, rest: seq<Write>)
    ensures ApplyWrites(s, [w] + rest) == ApplyWrites(ApplyWrite(s, w), rest)
  {
    assert ([w] + rest)[1..] == rest;
  }

  lemma OptionalWritesAreSafe(s: Life, store: Store, claims: seq<RunClaim>, tasks: bool, runs: bool)
    requires Recoverable(s) && Recoverable(s.(store := store)) && Recoverable(Life(store, claims))
    requires (!tasks ==> store == s.store) && (!runs ==> claims == s.claims)
    ensures Safe(s, OptionalWrites(store, claims, tasks, runs))
    ensures ApplyWrites(s, OptionalWrites(store, claims, tasks, runs)) == Life(store, claims)
  {
    hide Recoverable, Safe, ApplyWrites;
    var mid, second := s.(store := store), if runs then [PutClaims(claims)] else [];
    OneWriteIsSafe(mid, claims, runs);
    if tasks {
      SafeThen(s, PutStore(store), second);
      ApplyThen(s, PutStore(store), second);
    } else {
      assert mid == s && [] + second == second;
    }
  }

  lemma ReconcileIsSafe(s: Life)
    requires Recoverable(s)
    ensures Safe(s, PlanReconcile(s))
    ensures Complete(s, ReconcileOp) == Life(RepairedStore(s), RepairedClaims(Project, Statuses(s.store), s.claims))
    ensures Recoverable(Complete(s, ReconcileOp))
  {
    hide Recoverable, StoreInv, CommitEdits, ReconcileEdits, ReconcileChanges, RepairedClaim, PlanReconcile, KeepsLinks, OnlyFails, Committed,
      ApplyWrites, Safe, OptionalWrites;
    RecoverableStore(s);
    ReconcilePlanIs(s);
    RepairCommits(s);
    ReconcileKeepsLinks(s);
    RepairingFails(s);
    var store, claims := RepairedStore(s), RepairedClaims(Project, Statuses(s.store), s.claims);
    CommittedIsSafe(s, ReconcileEdits(s), store);
    FailingClaimsIsSafe(s.(store := store), claims);
    OptionalWritesAreSafe(s, store, claims, |ReconcileEdits(s)| > 0, claims != s.claims);
  }

  /** An active claim that survives a repair matches its task. */
  lemma SurvivorIsMatched(s: Life, i: nat)
    requires Recoverable(s) && i < |s.claims| && ActiveClaim(RepairedClaim(Project, Statuses(s.store), s.claims, s.claims[i]))
    requires Committed(s.store, ReconcileEdits(s), RepairedStore(s))
    ensures s.claims[i].ref in RepairedStore(s) && Matched(RepairedStore(s)[s.claims[i].ref], s.claims[i])
  {
    hide StoreInv, Winner, RepairedStore, SlotInv;
    var c := s.claims[i];
    assert Bound(s.store, c) && Linked(s.store[c.ref], c);
    WinnerIsTheActiveClaim(s, i);
    assert Outcome(s.store[c.ref], RepairedStore(s)[c.ref], RowIn(ReconcileEdits(s), c.ref));
  }

  /** A task that is active after a repair was won by a matching claim. */
  lemma ActiveTaskHasAClaim(s: Life, r: Ref) returns (i: nat)
    requires Recoverable(s) && r in s.store && r in RepairedStore(s) && Active(RepairedStore(s)[r].status)
    requires Committed(s.store, ReconcileEdits(s), RepairedStore(s))
    ensures i < |s.claims| && ActiveOn(s.claims[i], r) && Winner(s.claims, r) == Some(s.claims[i])
    ensures !Mismatch(Project, s.store[r].status, s.claims[i])
  {
    hide StoreInv, RepairedStore, SlotInv;
    assert Outcome(s.store[r], RepairedStore(s)[r], RowIn(ReconcileEdits(s), r));
    var w := Winner(s.claims, r);
    assert w.Some?;
    i :| 0 <= i < |s.claims| && s.claims[i] == w.value;
    assert Linked(s.store[r], s.claims[i]);
  }

  lemma ActiveTaskIsServed(s: Life, r: Ref)
    requires Recoverable(s) && r in s.store && r in RepairedStore(s) && Active(RepairedStore(s)[r].status)
    requires Committed(s.store, ReconcileEdits(s), RepairedStore(s))
    ensures Served(Life(RepairedStore(s), RepairedClaims(Project, Statuses(s.store), s.claims)), r)
  {
    hide Recoverable, RepairedStore, Committed, IsWinner;
    var i := ActiveTaskHasAClaim(s, r);
    var claims := RepairedClaims(Project, Statuses(s.store), s.claims);
    assert claims[i] == s.claims[i];
    SurvivorIsMatched(s, i);
  }

  /** One reconcile pass makes every recoverable state consistent. */
  lemma OnePassRepairs(s: Life)
    requires Recoverable(s)
    ensures Consistent(Complete(s, ReconcileOp))
  {
    hide StoreInv, Recoverable, RepairedStore, RepairedClaim, Committed, ReconcileEdits, Complete, Matched, Served;
    ReconcileIsSafe(s);
    RecoverableStore(s);
    RepairCommits(s);
    CommittedDomain(s.store, ReconcileEdits(s), RepairedStore(s));
    var t := Life(RepairedStore(s), RepairedClaims(Project, Statuses(s.store), s.claims));
    forall r | r in t.store && Active(t.store[r].status) ensures Served(t, r) {
      ActiveTaskIsServed(s, r);
    }
    forall i | 0 <= i < |t.claims| && ActiveClaim(t.claims[i]) ensures t.claims[i].ref in t.store && Matched(t.store[t.claims[i].ref], t.claims[i]) {
      SurvivorIsMatched(s, i);
      SurvivorIsItself(s, i);
    }
  }

  lemma CommittedDomain(store: Store, edits: map<Ref, Row>, next: Store)
    requires Committed(store, edits, next)
    ensures next.Keys == store.Keys
  {
  }

  lemma SurvivorIsItself(s: Life, i: nat)
    requires i < |s.claims| && ActiveClaim(RepairedClaim(Project, Statuses(s.store), s.claims, s.claims[i]))
    ensures RepairedClaim(Project, Statuses(s.store), s.claims, s.claims[i]) == s.claims[i]
  {
    hide Survives;
  }

  // ----- every run, with crashes -----------------------------------------------------------------------

  lemma EveryCommandIsSafe(s: Life, op: Op)
    requires Recoverable(s)
    ensures Safe(s, Plan(s, op))
  {
    hide Recoverable, Safe, PlanClaim, PlanStart, PlanFinish, PlanExpire, PlanReset, PlanCancel, PlanExpireRun, PlanMerge, PlanUnblock,
      PlanSessionReset, PlanReconcile, CreateTask;
    match op
    case ClaimOp(ref, run, agent, now, lease, fails) => ClaimIsSafe(s, ref, run, agent, now, lease, fails);
    case StartOp(run, agent) => StartIsSafe(s, run, agent);
    case FinishOp(run, agent, success, f, why, now) => FinishIsSafe(s, run, agent, success, f, why, now);
    case ExpireOp(now, block) => ExpireIsSafe(s, now, block);
    case ResetOp(ref) => ResetIsSafe(s, ref);
    case CancelOp(ref, why) => CancelIsSafe(s, ref, why);
    case ExpireRunOp(run) => ExpireRunIsSafe(s, run);
    case MergeOp(ref) => MergeIsSafe(s, ref);
    case UnblockOp(ref, why) => UnblockIsSafe(s, ref, why);
    case SessionResetOp => SessionResetIsSafe(s);
    case ReconcileOp => ReconcileIsSafe(s);
    case CreateOp(ref, spec) =>
      SafeNothing(s);
      if CreateTask(s.store, ref, spec).Ok? {
        CreateIsSafe(s, ref, spec);
        SafeOne(s, PutStore(CreateTask(s.store, ref, spec).value));
      }
  }

  /** A command and the number of its writes that reached disk. */
  datatype Attempt = Attempt(op: Op, writes: nat)

  /** The state after a list of commands, each cut short where it crashed. */
  ghost function RunLife(s: Life, attempts: seq<Attempt>): Life
    decreases |attempts|
  {
    if attempts == [] then s else RunLife(Crashed(s, attempts[0].op, attempts[0].writes), attempts[1..])
  }

  lemma CrashIsRecoverable(s: Life, op: Op, k: nat)
    requires Recoverable(s)
    ensures Recoverable(Crashed(s, op, k))
  {
    hide Recoverable, Plan;
    EveryCommandIsSafe(s, op);
    var plan := Plan(s, op);
    SafePrefix(s, plan, if k <= |plan| then k else |plan|);
    assert plan[..|plan|] == plan;
  }

  lemma {:induction false} RunIsRecoverable(s: Life, attempts: seq<Attempt>)
    requires Recoverable(s)
    ensures Recoverable(RunLife(s, attempts))
    decreases |attempts|
  {
    hide Recoverable, Crashed;
    if attempts != [] {
      CrashIsRecoverable(s, attempts[0].op, attempts[0].writes);
      RunIsRecoverable(Crashed(s, attempts[0].op, attempts[0].writes), attempts[1..]);
    }
  }

  /**
   * Crash safety: after any commands, each cut at any of its writes, one
   * reconcile pass restores the agreement of claims, tasks and bindings.
   */
  lemma CrashSafety(attempts: seq<Attempt>)
    ensures Consistent(Complete(RunLife(Life(map[], []), attempts), ReconcileOp))
  {
    hide Consistent, Complete, RunLife;
    RunIsRecoverable(Life(map[], []), attempts);
    OnePassRepairs(RunLife(Life(map[], []), attempts));
  }

  /** A crash inside a single command, from any consistent state. */
  lemma CrashThenRepair(s: Life, op: Op, k: nat)
    requires Consistent(s)
    ensures Consistent(Complete(Crashed(s, op, k), ReconcileOp))
  {
    hide Complete, Crashed;
    CrashIsRecoverable(s, op, k);
    OnePassRepairs(Crashed(s, op, k));
  }
}
