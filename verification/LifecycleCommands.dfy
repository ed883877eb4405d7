/**
 * The lifecycle commands as they run: in-memory copies of claims and backlog
 * are mutated, then each store is committed (lib/claimManager.ts,
 * lib/claimLeaseManager.ts, lib/operatorMutations.ts, lib/reconcile.ts).
 */
module LifecycleCommands {
  import opened Prelude
  import opened TaskContract
  import opened TaskStore
  import opened TaskInvariants
  import opened ProjectTasks
  import opened Claims
  import opened Reconcile
  import opened Lifecycle
  import opened LifecycleConsistency

  lemma OneEdit(store: Store, ref: Ref, row: Row)
    requires ref in store
    ensures Backlog(store, map[])[ref := row] == Backlog(store, map[ref := row])
  {
    hide ProjectRow;
  }

  lemma CommitMapRefuses(write: Writer, store: Store, rows: map<Ref, Row>, ref: Ref)
    requires ref in rows && !(ref in store && write(store[ref], rows[ref]).Ok?)
    ensures CommitMap(write, store, rows).Err?
  {
  }

  lemma CommitMapIs(write: Writer, store: Store, rows: map<Ref, Row>, next: Store)
    requires next.Keys == store.Keys && forall r :: r in rows ==> r in store && write(store[r], rows[r]).Ok?
    requires forall r :: r in store ==> next[r] == if r in rows then write(store[r], rows[r]).value else store[r]
    ensures CommitMap(write, store, rows) == Ok(next)
  {
    assert CommitMap(write, store, rows).Ok?;
    assert CommitMap(write, store, rows).value == next;
  }

  /** A failure blocks by policy; dispatch and session-start failures are not the task's own. */
  function FailureOf(block: bool, code: string): Failure {
    if block then BlockPolicy
    else if code in {"ERR_DISPATCH_FAILURE", "ERR_RUN_START_TIMEOUT", "ERR_SESSION_START_FAILED"} then Infrastructure
    else Counted
  }

  /** How a failed run changes its task's row. */
  method RecordFailure(row: Row, f: Failure, at: Time) returns (out: Row)
    ensures out == FailedRow(row, f, at)
  {
    out := row;
    if f == BlockPolicy {
      out := out.(status := Blocked);
    } else if f == Counted {
      var attempts := (if row.attempts.Some? then row.attempts.value else 0) + 1;
      out := out.(attempts := Some(attempts));
      if attempts >= MAX_ATTEMPTS {
        out := out.(status := Blocked, blockedReason := Some(TOO_MANY));
      } else {
        out := out.(status := Todo, requeueAfter := Some(at + RequeueBackoff(attempts)));
      }
    } else {
      out := out.(status := Todo);
    }
  }

  /** A project's state directory: the task database and the claims. */
  class ProjectState {
    var store: Store
    var claims: seq<RunClaim>

    ghost function View(): Life
      reads this
    {
      Life(store, claims)
    }

    constructor ()
      ensures View() == Life(map[], [])
    {
      store, claims := map[], [];
    }

    /** readBacklog: the projection of every task. */
    method ReadBacklog() returns (backlog: map<Ref, Row>)
      ensures backlog == Backlog(store, map[])
    {
      backlog := map r | r in store :: ProjectRow(r, store[r]);
    }

    /** commitBacklog: one transaction over the rows, rolled back by the first refusal. */
    method CommitBacklog(backlog: map<Ref, Row>, changes: map<Ref, Change>) returns (error: Option<Error>)
      requires forall r :: r in backlog ==> backlog[r].ref == r
      modifies this`store
      ensures var r := CommitMap(Committer(changes), old(store), backlog);
              (error.None? <==> r.Ok?) && store == (if r.Ok? then r.value else old(store))
    {
      hide CommitSlot, CommitMap;
      var saved, todo := store, backlog.Keys;
      ghost var write := Committer(changes);
      while todo != {}
        invariant todo <= backlog.Keys && store.Keys == saved.Keys
        invariant forall r :: r in backlog && r !in todo ==> r in saved && write(saved[r], backlog[r]).Ok?
        invariant forall r :: r in saved ==> store[r] == if r in backlog && r !in todo then write(saved[r], backlog[r]).value else saved[r]
        decreases |todo|
      {
        var ref :| ref in todo;
        var row := backlog[ref];
        assert ref in saved ==> write(saved[ref], row) == CommitSlot(saved[ref], row, ChangeOf(changes, row.ref));
        if ref !in store {
          CommitMapRefuses(write, saved, backlog, ref);
          store := saved;
          return Some(NotFound);
        }
        var next := CommitSlot(store[ref], row, ChangeOf(changes, row.ref));
        if next.Err? {
          CommitMapRefuses(write, saved, backlog, ref);
          store := saved;
          return Some(next.error);
        }
        store := store[ref := next.value];
        todo := todo - {ref};
      }
      CommitMapIs(write, saved, backlog, store);
      return None;
    }
  
    /** Commit a backlog that differs from the projection in the given rows. */
    method CommitEdited(backlog: map<Ref, Row>, ghost edits: map<Ref, Row>, changes: map<Ref, Change>) returns (error: Option<Error>)
      requires backlog == Backlog(store, edits) && forall r :: r in edits ==> edits[r].ref == r
      modifies this`store
      ensures var r := CommitEdits(old(store), edits, changes);
              (error.None? <==> r.Ok?) && store == (if r.Ok? then r.value else old(store))
    {
      error := CommitBacklog(backlog, changes);
    }

    /** startRun */
    method StartRun(run: RunId, agent: string) returns (error: Option<Error>)
      modifies this
      ensures View() == Complete(old(View()), StartOp(run, agent))
      ensures FindRun(old(claims), run).None? <==> error == Some(NotFound)
      ensures FindRun(old(claims), run).Some? ==>
                var c := old(claims)[FindRun(old(claims), run).value];
                error == Some(Conflict) <==> c.agent != agent || c.state in {ClaimDone, ClaimFailed}
    {
      hide ApplyWrites, ClaimsThenTasks, CommitEdits, Backlog, ProjectRow;
      ghost var s := View();
      NoWrites(s);
      var i := FindRun(claims, run);
      if i.None? { return Some(NotFound); }
      var claim := claims[i.value];
      if claim.agent != agent { return Some(Conflict); }
      if claim.state == ClaimInProgress { return None; }
      if claim.state != ClaimClaimed { return Some(Conflict); }
      var backlog := ReadBacklog();
      claims := claims[i.value := claim.(state := ClaimInProgress, inputSince := None)];
      ClaimWriteLands(s, claims);
      if claim.ref in store {
        ProjectedRow(s.store, claim.ref);
        var row := backlog[claim.ref].(status := InProgress);
        OneEdit(s.store, claim.ref, row);
        BothCommitsLand(s, claims, StartEdits(s, claim.ref), StartChanges(claim.ref, run));
        var refused := CommitEdited(backlog[claim.ref := row], StartEdits(s, claim.ref), map[claim.ref := Change(RunStart, None, Some(run), None)]);
        return if refused.Some? then Some(Constraint) else None;
      }
      return None;
    }

    /** finishRun */
    method FinishRun(run: RunId, agent: string, success: bool, block: bool, code: string, why: Option<string>, at: Time)
      returns (error: Option<Error>)
      modifies this
      ensures View() == Complete(old(View()), FinishOp(run, agent, success, FailureOf(block, code), why, at))
      ensures FindRun(old(claims), run).None? <==> error == Some(NotFound)
      ensures FindRun(old(claims), run).Some? ==> (error == Some(Conflict) <==> old(claims)[FindRun(old(claims), run).value].agent != agent)
    {
      hide ApplyWrites, ClaimsThenTasks, CommitEdits, Backlog, ProjectRow, FailedRow, FailureChange, FailureOf;
      var f := FailureOf(block, code);
      ghost var s := View();
      NoWrites(s);
      var i := FindRun(claims, run);
      if i.None? { return Some(NotFound); }
      var claim := claims[i.value];
      if claim.agent != agent { return Some(Conflict); }
      if claim.state == ClaimDone || claim.state == ClaimFailed { return None; }
      var backlog := ReadBacklog();
      claims := claims[i.value := claim.(state := if success then ClaimDone else ClaimFailed, inputSince := None)];
      ClaimWriteLands(s, claims);
      var refused := None;
      if claim.ref in store && (store[claim.ref].status == Claimed || store[claim.ref].status == InProgress) {
        if success {
          BothCommitsLand(s, claims, map[], map[]);
          refused := CommitEdited(backlog, map[], map[]);
        } else {
          ProjectedRow(s.store, claim.ref);
          var row := RecordFailure(backlog[claim.ref], f, at);
          FailedRowKeepsRef(backlog[claim.ref], f, at);
          OneEdit(s.store, claim.ref, row);
          BothCommitsLand(s, claims, FailureEdits(s, claim.ref, f, at), FailureChanges(s, claim.ref, f, at, run, why));
          refused := CommitEdited(backlog[claim.ref := row], FailureEdits(s, claim.ref, f, at),
            map[claim.ref := FailureChange(row, run, BlockReason(f, why))]);
        }
      }
      return if refused.Some? then Some(Constraint) else None;
    }

    /** expireRun */
    method ExpireRun(run: RunId) returns (error: Option<Error>)
      modifies this
      ensures View() == Complete(old(View()), ExpireRunOp(run))
      ensures FindRun(old(claims), run).None? ==> error == Some(NotFound)
      ensures FindRun(old(claims), run).Some? && old(claims)[FindRun(old(claims), run).value].state in {ClaimDone, ClaimFailed} ==> error == Some(Conflict)
    {
      hide ApplyWrites, ClaimsThenTasks, CommitEdits, Backlog, ProjectRow, FindRun;
      ghost var s := View();
      NoWrites(s);
      var i := FindRun(claims, run);
      if i.None? { return Some(NotFound); }
      var claim := claims[i.value];
      if claim.state == ClaimDone || claim.state == ClaimFailed { return Some(Conflict); }
      var backlog := ReadBacklog();
      if claim.ref !in store { return Some(NotFound); }
      if TerminalStatus(store[claim.ref].status) { return Some(Conflict); }
      ProjectedRow(store, claim.ref);
      var row := backlog[claim.ref].(status := Todo);
      OneEdit(store, claim.ref, row);
      var changes := ManualExpiry(claim.ref, run);
      claims := claims[i.value := claim.(state := ClaimFailed)];
      BothCommitsLand(s, claims, RequeueEdits(s, claim.ref), changes);
      error := CommitEdited(backlog[claim.ref := row], RequeueEdits(s, claim.ref), changes);
    }

    /** resetTask: walks the claims and fails the task's active ones. */
    method ResetTask(ref: Ref) returns (error: Option<Error>)
      modifies this
      ensures View() == Complete(old(View()), ResetOp(ref))
      ensures ref !in old(store) ==> error == Some(NotFound)
    {
      hide ApplyWrites, ClaimsThenTasks, CommitEdits, Backlog, ProjectRow;
      ghost var s := View();
      NoWrites(s);
      if ref !in store { return Some(NotFound); }
      var backlog := ReadBacklog();
      ProjectedRow(store, ref);
      var row := backlog[ref].(status := Todo, requeueAfter := None, blockedReason := None);
      OneEdit(store, ref, row);
      var out := claims;
      for i := 0 to |claims|
        invariant |out| == |claims|
        invariant forall j :: 0 <= j < |claims| ==>
                    out[j] == if j < i && ActiveOn(claims[j], ref) then claims[j].(state := ClaimFailed) else claims[j]
      {
        if claims[i].ref == ref && (claims[i].state == ClaimClaimed || claims[i].state == ClaimInProgress) {
          out := out[i := claims[i].(state := ClaimFailed)];
        }
      }
      assert out == DroppedClaims(s, ref);
      claims := out;
      BothCommitsLand(s, claims, ResetEdits(s, ref), ResetChanges(s, ref));
      error := CommitEdited(backlog[ref := row], ResetEdits(s, ref),
        if store[ref].status == Todo then map[] else map[ref := Change(OperatorReset, None, None, None)]);
    }

    /** cancelTask: filters the task's active claims out. */
    method CancelTask(ref: Ref, why: Option<string>) returns (error: Option<Error>)
      modifies this
      ensures View() == Complete(old(View()), CancelOp(ref, why))
      ensures ref !in old(store) ==> error == Some(NotFound)
    {
      hide ApplyWrites, ClaimsThenTasks, StoreWrite, CommitEdits, Backlog, ProjectRow;
      ghost var s := View();
      NoWrites(s);
      if ref !in store { return Some(NotFound); }
      if TerminalStatus(store[ref].status) { return None; }
      var kept, dropped := [], false;
      for i := 0 to |claims|
        invariant kept == RemoveActive(claims[..i], ref)
        invariant dropped <==> exists j :: 0 <= j < i && ActiveOn(claims[j], ref)
      {
        assert claims[..i + 1][..i] == claims[..i];
        if ActiveOn(claims[i], ref) { dropped := true; } else { kept := kept + [claims[i]]; }
      }
      assert claims[..|claims|] == claims;
      var backlog := ReadBacklog();
      ProjectedRow(store, ref);
      var row := backlog[ref].(status := TaskContract.Cancelled, blockedReason := None);
      OneEdit(store, ref, row);
      var changes := map[ref := Change(Cancel, why, None, None)];
      BothCommitsLand(s, kept, CancelEdits(s, ref), changes);
      OneCommitLands(s, CancelEdits(s, ref), changes);
      if dropped { claims := kept; }
      error := CommitEdited(backlog[ref := row], CancelEdits(s, ref), changes);
    }

    /** unblockTask */
    method UnblockTask(ref: Ref, why: Option<string>) returns (error: Option<Error>)
      modifies this
      ensures View() == Complete(old(View()), UnblockOp(ref, why))
      ensures ref in old(store) && old(store)[ref].status != Blocked ==> error == Some(Conflict)
    {
      hide ApplyWrites, StoreWrite, CommitEdits, Backlog, ProjectRow;
      ghost var s := View();
      NoWrites(s);
      if ref !in store { return Some(NotFound); }
      if store[ref].status != Blocked { return Some(Conflict); }
      var backlog := ReadBacklog();
      ProjectedRow(store, ref);
      var row := backlog[ref].(status := Todo, blockedReason := None);
      OneEdit(store, ref, row);
      var changes := map[ref := Change(Unblock, why, None, None)];
      OneCommitLands(s, UnblockEdits(s, ref), changes);
      error := CommitEdited(backlog[ref := row], UnblockEdits(s, ref), changes);
    }

    /** expireStaleLeases: every stale claim first, then every affected task. */
    method ExpireStaleLeases(now: Time, block: bool) returns (error: Option<Error>)
      modifies this
      ensures View() == Complete(old(View()), ExpireOp(now, block))
    {
      hide ApplyWrites, ClaimsThenTasks, CommitEdits, Backlog, ExpireEdits, ExpireChanges, RowsSoFar, ChangesSoFar, Expires;
      ghost var s := View();
      var f := if block then BlockPolicy else Counted;
      var backlog := ReadBacklog();
      var out, rows, changes, expired := ExpirePass(store, claims, backlog, now, f);
      NoWrites(s);
      error := None;
      if expired {
        EveryClaimSeen(s, f, now);
        ExpireRowsAreKeyed(s, f, now);
        claims := out;
        BothCommitsLand(s, claims, ExpireEdits(s, now, f), ExpireChanges(s, now, f));
        error := CommitEdited(rows, ExpireEdits(s, now, f), changes);
      }
    }

    /** claimTask: claim and bind in the task database, record the claim, or undo the first write. */
    method ClaimTask(ref: Ref, run: RunId, agent: string, now: Time, lease: Time, secondCommitFails: bool) returns (error: Option<Error>)
      modifies this
      ensures View() == Complete(old(View()), ClaimOp(ref, run, agent, now, lease, secondCommitFails))
      ensures ref !in old(store) ==> error == Some(NotFound)
      ensures error.None? ==> !secondCommitFails && TaskStore.ClaimTask(old(store), ref, run, agent).Ok?
    {
      hide TaskStore.ClaimTask, CompensateClaim;
      ghost var s := View();
      NoWrites(s);
      if ref !in store { return Some(NotFound); }
      if HasActive(claims, ref) { return Some(Conflict); }
      var claimed := TaskStore.ClaimTask(store, ref, run, agent);
      if claimed.Err? { return Some(claimed.error); }
      store := claimed.value;
      ghost var first := PutStore(store);
      if !secondCommitFails {
        claims := claims + [RunClaim(run, ref, agent, ClaimClaimed, now, Some(now + lease), None)];
        TwoWritesLand(s, first, PutClaims(claims));
        return None;
      }
      ClaimStaysKnown(s.store, ref, run, agent);
      var undone := CompensateClaim(store[ref], run);
      if undone.Ok? {
        store := store[ref := undone.value];
        TwoWritesLand(s, first, PutStore(store));
      } else {
        assert ApplyWrites(s, [first]) == ApplyWrite(s, first);
      }
      return Some(Constraint);
    }

    /** reconcileState in a project: repair, then commit the tasks and the claims that changed. */
    method Reconcile() returns (error: Option<Error>)
      requires DistinctRuns(claims)
      modifies this
      ensures View() == Complete(old(View()), ReconcileOp)
    {
      hide Winner, Complete, CommitEdits, Backlog, RepairedClaims, RepairedView, ReconcileChanges, ReconcileEdits, RepairEdits, DistinctRuns, CommitChanges, Repairs;
      ghost var s := View();
      var view := map r | r in store :: store[r].status;
      var order := ListRefs(view);
      var repaired, out, repairs := ReconcileState(Project, order, view, claims);
      assert view == Statuses(store);
      var edits := RepairEdits(store, repaired);
      RepairEditsAre(s);
      RepairChangesAre(s);
      EditsAreKeyed(s);
      ReconcileLands(s);
      error := None;
      if |edits| > 0 {
        error := CommitEdited(Backlog(store, edits), edits, CommitChanges(repairs));
        if error.Some? { return; }
      }
      if out != claims { claims := out; }
    }
  }

  /** The rows whose status a pass changed. */
  function RepairEdits(store: Store, repaired: View): map<Ref, Row> {
    map r | r in store && r in repaired && repaired[r] != store[r].status :: RowOf(store, r).(status := repaired[r])
  }

  lemma RepairEditsAre(s: Life)
    ensures RepairEdits(s.store, RepairedView(Project, Statuses(s.store), s.claims)) == ReconcileEdits(s)
  {
    hide Winner, ProjectRow;
  }

  function CommitChanges(repairs: map<Ref, Repair>): map<Ref, Change> {
    map r | r in repairs :: RepairChange(repairs[r])
  }

  /** The changes a pass records are the ones its commit needs. */
  lemma RepairChangesAre(s: Life)
    ensures CommitChanges(Repairs(Project, Statuses(s.store), s.claims)) == ReconcileChanges(s)
  {
    hide Winner, ProjectRow, RepairChange;
  }

  /** The loop of the expiry: it mutates claims, rows and changes together. */
  method ExpirePass(store: Store, claims: seq<RunClaim>, backlog: map<Ref, Row>, now: Time, f: Failure)
    returns (out: seq<RunClaim>, rows: map<Ref, Row>, changes: map<Ref, Change>, expired: bool)
    requires backlog == Backlog(store, map[])
    ensures out == ExpiredClaims(Life(store, claims), now)
    ensures rows == RowsSoFar(Life(store, claims), |claims|, f, now) && changes == ChangesSoFar(Life(store, claims), |claims|, f, now)
    ensures expired <==> exists j :: 0 <= j < |claims| && Expires(store, claims[j], now)
  {
    hide RowsSoFar, ChangesSoFar, FailedRow, Backlog, Expires, FailureChange, LeaseOver;
    ghost var s := Life(store, claims);
    out, rows, changes, expired := claims, backlog, map[], false;
    NothingExpiredYet(s, f, now);
    for i := 0 to |claims|
      invariant |out| == |claims|
      invariant forall j :: 0 <= j < |claims| ==> out[j] == if j < i then ExpiredClaim(store, claims[j], now) else claims[j]
      invariant rows == RowsSoFar(s, i, f, now) && changes == ChangesSoFar(s, i, f, now)
      invariant expired <==> exists j :: 0 <= j < i && Expires(store, claims[j], now)
    {
      ExpiryStep(s, i, f, now);
      var c := claims[i];
      if StaleLease(c, now) && !(c.ref in rows && (rows[c.ref].status == Done || rows[c.ref].status == Released)) {
        out := out[i := c.(state := ClaimFailed, inputSince := None)];
        expired := true;
        if c.ref in rows && (rows[c.ref].status == Claimed || rows[c.ref].status == InProgress) {
          var row := RecordFailure(rows[c.ref], f, now);
          rows := rows[c.ref := row];
          changes := changes[c.ref := FailureChange(row, c.run, Some(if c.inputSince.Some? then "ERR_INPUT_TIMEOUT" else "ERR_LEASE_EXPIRED"))];
        }
      }
    }
  }

  predicate StaleLease(c: RunClaim, now: Time) {
    ActiveClaim(c) && LeaseOver(c, now)
  }

  /** The task is active and one of the first `n` claims on it has expired. */
  predicate Hit(s: Life, n: nat, r: Ref, now: Time)
    requires n <= |s.claims|
  {
    r in s.store && Active(s.store[r].status) && FirstExpired(s.store, s.claims[..n], r, now).Some?
  }

  function RowsSoFar(s: Life, n: nat, f: Failure, now: Time): map<Ref, Row>
    requires n <= |s.claims|
  {
    map r | r in s.store :: if Hit(s, n, r, now) then ExpiredRow(s, r, f, now) else ProjectRow(r, s.store[r])
  }

  function ChangesSoFar(s: Life, n: nat, f: Failure, now: Time): map<Ref, Change>
    requires n <= |s.claims|
  {
    map r | r in s.store && Hit(s, n, r, now) :: ExpiryChange(ExpiredRow(s, r, f, now), FirstExpired(s.store, s.claims[..n], r, now))
  }

  lemma NothingExpiredYet(s: Life, f: Failure, now: Time)
    ensures RowsSoFar(s, 0, f, now) == Backlog(s.store, map[]) && ChangesSoFar(s, 0, f, now) == map[]
  {
    hide ProjectRow, ExpiredRow, FailureChange;
  }

  lemma FirstExpiredStep(store: Store, claims: seq<RunClaim>, i: nat, r: Ref, now: Time)
    requires i < |claims|
    ensures var before := FirstExpired(store, claims[..i], r, now);
            FirstExpired(store, claims[..i + 1], r, now) ==
            if before.Some? then before else if claims[i].ref == r && Expires(store, claims[i], now) then Some(claims[i]) else None
  {
    hide Expires;
    assert claims[..i + 1][..i] == claims[..i];
  }

  /** A row is active, or finished, only as long as its task is. */
  lemma RowStatusSoFar(s: Life, n: nat, f: Failure, now: Time, r: Ref)
    requires n <= |s.claims| && r in s.store
    ensures var rows := RowsSoFar(s, n, f, now);
            && (Finished(rows[r].status) <==> Finished(s.store[r].status))
            && (Active(rows[r].status) <==> Active(s.store[r].status) && !Hit(s, n, r, now))
            && (Active(rows[r].status) ==> rows[r] == RowOf(s.store, r))
  {
    hide ProjectedDefinition, FirstExpired, RequeueBackoff;
  }

  lemma HitStep(s: Life, i: nat, now: Time, r: Ref)
    requires i < |s.claims| && r in s.store
    ensures Hit(s, i + 1, r, now) == (Hit(s, i, r, now) || (r == s.claims[i].ref && Active(s.store[r].status) && Expires(s.store, s.claims[i], now)))
    ensures Hit(s, i, r, now) ==> FirstExpired(s.store, s.claims[..i + 1], r, now) == FirstExpired(s.store, s.claims[..i], r, now)
    ensures !Hit(s, i, r, now) && Hit(s, i + 1, r, now) ==> FirstExpired(s.store, s.claims[..i + 1], r, now) == Some(s.claims[i])
  {
    hide Expires, FirstExpired;
    FirstExpiredStep(s.store, s.claims, i, r, now);
  }

  lemma NoNewHit(s: Life, i: nat, f: Failure, now: Time)
    requires i < |s.claims| && forall r :: r in s.store ==> Hit(s, i + 1, r, now) == Hit(s, i, r, now)
    ensures RowsSoFar(s, i + 1, f, now) == RowsSoFar(s, i, f, now) && ChangesSoFar(s, i + 1, f, now) == ChangesSoFar(s, i, f, now)
  {
    hide ProjectRow, ExpiredRow, FailureChange, Hit;
    forall r | r in s.store ensures Hit(s, i, r, now) ==> FirstExpired(s.store, s.claims[..i + 1], r, now) == FirstExpired(s.store, s.claims[..i], r, now) {
      HitStep(s, i, now, r);
    }
  }

  lemma NewHit(s: Life, i: nat, f: Failure, now: Time)
    requires i < |s.claims| && s.claims[i].ref in s.store && !Hit(s, i, s.claims[i].ref, now) && Hit(s, i + 1, s.claims[i].ref, now)
    ensures var ref, row := s.claims[i].ref, ExpiredRow(s, s.claims[i].ref, f, now);
            && RowsSoFar(s, i + 1, f, now) == RowsSoFar(s, i, f, now)[ref := row]
            && ChangesSoFar(s, i + 1, f, now) == ChangesSoFar(s, i, f, now)[ref := ExpiryChange(row, Some(s.claims[i]))]
  {
    hide ProjectRow, ExpiredRow, FailureChange, Hit;
    forall r | r in s.store
      ensures r != s.claims[i].ref ==> Hit(s, i + 1, r, now) == Hit(s, i, r, now)
      ensures Hit(s, i, r, now) ==> FirstExpired(s.store, s.claims[..i + 1], r, now) == FirstExpired(s.store, s.claims[..i], r, now)
    {
      HitStep(s, i, now, r);
    }
    HitStep(s, i, now, s.claims[i].ref);
  }

  /** What one more claim adds: nothing, or the row and change of its still active task. */
  lemma ExpiryStep(s: Life, i: nat, f: Failure, now: Time)
    requires i < |s.claims|
    ensures var c, rows, changes := s.claims[i], RowsSoFar(s, i, f, now), ChangesSoFar(s, i, f, now);
            && (Expires(s.store, c, now) <==> StaleLease(c, now) && !(c.ref in rows && Finished(rows[c.ref].status)))
            && if Expires(s.store, c, now) && c.ref in rows && Active(rows[c.ref].status)
               then var row := FailedRow(rows[c.ref], f, now);
                    && RowsSoFar(s, i + 1, f, now) == rows[c.ref := row]
                    && ChangesSoFar(s, i + 1, f, now) == changes[c.ref := ExpiryChange(row, Some(c))]
               else RowsSoFar(s, i + 1, f, now) == rows && ChangesSoFar(s, i + 1, f, now) == changes
  {
    hide ProjectRow, FailedRow, ExpiryChange, FirstExpired, LeaseOver, Hit;
    var c := s.claims[i];
    forall r | r in s.store
      ensures Hit(s, i + 1, r, now) == (Hit(s, i, r, now) || (r == c.ref && Active(s.store[r].status) && Expires(s.store, c, now)))
    {
      HitStep(s, i, now, r);
    }
    if c.ref in s.store {
      RowStatusSoFar(s, i, f, now, c.ref);
      if Hit(s, i + 1, c.ref, now) && !Hit(s, i, c.ref, now) {
        NewHit(s, i, f, now);
      } else {
        HitImpliesActive(s, i, c.ref, now);
        NoNewHit(s, i, f, now);
      }
    } else {
      NoNewHit(s, i, f, now);
    }
  }

  lemma HitImpliesActive(s: Life, n: nat, r: Ref, now: Time)
    requires n <= |s.claims|
    ensures Hit(s, n, r, now) ==> r in s.store && Active(s.store[r].status)
  {
  }

  /** At the end the rows and changes are those of the specification. */
  lemma EveryClaimSeen(s: Life, f: Failure, now: Time)
    ensures RowsSoFar(s, |s.claims|, f, now) == Backlog(s.store, ExpireEdits(s, now, f))
    ensures ChangesSoFar(s, |s.claims|, f, now) == ExpireChanges(s, now, f)
  {
    hide ProjectRow, ExpiredRow, ExpiryChange, Expires;
    assert s.claims[..|s.claims|] == s.claims;
    forall r | r in s.store ensures Hit(s, |s.claims|, r, now) <==> r in ExpiredTasks(s, now) {
    }
  }

  lemma ExpireRowsAreKeyed(s: Life, f: Failure, now: Time)
    ensures forall r :: r in ExpireEdits(s, now, f) ==> ExpireEdits(s, now, f)[r].ref == r
  {
    hide FailedRow, ExpiredOn, ProjectedDefinition;
    forall r | r in ExpireEdits(s, now, f) ensures ExpireEdits(s, now, f)[r].ref == r {
      FailedRowKeepsRef(RowOf(s.store, r), f, now);
    }
  }

  lemma FailedRowKeepsRef(row: Row, f: Failure, at: Time)
    ensures FailedRow(row, f, at).ref == row.ref
  {
  }

  lemma ProjectedRow(store: Store, ref: Ref)
    requires ref in store
    ensures ref in Backlog(store, map[]) && Backlog(store, map[])[ref] == RowOf(store, ref) && RowOf(store, ref).ref == ref
  {
    hide ProjectedDefinition;
  }

  lemma TwoWritesLand(s: Life, a: Write, b: Write)
    ensures ApplyWrites(s, [a, b]) == ApplyWrite(ApplyWrite(s, a), b)
  {
    assert [a, b][1..] == [b] && [b][1..] == [];
    assert ApplyWrites(ApplyWrite(s, a), [b]) == ApplyWrite(ApplyWrite(s, a), b);
  }

  lemma ClaimStaysKnown(store: Store, ref: Ref, run: RunId, agent: string)
    requires TaskStore.ClaimTask(store, ref, run, agent).Ok?
    ensures ref in TaskStore.ClaimTask(store, ref, run, agent).value
  {
  }

  /** The task refs in some order, each once. */
  method ListRefs(view: View) returns (order: seq<Ref>)
    ensures (forall r :: r in order <==> r in view) && forall i, j :: 0 <= i < j < |order| ==> order[i] != order[j]
  {
    order := [];
    var todo := view.Keys;
    while todo != {}
      invariant todo <= view.Keys && forall r :: r in order <==> r in view && r !in todo
      invariant forall i, j :: 0 <= i < j < |order| ==> order[i] != order[j]
      decreases |todo|
    {
      var r :| r in todo;
      order := order + [r];
      todo := todo - {r};
    }
  }

  lemma EditsAreKeyed(s: Life)
    ensures forall r :: r in ReconcileEdits(s) ==> ReconcileEdits(s)[r].ref == r
  {
    hide Winner, ProjectedDefinition;
  }

  lemma ReconcileLands(s: Life)
    ensures var r, claims := CommitEdits(s.store, ReconcileEdits(s), ReconcileChanges(s)), RepairedClaims(Project, Statuses(s.store), s.claims);
            Complete(s, ReconcileOp) ==
            if |ReconcileEdits(s)| == 0 then Life(s.store, claims)
            else if r.Ok? then Life(r.value, claims) else s
  {
    hide CommitEdits, ReconcileEdits, ReconcileChanges, RepairedClaims;
    NoWrites(s);
    var r, claims := CommitEdits(s.store, ReconcileEdits(s), ReconcileChanges(s)), RepairedClaims(Project, Statuses(s.store), s.claims);
    ClaimWriteLands(s, claims);
    assert [] + [PutClaims(claims)] == [PutClaims(claims)];
    if r.Ok? {
      TwoWritesLand(s, PutStore(r.value), PutClaims(claims));
      assert [PutStore(r.value)] + [PutClaims(claims)] == [PutStore(r.value), PutClaims(claims)];
      assert [PutStore(r.value)] + [] == [PutStore(r.value)] && [PutStore(r.value)][1..] == [];
    }
  }
}
