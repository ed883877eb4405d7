/**
 * The task store as it runs: one transaction at a time on the tables of
 * runtime.db, the triggers included (lib/projectTaskStore.ts, lib/projectTasks.ts).
 */
module ProjectTaskStore {
  import opened Prelude
  import opened TaskContract
  import opened TaskStore
  import opened TaskInvariants
  import opened ProjectTasks
  import opened Claims

  /** UPDATE the bindings that match, one row at a time. */
  method UpdateBindings(runs: map<RunId, Binding>, matching: RunState -> bool, to: RunState) returns (out: map<RunId, Binding>)
    ensures out == map r | r in runs :: if matching(runs[r].state) then runs[r].(state := to) else runs[r]
  {
    out := runs;
    var todo := runs.Keys;
    while todo != {}
      invariant todo <= runs.Keys && out.Keys == runs.Keys
      invariant forall r :: r in runs ==> out[r] == if r !in todo && matching(runs[r].state) then runs[r].(state := to) else runs[r]
      decreases |todo|
    {
      var r :| r in todo;
      if matching(out[r].state) {
        out := out[r := out[r].(state := to)];
      }
      todo := todo - {r};
    }
  }

  /** The bindings after a transition: a start, then the end of the task's run. */
  method MoveBindings(runs: map<RunId, Binding>, from: Status, cause: Cause) returns (out: map<RunId, Binding>)
    ensures out == MovedRuns(runs, from, cause)
  {
    out := runs;
    if cause == RunStart {
      out := UpdateBindings(out, s => s == RunClaimed, RunInProgress);
    }
    var runState := RunStateFor(cause);
    if runState.Some? && (from == Claimed || from == InProgress) {
      out := UpdateBindings(out, s => ActiveRun(s), runState.value);
    }
  }

  lemma NothingWaits(deps: seq<Ref>, statuses: map<Ref, Status>)
    ensures Waiting(deps, statuses) == [] <==> forall j :: 0 <= j < |deps| ==> Satisfied(deps[j], statuses)
  {
    var w := Waiting(deps, statuses);
    if w != [] {
      assert w[0] in w;
    } else {
      assert forall j :: 0 <= j < |deps| ==> deps[j] in deps;
    }
  }

  /** Recording the claim does not touch any binding yet. */
  lemma ClaimKeepsRuns(store: Store, ref: Ref, run: RunId)
    requires ref in store
    ensures var moved := TaskStore.ApplyTransition(store[ref], TransitionInput(Claim, Claimed, None, Some(run), None));
            moved.Ok? ==> (UnusedRun(store[ref := moved.value], run) <==> UnusedRun(store, run))
  {
    hide TriggerAllows;
    var moved := TaskStore.ApplyTransition(store[ref], TransitionInput(Claim, Claimed, None, Some(run), None));
    if moved.Ok? {
      var next := store[ref := moved.value];
      assert moved.value.runs == store[ref].runs;
      assert forall r :: r in store ==> next[r].runs == store[r].runs;
    }
  }

  /** Only the binding of this run may differ, and only in its state. */
  ghost predicate SameButRun(before: Store, after: Store, run: RunId) {
    && after.Keys == before.Keys
    && (forall r :: r in before ==> after[r] == before[r].(runs := after[r].runs) && after[r].runs.Keys == before[r].runs.Keys)
    && (forall r, q :: r in before && q in before[r].runs && q != run ==> after[r].runs[q] == before[r].runs[q])
    && (forall r :: r in before && run in before[r].runs ==>
          after[r].runs[run] == before[r].runs[run].(state := after[r].runs[run].state))
  }

  function RunUpdated(s: Slot, run: RunId, matching: RunState -> bool, to: RunState): Slot {
    if run in s.runs && matching(s.runs[run].state) then s.(runs := s.runs[run := s.runs[run].(state := to)]) else s
  }

  lemma OneRunUpdated(before: Store, after: Store, run: RunId, matching: RunState -> bool, to: RunState)
    requires after.Keys == before.Keys && forall r :: r in before ==> after[r] == RunUpdated(before[r], run, matching, to)
    ensures SameButRun(before, after, run)
    ensures forall r :: r in after && run in after[r].runs ==>
              var was := before[r].runs[run]; after[r].runs[run] == if matching(was.state) then was.(state := to) else was
  {
  }

  /** The run is bound to this task and to no other. */
  predicate OnlyHere(store: Store, ref: Ref, run: RunId) {
    ref in store && run in store[ref].runs && forall r :: r in store && r != ref ==> run !in store[r].runs
  }

  function RequeueInput(run: RunId): TransitionInput {
    TransitionInput(FailureRequeue, Todo, Some("claim_not_committed"), Some(run), None)
  }

  lemma TransitionKeepsRunIds(s: Slot, t: TransitionInput)
    requires TaskStore.ApplyTransition(s, t).Ok?
    ensures TaskStore.ApplyTransition(s, t).value.runs.Keys == s.runs.Keys
  {
    hide TriggerAllows;
  }

  /** A store that differs only in a run bound here differs only here. */
  lemma OneSlotChanged(before: Store, after: Store, ref: Ref, run: RunId, slot: Slot)
    requires OnlyHere(before, ref, run) && SameButRun(before, after, run)
    requires slot == before[ref].(runs := slot.runs) && slot.runs.Keys == before[ref].runs.Keys && slot.runs[run] == after[ref].runs[run]
    requires forall q :: q in slot.runs && q != run ==> slot.runs[q] == before[ref].runs[q]
    ensures after == before[ref := slot]
  {
    forall r | r in before ensures after[r] == before[ref := slot][r] {
      assert after[r].runs == if r == ref then slot.runs else before[r].runs;
    }
  }

  /** The first active claim on the task (claims.find). */
  function FirstActive(claims: seq<RunClaim>, ref: Ref): (c: Option<RunClaim>)
    ensures c.Some? ==> c.value in claims && ActiveOn(c.value, ref)
    ensures c.None? ==> forall i :: 0 <= i < |claims| ==> !ActiveOn(claims[i], ref)
    decreases |claims|
  {
    if claims == [] then None else if ActiveOn(claims[0], ref) then Some(claims[0]) else FirstActive(claims[1..], ref)
  }

  /** Active claims name runs that were bound to their task. */
  predicate OwnRuns(store: Store, claims: seq<RunClaim>) {
    forall c :: c in claims && ActiveClaim(c) && c.ref in store ==> c.run in store[c.ref].runs
  }

  /** The snapshot has the task active with an active claim, and it is todo now. */
  predicate Restorable(store: Store, row: Row, claims: seq<RunClaim>) {
    Active(row.status) && row.ref in store && store[row.ref].status == Todo && FirstActive(claims, row.ref).Some?
  }

  /** The task is as the snapshot says, and the run of its claim is its active binding. */
  predicate Restored(store: Store, row: Row, claims: seq<RunClaim>) {
    && row.ref in store && store[row.ref].status == row.status
    && var c := FirstActive(claims, row.ref);
       c.Some? && c.value.run in store[row.ref].runs && BindingMatches(row.status, store[row.ref].runs[c.value.run].state)
  }

  predicate SameRunIds(before: Store, after: Store) {
    after.Keys == before.Keys && forall r :: r in before ==> after[r].runs.Keys == before[r].runs.Keys
  }

  predicate RowRestored(before: Store, after: Store, row: Row, claims: seq<RunClaim>) {
    if Restorable(before, row, claims) then Restored(after, row, claims)
    else row.ref in before && row.ref in after ==> after[row.ref] == before[row.ref]
  }

  lemma OtherRowStays(before: Store, was: Store, after: Store, row: Row, claims: seq<RunClaim>)
    requires RowRestored(before, was, row, claims) && was.Keys == before.Keys && after.Keys == before.Keys
    requires row.ref in before ==> after[row.ref] == was[row.ref]
    ensures RowRestored(before, after, row, claims)
  {
  }

  lemma SameRunsAreOwn(before: Store, after: Store, claims: seq<RunClaim>)
    requires OwnRuns(before, claims) && SameRunIds(before, after)
    ensures OwnRuns(after, claims)
  {
  }

  lemma RunIsOnlyHere(store: Store, ref: Ref, run: RunId)
    requires StoreInv(store) && ref in store && run in store[ref].runs
    ensures OnlyHere(store, ref, run)
  {
    hide SlotInv;
    forall r | r in store && r != ref ensures run !in store[r].runs {
      assert NoSharedRun(store[r], store[ref]);
    }
  }

  /** What restoring a bound run makes of a todo task. */
  lemma RestoredSlot(store: Store, ref: Ref, run: RunId, started: bool)
    requires StoreInv(store) && ref in store && store[ref].status == Todo && run in store[ref].runs
    ensures RestoreRun(store[ref], run, started).Ok?
    ensures var t := RestoreRun(store[ref], run, started).value;
            && SlotInv(t) && t.runs.Keys == store[ref].runs.Keys && t.status == (if started then InProgress else Claimed)
            && BindingMatches(t.status, t.runs[run].state)
  {
    hide StoreInv;
    StoredSlotIsSound(store, ref);
    RestoreOfOwnRun(store[ref], run, started);
    RestoredState(store[ref], run, started);
  }

  lemma StoredSlotIsSound(store: Store, ref: Ref)
    requires StoreInv(store) && ref in store
    ensures SlotInv(store[ref])
  {
  }

  lemma RestoredState(s: Slot, run: RunId, started: bool)
    requires s.status == Todo && run in s.runs && RestoreRun(s, run, started).Ok?
    ensures var t := RestoreRun(s, run, started).value;
            run in t.runs && t.status == (if started then InProgress else Claimed) && BindingMatches(t.status, t.runs[run].state)
  {
  }

  class Tables {
    var tasks: Store

    constructor ()
      ensures tasks == map[]
    {
      tasks := map[];
    }

    /** Whether the task already recorded a transition with this key. */
    method KeyRecorded(ref: Ref, key: Option<nat>) returns (found: bool)
      requires ref in tasks
      ensures found <==> UsesKey(tasks[ref].log, key)
    {
      found := false;
      if key.None? { return; }
      var log := tasks[ref].log;
      for i := 0 to |log|
        invariant !found && forall j :: 0 <= j < i ==> log[j].key != key
      {
        if log[i].key == key { return true; }
      }
    }

    /** applyTransition: insert the log row, let the trigger move the task, then move its bindings. */
    method ApplyTransition(ref: Ref, t: TransitionInput) returns (error: Option<Error>)
      modifies this
      ensures ref !in old(tasks) ==> error == Some(NotFound) && tasks == old(tasks)
      ensures ref in old(tasks) ==>
                var r := TaskStore.ApplyTransition(old(tasks)[ref], t);
                (if r.Ok? then error.None? else error == Some(r.error)) && tasks == PutSlot(old(tasks), ref, r)
    {
      hide TriggerAllows, MovedRuns;
      if ref !in tasks { return Some(NotFound); }
      var task := tasks[ref];
      var repeated := KeyRecorded(ref, t.key);
      if repeated {
        assert tasks[ref := task] == tasks;
        return None;
      }
      if !TriggerAllows(task.log, task.status, t.to, t.cause) { return Some(InvalidTransition); }
      if t.to == Blocked && (t.reason.None? || Blank(t.reason.value)) { return Some(Constraint); }
      tasks := tasks[ref := task.(log := task.log + [Entry(task.status, t.to, t.cause, t.reason, t.run, t.key)],
                                  status := t.to, blockedReason := if t.to == Blocked then t.reason else None)];
      var moved := MoveBindings(tasks[ref].runs, task.status, t.cause);
      tasks := tasks[ref := tasks[ref].(runs := moved)];
      return None;
    }

    /** The dependencies of a task that are not finished, in listing order. */
    method OpenDependencies(ref: Ref) returns (open: bool)
      requires ref in tasks
      ensures open <==> Waiting(tasks[ref].deps, Statuses(tasks)) != []
    {
      var deps, statuses := tasks[ref].deps, Statuses(tasks);
      open := false;
      for i := 0 to |deps|
        invariant !open && forall j :: 0 <= j < i ==> Satisfied(deps[j], statuses)
      {
        if !(deps[i] in tasks && (tasks[deps[i]].status == Done || tasks[deps[i]].status == Released)) {
          assert deps[i] in Waiting(deps, statuses);
          return true;
        }
      }
      NothingWaits(deps, statuses);
    }

    /** bindRun: close what is left open, then insert the binding; run ids are unique. */
    method BindRun(ref: Ref, run: RunId, agent: Option<string>) returns (error: Option<Error>)
      requires ref in tasks
      modifies this
      ensures if UnusedRun(old(tasks), run)
              then error.None? && tasks == old(tasks)[ref := TaskStore.BindRun(old(tasks)[ref], run, agent)]
              else error == Some(Constraint) && tasks == old(tasks)
    {
      if exists r :: r in tasks && run in tasks[r].runs { return Some(Constraint); }
      var task := tasks[ref];
      var closed := UpdateBindings(task.runs, s => ActiveRun(s), RunFailed);
      assert closed == CloseRuns(task.runs, RunFailed);
      tasks := tasks[ref := task.(runs := closed[run := Binding(|task.revisions|, agent, RunClaimed)])];
      return None;
    }

    /** claimTask: check, record the claim, bind the run; any refusal rolls everything back. */
    method ClaimTask(ref: Ref, run: RunId, agent: string) returns (error: Option<Error>)
      modifies this
      ensures var r := TaskStore.ClaimTask(old(tasks), ref, run, agent);
              if r.Ok? then error.None? && tasks == r.value else error == Some(r.error) && tasks == old(tasks)
    {
      hide Waiting, TaskStore.ApplyTransition, TaskStore.BindRun, UnusedRun;
      if ref !in tasks { return Some(NotFound); }
      var saved, task := tasks, tasks[ref];
      if task.status != Todo { return Some(Conflict); }
      if task.dispatch.owner.Some? && task.dispatch.owner.value != "" && task.dispatch.owner.value != agent { return Some(Conflict); }
      var open := OpenDependencies(ref);
      if open { return Some(Conflict); }
      ClaimKeepsRuns(tasks, ref, run);
      error := ApplyTransition(ref, TransitionInput(Claim, Claimed, None, Some(run), None));
      if error.Some? { return; }
      error := BindRun(ref, run, Some(agent));
      if error.Some? { tasks := saved; }
    }

    /** UPDATE the binding of one run, whichever task it belongs to, if its state matches. */
    method UpdateRun(run: RunId, matching: RunState -> bool, to: RunState)
      modifies this
      ensures SameButRun(old(tasks), tasks, run)
      ensures forall r :: r in tasks && run in tasks[r].runs ==>
                var was := old(tasks)[r].runs[run]; tasks[r].runs[run] == if matching(was.state) then was.(state := to) else was
    {
      hide RunUpdated, SameButRun;
      var before, todo := tasks, tasks.Keys;
      while todo != {}
        invariant todo <= before.Keys && tasks.Keys == before.Keys
        invariant forall r :: r in before ==> tasks[r] == if r in todo then before[r] else RunUpdated(before[r], run, matching, to)
        decreases |todo|
      {
        var r :| r in todo;
        tasks := tasks[r := RunUpdated(tasks[r], run, matching, to)];
        todo := todo - {r};
      }
      OneRunUpdated(before, tasks, run, matching, to);
    }

    /** reactivateRun: the run's binding is claimed again; every other binding and row stays. */
    method ReactivateRun(run: RunId)
      modifies this
      ensures SameButRun(old(tasks), tasks, run)
      ensures forall r :: r in tasks && run in tasks[r].runs ==> tasks[r].runs[run].state == RunClaimed
    {
      UpdateRun(run, _ => true, RunClaimed);
    }

    /** abandonRun: the run is not active any more; a binding that had already ended keeps how it ended. */
    method AbandonRun(run: RunId)
      modifies this
      ensures SameButRun(old(tasks), tasks, run)
      ensures forall r :: r in tasks && run in tasks[r].runs ==>
                !ActiveRun(tasks[r].runs[run].state)
                && tasks[r].runs[run].state == if ActiveRun(old(tasks)[r].runs[run].state) then RunFailed else old(tasks)[r].runs[run].state
    {
      UpdateRun(run, s => ActiveRun(s), RunFailed);
    }

    /** The compensation of a claim that was not recorded: requeue and close the binding, in one transaction. */
    method CompensateClaim(ref: Ref, run: RunId) returns (error: Option<Error>)
      requires ref in tasks
      modifies this
      ensures OnlyHere(old(tasks), ref, run) ==>
                var r := TaskStore.CompensateClaim(old(tasks)[ref], run);
                (error.None? <==> r.Ok?) && tasks == PutSlot(old(tasks), ref, r)
    {
      hide TaskStore.ApplyTransition;
      ghost var before := tasks;
      error := ApplyTransition(ref, RequeueInput(run));
      if error.Some? { return; }
      ghost var moved := TaskStore.ApplyTransition(before[ref], RequeueInput(run)).value;
      ghost var mid := tasks;
      TransitionKeepsRunIds(before[ref], RequeueInput(run));
      AbandonRun(run);
      if OnlyHere(before, ref, run) {
        OneSlotChanged(mid, tasks, ref, run, TaskStore.AbandonRun(moved, run));
      }
    }

    /** One task of a rolled back reset: claim it again for its run, reopen the binding, and start it if it had started. */
    method RestoreTask(ref: Ref, run: RunId, started: bool) returns (error: Option<Error>)
      requires ref in tasks && tasks[ref].status == Todo
      modifies this
      ensures OnlyHere(old(tasks), ref, run) ==>
                var r := RestoreRun(old(tasks)[ref], run, started);
                (error.None? <==> r.Ok?) && (r.Ok? ==> tasks == old(tasks)[ref := r.value])
    {
      hide TaskStore.ApplyTransition;
      ghost var before := tasks;
      error := ApplyTransition(ref, ClaimInput(run, ROLLBACK));
      if error.Some? { return; }
      ghost var claimed := TaskStore.ApplyTransition(before[ref], ClaimInput(run, ROLLBACK)).value;
      ghost var mid := tasks;
      TransitionKeepsRunIds(before[ref], ClaimInput(run, ROLLBACK));
      ReactivateRun(run);
      if OnlyHere(before, ref, run) {
        OneSlotChanged(mid, tasks, ref, run, TaskStore.ReactivateRun(claimed, run));
      }
      if started {
        error := ApplyTransition(ref, StartInput(run));
      }
    }

    /** One row of the snapshot: its task is restored if it can be, and nothing else changes. */
    method RestoreRow(row: Row, claims: seq<RunClaim>)
      requires StoreInv(tasks) && OwnRuns(tasks, claims)
      modifies this
      ensures StoreInv(tasks) && SameRunIds(old(tasks), tasks)
      ensures if Restorable(old(tasks), row, claims)
              then Restored(tasks, row, claims) && forall r :: r in tasks && r != row.ref ==> tasks[r] == old(tasks)[r]
              else tasks == old(tasks)
    {
      hide StoreInv, RestoreRun, SlotInv, OnlyHere;
      var claim := FirstActive(claims, row.ref);
      if (row.status == Claimed || row.status == InProgress) && row.ref in tasks && tasks[row.ref].status == Todo && claim.Some? {
        ghost var was := tasks;
        var run := claim.value.run;
        RunIsOnlyHere(tasks, row.ref, run);
        RestoredSlot(tasks, row.ref, run, row.status == InProgress);
        var error := RestoreTask(row.ref, run, row.status == InProgress);
        SlotUpdateKeepsStore(was, row.ref, tasks[row.ref]);
      }
    }

    /**
     * restoreBacklogStatuses: every task that a session reset returned to todo is
     * back in the status of the snapshot, and its claim's run is its active
     * binding again; every other task is untouched.
     */
    method RestoreBacklogStatuses(rows: seq<Row>, claims: seq<RunClaim>)
      requires StoreInv(tasks) && DistinctRefs(rows) && OwnRuns(tasks, claims)
      modifies this
      ensures StoreInv(tasks) && SameRunIds(old(tasks), tasks)
      ensures forall i :: 0 <= i < |rows| ==>
                if Restorable(old(tasks), rows[i], claims) then Restored(tasks, rows[i], claims)
                else rows[i].ref in tasks ==> tasks[rows[i].ref] == old(tasks)[rows[i].ref]
      ensures forall r :: r in tasks && (forall i :: 0 <= i < |rows| ==> rows[i].ref != r) ==> tasks[r] == old(tasks)[r]
    {
      hide StoreInv, OwnRuns;
      ghost var before := tasks;
      for i := 0 to |rows|
        invariant StoreInv(tasks) && SameRunIds(before, tasks)
        invariant forall j :: 0 <= j < i ==> RowRestored(before, tasks, rows[j], claims)
        invariant forall r :: r in tasks && (forall j :: 0 <= j < i ==> rows[j].ref != r) ==> tasks[r] == before[r]
      {
        ghost var was := tasks;
        SameRunsAreOwn(before, was, claims);
        RestoreRow(rows[i], claims);
        assert rows[i].ref in was ==> was[rows[i].ref] == before[rows[i].ref];
        forall j | 0 <= j < i ensures RowRestored(before, tasks, rows[j], claims) {
          OtherRowStays(before, was, tasks, rows[j], claims);
        }
      }
    }

    /** createTask */
    method CreateTask(ref: Ref, spec: Spec) returns (error: Option<Error>)
      modifies this
      ensures var r := TaskStore.CreateTask(old(tasks), ref, spec);
              if r.Ok? then error.None? && tasks == r.value else error == Some(r.error) && tasks == old(tasks)
    {
      if Blank(spec.title) { return Some(InvalidInput); }
      if ref in spec.deps { return Some(InvalidInput); }
      if ref in tasks { return Some(Conflict); }
      tasks := tasks[ref := NewSlot(spec.(deps := SortRefs(spec.deps)))];
      return None;
    }

    /** reviseTask: compare, refuse a stale base, or add a revision and refresh the columns. */
    method ReviseTask(ref: Ref, expected: int, c: Changes, heading: Option<string>) returns (r: Result<bool, Error>)
      requires ref in tasks ==> tasks[ref].revisions != []
      modifies this
      ensures ref !in old(tasks) ==> r.Err? && tasks == old(tasks)
      ensures ref in old(tasks) && old(tasks)[ref].revisions != [] ==>
                var e := TaskStore.ReviseTask(ref, old(tasks)[ref], expected, c, heading);
                if e.Ok? then r == Ok(e.value.1) && tasks == old(tasks)[ref := e.value.0] else r == Err(e.error) && tasks == old(tasks)
    {
      hide RevisionMetadata, Blank, EditedSpec, SortRefs;
      if expected < 1 { return Err(InvalidInput); }
      if ref !in tasks { return Err(NotFound); }
      var task := tasks[ref];
      var latest := task.revisions[|task.revisions| - 1];
      var deps := task.deps;
      if c.deps.Some? {
        if ref in c.deps.value { return Err(InvalidInput); }
        deps := SortRefs(c.deps.value);
      }
      var next := EditedSpec(task, c, heading, deps);
      if Blank(next.title) { return Err(InvalidInput); }
      if RevisionMetadata(next) == latest.metadata && next.title == task.title && next.body == latest.body {
        assert tasks[ref := task] == tasks;
        return Ok(false);
      }
      if latest.number != expected { return Err(RevisionConflict(latest.number)); }
      task := task.(revisions := task.revisions + [Revision(latest.number + 1, next.title, next.body, RevisionMetadata(next))]);
      task := task.(title := next.title, priority := next.priority, provider := next.provider, deps := next.deps);
      tasks := tasks[ref := task];
      return Ok(true);
    }

    /** commitBacklog: every row in one transaction; the first refusal rolls all of them back. */
    method CommitBacklog(rows: seq<Row>, changes: map<Ref, Change>) returns (error: Option<Error>)
      modifies this
      ensures var r := CommitRows(old(tasks), rows, changes);
              if r.Ok? then error.None? && tasks == r.value else error == Some(r.error) && tasks == old(tasks)
    {
      hide CommitSlot, WriteRows;
      var saved := tasks;
      ghost var write := Committer(changes);
      WriteNothing(write, saved);
      for i := 0 to |rows|
        invariant WriteRows(write, saved, rows[..i]) == Ok(tasks)
      {
        var row := rows[i];
        WriteOneMore(write, saved, rows, i);
        if row.ref !in tasks {
          WriteFails(write, saved, rows, i + 1);
          tasks := saved;
          return Some(NotFound);
        }
        var next := CommitSlot(tasks[row.ref], row, ChangeOf(changes, row.ref));
        if next.Err? {
          WriteFails(write, saved, rows, i + 1);
          tasks := saved;
          return Some(next.error);
        }
        tasks := tasks[row.ref := next.value];
      }
      assert rows[..|rows|] == rows;
      return None;
    }
  }

  lemma WriteNothing(write: Writer, store: Store)
    ensures WriteRows(write, store, []) == Ok(store)
  {
  }

  lemma WriteOneMore(write: Writer, store: Store, rows: seq<Row>, i: nat)
    requires i < |rows| && WriteRows(write, store, rows[..i]).Ok?
    ensures var before, row := WriteRows(write, store, rows[..i]).value, rows[i];
            WriteRows(write, store, rows[..i + 1]) ==
            if row.ref !in before then Err(NotFound)
            else if write(before[row.ref], row).Err? then Err(write(before[row.ref], row).error)
            else Ok(before[row.ref := write(before[row.ref], row).value])
  {
    assert rows[..i + 1][..i] == rows[..i];
  }

  /** An error is final: the rows after it do not matter. */
  lemma {:induction false} WriteFails(write: Writer, store: Store, rows: seq<Row>, i: nat)
    requires i <= |rows| && WriteRows(write, store, rows[..i]).Err?
    ensures WriteRows(write, store, rows) == WriteRows(write, store, rows[..i])
    decreases |rows|
  {
    if i < |rows| {
      assert rows[..|rows| - 1][..i] == rows[..i];
      WriteFails(write, store, rows[..|rows| - 1], i);
    } else {
      assert rows[..i] == rows;
    }
  }
}
