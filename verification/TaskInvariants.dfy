/**
 * What holds in every reachable task store: the status is the replay of the
 * transition log, run bindings agree with the status, and the revision history
 * is linear and immutable.
 */
module TaskInvariants {
  import opened Prelude
  import opened TaskContract
  import opened TaskStore

  /** The trigger and the contract state the same rule; an import must also come first. */
  lemma TriggerIsTheContract(log: seq<Entry>, from: Status, to: Status, cause: Cause)
    ensures TriggerAllows(log, from, to, cause) <==> CanTransition(from, to, cause) && (cause == MigrationImport ==> log == [])
  {
  }

  // ----- the log --------------------------------------------------------------------------

  /** The status before entry `i`. */
  function StatusBefore(log: seq<Entry>, i: int): Status
    requires 0 <= i < |log|
  {
    if i == 0 then Todo else log[i - 1].to
  }

  predicate LogChain(log: seq<Entry>) {
    && (forall i :: 0 <= i < |log| ==> CanTransition(log[i].from, log[i].to, log[i].cause))
    && (forall i :: 0 <= i < |log| ==> log[i].from == StatusBefore(log, i))
    && (forall i :: 0 < i < |log| ==> log[i].cause != MigrationImport)
  }

  /** Replaying the log from the initial status. */
  function Replay(log: seq<Entry>): Status {
    if log == [] then Todo else log[|log| - 1].to
  }

  lemma LogExtends(log: seq<Entry>, e: Entry)
    requires LogChain(log) && e.from == Replay(log) && CanTransition(e.from, e.to, e.cause)
    requires e.cause == MigrationImport ==> log == []
    ensures LogChain(log + [e]) && Replay(log + [e]) == e.to
  {
    hide CanTransition;
    var more := log + [e];
    forall i | 0 <= i < |more| ensures more[i].from == StatusBefore(more, i) {
      if i < |log| {
        assert log[i].from == StatusBefore(log, i);
        assert StatusBefore(more, i) == StatusBefore(log, i);
      }
    }
  }

  /** A task is done only through a merge of an in-progress run, or as its first imported entry. */
  lemma DoneNeedsAMerge(log: seq<Entry>, i: int)
    requires LogChain(log) && 0 <= i < |log| && log[i].to == Done
    ensures (log[i].cause == MergeSucceeded && log[i].from == InProgress) || (i == 0 && log[i].cause == MigrationImport)
  {
  }

  /** The last entry of a done task is its merge, or the task was imported as done. */
  predicate DoneEvidence(log: seq<Entry>)
    requires log != []
  {
    log[|log| - 1].cause == MergeSucceeded || (|log| == 1 && log[0].cause == MigrationImport)
  }

  // ----- bindings ---------------------------------------------------------------------------

  predicate BindingMatches(status: Status, b: RunState) {
    (status == Claimed && b == RunClaimed) || (status == InProgress && b == RunInProgress)
  }

  /** Claimed or in progress exactly when one binding is active, and it is in the same state. */
  ghost predicate Coherent(s: Slot) {
    && (forall r :: r in s.runs && ActiveRun(s.runs[r].state) ==> BindingMatches(s.status, s.runs[r].state))
    && (forall r, q :: r in s.runs && q in s.runs && ActiveRun(s.runs[r].state) && ActiveRun(s.runs[q].state) ==> r == q)
    && (Active(s.status) ==> exists r :: r in s.runs && ActiveRun(s.runs[r].state))
  }

  // ----- revisions --------------------------------------------------------------------------

  predicate Linear(s: Slot) {
    && s.revisions != []
    && (forall i :: 0 <= i < |s.revisions| ==> s.revisions[i].number == i + 1)
    && (forall r :: r in s.runs ==> 1 <= s.runs[r].revision <= |s.revisions|)
  }

  /** The indexed columns equal the latest revision. */
  predicate ColumnsMatch(s: Slot)
    requires s.revisions != []
  {
    var latest := s.revisions[|s.revisions| - 1];
    && s.title == latest.title
    && Lookup(latest.metadata, PRIORITY) == Some(PriorityJson(s.priority))
    && Lookup(latest.metadata, PROVIDER) == Some(ProviderJson(s.provider))
    && Lookup(latest.metadata, DEPENDS) == Some(Refs(s.deps))
  }

  ghost predicate SlotInv(s: Slot) {
    && LogChain(s.log) && s.status == Replay(s.log)
    && Coherent(s)
    && (s.status == Blocked <==> s.blockedReason.Some?)
    && Linear(s) && ColumnsMatch(s)
  }

  /** Revisions and log entries only accumulate, and a bound run keeps its revision. */
  ghost predicate Extends(s: Slot, t: Slot) {
    && s.revisions <= t.revisions && s.log <= t.log
    && forall run :: run in s.runs ==> run in t.runs && t.runs[run].revision == s.runs[run].revision
  }

  predicate NoSharedRun(s: Slot, t: Slot) {
    s.runs.Keys !! t.runs.Keys
  }

  ghost predicate StoreInv(store: Store) {
    && (forall r :: r in store ==> SlotInv(store[r]))
    && (forall r, q :: r in store && q in store && r != q ==> NoSharedRun(store[r], store[q]))
  }

  // ----- metadata -----------------------------------------------------------------------------

  function Keys(m: Metadata): (ks: seq<string>)
    ensures |ks| == |m| && forall i :: 0 <= i < |m| ==> ks[i] == m[i].0
  {
    seq(|m|, i requires 0 <= i < |m| => m[i].0)
  }

  lemma KeysInFront(e: (string, Json), rest: Metadata)
    ensures Keys([e] + rest) == [e.0] + Keys(rest)
  {
  }

  lemma {:induction false} PutKeyKeys(m: Metadata, key: string, v: Json)
    ensures Keys(PutKey(m, key, v)) == if key in Keys(m) then Keys(m) else Keys(m) + [key]
    decreases |m|
  {
    if m == [] {
      assert Keys([(key, v)]) == Keys(m) + [key];
    } else {
      hide Keys;
      var rest := m[1..];
      PutKeyKeys(rest, key, v);
      assert m == [m[0]] + rest;
      KeysInFront(m[0], rest);
      KeysInFront((key, v), rest);
      KeysInFront(m[0], PutKey(rest, key, v));
      assert [m[0].0] + (Keys(rest) + [key]) == ([m[0].0] + Keys(rest)) + [key];
    }
  }

  lemma {:induction false} PutKeyLookup(m: Metadata, key: string, v: Json, other: string)
    ensures Lookup(PutKey(m, key, v), other) == if other == key then Some(v) else Lookup(m, other)
    decreases |m|
  {
    if m != [] {
      PutKeyLookup(m[1..], key, v, other);
      assert m[0].0 == key ==> ([(key, v)] + m[1..])[1..] == m[1..];
      assert ([m[0]] + PutKey(m[1..], key, v))[1..] == PutKey(m[1..], key, v);
    }
  }

  lemma {:induction false} PutKeyBase(m: Metadata, key: string, v: Json)
    requires Indexed(key)
    ensures BaseMetadata(PutKey(m, key, v)) == BaseMetadata(m)
    decreases |m|
  {
    hide Indexed;
    if m != [] {
      PutKeyBase(m[1..], key, v);
      assert m[0].0 == key ==> ([(key, v)] + m[1..])[1..] == m[1..];
      assert ([m[0]] + PutKey(m[1..], key, v))[1..] == PutKey(m[1..], key, v);
    }
  }

  lemma PutKeyFacts(m: Metadata, key: string, v: Json, other: string)
    requires Indexed(key)
    ensures Keys(PutKey(m, key, v)) == if key in Keys(m) then Keys(m) else Keys(m) + [key]
    ensures Lookup(PutKey(m, key, v), other) == if other == key then Some(v) else Lookup(m, other)
    ensures BaseMetadata(PutKey(m, key, v)) == BaseMetadata(m)
  {
    hide Keys, PutKey, Lookup, BaseMetadata, Indexed;
    PutKeyKeys(m, key, v);
    PutKeyLookup(m, key, v, other);
    PutKeyBase(m, key, v);
  }

  lemma RevisionMetadataFacts(s: Spec)
    ensures Lookup(RevisionMetadata(s), PRIORITY) == Some(PriorityJson(s.priority))
    ensures Lookup(RevisionMetadata(s), PROVIDER) == Some(ProviderJson(s.provider))
    ensures Lookup(RevisionMetadata(s), DEPENDS) == Some(Refs(s.deps))
    ensures BaseMetadata(RevisionMetadata(s)) == BaseMetadata(s.metadata)
  {
    var one := PutKey(s.metadata, PRIORITY, PriorityJson(s.priority));
    var two := PutKey(one, PROVIDER, ProviderJson(s.provider));
    PutKeyFacts(s.metadata, PRIORITY, PriorityJson(s.priority), PRIORITY);
    PutKeyFacts(one, PROVIDER, ProviderJson(s.provider), PRIORITY);
    PutKeyFacts(one, PROVIDER, ProviderJson(s.provider), PROVIDER);
    PutKeyFacts(two, DEPENDS, Refs(s.deps), PRIORITY);
    PutKeyFacts(two, DEPENDS, Refs(s.deps), PROVIDER);
    PutKeyFacts(two, DEPENDS, Refs(s.deps), DEPENDS);
  }

  // ----- the operations keep the slot invariant -------------------------------------------------

  lemma MovedRunsAreCoherent(s: Slot, t: TransitionInput)
    requires Coherent(s) && TriggerAllows(s.log, s.status, t.to, t.cause) && t.cause != Claim
    ensures Coherent(s.(status := t.to, runs := MovedRuns(s.runs, s.status, t.cause)))
  {
    var moved := MovedRuns(s.runs, s.status, t.cause);
    if Active(t.to) {
      assert t.cause == RunStart;
      var r :| r in s.runs && ActiveRun(s.runs[r].state);
      assert ActiveRun(moved[r].state);
    }
  }

  /** What any recorded transition does apart from the bindings. */
  lemma TransitionKeepsLog(s: Slot, t: TransitionInput)
    requires LogChain(s.log) && s.status == Replay(s.log) && !UsesKey(s.log, t.key) && ApplyTransition(s, t).Ok?
    ensures var d := ApplyTransition(s, t).value;
            && LogChain(d.log) && d.status == t.to == Replay(d.log) && s.log <= d.log
            && (d.status == Blocked <==> d.blockedReason.Some?)
            && d == s.(status := d.status, blockedReason := d.blockedReason, log := d.log, runs := MovedRuns(s.runs, s.status, t.cause))
  {
    TriggerIsTheContract(s.log, s.status, t.to, t.cause);
    LogExtends(s.log, Entry(s.status, t.to, t.cause, t.reason, t.run, t.key));
  }

  lemma MovedRunsKeepPins(runs: map<RunId, Binding>, from: Status, cause: Cause)
    ensures var moved := MovedRuns(runs, from, cause);
            moved.Keys == runs.Keys && forall r :: r in runs ==> moved[r].revision == runs[r].revision
  {
  }

  lemma TransitionKeepsSlot(s: Slot, t: TransitionInput)
    requires SlotInv(s) && t.cause != Claim && ApplyTransition(s, t).Ok?
    ensures SlotInv(ApplyTransition(s, t).value)
    ensures ApplyTransition(s, t).value.runs.Keys == s.runs.Keys
    ensures ApplyTransition(s, t).value.revisions == s.revisions
  {
    hide LogChain, TriggerAllows;
    if !UsesKey(s.log, t.key) {
      TransitionKeepsLog(s, t);
      MovedRunsAreCoherent(s, t);
      MovedRunsKeepPins(s.runs, s.status, t.cause);
    }
  }

  /** A bare claim transition binds no run, so it is the one cause that breaks the agreement. */
  lemma BareTransitionKeepsCoherenceExactlyWhen(s: Slot, t: TransitionInput)
    requires SlotInv(s) && ApplyTransition(s, t).Ok? && !UsesKey(s.log, t.key)
    ensures Coherent(ApplyTransition(s, t).value) <==> t.cause != Claim
  {
    if t.cause != Claim {
      TransitionKeepsSlot(s, t);
    }
  }

  function ClaimInput(run: RunId, reason: Option<string>): TransitionInput {
    TransitionInput(Claim, Claimed, reason, Some(run), None)
  }

  /** A todo task has no active binding, so marking one run claimed with its claim is coherent. */
  lemma ClaimedSlotIsSound(s: Slot, run: RunId, reason: Option<string>, runs: map<RunId, Binding>)
    requires SlotInv(s) && s.status == Todo
    requires run in runs && runs[run].state == RunClaimed && 1 <= runs[run].revision <= |s.revisions|
    requires forall r :: r in runs && r != run ==> r in s.runs && runs[r] == s.runs[r]
    ensures ApplyTransition(s, ClaimInput(run, reason)).Ok?
    ensures SlotInv(ApplyTransition(s, ClaimInput(run, reason)).value.(runs := runs))
  {
    hide LogChain, Replay;
    TransitionKeepsLog(s, ClaimInput(run, reason));
    var d := ApplyTransition(s, ClaimInput(run, reason)).value.(runs := runs);
    assert run in d.runs && ActiveRun(d.runs[run].state);
    assert Coherent(d);
  }

  lemma TodoHasNothingToClose(s: Slot)
    requires Coherent(s) && s.status == Todo
    ensures CloseRuns(s.runs, RunFailed) == s.runs
  {
  }

  lemma ClaimedSlot(store: Store, ref: Ref, run: RunId, agent: string)
    requires StoreInv(store) && ClaimTask(store, ref, run, agent).Ok?
    ensures var s := ClaimTask(store, ref, run, agent).value[ref];
            && SlotInv(s) && s.status == Claimed && s.runs.Keys == store[ref].runs.Keys + {run} && run !in store[ref].runs
            && s.runs[run] == Binding(|store[ref].revisions|, Some(agent), RunClaimed)
            && Extends(store[ref], s)
  {
    hide Statuses, LogChain, Coherent, ColumnsMatch, OwnedByOther;
    var s := store[ref];
    assert SlotInv(s);
    TodoHasNothingToClose(s);
    var runs := s.runs[run := Binding(|s.revisions|, Some(agent), RunClaimed)];
    ClaimedSlotIsSound(s, run, None, runs);
    TransitionKeepsLog(s, ClaimInput(run, None));
    var moved := ApplyTransition(s, ClaimInput(run, None)).value;
    assert moved.runs == s.runs && moved.revisions == s.revisions;
    assert BindRun(moved, run, Some(agent)) == moved.(runs := runs);
  }

  lemma SlotKeepsStore(store: Store, ref: Ref, s: Slot)
    requires StoreInv(store) && SlotInv(s)
    requires forall q :: q in store && q != ref ==> NoSharedRun(store[q], s) && NoSharedRun(s, store[q])
    ensures StoreInv(store[ref := s])
  {
    hide SlotInv;
    var next := store[ref := s];
    forall r | r in next ensures SlotInv(next[r]) {
      if r != ref { assert SlotInv(store[r]); }
    }
    forall r, q | r in next && q in next && r != q ensures NoSharedRun(next[r], next[q]) {
      if r != ref && q != ref { assert NoSharedRun(store[r], store[q]); }
    }
  }

  lemma SlotUpdateKeepsStore(store: Store, ref: Ref, s: Slot)
    requires StoreInv(store) && ref in store && SlotInv(s) && s.runs.Keys == store[ref].runs.Keys
    ensures StoreInv(store[ref := s])
  {
    forall q | q in store && q != ref ensures NoSharedRun(store[q], s) && NoSharedRun(s, store[q]) {
      assert NoSharedRun(store[q], store[ref]);
    }
    SlotKeepsStore(store, ref, s);
  }

  lemma InsertRunKeepsStore(store: Store, ref: Ref, run: RunId, s: Slot)
    requires StoreInv(store) && ref in store && SlotInv(s) && UnusedRun(store, run)
    requires s.runs.Keys == store[ref].runs.Keys + {run}
    ensures StoreInv(store[ref := s])
  {
    hide SlotInv;
    forall q | q in store && q != ref ensures NoSharedRun(store[q], s) && NoSharedRun(s, store[q]) {
      assert NoSharedRun(store[q], store[ref]);
      assert run !in store[q].runs;
    }
    SlotKeepsStore(store, ref, s);
  }

  lemma ClaimKeepsStore(store: Store, ref: Ref, run: RunId, agent: string)
    requires StoreInv(store) && ClaimTask(store, ref, run, agent).Ok?
    ensures StoreInv(ClaimTask(store, ref, run, agent).value)
  {
    hide StoreInv, SlotInv, Statuses, ApplyTransition, BindRun;
    ClaimedSlot(store, ref, run, agent);
    InsertRunKeepsStore(store, ref, run, ClaimTask(store, ref, run, agent).value[ref]);
  }

  /** claimTask accepts a task exactly when its dependencies are ready, its owner agrees and the run id is new. */
  lemma ClaimableExactlyWhenReady(store: Store, ref: Ref, run: RunId, agent: string)
    requires ref in store
    ensures ClaimTask(store, ref, run, agent).Ok? <==>
            && DependencyReadiness(store[ref].status, store[ref].deps, Statuses(store)) == Ready
            && !OwnedByOther(store[ref], agent) && UnusedRun(store, run)
  {
    var s := store[ref];
    var w := Waiting(s.deps, Statuses(store));
    if w != [] {
      assert w[0] in w;
    }
  }

  lemma CompensationKeepsSlot(s: Slot, run: RunId)
    requires SlotInv(s) && CompensateClaim(s, run).Ok?
    ensures SlotInv(CompensateClaim(s, run).value)
    ensures CompensateClaim(s, run).value.status == Todo
    ensures CompensateClaim(s, run).value.runs.Keys == s.runs.Keys
    ensures CompensateClaim(s, run).value.revisions == s.revisions
  {
    TransitionKeepsSlot(s, TransitionInput(FailureRequeue, Todo, Some("claim_not_committed"), Some(run), None));
  }

  const ROLLBACK: Option<string> := Some("session_reset_rollback")

  function StartInput(run: RunId): TransitionInput {
    TransitionInput(RunStart, InProgress, None, Some(run), None)
  }

  /** The binding of a restored run is claimed again together with its task. */
  lemma ReclaimOfOwnRun(s: Slot, run: RunId)
    requires SlotInv(s) && s.status == Todo && run in s.runs
    ensures ApplyTransition(s, ClaimInput(run, ROLLBACK)).Ok?
    ensures var live := ReactivateRun(ApplyTransition(s, ClaimInput(run, ROLLBACK)).value, run);
            SlotInv(live) && live.status == Claimed && Extends(s, live) && live.runs.Keys == s.runs.Keys
  {
    var runs := s.runs[run := s.runs[run].(state := RunClaimed)];
    ClaimedSlotIsSound(s, run, ROLLBACK, runs);
    TransitionKeepsLog(s, ClaimInput(run, ROLLBACK));
    var claimed := ApplyTransition(s, ClaimInput(run, ROLLBACK)).value;
    assert claimed.runs == s.runs && ReactivateRun(claimed, run) == claimed.(runs := runs);
  }

  lemma RestoreOfOwnRun(s: Slot, run: RunId, started: bool)
    requires SlotInv(s) && s.status == Todo && run in s.runs
    ensures RestoreRun(s, run, started).Ok? && SlotInv(RestoreRun(s, run, started).value)
    ensures Extends(s, RestoreRun(s, run, started).value)
    ensures RestoreRun(s, run, started).value.runs.Keys == s.runs.Keys
  {
    hide SlotInv, Extends, ReactivateRun;
    ReclaimOfOwnRun(s, run);
    var live := ReactivateRun(ApplyTransition(s, ClaimInput(run, ROLLBACK)).value, run);
    if started {
      TransitionKeepsSlot(live, StartInput(run));
      TransitionExtends(live, StartInput(run));
      ExtendsIsTransitive(s, live, ApplyTransition(live, StartInput(run)).value);
    }
  }

  lemma RestoreOfForeignRun(s: Slot, run: RunId, started: bool)
    requires SlotInv(s) && s.status == Todo && run !in s.runs
    ensures RestoreRun(s, run, started).Ok? && !Coherent(RestoreRun(s, run, started).value)
    ensures RestoreRun(s, run, started).value.runs.Keys == s.runs.Keys
  {
    TransitionKeepsLog(s, ClaimInput(run, ROLLBACK));
    var claimed := ApplyTransition(s, ClaimInput(run, ROLLBACK)).value;
    assert claimed.runs == s.runs && ReactivateRun(claimed, run) == claimed;
    var done := RestoreRun(s, run, started).value;
    assert done.runs == s.runs || done.runs == StartRuns(s.runs);
    assert Active(done.status) && forall r :: r in done.runs ==> !ActiveRun(done.runs[r].state);
  }

  /** Rolling a reset back restores the agreement exactly when the run is one of this task's bindings. */
  lemma RestoreKeepsCoherenceExactlyWhen(s: Slot, run: RunId, started: bool)
    requires SlotInv(s) && s.status == Todo
    ensures RestoreRun(s, run, started).Ok?
    ensures Coherent(RestoreRun(s, run, started).value) <==> run in s.runs
  {
    if run in s.runs {
      RestoreOfOwnRun(s, run, started);
    } else {
      RestoreOfForeignRun(s, run, started);
    }
  }

  lemma CreateKeepsStore(store: Store, ref: Ref, s: Spec)
    requires StoreInv(store) && CreateTask(store, ref, s).Ok?
    ensures StoreInv(CreateTask(store, ref, s).value)
  {
    var spec := s.(deps := NormalizeDeps(ref, s.deps).value);
    RevisionMetadataFacts(spec);
    assert SlotInv(NewSlot(spec));
    SlotKeepsStore(store, ref, NewSlot(spec));
  }

  /** The slot with one more revision of the given spec. */
  function Revised(s: Slot, next: Spec): Slot {
    s.(title := next.title, priority := next.priority, provider := next.provider, deps := next.deps,
       revisions := s.revisions + [Revision(|s.revisions| + 1, next.title, next.body, RevisionMetadata(next))])
  }

  lemma RevisionKeepsSlot(s: Slot, next: Spec)
    requires SlotInv(s)
    ensures SlotInv(Revised(s, next))
    ensures forall run :: RunSpec(Revised(s, next), run) == RunSpec(s, run)
  {
    hide Lookup;
    RevisionMetadataFacts(next);
    var t := Revised(s, next);
    assert Coherent(t);
    assert ColumnsMatch(t);
    assert Linear(t);
  }

  /**
   * One edit: either nothing changes, or exactly one revision follows the one
   * the edit named; earlier revisions and every run's pinned spec stay.
   */
  lemma EditIsLinear(ref: Ref, s: Slot, expected: int, c: Changes, heading: Option<string>)
    requires SlotInv(s) && ReviseTask(ref, s, expected, c, heading).Ok?
    ensures var (next, changed) := ReviseTask(ref, s, expected, c, heading).value;
            && SlotInv(next)
            && (!changed ==> next == s)
            && (changed ==> expected == |s.revisions| && |next.revisions| == expected + 1 && s.revisions <= next.revisions)
            && next.runs == s.runs && next.status == s.status && next.log == s.log
            && forall run :: RunSpec(next, run) == RunSpec(s, run)
  {
    var (next, changed) := ReviseTask(ref, s, expected, c, heading).value;
    if changed {
      var deps := if c.deps.Some? then NormalizeDeps(ref, c.deps.value) else Ok(s.deps);
      var spec := EditedSpec(s, c, heading, deps.value);
      assert next == Revised(s, spec);
      RevisionKeepsSlot(s, spec);
    }
  }

  /** Two editors on one base: once the first has changed the task, the second cannot overwrite it. */
  lemma NoLostUpdate(ref: Ref, s: Slot, base: int, c: Changes, heading: Option<string>, d: Changes, other: Option<string>)
    requires SlotInv(s)
    requires ReviseTask(ref, s, base, c, heading).Ok? && ReviseTask(ref, s, base, c, heading).value.1
    requires ReviseTask(ref, s, base, c, heading).value.0.revisions != []
    ensures var next := ReviseTask(ref, s, base, c, heading).value.0;
            var second := ReviseTask(ref, next, base, d, other);
            second.Ok? ==> second.value == (next, false)
  {
    hide SlotInv, EditedSpec, NormalizeDeps, RevisionMetadata, Blank, RunSpec, Coherent;
    EditIsLinear(ref, s, base, c, heading);
  }

  // ----- every reachable store --------------------------------------------------------------------

  datatype StoreStep =
    | Create(ref: Ref, spec: Spec)
    | Revise(ref: Ref, expected: int, changes: Changes, heading: Option<string>)
    | TakeTask(ref: Ref, run: RunId, agent: string)
    | Move(ref: Ref, t: TransitionInput)
    | Compensate(ref: Ref, run: RunId)
    | Restore(ref: Ref, run: RunId, started: bool)
    | Bookkeep(ref: Ref, dispatch: Dispatch, attempts: nat)

  /** How callers use the store: claims always bind, and only runs of the task are restored. */
  predicate Proper(store: Store, step: StoreStep) {
    match step
    case Move(_, t) => t.cause != Claim
    case Restore(ref, run, _) => ref in store ==> run in store[ref].runs
    case _ => true
  }

  function PutSlot(store: Store, ref: Ref, r: Result<Slot, Error>): Store {
    if r.Ok? then store[ref := r.value] else store
  }

  /** A step that throws leaves the store as it was. */
  function StoreNext(store: Store, step: StoreStep): Store {
    match step
    case Create(ref, spec) => (match CreateTask(store, ref, spec) case Ok(next) => next case Err(_) => store)
    case TakeTask(ref, run, agent) => (match ClaimTask(store, ref, run, agent) case Ok(next) => next case Err(_) => store)
    case Revise(ref, expected, changes, heading) =>
      if ref !in store || store[ref].revisions == [] then store
      else
        (match ReviseTask(ref, store[ref], expected, changes, heading)
         case Ok(edited) => store[ref := edited.0]
         case Err(_) => store)
    case Move(ref, t) => if ref in store then PutSlot(store, ref, ApplyTransition(store[ref], t)) else store
    case Compensate(ref, run) => if ref in store then PutSlot(store, ref, CompensateClaim(store[ref], run)) else store
    case Restore(ref, run, started) => if ref in store then PutSlot(store, ref, RestoreRun(store[ref], run, started)) else store
    case Bookkeep(ref, dispatch, attempts) =>
      if ref in store then store[ref := store[ref].(dispatch := dispatch, attempts := attempts)] else store
  }

  lemma SlotStepKeepsStore(store: Store, ref: Ref, r: Result<Slot, Error>)
    requires StoreInv(store) && ref in store
    requires r.Ok? ==> SlotInv(r.value) && r.value.runs.Keys == store[ref].runs.Keys
    ensures StoreInv(PutSlot(store, ref, r))
  {
    if r.Ok? { SlotUpdateKeepsStore(store, ref, r.value); }
  }

  lemma ReviseKeepsStore(store: Store, ref: Ref, expected: int, changes: Changes, heading: Option<string>)
    requires StoreInv(store) && ref in store
    ensures StoreInv(StoreNext(store, Revise(ref, expected, changes, heading)))
  {
    assert SlotInv(store[ref]);
    if ReviseTask(ref, store[ref], expected, changes, heading).Ok? {
      EditIsLinear(ref, store[ref], expected, changes, heading);
      SlotUpdateKeepsStore(store, ref, ReviseTask(ref, store[ref], expected, changes, heading).value.0);
    }
  }

  lemma BookkeepingKeepsStore(store: Store, ref: Ref, dispatch: Dispatch, attempts: nat)
    requires StoreInv(store) && ref in store
    ensures StoreInv(store[ref := store[ref].(dispatch := dispatch, attempts := attempts)])
  {
    var s := store[ref];
    assert SlotInv(s);
    var t := s.(dispatch := dispatch, attempts := attempts);
    assert Coherent(t);
    SlotUpdateKeepsStore(store, ref, t);
  }

  lemma StepKeepsStore(store: Store, step: StoreStep)
    requires StoreInv(store) && Proper(store, step)
    ensures StoreInv(StoreNext(store, step))
  {
    match step
    case Create(ref, spec) =>
      if CreateTask(store, ref, spec).Ok? { CreateKeepsStore(store, ref, spec); }
    case TakeTask(ref, run, agent) =>
      if ClaimTask(store, ref, run, agent).Ok? { ClaimKeepsStore(store, ref, run, agent); }
    case Revise(ref, expected, changes, heading) =>
      if ref in store { ReviseKeepsStore(store, ref, expected, changes, heading); }
    case Bookkeep(ref, dispatch, attempts) =>
      if ref in store { BookkeepingKeepsStore(store, ref, dispatch, attempts); }
    case Move(ref, t) =>
      if ref in store {
        assert SlotInv(store[ref]);
        if ApplyTransition(store[ref], t).Ok? { TransitionKeepsSlot(store[ref], t); }
        SlotStepKeepsStore(store, ref, ApplyTransition(store[ref], t));
      }
    case Compensate(ref, run) =>
      if ref in store {
        assert SlotInv(store[ref]);
        if CompensateClaim(store[ref], run).Ok? { CompensationKeepsSlot(store[ref], run); }
        SlotStepKeepsStore(store, ref, CompensateClaim(store[ref], run));
      }
    case Restore(ref, run, started) =>
      if ref in store {
        assert SlotInv(store[ref]);
        if store[ref].status == Todo { RestoreOfOwnRun(store[ref], run, started); }
        SlotStepKeepsStore(store, ref, RestoreRun(store[ref], run, started));
      }
  }

  /** The store after a list of steps; improper ones are not made by any caller. */
  function RunStore(store: Store, steps: seq<StoreStep>): Store
    decreases |steps|
  {
    if steps == [] then store
    else RunStore(if Proper(store, steps[0]) then StoreNext(store, steps[0]) else store, steps[1..])
  }

  lemma {:induction false} RunKeepsStore(store: Store, steps: seq<StoreStep>)
    requires StoreInv(store)
    ensures StoreInv(RunStore(store, steps))
    decreases |steps|
  {
    hide StoreInv, StoreNext;
    if steps != [] {
      if Proper(store, steps[0]) { StepKeepsStore(store, steps[0]); }
      RunKeepsStore(if Proper(store, steps[0]) then StoreNext(store, steps[0]) else store, steps[1..]);
    }
  }

  /**
   * In every reachable store and for every task: the status is the replay of a
   * legal log, and claimed or in progress means exactly one active binding.
   */
  lemma ReachableTaskIsSound(steps: seq<StoreStep>, ref: Ref)
    requires ref in RunStore(map[], steps)
    ensures var s := RunStore(map[], steps)[ref];
            && LogChain(s.log) && s.status == Replay(s.log)
            && Coherent(s)
            && (s.status == Done ==> s.log != [] && DoneEvidence(s.log))
            && Linear(s) && ColumnsMatch(s)
  {
    var s := RunStore(map[], steps)[ref];
    RunKeepsStore(map[], steps);
    assert SlotInv(s);
    if s.status == Done {
      DoneNeedsAMerge(s.log, |s.log| - 1);
    }
  }

  // ----- history is never rewritten -------------------------------------------------------------

  lemma TransitionExtends(s: Slot, t: TransitionInput)
    requires SlotInv(s) && ApplyTransition(s, t).Ok?
    ensures Extends(s, ApplyTransition(s, t).value)
  {
    if !UsesKey(s.log, t.key) {
      TransitionKeepsLog(s, t);
      MovedRunsKeepPins(s.runs, s.status, t.cause);
    }
  }

  lemma SlotStepExtends(store: Store, step: StoreStep)
    requires StoreInv(store) && step.ref in store && (step.Move? || step.Compensate? || step.Restore?) && Proper(store, step)
    ensures step.ref in StoreNext(store, step) && Extends(store[step.ref], StoreNext(store, step)[step.ref])
  {
    hide SlotInv, ApplyTransition;
    var s := store[step.ref];
    assert SlotInv(s);
    if step.Move? {
      if ApplyTransition(s, step.t).Ok? { TransitionExtends(s, step.t); }
    } else if step.Compensate? {
      if CompensateClaim(s, step.run).Ok? {
        TransitionExtends(s, TransitionInput(FailureRequeue, Todo, Some("claim_not_committed"), Some(step.run), None));
      }
    } else if s.status == Todo {
      RestoreOfOwnRun(s, step.run, step.started);
    }
  }

  lemma ReviseExtends(store: Store, ref: Ref, expected: int, changes: Changes, heading: Option<string>)
    requires StoreInv(store) && ref in store
    ensures var next := StoreNext(store, Revise(ref, expected, changes, heading));
            ref in next && Extends(store[ref], next[ref])
  {
    assert SlotInv(store[ref]);
    if ReviseTask(ref, store[ref], expected, changes, heading).Ok? {
      EditIsLinear(ref, store[ref], expected, changes, heading);
    }
  }

  lemma OtherSlotsStay(store: Store, step: StoreStep, ref: Ref)
    requires StoreInv(store) && ref in store && step.ref != ref
    ensures ref in StoreNext(store, step) && StoreNext(store, step)[ref] == store[ref]
  {
    hide StoreInv, ApplyTransition, ReviseTask, CompensateClaim, RestoreRun, BindRun;
  }

  lemma StepExtendsHistory(store: Store, step: StoreStep, ref: Ref)
    requires StoreInv(store) && Proper(store, step) && ref in store
    ensures ref in StoreNext(store, step) && Extends(store[ref], StoreNext(store, step)[ref])
  {
    hide StoreInv, SlotInv, ApplyTransition, ReviseTask, RestoreRun;
    if step.ref != ref {
      OtherSlotsStay(store, step, ref);
    } else if step.Revise? {
      ReviseExtends(store, ref, step.expected, step.changes, step.heading);
    } else if step.TakeTask? {
      if ClaimTask(store, ref, step.run, step.agent).Ok? { ClaimedSlot(store, ref, step.run, step.agent); }
    } else if step.Move? || step.Compensate? || step.Restore? {
      SlotStepExtends(store, step);
    }
  }

  lemma ExtendsIsTransitive(s: Slot, t: Slot, u: Slot)
    requires Extends(s, t) && Extends(t, u)
    ensures Extends(s, u)
  {
  }

  lemma {:induction false} RunExtendsHistory(store: Store, steps: seq<StoreStep>, ref: Ref)
    requires StoreInv(store) && ref in store
    ensures ref in RunStore(store, steps) && Extends(store[ref], RunStore(store, steps)[ref])
    decreases |steps|
  {
    if steps != [] {
      if Proper(store, steps[0]) {
        StepKeepsStore(store, steps[0]);
        StepExtendsHistory(store, steps[0], ref);
        var next := StoreNext(store, steps[0]);
        RunExtendsHistory(next, steps[1..], ref);
        ExtendsIsTransitive(store[ref], next[ref], RunStore(next, steps[1..])[ref]);
      } else {
        RunExtendsHistory(store, steps[1..], ref);
      }
    }
  }

  /** The spec a run was claimed with never changes, whatever editors and lifecycle commands do. */
  lemma PinnedSpecNeverChanges(store: Store, steps: seq<StoreStep>, ref: Ref, run: RunId)
    requires StoreInv(store) && ref in store && run in store[ref].runs
    ensures ref in RunStore(store, steps) && RunSpec(RunStore(store, steps)[ref], run) == RunSpec(store[ref], run)
    ensures RunSpec(store[ref], run).Some?
  {
    RunExtendsHistory(store, steps, ref);
    assert SlotInv(store[ref]);
    ExtensionKeepsPins(store[ref], RunStore(store, steps)[ref], run);
  }

  lemma ExtensionKeepsPins(s: Slot, t: Slot, run: RunId)
    requires Linear(s) && Extends(s, t) && run in s.runs
    ensures RunSpec(s, run).Some? && RunSpec(t, run) == RunSpec(s, run)
  {
    var n := s.runs[run].revision;
    assert t.revisions[n - 1] == s.revisions[n - 1];
  }

  // ----- when an edit that changes nothing is a no-op ---------------------------------------------

  const INDEXED: seq<string> := [PRIORITY, PROVIDER, DEPENDS]

  /** The given metadata names no indexed field, or names them last in their stored order. */
  predicate IndexedLast(m: Metadata) {
    var n := |m| - |BaseMetadata(m)|;
    0 <= n <= 3 && Keys(m) == Keys(BaseMetadata(m)) + INDEXED[..n]
  }

  lemma {:induction false} BaseFacts(m: Metadata)
    ensures |BaseMetadata(m)| <= |m|
    ensures forall i :: 0 <= i < |BaseMetadata(m)| ==> !Indexed(BaseMetadata(m)[i].0)
    decreases |m|
  {
    if m != [] { BaseFacts(m[1..]); }
  }

  lemma {:induction false} BaseOfSplit(m: Metadata, n: nat)
    requires n <= |m|
    requires forall i :: 0 <= i < n ==> !Indexed(m[i].0)
    requires forall i :: n <= i < |m| ==> Indexed(m[i].0)
    ensures BaseMetadata(m) == m[..n]
    decreases |m|
  {
    if m != [] {
      BaseOfSplit(m[1..], if n == 0 then 0 else n - 1);
      if n > 0 { assert m[..n] == [m[0]] + m[1..][..n - 1]; }
    }
  }

  lemma {:induction false} LookupAt(m: Metadata, i: nat)
    requires i < |m| && forall j :: 0 <= j < i ==> m[j].0 != m[i].0
    ensures Lookup(m, m[i].0) == Some(m[i].1)
    decreases |m|
  {
    if i > 0 { LookupAt(m[1..], i - 1); }
  }

  /** The keys a revision stores, in order. */
  lemma RevisionKeys(s: Spec)
    ensures Keys(RevisionMetadata(s)) == WithIndexed(Keys(s.metadata))
  {
    var one := PutKey(s.metadata, PRIORITY, PriorityJson(s.priority));
    var two := PutKey(one, PROVIDER, ProviderJson(s.provider));
    PutKeyFacts(s.metadata, PRIORITY, PriorityJson(s.priority), PRIORITY);
    PutKeyFacts(one, PROVIDER, ProviderJson(s.provider), PRIORITY);
    PutKeyFacts(two, DEPENDS, Refs(s.deps), PRIORITY);
  }

  /** The three stored keys, each appended unless already named. */
  function WithIndexed(ks: seq<string>): seq<string> {
    var one := if PRIORITY in ks then ks else ks + [PRIORITY];
    var two := if PROVIDER in one then one else one + [PROVIDER];
    if DEPENDS in two then two else two + [DEPENDS]
  }

  lemma WithIndexedAtTheEnd(base: seq<string>, n: nat)
    requires n <= 3 && forall k :: k in base ==> !Indexed(k)
    ensures WithIndexed(base + INDEXED[..n]) == base + INDEXED
  {
    var ks := base + INDEXED[..n];
    assert forall k :: k in ks <==> k in base || k in INDEXED[..n];
    if n == 0 {
      assert ks == base;
      assert base + [PRIORITY] + [PROVIDER] + [DEPENDS] == base + INDEXED;
    } else if n == 1 {
      assert INDEXED[..1] == [PRIORITY];
      assert ks + [PROVIDER] + [DEPENDS] == base + INDEXED;
    } else if n == 2 {
      assert INDEXED[..2] == [PRIORITY, PROVIDER];
      assert ks + [DEPENDS] == base + INDEXED;
    } else {
      assert INDEXED[..3] == INDEXED;
    }
  }

  lemma WithIndexedGrows(ks: seq<string>)
    ensures ks <= WithIndexed(ks) && |WithIndexed(ks)| <= |ks| + 3
  {
  }

  /** The stored keys end with the indexed ones exactly when the given metadata does not misplace them. */
  lemma StoredOrder(s: Spec)
    ensures Keys(RevisionMetadata(s)) == Keys(BaseMetadata(s.metadata)) + INDEXED <==> IndexedLast(s.metadata)
  {
    var base, ks := Keys(BaseMetadata(s.metadata)), Keys(s.metadata);
    BaseFacts(s.metadata);
    RevisionKeys(s);
    WithIndexedGrows(ks);
    var n := |ks| - |base|;
    if IndexedLast(s.metadata) {
      assert forall k :: k in base ==> !Indexed(k);
      WithIndexedAtTheEnd(base, n);
    }
    if WithIndexed(ks) == base + INDEXED {
      assert ks == (base + INDEXED)[..|ks|];
      assert (base + INDEXED)[..|ks|] == base + INDEXED[..n];
    }
  }

  /** The stored object is its own fields followed by the indexed ones. */
  predicate IndexedAtEnd(m: Metadata) {
    Keys(m) == Keys(BaseMetadata(m)) + INDEXED
  }

  /** The values the columns of a task give the indexed fields. */
  function IndexedFields(s: Slot): Metadata {
    [(PRIORITY, PriorityJson(s.priority)), (PROVIDER, ProviderJson(s.provider)), (DEPENDS, Refs(s.deps))]
  }

  /** An object whose indexed fields come last is determined by its own fields and the columns. */
  lemma ShapeAtEnd(m: Metadata, s: Slot)
    requires IndexedAtEnd(m)
    requires Lookup(m, PRIORITY) == Some(PriorityJson(s.priority)) && Lookup(m, PROVIDER) == Some(ProviderJson(s.provider))
    requires Lookup(m, DEPENDS) == Some(Refs(s.deps))
    ensures m == BaseMetadata(m) + IndexedFields(s)
  {
    hide BaseMetadata, Lookup, PriorityJson, ProviderJson;
    var base := BaseMetadata(m);
    var n, ks := |base|, Keys(m);
    BaseFacts(m);
    assert forall i :: 0 <= i < |m| ==> m[i].0 == ks[i];
    assert forall i :: 0 <= i < n ==> ks[i] == Keys(base)[i] == base[i].0;
    assert ks[n] == PRIORITY && ks[n + 1] == PROVIDER && ks[n + 2] == DEPENDS && |m| == n + 3;
    BaseOfSplit(m, n);
    LookupAt(m, n);
    LookupAt(m, n + 1);
    LookupAt(m, n + 2);
    assert m == m[..n] + [m[n], m[n + 1], m[n + 2]];
  }

  lemma {:induction false} BaseIsStable(m: Metadata)
    ensures BaseMetadata(BaseMetadata(m)) == BaseMetadata(m)
  {
    BaseFacts(m);
    BaseOfSplit(BaseMetadata(m), |BaseMetadata(m)|);
    assert BaseMetadata(m)[..|BaseMetadata(m)|] == BaseMetadata(m);
  }

  /** The metadata an edit that changes nothing would store. */
  function Repeated(s: Slot): Spec
    requires s.revisions != []
  {
    EditedSpec(s, NoChanges, None, s.deps)
  }

  /** Repeating the content always writes the indexed fields last. */
  lemma RepeatedShape(s: Slot)
    requires s.revisions != []
    ensures var base := BaseMetadata(s.revisions[|s.revisions| - 1].metadata);
            BaseMetadata(RevisionMetadata(Repeated(s))) == base && RevisionMetadata(Repeated(s)) == base + IndexedFields(s)
            && IndexedAtEnd(RevisionMetadata(Repeated(s)))
  {
    hide PutKey, BaseMetadata, WithIndexed, PriorityJson, ProviderJson, Lookup, RevisionMetadata;
    var m := s.revisions[|s.revisions| - 1].metadata;
    var next := Repeated(s);
    BaseFacts(m);
    BaseIsStable(m);
    RevisionKeys(next);
    RevisionMetadataFacts(next);
    assert forall k :: k in Keys(BaseMetadata(m)) ==> !Indexed(k);
    WithIndexedAtTheEnd(Keys(BaseMetadata(m)), 0);
    assert Keys(BaseMetadata(m)) + INDEXED[..0] == Keys(BaseMetadata(m));
    ShapeAtEnd(RevisionMetadata(next), s);
  }

  lemma RepeatsItselfExactlyWhen(s: Slot)
    requires SlotInv(s)
    ensures var m := s.revisions[|s.revisions| - 1].metadata; RevisionMetadata(Repeated(s)) == m <==> IndexedAtEnd(m)
  {
    hide BaseMetadata, RevisionMetadata, Lookup, IndexedFields, IndexedAtEnd, Coherent, LogChain;
    var m := s.revisions[|s.revisions| - 1].metadata;
    RepeatedShape(s);
    if IndexedAtEnd(m) { ShapeAtEnd(m, s); }
  }

  /**
   * An edit that changes nothing, on any task of a sound store and any base: it
   * is a no-op exactly when the latest revision stores the indexed fields last.
   * Otherwise it adds a revision when the base is current, and is a conflict
   * when it is not.
   */
  lemma EmptyEditIsNoOpExactlyWhen(ref: Ref, s: Slot, expected: int)
    requires SlotInv(s) && expected >= 1 && !Blank(s.title)
    ensures var r, stored := ReviseTask(ref, s, expected, NoChanges, None), s.revisions[|s.revisions| - 1].metadata;
            && (r == Ok((s, false)) <==> IndexedAtEnd(stored))
            && (r == Ok((Revised(s, Repeated(s)), true)) <==> !IndexedAtEnd(stored) && expected == |s.revisions|)
            && (r == Err(RevisionConflict(|s.revisions|)) <==> !IndexedAtEnd(stored) && expected != |s.revisions|)
  {
    hide BaseMetadata, RevisionMetadata, Lookup, IndexedAtEnd, Coherent, LogChain, Blank;
    RepeatsItselfExactlyWhen(s);
    var r, next := ReviseTask(ref, s, expected, NoChanges, None), Repeated(s);
    assert next.title == s.title && next.body == s.revisions[|s.revisions| - 1].body;
    assert s.revisions[|s.revisions| - 1].number == |s.revisions|;
    if RevisionMetadata(next) == s.revisions[|s.revisions| - 1].metadata {
      assert r == Ok((s, false));
    } else if expected == |s.revisions| {
      assert r == Ok((Revised(s, next), true));
      assert |Revised(s, next).revisions| == |s.revisions| + 1;
    }
  }

  /** What decides it is the metadata last given, at creation or by a later edit. */
  lemma LastGivenMetadataDecides(s: Slot, given: Spec)
    requires s.revisions != [] && s.revisions[|s.revisions| - 1].metadata == RevisionMetadata(given)
    ensures IndexedAtEnd(s.revisions[|s.revisions| - 1].metadata) <==> IndexedLast(given.metadata)
  {
    hide RevisionMetadata, BaseMetadata, IndexedLast;
    RevisionMetadataFacts(given);
    StoredOrder(given);
  }

  /** For a new task: the metadata given at creation. */
  lemma EmptyEditOfANewTask(ref: Ref, s: Spec, expected: int)
    requires expected >= 1 && !Blank(s.title)
    ensures ReviseTask(ref, NewSlot(s), expected, NoChanges, None) == Ok((NewSlot(s), false)) <==> IndexedLast(s.metadata)
    ensures !IndexedLast(s.metadata) ==>
              ReviseTask(ref, NewSlot(s), expected, NoChanges, None) ==
              if expected == 1 then Ok((Revised(NewSlot(s), Repeated(NewSlot(s))), true)) else Err(RevisionConflict(1))
  {
    hide RevisionMetadata, BaseMetadata, IndexedLast, IndexedAtEnd, Lookup, Blank, Repeated, Revised;
    NewSlotIsSound(s);
    LastGivenMetadataDecides(NewSlot(s), s);
    EmptyEditIsNoOpExactlyWhen(ref, NewSlot(s), expected);
  }

  lemma NewSlotIsSound(s: Spec)
    ensures SlotInv(NewSlot(s))
  {
    hide RevisionMetadata, Lookup;
    RevisionMetadataFacts(s);
    assert Coherent(NewSlot(s));
  }

  /** For a revised task: the metadata the last edit asked for. */
  lemma EmptyEditAfterARevision(ref: Ref, s: Slot, given: Spec, expected: int)
    requires SlotInv(s) && expected >= 1 && !Blank(given.title)
    ensures var t := Revised(s, given);
            && (ReviseTask(ref, t, expected, NoChanges, None) == Ok((t, false)) <==> IndexedLast(given.metadata))
            && (!IndexedLast(given.metadata) ==>
                  ReviseTask(ref, t, expected, NoChanges, None) ==
                  if expected == |s.revisions| + 1 then Ok((Revised(t, Repeated(t)), true)) else Err(RevisionConflict(|s.revisions| + 1)))
  {
    hide RevisionMetadata, BaseMetadata, IndexedLast, IndexedAtEnd, Lookup, Blank, Repeated, SlotInv;
    var t := Revised(s, given);
    RevisionKeepsSlot(s, given);
    LastGivenMetadataDecides(t, given);
    EmptyEditIsNoOpExactlyWhen(ref, t, expected);
  }

  const MISPLACED: Metadata := [("priority", Str("low")), ("feature", Str("f"))]

  lemma MisplacedIsNotLast()
    ensures !IndexedLast(MISPLACED)
  {
    assert MISPLACED[1..] == [("feature", Str("f"))] && MISPLACED[1..][1..] == [];
    assert BaseMetadata(MISPLACED) == [("feature", Str("f"))];
    assert Keys(MISPLACED)[0] == "priority";
  }

  /**
   * Such metadata exists.  Named first at creation, the priority makes the empty
   * edit add a revision on the current base and a conflict on any other; named
   * first by a later edit, it does the same to a task created without it.
   */
  lemma MisplacedPriorityBreaksTheEmptyEdit(ref: Ref)
    ensures var s := Spec("t", "", MISPLACED, Low, None, []);
            && ReviseTask(ref, NewSlot(s), 2, NoChanges, None) == Err(RevisionConflict(1))
            && ReviseTask(ref, NewSlot(s), 1, NoChanges, None) == Ok((Revised(NewSlot(s), Repeated(NewSlot(s))), true))
    ensures var plain, given := NewSlot(Spec("t", "", [], Low, None, [])), Spec("t", "", MISPLACED, Low, None, []);
            var t := Revised(plain, given);
            && ReviseTask(ref, plain, 1, NoChanges.(metadata := Some(MISPLACED)), None) == Ok((t, true))
            && ReviseTask(ref, t, 1, NoChanges, None) == Err(RevisionConflict(2))
            && ReviseTask(ref, t, 2, NoChanges, None) == Ok((Revised(t, Repeated(t)), true))
  {
    hide RevisionMetadata, BaseMetadata, IndexedLast, Repeated, Blank, Lookup;
    MisplacedIsNotLast();
    TitleIsNotBlank();
    var s, plain := Spec("t", "", MISPLACED, Low, None, []), Spec("t", "", [], Low, None, []);
    EmptyEditOfANewTask(ref, s, 1);
    EmptyEditOfANewTask(ref, s, 2);
    NewSlotIsSound(plain);
    StoresDiffer(s, plain);
    EmptyEditAfterARevision(ref, NewSlot(plain), s, 1);
    EmptyEditAfterARevision(ref, NewSlot(plain), s, 2);
  }

  lemma TitleIsNotBlank()
    ensures !Blank("t")
  {
    assert "t"[0] == 't';
  }

  /** Metadata with a field of its own is not stored like none. */
  lemma StoresDiffer(s: Spec, plain: Spec)
    requires s.metadata == MISPLACED && plain.metadata == []
    ensures RevisionMetadata(s) != RevisionMetadata(plain)
  {
    hide RevisionMetadata, PutKey, Lookup;
    RevisionMetadataFacts(s);
    RevisionMetadataFacts(plain);
    assert MISPLACED[1..] == [("feature", Str("f"))];
    assert BaseMetadata(MISPLACED) == [("feature", Str("f"))] by { assert MISPLACED[1..][1..] == []; }
  }
}
