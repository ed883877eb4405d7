/**
 * What creating, editing, claiming and moving a task stores, in terms of what
 * the caller gave (lib/projectTaskStore.ts).
 */
module TaskEffects {
  import opened Prelude
  import opened TaskContract
  import opened TaskStore
  import opened TaskInvariants

  // ----- dependencies --------------------------------------------------------------------------

  predicate StrictlyIncreasing(refs: seq<Ref>) {
    forall i, j :: 0 <= i < j < |refs| ==> refs[i] < refs[j]
  }

  ghost predicate SameRefs(a: seq<Ref>, b: seq<Ref>) {
    forall r :: r in a <==> r in b
  }

  lemma {:induction false} InsertedRef(deps: seq<Ref>, r: Ref)
    requires StrictlyIncreasing(deps)
    ensures StrictlyIncreasing(InsertRef(deps, r)) && forall q :: q in InsertRef(deps, r) <==> q in deps || q == r
    decreases |deps|
  {
    if deps != [] && r > deps[0] {
      InsertedRef(deps[1..], r);
      assert deps == [deps[0]] + deps[1..];
      SmallerInFront(deps[0], InsertRef(deps[1..], r), deps[1..], r);
    }
  }

  lemma SmallerInFront(first: Ref, rest: seq<Ref>, tail: seq<Ref>, r: Ref)
    requires StrictlyIncreasing([first] + tail) && StrictlyIncreasing(rest) && first < r
    requires forall q :: q in rest <==> q in tail || q == r
    ensures StrictlyIncreasing([first] + rest)
  {
    forall i | 0 <= i < |rest| ensures first < rest[i] {
      assert rest[i] in rest;
      if rest[i] != r {
        var k :| 0 <= k < |tail| && tail[k] == rest[i];
        assert ([first] + tail)[0] == first && ([first] + tail)[k + 1] == rest[i];
      }
    }
  }

  /** Normalised dependencies are strictly increasing and hold exactly the refs given. */
  lemma {:induction false} SortedRefs(deps: seq<Ref>)
    ensures StrictlyIncreasing(SortRefs(deps)) && SameRefs(SortRefs(deps), deps)
    decreases |deps|
  {
    if deps != [] {
      SortedRefs(deps[1..]);
      InsertedRef(SortRefs(deps[1..]), deps[0]);
      assert deps == [deps[0]] + deps[1..];
    }
  }

  // ----- metadata --------------------------------------------------------------------------------

  /** The stored object holds the caller's own fields, and the indexed fields as their columns say. */
  ghost predicate Stores(m: Metadata, given: Metadata, priority: Priority, provider: Option<Provider>, deps: seq<Ref>) {
    && (forall k :: k !in {"priority", "required_provider", "depends_on"} ==> Lookup(m, k) == Lookup(given, k))
    && Lookup(m, "depends_on") == Some(Refs(deps))
    && Lookup(m, "priority") == Some(Str(match priority case Low => "low" case Normal => "normal" case High => "high" case Critical => "critical"))
    && Lookup(m, "required_provider") ==
         Some(match provider case None => Null case Some(Codex) => Str("codex") case Some(Claude) => Str("claude") case Some(Gemini) => Str("gemini"))
  }

  lemma RevisionStores(s: Spec)
    ensures Stores(RevisionMetadata(s), s.metadata, s.priority, s.provider, s.deps)
  {
    hide PutKey, Lookup, BaseMetadata;
    RevisionMetadataFacts(s);
    var one := PutKey(s.metadata, PRIORITY, PriorityJson(s.priority));
    var two := PutKey(one, PROVIDER, ProviderJson(s.provider));
    forall k | k !in {"priority", "required_provider", "depends_on"} ensures Lookup(RevisionMetadata(s), k) == Lookup(s.metadata, k) {
      PutKeyLookup(s.metadata, PRIORITY, PriorityJson(s.priority), k);
      PutKeyLookup(one, PROVIDER, ProviderJson(s.provider), k);
      PutKeyLookup(two, DEPENDS, Refs(s.deps), k);
    }
  }

  lemma {:induction false} BaseLookup(m: Metadata, k: string)
    requires !Indexed(k)
    ensures Lookup(BaseMetadata(m), k) == Lookup(m, k)
    decreases |m|
  {
    hide Indexed;
    if m != [] {
      BaseLookup(m[1..], k);
      if !Indexed(m[0].0) { assert ([m[0]] + BaseMetadata(m[1..]))[1..] == BaseMetadata(m[1..]); }
    }
  }

  // ----- creating ----------------------------------------------------------------------------------

  /** A new task: todo, unclaimed, with one revision of exactly what was given. */
  ghost predicate Fresh(t: Slot, given: Spec) {
    && t.status == Todo && t.attempts == 0 && t.blockedReason == None && t.dispatch == Dispatch(None, None, None, None, None)
    && t.log == [] && t.runs == map[]
    && t.title == given.title && t.priority == given.priority && t.provider == given.provider
    && StrictlyIncreasing(t.deps) && SameRefs(t.deps, given.deps)
    && |t.revisions| == 1 && t.revisions[0].number == 1 && t.revisions[0].title == given.title && t.revisions[0].body == given.body
    && Stores(t.revisions[0].metadata, given.metadata, given.priority, given.provider, t.deps)
  }

  /** A task is created exactly when its title is not blank, it does not depend on itself and its ref is new. */
  lemma CreateEffect(store: Store, ref: Ref, given: Spec)
    ensures CreateTask(store, ref, given).Ok? <==> !Blank(given.title) && ref !in given.deps && ref !in store
    ensures CreateTask(store, ref, given).Ok? ==>
              var next := CreateTask(store, ref, given).value;
              ref in next && next == store[ref := next[ref]] && Fresh(next[ref], given)
    ensures CreateTask(store, ref, given).Err? ==> CreateTask(store, ref, given).error in {InvalidInput, Conflict}
  {
    hide RevisionMetadata, SortRefs, Blank, Lookup;
    SortedRefs(given.deps);
    RevisionStores(given.(deps := SortRefs(given.deps)));
  }

  // ----- claiming -----------------------------------------------------------------------------------

  predicate AllFinished(store: Store, refs: seq<Ref>) {
    forall d :: d in refs ==> d in store && store[d].status in {Done, Released}
  }

  /** The owner, if any, is the claiming agent. */
  predicate MayOwn(t: Slot, agent: string) {
    t.dispatch.owner.None? || t.dispatch.owner == Some("") || t.dispatch.owner == Some(agent)
  }

  /** A claim is accepted exactly when the task is todo, its dependencies are finished, its owner agrees and the run is new. */
  lemma ClaimAcceptedExactlyWhen(store: Store, ref: Ref, run: RunId, agent: string)
    requires ref in store
    ensures ClaimTask(store, ref, run, agent).Ok? <==>
            && store[ref].status == Todo && AllFinished(store, store[ref].deps) && MayOwn(store[ref], agent)
            && forall r :: r in store ==> run !in store[r].runs
  {
    hide Waiting;
    ClaimableExactlyWhenReady(store, ref, run, agent);
    assert forall d :: d in store[ref].deps ==> (Satisfied(d, Statuses(store)) <==> d in store && store[d].status in {Done, Released});
  }

  /** A new task can be claimed exactly when every task its author named is finished. */
  lemma NewTaskIsClaimableExactlyWhen(store: Store, ref: Ref, given: Spec, run: RunId, agent: string)
    requires CreateTask(store, ref, given).Ok? && forall r :: r in store ==> run !in store[r].runs
    ensures ClaimTask(CreateTask(store, ref, given).value, ref, run, agent).Ok? <==> AllFinished(store, given.deps)
  {
    hide CreateTask, ClaimTask, Stores;
    CreateEffect(store, ref, given);
    var next := CreateTask(store, ref, given).value;
    ClaimAcceptedExactlyWhen(next, ref, run, agent);
    assert forall d :: d in given.deps ==> (d in next <==> d in store) && (d in store ==> next[d] == store[d]);
  }

  // ----- editing -----------------------------------------------------------------------------------

  /** The title an edit asks for: given, or the heading of a given body, or the present one. */
  function AskedTitle(s: Slot, c: Changes, heading: Option<string>): string {
    match c.title
    case Some(t) => t
    case None => if c.body.Some? && heading.Some? then heading.value else s.title
  }

  /** The task holds every field the edit gave; fields it did not give are as before. */
  ghost predicate Holds(s: Slot, t: Slot, c: Changes, heading: Option<string>)
    requires s.revisions != [] && t.revisions != []
  {
    var was, now := s.revisions[|s.revisions| - 1], t.revisions[|t.revisions| - 1];
    && t.title == now.title == AskedTitle(s, c, heading)
    && now.body == (if c.body.Some? then c.body.value else was.body)
    && t.priority == (if c.priority.Some? then c.priority.value else s.priority)
    && t.provider == (if c.provider.Some? then c.provider.value else s.provider)
    && (if c.deps.Some? then StrictlyIncreasing(t.deps) && SameRefs(t.deps, c.deps.value) else t.deps == s.deps)
    && Stores(now.metadata, if c.metadata.Some? then c.metadata.value else was.metadata, t.priority, t.provider, t.deps)
    && t == s.(title := t.title, priority := t.priority, provider := t.provider, deps := t.deps, revisions := t.revisions)
  }

  /** The metadata an edit stores, field by field. */
  lemma EditStores(s: Slot, c: Changes, heading: Option<string>, deps: seq<Ref>)
    requires s.revisions != []
    ensures var next, was := EditedSpec(s, c, heading, deps), s.revisions[|s.revisions| - 1].metadata;
            Stores(RevisionMetadata(next), if c.metadata.Some? then c.metadata.value else was, next.priority, next.provider, deps)
  {
    hide RevisionMetadata, Lookup, BaseMetadata;
    var next, was := EditedSpec(s, c, heading, deps), s.revisions[|s.revisions| - 1].metadata;
    RevisionStores(next);
    if c.metadata.None? {
      forall k | k !in {"priority", "required_provider", "depends_on"} ensures Lookup(next.metadata, k) == Lookup(was, k) {
        BaseLookup(was, k);
      }
    }
  }

  lemma SameStores(m: Metadata, given: Metadata, other: Metadata, p: Priority, q: Priority, v: Option<Provider>, w: Option<Provider>, d: seq<Ref>, e: seq<Ref>)
    requires Stores(m, given, p, v, d) && Stores(m, other, q, w, e)
    ensures p == q && v == w && d == e
  {
    hide Lookup;
    var names := ["low", "normal", "high", "critical", "codex", "claude", "gemini"];
    assert names[0][0] == 'l' && names[1][0] == 'n' && names[2][0] == 'h' && names[3][0] == 'c' && |names[3]| == 8;
    assert |names[4]| == 5 && names[5][1] == 'l' && names[4][1] == 'o' && names[6][0] == 'g';
  }

  /** A sound task stores what its columns say. */
  lemma ColumnsAreStored(s: Slot)
    requires SlotInv(s)
    ensures var m := s.revisions[|s.revisions| - 1].metadata; Stores(m, m, s.priority, s.provider, s.deps)
  {
    hide Lookup, Coherent, LogChain;
  }

  /** An accepted edit leaves the task with every field it gave and every other field as before, changed or not. */
  lemma EditEffect(ref: Ref, s: Slot, expected: int, c: Changes, heading: Option<string>)
    requires SlotInv(s) && ReviseTask(ref, s, expected, c, heading).Ok?
    ensures var (t, changed) := ReviseTask(ref, s, expected, c, heading).value;
            && t.revisions != [] && Holds(s, t, c, heading)
            && |t.revisions| == |s.revisions| + (if changed then 1 else 0)
  {
    hide RevisionMetadata, SortRefs, Blank, Lookup, Coherent, LogChain, Stores, BaseMetadata;
    var (t, changed) := ReviseTask(ref, s, expected, c, heading).value;
    var deps := if c.deps.Some? then SortRefs(c.deps.value) else s.deps;
    if c.deps.Some? { SortedRefs(c.deps.value); }
    EditStores(s, c, heading, deps);
    if !changed {
      var next, m := EditedSpec(s, c, heading, deps), s.revisions[|s.revisions| - 1].metadata;
      ColumnsAreStored(s);
      SameStores(m, if c.metadata.Some? then c.metadata.value else m, m, next.priority, s.priority, next.provider, s.provider, deps, s.deps);
    }
  }

  /** An edit is invalid exactly when its base, its dependencies or its title are; otherwise it lands or meets a newer revision. */
  lemma EditRefusedExactlyWhen(ref: Ref, s: Slot, expected: int, c: Changes, heading: Option<string>)
    requires SlotInv(s)
    ensures var r := ReviseTask(ref, s, expected, c, heading);
            && (r == Err(InvalidInput) <==> expected < 1 || (c.deps.Some? && ref in c.deps.value) || Blank(AskedTitle(s, c, heading)))
            && (r.Err? && r != Err(InvalidInput) ==> r == Err(RevisionConflict(|s.revisions|)) && expected != |s.revisions|)
  {
    hide RevisionMetadata, SortRefs, Blank, Lookup, Coherent, LogChain, BaseMetadata;
  }

  // ----- transitions --------------------------------------------------------------------------------

  predicate KeyRecorded(log: seq<Entry>, key: Option<nat>) {
    key.Some? && exists i :: 0 <= i < |log| && log[i].key == key
  }

  /** The state a binding takes with its task's transition. */
  function BindingAfter(from: Status, cause: Cause, b: RunState): RunState {
    if cause == RunStart then (if b == RunClaimed then RunInProgress else b)
    else if from in {Claimed, InProgress} && b in {RunClaimed, RunInProgress, RunWorkComplete} then
      if cause == MergeSucceeded then RunFinished
      else if cause in {FailureRequeue, FailureBlock} then RunFailed
      else if cause in {OperatorReset, Cancel} then RunCancelled
      else b
    else b
  }

  /**
   * A transition with a recorded key changes nothing.  Any other is accepted
   * exactly when the contract allows it, an import comes first and a block has a
   * reason; it then adds one entry and moves status and bindings, nothing else.
   */
  lemma TransitionEffect(s: Slot, t: TransitionInput)
    ensures var r := ApplyTransition(s, t);
            if KeyRecorded(s.log, t.key) then r == Ok(s)
            else && (r.Ok? <==>
                       && CanTransition(s.status, t.to, t.cause) && (t.cause == MigrationImport ==> s.log == [])
                       && (t.to == Blocked ==> t.reason.Some? && exists i :: 0 <= i < |t.reason.value| && t.reason.value[i] != ' '))
                 && (r.Ok? ==>
                       && r.value.status == t.to && r.value.blockedReason == (if t.to == Blocked then t.reason else None)
                       && r.value.log == s.log + [Entry(s.status, t.to, t.cause, t.reason, t.run, t.key)]
                       && r.value.runs.Keys == s.runs.Keys
                       && (forall q :: q in s.runs ==> r.value.runs[q] == s.runs[q].(state := BindingAfter(s.status, t.cause, s.runs[q].state)))
                       && r.value == s.(status := t.to, blockedReason := r.value.blockedReason, log := r.value.log, runs := r.value.runs))
  {
    hide TriggerAllows, CanTransition;
    TriggerIsTheContract(s.log, s.status, t.to, t.cause);
    if ApplyTransition(s, t).Ok? && t.cause == RunStart { StartIsFromClaimed(s.status, t.to); }
  }

  lemma StartIsFromClaimed(from: Status, to: Status)
    ensures CanTransition(from, to, RunStart) ==> from == Claimed && to == InProgress
  {
  }
}
