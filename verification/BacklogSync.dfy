/** The merge of task specs into a loaded backlog (lib/backlogSync.ts). */
module BacklogSync {
  import opened Prelude
  import opened TaskContract

  type FeatureRef = string

  datatype Task = Task(ref: Ref, title: string, status: Status, deps: seq<Ref>, review: Option<string>, merge: Option<string>,
                       taskType: string, attempts: nat)

  datatype Feature = Feature(ref: FeatureRef, title: string, tasks: seq<Task>)

  type Backlog = seq<Feature>

  /** The statuses a spec may carry; a spec with any other is not parsed. */
  type SpecStatus = s: Status | s in {Todo, Blocked, Done, Released, Cancelled} witness Todo

  /** A parsed spec. */
  datatype Spec = Spec(ref: Ref, feature: FeatureRef, status: SpecStatus, title: string, deps: seq<Ref>, review: Option<string>, merge: Option<string>)

  /** The definition merge, or the retired status mirror; and how a feature is titled from its ref. */
  datatype Mode = Mode(mirror: bool, titleOf: FeatureRef -> string)

  // ----- the backlog as nested lists ---------------------------------------------------------------

  function FindIn(tasks: seq<Task>, ref: Ref): (t: Option<Task>)
    ensures t.Some? ==> t.value in tasks && t.value.ref == ref
    decreases |tasks|
  {
    if tasks == [] then None else if tasks[0].ref == ref then Some(tasks[0]) else FindIn(tasks[1..], ref)
  }

  /** findTaskEntry: the first feature that holds the task. */
  function FindEntry(b: Backlog, ref: Ref): (e: Option<(FeatureRef, Task)>)
    ensures e.Some? ==> e.value.1.ref == ref
    decreases |b|
  {
    if b == [] then None
    else
      var t := FindIn(b[0].tasks, ref);
      if t.Some? then Some((b[0].ref, t.value)) else FindEntry(b[1..], ref)
  }

  predicate HasFeature(b: Backlog, f: FeatureRef) {
    exists i :: 0 <= i < |b| && b[i].ref == f
  }

  /** ensureFeature */
  function Ensure(b: Backlog, f: FeatureRef, title: string): Backlog {
    if HasFeature(b, f) then b else b + [Feature(f, title, [])]
  }

  /** Append a task to the first feature with the ref. */
  function AppendTask(b: Backlog, f: FeatureRef, t: Task): Backlog
    decreases |b|
  {
    if b == [] then []
    else if b[0].ref == f then [b[0].(tasks := b[0].tasks + [t])] + b[1..]
    else [b[0]] + AppendTask(b[1..], f, t)
  }

  function RemoveIn(tasks: seq<Task>, ref: Ref): seq<Task>
    decreases |tasks|
  {
    if tasks == [] then []
    else if tasks[0].ref == ref then RemoveIn(tasks[1..], ref)
    else [tasks[0]] + RemoveIn(tasks[1..], ref)
  }

  /** removeTaskFromFeature, for the feature the task was found in. */
  function RemoveTask(b: Backlog, ref: Ref): Backlog
    decreases |b|
  {
    if b == [] then []
    else if FindIn(b[0].tasks, ref).Some? then [b[0].(tasks := RemoveIn(b[0].tasks, ref))] + b[1..]
    else [b[0]] + RemoveTask(b[1..], ref)
  }

  function UpdateIn(tasks: seq<Task>, t: Task): seq<Task>
    decreases |tasks|
  {
    if tasks == [] then []
    else if tasks[0].ref == t.ref then [t] + tasks[1..]
    else [tasks[0]] + UpdateIn(tasks[1..], t)
  }

  /** Assign the fields of a task in place. */
  function UpdateTask(b: Backlog, t: Task): Backlog
    decreases |b|
  {
    if b == [] then []
    else if FindIn(b[0].tasks, t.ref).Some? then [b[0].(tasks := UpdateIn(b[0].tasks, t))] + b[1..]
    else [b[0]] + UpdateTask(b[1..], t)
  }

  // ----- one spec ------------------------------------------------------------------------------------

  const IMPLEMENTATION := "implementation"

  function NewTask(s: Spec): Task {
    Task(s.ref, s.title, s.status, s.deps, s.review, s.merge, IMPLEMENTATION, 0)
  }

  /** The mirror may only make a task less dispatchable. */
  function MirroredStatus(mirror: bool, status: Status, spec: SpecStatus): Status {
    if mirror && spec != Todo && !Active(status) && !Finished(status) && status != Cancelled then spec else status
  }

  function Merged(m: Mode, t: Task, s: Spec): Task {
    t.(title := s.title, deps := if Active(t.status) then t.deps else s.deps,
       status := MirroredStatus(m.mirror, t.status, s.status), review := s.review, merge := s.merge)
  }

  /** A spec that may become new work: todo, or any status when mirroring. */
  predicate Admissible(m: Mode, s: Spec) {
    m.mirror || s.status == Todo
  }

  function SyncOne(m: Mode, b: Backlog, s: Spec): Backlog {
    var e := FindEntry(b, s.ref);
    if e.None? && !Admissible(m, s) then b
    else
      var ensured := Ensure(b, s.feature, m.titleOf(s.feature));
      if e.None? then AppendTask(ensured, s.feature, NewTask(s))
      else
        var moved := if e.value.0 == s.feature then ensured else AppendTask(RemoveTask(ensured, s.ref), s.feature, e.value.1);
        UpdateTask(moved, Merged(m, e.value.1, s))
  }

  function Sync(m: Mode, b: Backlog, specs: seq<Spec>): Backlog
    decreases |specs|
  {
    if specs == [] then b else Sync(m, SyncOne(m, b, specs[0]), specs[1..])
  }

  // ----- counting tasks --------------------------------------------------------------------------------

  function CountIn(tasks: seq<Task>, ref: Ref): nat
    decreases |tasks|
  {
    if tasks == [] then 0 else (if tasks[0].ref == ref then 1 else 0) + CountIn(tasks[1..], ref)
  }

  /** How many tasks of the backlog carry the ref. */
  function Count(b: Backlog, ref: Ref): nat
    decreases |b|
  {
    if b == [] then 0 else CountIn(b[0].tasks, ref) + Count(b[1..], ref)
  }

  /** Task refs are unique across the features. */
  ghost predicate Unique(b: Backlog) {
    forall ref :: Count(b, ref) <= 1
  }

  lemma {:induction false} CountInIsFound(tasks: seq<Task>, ref: Ref)
    ensures CountIn(tasks, ref) > 0 <==> FindIn(tasks, ref).Some?
    decreases |tasks|
  {
    if tasks != [] { CountInIsFound(tasks[1..], ref); }
  }

  lemma {:induction false} CountIsFound(b: Backlog, ref: Ref)
    ensures Count(b, ref) > 0 <==> FindEntry(b, ref).Some?
    decreases |b|
  {
    if b != [] {
      CountInIsFound(b[0].tasks, ref);
      CountIsFound(b[1..], ref);
    }
  }

  lemma {:induction false} AppendIn(tasks: seq<Task>, t: Task, r: Ref)
    ensures CountIn(tasks + [t], r) == CountIn(tasks, r) + if t.ref == r then 1 else 0
    ensures FindIn(tasks + [t], r) == if FindIn(tasks, r).Some? then FindIn(tasks, r) else if t.ref == r then Some(t) else None
    decreases |tasks|
  {
    if tasks == [] {
      assert [] + [t] == [t] && [t][1..] == [];
    } else {
      assert (tasks + [t])[1..] == tasks[1..] + [t];
      AppendIn(tasks[1..], t, r);
    }
  }

  lemma {:induction false} RemoveInFacts(tasks: seq<Task>, ref: Ref, r: Ref)
    ensures CountIn(RemoveIn(tasks, ref), r) == if r == ref then 0 else CountIn(tasks, r)
    ensures FindIn(RemoveIn(tasks, ref), r) == if r == ref then None else FindIn(tasks, r)
    decreases |tasks|
  {
    if tasks != [] {
      RemoveInFacts(tasks[1..], ref, r);
      if tasks[0].ref != ref { assert ([tasks[0]] + RemoveIn(tasks[1..], ref))[1..] == RemoveIn(tasks[1..], ref); }
    }
  }

  lemma {:induction false} UpdateInFacts(tasks: seq<Task>, t: Task, r: Ref)
    ensures CountIn(UpdateIn(tasks, t), r) == CountIn(tasks, r)
    ensures FindIn(UpdateIn(tasks, t), r) == if r == t.ref && FindIn(tasks, r).Some? then Some(t) else FindIn(tasks, r)
    ensures FindIn(tasks, t.ref) == Some(t) ==> UpdateIn(tasks, t) == tasks
    decreases |tasks|
  {
    if tasks != [] {
      UpdateInFacts(tasks[1..], t, r);
      if tasks[0].ref == t.ref {
        assert ([t] + tasks[1..])[1..] == tasks[1..];
      } else {
        assert ([tasks[0]] + UpdateIn(tasks[1..], t))[1..] == UpdateIn(tasks[1..], t);
      }
    }
  }

  // ----- what each list operation does to one task -------------------------------------------------------

  /** A feature in front of the rest. */
  lemma InFront(f: Feature, rest: Backlog, r: Ref)
    ensures Count([f] + rest, r) == CountIn(f.tasks, r) + Count(rest, r)
    ensures FindEntry([f] + rest, r) == if FindIn(f.tasks, r).Some? then Some((f.ref, FindIn(f.tasks, r).value)) else FindEntry(rest, r)
    ensures forall g :: HasFeature([f] + rest, g) <==> f.ref == g || HasFeature(rest, g)
  {
    hide CountIn, FindIn;
    var b := [f] + rest;
    assert b[1..] == rest;
    forall g | HasFeature(rest, g) ensures HasFeature(b, g) {
      var i :| 0 <= i < |rest| && rest[i].ref == g;
      assert b[i + 1].ref == g;
    }
    forall g | HasFeature(b, g) && f.ref != g ensures HasFeature(rest, g) {
      var i :| 0 <= i < |b| && b[i].ref == g;
      assert rest[i - 1].ref == g;
    }
    assert b[0].ref == f.ref;
  }

  lemma {:induction false} EnsureFacts(b: Backlog, f: FeatureRef, title: string, r: Ref)
    ensures HasFeature(Ensure(b, f, title), f)
    ensures Count(Ensure(b, f, title), r) == Count(b, r) && FindEntry(Ensure(b, f, title), r) == FindEntry(b, r)
  {
    if !HasFeature(b, f) {
      assert Ensure(b, f, title)[|b|].ref == f;
      EmptyFeatureFacts(b, Feature(f, title, []), r);
    }
  }

  lemma {:induction false} EmptyFeatureFacts(b: Backlog, f: Feature, r: Ref)
    requires f.tasks == []
    ensures Count(b + [f], r) == Count(b, r) && FindEntry(b + [f], r) == FindEntry(b, r)
    decreases |b|
  {
    if b == [] {
      assert [] + [f] == [f] && [f][1..] == [];
    } else {
      assert (b + [f])[1..] == b[1..] + [f];
      EmptyFeatureFacts(b[1..], f, r);
    }
  }

  lemma {:induction false} AppendFacts(b: Backlog, f: FeatureRef, t: Task, r: Ref)
    requires HasFeature(b, f)
    ensures Count(AppendTask(b, f, t), r) == Count(b, r) + if t.ref == r then 1 else 0
    ensures r != t.ref ==> FindEntry(AppendTask(b, f, t), r) == FindEntry(b, r)
    ensures r == t.ref && Count(b, r) == 0 ==> FindEntry(AppendTask(b, f, t), r) == Some((f, t))
    decreases |b|
  {
    hide CountIn, FindIn;
    var head, rest := b[0], b[1..];
    InFront(head, rest, r);
    assert b == [head] + rest;
    CountInIsFound(head.tasks, r);
    if head.ref == f {
      AppendIn(head.tasks, t, r);
      InFront(head.(tasks := head.tasks + [t]), rest, r);
    } else {
      AppendFacts(rest, f, t, r);
      InFront(head, AppendTask(rest, f, t), r);
    }
  }

  lemma {:induction false} RemoveFacts(b: Backlog, ref: Ref, r: Ref)
    requires Count(b, ref) == 1
    ensures Count(RemoveTask(b, ref), r) == if r == ref then 0 else Count(b, r)
    ensures FindEntry(RemoveTask(b, ref), r) == if r == ref then None else FindEntry(b, r)
    ensures forall g :: HasFeature(RemoveTask(b, ref), g) <==> HasFeature(b, g)
    decreases |b|
  {
    hide CountIn, FindIn;
    var head, rest := b[0], b[1..];
    InFront(head, rest, r);
    assert b == [head] + rest;
    CountInIsFound(head.tasks, ref);
    if FindIn(head.tasks, ref).Some? {
      RemoveInFacts(head.tasks, ref, r);
      InFront(head.(tasks := RemoveIn(head.tasks, ref)), rest, r);
      CountIsFound(rest, ref);
    } else {
      RemoveFacts(rest, ref, r);
      InFront(head, RemoveTask(rest, ref), r);
    }
  }

  lemma {:induction false} UpdateFacts(b: Backlog, t: Task, r: Ref)
    requires FindEntry(b, t.ref).Some?
    ensures Count(UpdateTask(b, t), r) == Count(b, r)
    ensures FindEntry(UpdateTask(b, t), r) == if r == t.ref then Some((FindEntry(b, r).value.0, t)) else FindEntry(b, r)
    ensures FindEntry(b, t.ref).value.1 == t ==> UpdateTask(b, t) == b
    decreases |b|
  {
    hide CountIn, FindIn, Count;
    var head, rest := b[0], b[1..];
    InFront(head, rest, r);
    InFront(head, rest, t.ref);
    assert b == [head] + rest;
    UpdateInFacts(head.tasks, t, r);
    if FindIn(head.tasks, t.ref).Some? {
      InFront(head.(tasks := UpdateIn(head.tasks, t)), rest, r);
    } else {
      UpdateFacts(rest, t, r);
      InFront(head, UpdateTask(rest, t), r);
    }
  }

  // ----- one spec, task by task ----------------------------------------------------------------------------

  /** What a spec makes of its own task: feature and fields. */
  function SyncEntry(m: Mode, e: Option<(FeatureRef, Task)>, s: Spec): Option<(FeatureRef, Task)> {
    match e
    case None => if Admissible(m, s) then Some((s.feature, NewTask(s))) else None
    case Some((f, t)) => Some((s.feature, Merged(m, t, s)))
  }

  predicate Adds(m: Mode, b: Backlog, s: Spec) {
    FindEntry(b, s.ref).None? && Admissible(m, s)
  }

  lemma {:induction false} EntryHasFeature(b: Backlog, r: Ref)
    requires FindEntry(b, r).Some?
    ensures HasFeature(b, FindEntry(b, r).value.0)
    decreases |b|
  {
    hide FindIn;
    InFront(b[0], b[1..], r);
    assert b == [b[0]] + b[1..];
    if FindIn(b[0].tasks, r).None? { EntryHasFeature(b[1..], r); }
  }

  lemma MovedFacts(m: Mode, b: Backlog, s: Spec, r: Ref)
    requires Count(b, s.ref) <= 1 && FindEntry(b, s.ref).Some? && FindEntry(b, s.ref).value.0 != s.feature
    ensures var ensured := Ensure(b, s.feature, m.titleOf(s.feature));
            var moved := AppendTask(RemoveTask(ensured, s.ref), s.feature, FindEntry(b, s.ref).value.1);
            && Count(moved, r) == Count(b, r)
            && FindEntry(moved, r) == if r == s.ref then Some((s.feature, FindEntry(b, s.ref).value.1)) else FindEntry(b, r)
  {
    hide Count, FindEntry, Ensure, AppendTask, RemoveTask, HasFeature;
    var ensured := Ensure(b, s.feature, m.titleOf(s.feature));
    EnsureFacts(b, s.feature, m.titleOf(s.feature), r);
    EnsureFacts(b, s.feature, m.titleOf(s.feature), s.ref);
    CountIsFound(ensured, s.ref);
    RemoveFacts(ensured, s.ref, r);
    RemoveFacts(ensured, s.ref, s.ref);
    AppendFacts(RemoveTask(ensured, s.ref), s.feature, FindEntry(b, s.ref).value.1, r);
  }

  /** A spec touches only its own task, places it in its feature, and adds it only when admissible. */
  lemma SyncOneFacts(m: Mode, b: Backlog, s: Spec, r: Ref)
    requires Count(b, s.ref) <= 1
    ensures Count(SyncOne(m, b, s), r) == Count(b, r) + if r == s.ref && Adds(m, b, s) then 1 else 0
    ensures FindEntry(SyncOne(m, b, s), r) == if r == s.ref then SyncEntry(m, FindEntry(b, r), s) else FindEntry(b, r)
  {
    hide Count, FindEntry, Ensure, AppendTask, RemoveTask, UpdateTask, HasFeature;
    var e, ensured := FindEntry(b, s.ref), Ensure(b, s.feature, m.titleOf(s.feature));
    EnsureFacts(b, s.feature, m.titleOf(s.feature), r);
    EnsureFacts(b, s.feature, m.titleOf(s.feature), s.ref);
    CountIsFound(b, s.ref);
    if e.None? {
      if Admissible(m, s) { AppendFacts(ensured, s.feature, NewTask(s), r); }
    } else if e.value.0 == s.feature {
      UpdateFacts(ensured, Merged(m, e.value.1, s), r);
    } else {
      MovedFacts(m, b, s, r);
      MovedFacts(m, b, s, s.ref);
      UpdateFacts(AppendTask(RemoveTask(ensured, s.ref), s.feature, e.value.1), Merged(m, e.value.1, s), r);
    }
  }

  /** A spec whose task already agrees with it changes nothing, not even an order. */
  lemma AgreeingSpecIsIdle(m: Mode, b: Backlog, s: Spec)
    requires SyncEntry(m, FindEntry(b, s.ref), s) == FindEntry(b, s.ref)
    ensures SyncOne(m, b, s) == b
  {
    hide FindEntry, HasFeature;
    var e := FindEntry(b, s.ref);
    if e.Some? {
      EntryHasFeature(b, s.ref);
      UpdateFacts(b, e.value.1, s.ref);
    }
  }

  // ----- all specs ---------------------------------------------------------------------------------------------

  predicate DistinctSpecs(specs: seq<Spec>) {
    forall i, j :: 0 <= i < j < |specs| ==> specs[i].ref != specs[j].ref
  }

  lemma SyncOneKeepsUnique(m: Mode, b: Backlog, s: Spec)
    requires Unique(b)
    ensures Unique(SyncOne(m, b, s))
  {
    hide Count, FindEntry, SyncOne;
    forall r ensures Count(SyncOne(m, b, s), r) <= 1 {
      SyncOneFacts(m, b, s, r);
      CountIsFound(b, s.ref);
    }
  }

  /** Every sync keeps refs unique: moves neither lose nor duplicate a task. */
  lemma {:induction false} SyncKeepsUnique(m: Mode, b: Backlog, specs: seq<Spec>)
    requires Unique(b)
    ensures Unique(Sync(m, b, specs))
    decreases |specs|
  {
    hide Unique, SyncOne;
    if specs != [] {
      SyncOneKeepsUnique(m, b, specs[0]);
      SyncKeepsUnique(m, SyncOne(m, b, specs[0]), specs[1..]);
    }
  }

  /** A task no spec names stays as and where it is. */
  lemma {:induction false} UnnamedTaskStays(m: Mode, b: Backlog, specs: seq<Spec>, r: Ref)
    requires Unique(b) && forall i :: 0 <= i < |specs| ==> specs[i].ref != r
    ensures FindEntry(Sync(m, b, specs), r) == FindEntry(b, r) && Count(Sync(m, b, specs), r) == Count(b, r)
    decreases |specs|
  {
    hide FindEntry, Count, SyncOne;
    if specs != [] {
      SyncOneKeepsUnique(m, b, specs[0]);
      SyncOneFacts(m, b, specs[0], r);
      UnnamedTaskStays(m, SyncOne(m, b, specs[0]), specs[1..], r);
    }
  }

  /** Each spec decides its own task alone, whatever the other specs say. */
  lemma {:induction false} NamedTaskIsSynced(m: Mode, b: Backlog, specs: seq<Spec>, k: nat)
    requires Unique(b) && DistinctSpecs(specs) && k < |specs|
    ensures FindEntry(Sync(m, b, specs), specs[k].ref) == SyncEntry(m, FindEntry(b, specs[k].ref), specs[k])
    ensures Count(Sync(m, b, specs), specs[k].ref) == Count(b, specs[k].ref) + if Adds(m, b, specs[k]) then 1 else 0
    decreases |specs|
  {
    hide FindEntry, Count, SyncOne, SyncEntry;
    var next := SyncOne(m, b, specs[0]);
    SyncOneKeepsUnique(m, b, specs[0]);
    SyncOneFacts(m, b, specs[0], specs[k].ref);
    if k == 0 {
      UnnamedTaskStays(m, next, specs[1..], specs[0].ref);
    } else {
      NamedTaskIsSynced(m, next, specs[1..], k - 1);
    }
  }

  lemma EntrySyncIsIdempotent(m: Mode, e: Option<(FeatureRef, Task)>, s: Spec)
    ensures SyncEntry(m, SyncEntry(m, e, s), s) == SyncEntry(m, e, s)
  {
  }

  lemma {:induction false} AgreeingSpecsAreIdle(m: Mode, b: Backlog, specs: seq<Spec>)
    requires forall i :: 0 <= i < |specs| ==> SyncEntry(m, FindEntry(b, specs[i].ref), specs[i]) == FindEntry(b, specs[i].ref)
    ensures Sync(m, b, specs) == b
    decreases |specs|
  {
    hide FindEntry, SyncOne, SyncEntry;
    if specs != [] {
      AgreeingSpecIsIdle(m, b, specs[0]);
      AgreeingSpecsAreIdle(m, b, specs[1..]);
    }
  }

  /** Syncing twice is syncing once, down to the order of features and tasks. */
  lemma SyncIsIdempotent(m: Mode, b: Backlog, specs: seq<Spec>)
    requires Unique(b) && DistinctSpecs(specs)
    ensures Sync(m, Sync(m, b, specs), specs) == Sync(m, b, specs)
  {
    hide FindEntry, Sync, SyncEntry;
    var once := Sync(m, b, specs);
    forall i | 0 <= i < |specs| ensures SyncEntry(m, FindEntry(once, specs[i].ref), specs[i]) == FindEntry(once, specs[i].ref) {
      NamedTaskIsSynced(m, b, specs, i);
      EntrySyncIsIdempotent(m, FindEntry(b, specs[i].ref), specs[i]);
    }
    AgreeingSpecsAreIdle(m, once, specs);
  }

  /** The task exists after the sync exactly when it existed before or an admissible spec names it. */
  lemma SyncAddsExactlyTheAdmissible(m: Mode, b: Backlog, specs: seq<Spec>, r: Ref)
    requires Unique(b) && DistinctSpecs(specs)
    ensures Count(Sync(m, b, specs), r) ==
            if Count(b, r) == 1 || exists i :: 0 <= i < |specs| && specs[i].ref == r && Admissible(m, specs[i]) then 1 else 0
  {
    hide Sync, FindEntry, Count;
    CountIsFound(b, r);
    if k :| 0 <= k < |specs| && specs[k].ref == r {
      NamedTaskIsSynced(m, b, specs, k);
    } else {
      UnnamedTaskStays(m, b, specs, r);
    }
  }

  /** A change the mirror may make: todo or blocked becomes blocked, finished or cancelled. */
  predicate LessDispatchable(from: Status, to: Status) {
    (from == Todo || from == Blocked) && to in {Blocked, Done, Released, Cancelled}
  }

  /**
   * An existing task is never lost; its status changes only when mirroring, and
   * then never to todo or active and never from active, finished or cancelled.
   */
  lemma SyncKeepsStatuses(m: Mode, b: Backlog, specs: seq<Spec>, r: Ref)
    requires Unique(b) && DistinctSpecs(specs) && FindEntry(b, r).Some?
    ensures FindEntry(Sync(m, b, specs), r).Some?
    ensures var was, now := FindEntry(b, r).value.1.status, FindEntry(Sync(m, b, specs), r).value.1.status;
            now == was || (m.mirror && LessDispatchable(was, now))
    ensures Active(FindEntry(Sync(m, b, specs), r).value.1.status) ==> Active(FindEntry(b, r).value.1.status)
  {
    hide Sync, FindEntry, Count;
    if k :| 0 <= k < |specs| && specs[k].ref == r {
      NamedTaskIsSynced(m, b, specs, k);
    } else {
      UnnamedTaskStays(m, b, specs, r);
    }
  }

  /** An active task keeps its status and its dependencies. */
  lemma SyncLeavesActiveTasks(m: Mode, b: Backlog, specs: seq<Spec>, r: Ref)
    requires Unique(b) && DistinctSpecs(specs) && FindEntry(b, r).Some? && Active(FindEntry(b, r).value.1.status)
    ensures FindEntry(Sync(m, b, specs), r).Some?
    ensures var was, now := FindEntry(b, r).value.1, FindEntry(Sync(m, b, specs), r).value.1; now.status == was.status && now.deps == was.deps
  {
    hide Sync, FindEntry, Count;
    if k :| 0 <= k < |specs| && specs[k].ref == r {
      NamedTaskIsSynced(m, b, specs, k);
    } else {
      UnnamedTaskStays(m, b, specs, r);
    }
  }

  // ----- what a synced task holds -------------------------------------------------------------------------------

  /**
   * After a sync every named task that existed or was admissible is in its
   * spec's feature with the spec's title, review level and merge strategy, and
   * with the spec's dependencies unless it was active.  Its type and attempts
   * stay; a new task is an implementation with no attempt.  Only mirroring takes
   * a status over, and only for a todo or blocked task.
   */
  lemma SyncedTask(m: Mode, b: Backlog, specs: seq<Spec>, k: nat)
    requires Unique(b) && DistinctSpecs(specs) && k < |specs|
    ensures var s, was, now := specs[k], FindEntry(b, specs[k].ref), FindEntry(Sync(m, b, specs), specs[k].ref);
            && (now.Some? <==> was.Some? || m.mirror || s.status == Todo)
            && (now.Some? ==>
                  var (feature, t) := now.value;
                  && feature == s.feature && t.ref == s.ref && t.title == s.title && t.review == s.review && t.merge == s.merge
                  && t.deps == (if was.Some? && was.value.1.status in {Claimed, InProgress} then was.value.1.deps else s.deps)
                  && t.taskType == (if was.Some? then was.value.1.taskType else "implementation")
                  && t.attempts == (if was.Some? then was.value.1.attempts else 0)
                  && t.status == (if was.None? then s.status
                                  else if m.mirror && was.value.1.status in {Todo, Blocked} && s.status != Todo then s.status
                                  else was.value.1.status))
  {
    hide Sync, FindEntry, Count;
    NamedTaskIsSynced(m, b, specs, k);
  }

  /** The first feature with the ref. */
  predicate IsFeature(b: Backlog, f: FeatureRef, i: nat) {
    i < |b| && b[i].ref == f && forall j :: 0 <= j < i ==> b[j].ref != f
  }

  /** A task is added at the end of its feature; every other feature stays. */
  lemma {:induction false} AppendedLast(b: Backlog, f: FeatureRef, t: Task, i: nat)
    requires IsFeature(b, f, i)
    ensures AppendTask(b, f, t) == b[i := b[i].(tasks := b[i].tasks + [t])]
    decreases |b|
  {
    if i > 0 {
      assert forall j :: 0 <= j < i - 1 ==> b[1..][j] == b[j + 1];
      AppendedLast(b[1..], f, t, i - 1);
    }
  }

  /** The place of the first task with the ref in its feature. */
  predicate IsPlace(tasks: seq<Task>, ref: Ref, j: nat) {
    j < |tasks| && tasks[j].ref == ref && forall k :: 0 <= k < j ==> tasks[k].ref != ref
  }

  lemma {:induction false} UpdatedInPlace(tasks: seq<Task>, t: Task, j: nat)
    requires IsPlace(tasks, t.ref, j)
    ensures UpdateIn(tasks, t) == tasks[j := t]
    decreases |tasks|
  {
    if j > 0 {
      assert forall k :: 0 <= k < j - 1 ==> tasks[1..][k] == tasks[k + 1];
      UpdatedInPlace(tasks[1..], t, j - 1);
    }
  }

  lemma {:induction false} RemovedNothing(tasks: seq<Task>, ref: Ref)
    requires CountIn(tasks, ref) == 0
    ensures RemoveIn(tasks, ref) == tasks
    decreases |tasks|
  {
    if tasks != [] { RemovedNothing(tasks[1..], ref); }
  }

  /** Taking a task out of its feature closes the gap and keeps the order of the others. */
  lemma {:induction false} RemovedFromPlace(tasks: seq<Task>, ref: Ref, j: nat)
    requires IsPlace(tasks, ref, j) && CountIn(tasks, ref) == 1
    ensures RemoveIn(tasks, ref) == tasks[..j] + tasks[j + 1..]
    decreases |tasks|
  {
    if j == 0 {
      RemovedNothing(tasks[1..], ref);
    } else {
      assert forall k :: 0 <= k < j - 1 ==> tasks[1..][k] == tasks[k + 1];
      RemovedFromPlace(tasks[1..], ref, j - 1);
      assert tasks[..j] == [tasks[0]] + tasks[1..][..j - 1];
    }
  }

  /** Where the first feature that holds the task is, and the task in it. */
  predicate IsEntry(b: Backlog, ref: Ref, i: nat, j: nat) {
    i < |b| && IsPlace(b[i].tasks, ref, j) && forall k :: 0 <= k < i ==> forall l :: 0 <= l < |b[k].tasks| ==> b[k].tasks[l].ref != ref
  }

  lemma {:induction false} NotIn(tasks: seq<Task>, ref: Ref)
    requires forall l :: 0 <= l < |tasks| ==> tasks[l].ref != ref
    ensures FindIn(tasks, ref).None?
    decreases |tasks|
  {
    if tasks != [] { NotIn(tasks[1..], ref); }
  }

  lemma {:induction false} FoundAt(tasks: seq<Task>, ref: Ref, j: nat)
    requires IsPlace(tasks, ref, j)
    ensures FindIn(tasks, ref) == Some(tasks[j])
    decreases |tasks|
  {
    if j > 0 {
      assert forall k :: 0 <= k < j - 1 ==> tasks[1..][k] == tasks[k + 1];
      FoundAt(tasks[1..], ref, j - 1);
    }
  }

  /** Updating or removing a task touches its one place in the backlog; everything else keeps its place or order. */
  lemma {:induction false} ChangedInPlace(b: Backlog, t: Task, i: nat, j: nat)
    requires IsEntry(b, t.ref, i, j)
    ensures UpdateTask(b, t) == b[i := b[i].(tasks := b[i].tasks[j := t])]
    ensures CountIn(b[i].tasks, t.ref) == 1 ==> RemoveTask(b, t.ref) == b[i := b[i].(tasks := b[i].tasks[..j] + b[i].tasks[j + 1..])]
    decreases |b|
  {
    hide FindIn, UpdateIn, RemoveIn, CountIn;
    if i == 0 {
      FoundAt(b[0].tasks, t.ref, j);
      UpdatedInPlace(b[0].tasks, t, j);
      if CountIn(b[0].tasks, t.ref) == 1 { RemovedFromPlace(b[0].tasks, t.ref, j); }
    } else {
      NotIn(b[0].tasks, t.ref);
      assert forall k :: 0 <= k < i ==> b[1..][k] == b[k + 1];
      ChangedInPlace(b[1..], t, i - 1, j);
    }
  }

  /** Features are only added, at the end, for a spec, and titled by its feature ref. */
  predicate FeaturesGrow(m: Mode, before: Backlog, after: Backlog) {
    && |before| <= |after|
    && (forall i :: 0 <= i < |before| ==> after[i].ref == before[i].ref && after[i].title == before[i].title)
    && (forall i :: |before| <= i < |after| ==> after[i].title == m.titleOf(after[i].ref))
  }

  predicate SameFeatures(before: Backlog, after: Backlog) {
    |after| == |before| && forall i :: 0 <= i < |before| ==> after[i].ref == before[i].ref && after[i].title == before[i].title
  }

  lemma FeatureInFront(f: Feature, g: Feature, rest: Backlog, other: Backlog)
    requires SameFeatures(rest, other) && g.ref == f.ref && g.title == f.title
    ensures SameFeatures([f] + rest, [g] + other)
  {
  }

  lemma {:induction false} AppendKeepsFeatures(b: Backlog, f: FeatureRef, t: Task)
    ensures SameFeatures(b, AppendTask(b, f, t))
    ensures HasFeature(b, f) ==> CountTasks(AppendTask(b, f, t)) == CountTasks(b) + 1
    decreases |b|
  {
    hide SameFeatures;
    SelfSame(b);
    if b != [] {
      assert b == [b[0]] + b[1..];
      InFront(b[0], b[1..], t.ref);
      AppendKeepsFeatures(b[1..], f, t);
      SelfSame(b[1..]);
      FeatureInFront(b[0], b[0], b[1..], AppendTask(b[1..], f, t));
      FeatureInFront(b[0], b[0].(tasks := b[0].tasks + [t]), b[1..], b[1..]);
      CountInFront(b[0], AppendTask(b[1..], f, t));
      CountInFront(b[0].(tasks := b[0].tasks + [t]), b[1..]);
    }
  }

  lemma {:induction false} RemoveKeepsFeatures(b: Backlog, ref: Ref)
    ensures SameFeatures(b, RemoveTask(b, ref))
    ensures Count(b, ref) == 1 ==> CountTasks(RemoveTask(b, ref)) == CountTasks(b) - 1
    decreases |b|
  {
    hide SameFeatures, CountIn, FindIn;
    SelfSame(b);
    if b != [] {
      assert b == [b[0]] + b[1..];
      RemoveKeepsFeatures(b[1..], ref);
      SelfSame(b[1..]);
      var left := b[0].(tasks := RemoveIn(b[0].tasks, ref));
      FeatureInFront(b[0], b[0], b[1..], RemoveTask(b[1..], ref));
      FeatureInFront(b[0], left, b[1..], b[1..]);
      CountInFront(b[0], RemoveTask(b[1..], ref));
      CountInFront(left, b[1..]);
      CountInIsFound(b[0].tasks, ref);
      RemoveInShrinks(b[0].tasks, ref);
    }
  }

  lemma {:induction false} RemoveInShrinks(tasks: seq<Task>, ref: Ref)
    ensures |RemoveIn(tasks, ref)| == |tasks| - CountIn(tasks, ref)
    decreases |tasks|
  {
    if tasks != [] { RemoveInShrinks(tasks[1..], ref); }
  }

  lemma {:induction false} UpdateInKeepsLength(tasks: seq<Task>, t: Task)
    ensures |UpdateIn(tasks, t)| == |tasks|
    decreases |tasks|
  {
    if tasks != [] { UpdateInKeepsLength(tasks[1..], t); }
  }

  lemma {:induction false} UpdateKeepsFeatures(b: Backlog, t: Task)
    ensures SameFeatures(b, UpdateTask(b, t)) && CountTasks(UpdateTask(b, t)) == CountTasks(b)
    decreases |b|
  {
    hide SameFeatures, FindIn;
    SelfSame(b);
    if b != [] {
      assert b == [b[0]] + b[1..];
      UpdateKeepsFeatures(b[1..], t);
      SelfSame(b[1..]);
      var changed := b[0].(tasks := UpdateIn(b[0].tasks, t));
      UpdateInKeepsLength(b[0].tasks, t);
      FeatureInFront(b[0], b[0], b[1..], UpdateTask(b[1..], t));
      FeatureInFront(b[0], changed, b[1..], b[1..]);
      CountInFront(b[0], UpdateTask(b[1..], t));
      CountInFront(changed, b[1..]);
    }
  }

  lemma SelfSame(b: Backlog)
    ensures SameFeatures(b, b)
  {
  }

  function CountTasks(b: Backlog): nat
    decreases |b|
  {
    if b == [] then 0 else |b[0].tasks| + CountTasks(b[1..])
  }

  lemma CountInFront(f: Feature, rest: Backlog)
    ensures CountTasks([f] + rest) == |f.tasks| + CountTasks(rest)
  {
    assert ([f] + rest)[1..] == rest;
  }

  lemma {:induction false} CountTasksAtEnd(b: Backlog, f: Feature)
    requires f.tasks == []
    ensures CountTasks(b + [f]) == CountTasks(b)
    decreases |b|
  {
    if b == [] {
      assert b + [f] == [f] + [];
      CountInFront(f, []);
    } else {
      assert b + [f] == [b[0]] + (b[1..] + [f]);
      CountInFront(b[0], b[1..] + [f]);
      CountTasksAtEnd(b[1..], f);
    }
  }

  lemma SyncOneGrows(m: Mode, b: Backlog, s: Spec)
    requires Count(b, s.ref) <= 1
    ensures FeaturesGrow(m, b, SyncOne(m, b, s))
    ensures |SyncOne(m, b, s)| == |b| + if !Skips(m, b, s) && !HasFeature(b, s.feature) then 1 else 0
    ensures CountTasks(SyncOne(m, b, s)) == CountTasks(b) + if Adds(m, b, s) then 1 else 0
  {
    hide FindEntry, HasFeature, AppendTask, RemoveTask, UpdateTask, Merged, Count, CountTasks;
    var e, ensured := FindEntry(b, s.ref), Ensure(b, s.feature, m.titleOf(s.feature));
    EnsureFacts(b, s.feature, m.titleOf(s.feature), s.ref);
    CountTasksAtEnd(b, Feature(s.feature, m.titleOf(s.feature), []));
    if e.None? {
      AppendKeepsFeatures(ensured, s.feature, NewTask(s));
    } else {
      var t, removed := e.value.1, RemoveTask(ensured, s.ref);
      CountIsFound(ensured, s.ref);
      RemoveKeepsFeatures(ensured, s.ref);
      RemoveFacts(ensured, s.ref, s.ref);
      AppendKeepsFeatures(removed, s.feature, t);
      UpdateKeepsFeatures(ensured, Merged(m, t, s));
      UpdateKeepsFeatures(AppendTask(removed, s.feature, t), Merged(m, t, s));
    }
  }

  // ----- the merge as it runs --------------------------------------------------------------------------------------

  datatype SyncResult = SyncResult(updated: bool, addedTasks: nat, updatedTasks: nat, addedFeatures: nat, skipped: seq<Spec>)

  predicate Skips(m: Mode, b: Backlog, s: Spec) {
    FindEntry(b, s.ref).None? && !Admissible(m, s)
  }

  predicate Updates(m: Mode, b: Backlog, s: Spec) {
    var e := FindEntry(b, s.ref);
    e.Some? && Merged(m, e.value.1, s) != e.value.1
  }

  /** What one spec adds to the report: `updated` says the backlog is not what it was. */
  function StepResult(m: Mode, b: Backlog, s: Spec): SyncResult {
    SyncResult(SyncOne(m, b, s) != b,
               if Adds(m, b, s) then 1 else 0,
               if Updates(m, b, s) then 1 else 0,
               if !Skips(m, b, s) && !HasFeature(b, s.feature) then 1 else 0,
               if Skips(m, b, s) then [s] else [])
  }

  const NOTHING := SyncResult(false, 0, 0, 0, [])

  function Plus(a: SyncResult, b: SyncResult): SyncResult {
    SyncResult(a.updated || b.updated, a.addedTasks + b.addedTasks, a.updatedTasks + b.updatedTasks,
               a.addedFeatures + b.addedFeatures, a.skipped + b.skipped)
  }

  function Report(m: Mode, b: Backlog, specs: seq<Spec>): SyncResult
    decreases |specs|
  {
    if specs == [] then NOTHING else Plus(StepResult(m, b, specs[0]), Report(m, SyncOne(m, b, specs[0]), specs[1..]))
  }

  // ----- what the report says ------------------------------------------------------------------------------------

  /** A spec that already has a task but changes it, compared with the backlog after the sync. */
  function ChangedTasks(before: Backlog, after: Backlog, specs: seq<Spec>): nat
    decreases |specs|
  {
    if specs == [] then 0
    else
      var was, now := FindEntry(before, specs[0].ref), FindEntry(after, specs[0].ref);
      (if was.Some? && now.Some? && was.value.1 != now.value.1 then 1 else 0) + ChangedTasks(before, after, specs[1..])
  }

  lemma {:induction false} ChangedTasksReadEntries(before: Backlog, other: Backlog, after: Backlog, specs: seq<Spec>)
    requires forall i :: 0 <= i < |specs| ==> FindEntry(before, specs[i].ref) == FindEntry(other, specs[i].ref)
    ensures ChangedTasks(before, after, specs) == ChangedTasks(other, after, specs)
    decreases |specs|
  {
    hide FindEntry;
    if specs != [] {
      ChangedTasksReadEntries(before, other, after, specs[1..]);
    }
  }

  /** The report counts the tasks and features added and the tasks changed, and lists the new specs left out. */
  lemma {:induction false} ReportIsAccurate(m: Mode, b: Backlog, specs: seq<Spec>)
    requires Unique(b) && DistinctSpecs(specs)
    ensures var after, report := Sync(m, b, specs), Report(m, b, specs);
            && FeaturesGrow(m, b, after) && |after| == |b| + report.addedFeatures
            && CountTasks(after) == CountTasks(b) + report.addedTasks
            && report.updatedTasks == ChangedTasks(b, after, specs)
            && (forall s :: s in report.skipped <==> s in specs && FindEntry(b, s.ref).None? && !m.mirror && s.status != Todo)
            && (report.updated ==> specs != []) && (!report.updated ==> after == b)
    decreases |specs|
  {
    hide FindEntry, SyncOne, Unique, HasFeature, Count, CountTasks;
    if specs != [] {
      var s, rest, next := specs[0], specs[1..], SyncOne(m, b, specs[0]);
      SyncOneKeepsUnique(m, b, s);
      ReportIsAccurate(m, next, rest);
      UniqueCount(b, s.ref);
      SyncOneGrows(m, b, s);
      forall i | 0 <= i < |rest| ensures FindEntry(next, rest[i].ref) == FindEntry(b, rest[i].ref) {
        SyncOneFacts(m, b, s, rest[i].ref);
      }
      ChangedTasksReadEntries(next, b, Sync(m, b, specs), rest);
      SyncOneFacts(m, b, s, s.ref);
      UnnamedTaskStays(m, next, rest, s.ref);
      assert specs == [s] + rest;
      forall t | t in rest ensures FindEntry(next, t.ref) == FindEntry(b, t.ref) {
        var i :| 0 <= i < |rest| && rest[i] == t;
      }
    }
  }

  lemma PlusIsAssociative(a: SyncResult, b: SyncResult, c: SyncResult)
    ensures Plus(a, Plus(b, c)) == Plus(Plus(a, b), c)
    ensures Plus(a, NOTHING) == a && Plus(NOTHING, a) == a
  {
    assert a.skipped + (b.skipped + c.skipped) == (a.skipped + b.skipped) + c.skipped;
    assert a.skipped + [] == a.skipped && [] + a.skipped == a.skipped;
  }

  lemma {:induction false} SyncSnoc(m: Mode, b: Backlog, specs: seq<Spec>, last: Spec)
    ensures var mid := Sync(m, b, specs);
            && Sync(m, b, specs + [last]) == SyncOne(m, mid, last)
            && Report(m, b, specs + [last]) == Plus(Report(m, b, specs), StepResult(m, mid, last))
    decreases |specs|
  {
    hide SyncOne, StepResult, Plus;
    var more := specs + [last];
    if specs == [] {
      assert more[0] == last && more[1..] == [];
      assert Report(m, SyncOne(m, b, last), []) == NOTHING && Sync(m, SyncOne(m, b, last), []) == SyncOne(m, b, last);
      PlusIsAssociative(StepResult(m, b, last), NOTHING, NOTHING);
    } else {
      assert more[0] == specs[0] && more[1..] == specs[1..] + [last];
      var next := SyncOne(m, b, specs[0]);
      SyncSnoc(m, next, specs[1..], last);
      PlusIsAssociative(StepResult(m, b, specs[0]), Report(m, next, specs[1..]), StepResult(m, Sync(m, b, specs), last));
    }
  }

  /** A spec changes the backlog exactly when its task, its feature or its presence changes. */
  lemma ChangesExactlyWhen(m: Mode, b: Backlog, s: Spec)
    requires Count(b, s.ref) <= 1
    ensures SyncOne(m, b, s) != b <==> SyncEntry(m, FindEntry(b, s.ref), s) != FindEntry(b, s.ref)
  {
    hide SyncOne, FindEntry, Count;
    SyncOneFacts(m, b, s, s.ref);
    if SyncEntry(m, FindEntry(b, s.ref), s) == FindEntry(b, s.ref) {
      AgreeingSpecIsIdle(m, b, s);
    }
  }

  /** The loaded backlog, changed in place. */
  class LoadedBacklog {
    var features: Backlog

    constructor (features: Backlog)
      ensures this.features == features
    {
      this.features := features;
    }

    /** The field-by-field update of an existing task. */
    method UpdateExisting(t: Task, s: Spec, m: Mode) returns (updated: bool)
      requires FindEntry(features, t.ref).Some? && FindEntry(features, t.ref).value.1 == t
      modifies this
      ensures features == UpdateTask(old(features), Merged(m, t, s))
      ensures updated <==> Merged(m, t, s) != t
    {
      hide FindEntry, UpdateTask;
      var task := t;
      updated := false;
      if task.title != s.title {
        task, updated := task.(title := s.title), true;
      }
      if !Active(task.status) && task.deps != s.deps {
        task, updated := task.(deps := s.deps), true;
      }
      if m.mirror && s.status != Todo && !Active(task.status) && !Finished(task.status) && task.status != Cancelled && task.status != s.status {
        task, updated := task.(status := s.status), true;
      }
      if task.review != s.review {
        task, updated := task.(review := s.review), true;
      }
      if task.merge != s.merge {
        task, updated := task.(merge := s.merge), true;
      }
      features := UpdateTask(features, task);
    }

    /** The loop body for one spec; its part of the report. */
    method SyncSpec(s: Spec, m: Mode) returns (step: SyncResult)
      requires Count(features, s.ref) <= 1
      modifies this
      ensures features == SyncOne(m, old(features), s)
      ensures step == StepResult(m, old(features), s)
    {
      hide Count, FindEntry, Ensure, AppendTask, RemoveTask, UpdateTask, HasFeature, Merged;
      ghost var b := features;
      ChangesExactlyWhen(m, b, s);
      var e := FindEntry(features, s.ref);
      if !m.mirror && s.status != Todo && e.None? {
        return NOTHING.(skipped := [s]);
      }
      step := NOTHING;
      EnsureFacts(b, s.feature, m.titleOf(s.feature), s.ref);
      if !HasFeature(features, s.feature) {
        FeatureWasMissing(b, s);
        step := step.(updated := true, addedFeatures := 1);
      }
      features := Ensure(features, s.feature, m.titleOf(s.feature));
      if e.None? {
        features := AppendTask(features, s.feature, NewTask(s));
        return step.(updated := true, addedTasks := 1);
      }
      var task := e.value.1;
      if e.value.0 != s.feature {
        MovedFacts(m, b, s, s.ref);
        features := AppendTask(RemoveTask(features, s.ref), s.feature, task);
        step := step.(updated := true);
      }
      var updated := UpdateExisting(task, s, m);
      if updated {
        step := step.(updated := true, updatedTasks := 1);
      }
    }

    /** syncBacklogFromSpecsLoaded */
    method SyncFromSpecs(specs: seq<Spec>, m: Mode) returns (result: SyncResult)
      requires Unique(features)
      modifies this
      ensures features == Sync(m, old(features), specs) && Unique(features)
      ensures result == Report(m, old(features), specs)
    {
      hide SyncOne, Unique, StepResult;
      ghost var b := features;
      result := NOTHING;
      for i := 0 to |specs|
        invariant features == Sync(m, b, specs[..i]) && Unique(features)
        invariant result == Report(m, b, specs[..i])
      {
        UniqueCount(features, specs[i].ref);
        SyncOneKeepsUnique(m, features, specs[i]);
        SyncSnoc(m, b, specs[..i], specs[i]);
        assert specs[..i + 1] == specs[..i] + [specs[i]];
        var step := SyncSpec(specs[i], m);
        result := Plus(result, step);
      }
      assert specs[..|specs|] == specs;
    }
  }

  lemma UniqueCount(b: Backlog, r: Ref)
    requires Unique(b)
    ensures Count(b, r) <= 1
  {
  }

  /** A task cannot already be in a feature that does not exist. */
  lemma FeatureWasMissing(b: Backlog, s: Spec)
    requires !HasFeature(b, s.feature)
    ensures FindEntry(b, s.ref).Some? ==> FindEntry(b, s.ref).value.0 != s.feature
  {
    if FindEntry(b, s.ref).Some? { EntryHasFeature(b, s.ref); }
  }

  lemma {:induction false} IdleSpecsReportNothing(m: Mode, b: Backlog, specs: seq<Spec>)
    requires forall i :: 0 <= i < |specs| ==> SyncOne(m, b, specs[i]) == b
    ensures !Report(m, b, specs).updated
    decreases |specs|
  {
    hide SyncOne, Adds, Updates, Skips, HasFeature;
    if specs != [] { IdleSpecsReportNothing(m, b, specs[1..]); }
  }

  /** A second sync with the same specs reports no update. */
  lemma SecondSyncReportsNothing(m: Mode, b: Backlog, specs: seq<Spec>)
    requires Unique(b) && DistinctSpecs(specs)
    ensures !Report(m, Sync(m, b, specs), specs).updated
  {
    hide Sync, SyncOne, SyncEntry, FindEntry;
    var once := Sync(m, b, specs);
    forall i | 0 <= i < |specs| ensures SyncOne(m, once, specs[i]) == once {
      NamedTaskIsSynced(m, b, specs, i);
      EntrySyncIsIdempotent(m, FindEntry(b, specs[i].ref), specs[i]);
      AgreeingSpecIsIdle(m, once, specs[i]);
    }
    IdleSpecsReportNothing(m, once, specs);
  }
}
