/**
 * The project task store (lib/projectTaskStore.ts).  Every table of runtime.db
 * is keyed by task, so the store is one slot per task: its row, its transition
 * log, its run bindings and its spec revisions.  The SQLite triggers and
 * constraints are the guards of the operations below.
 */
module TaskStore {
  import opened Prelude
  import opened TaskContract

  type RunId = nat
  type Time = int

  // ----- specifications ----------------------------------------------------------------

  datatype Json = Str(text: string) | Num(n: int) | List(items: seq<string>) | Refs(refs: seq<Ref>) | Null

  /** A JSON object: its keys in insertion order. */
  type Metadata = seq<(string, Json)>

  datatype Priority = Low | Normal | High | Critical
  datatype Provider = Codex | Claude | Gemini

  datatype Spec = Spec(title: string, body: string, metadata: Metadata, priority: Priority,
                       provider: Option<Provider>, deps: seq<Ref>)

  /** One immutable spec revision; its metadata includes the indexed fields. */
  datatype Revision = Revision(number: nat, title: string, body: string, metadata: Metadata)

  const PRIORITY := "priority"
  const PROVIDER := "required_provider"
  const DEPENDS := "depends_on"

  predicate Indexed(key: string) {
    key == PRIORITY || key == PROVIDER || key == DEPENDS
  }

  function PriorityJson(p: Priority): Json {
    match p
    case Low => Str("low")
    case Normal => Str("normal")
    case High => Str("high")
    case Critical => Str("critical")
  }

  function ProviderJson(p: Option<Provider>): Json {
    match p
    case None => Null
    case Some(Codex) => Str("codex")
    case Some(Claude) => Str("claude")
    case Some(Gemini) => Str("gemini")
  }

  /** Assign a key of a JSON object: in place when present, at the end when new. */
  function PutKey(m: Metadata, key: string, v: Json): Metadata
    decreases |m|
  {
    if m == [] then [(key, v)]
    else if m[0].0 == key then [(key, v)] + m[1..]
    else [m[0]] + PutKey(m[1..], key, v)
  }

  function Lookup(m: Metadata, key: string): Option<Json>
    decreases |m|
  {
    if m == [] then None
    else if m[0].0 == key then Some(m[0].1)
    else Lookup(m[1..], key)
  }

  /** The metadata a revision stores: the given fields with the indexed ones spread over them. */
  function RevisionMetadata(s: Spec): Metadata {
    PutKey(PutKey(PutKey(s.metadata, PRIORITY, PriorityJson(s.priority)),
                  PROVIDER, ProviderJson(s.provider)), DEPENDS, Refs(s.deps))
  }

  /** The fields left when the indexed ones are taken out again. */
  function BaseMetadata(m: Metadata): Metadata
    decreases |m|
  {
    if m == [] then []
    else if Indexed(m[0].0) then BaseMetadata(m[1..])
    else [m[0]] + BaseMetadata(m[1..])
  }

  /** Insert into a strictly increasing list, once. */
  function InsertRef(deps: seq<Ref>, r: Ref): seq<Ref>
    decreases |deps|
  {
    if deps == [] then [r]
    else if r < deps[0] then [r] + deps
    else if r == deps[0] then deps
    else [deps[0]] + InsertRef(deps[1..], r)
  }

  function SortRefs(deps: seq<Ref>): seq<Ref>
    decreases |deps|
  {
    if deps == [] then [] else InsertRef(SortRefs(deps[1..]), deps[0])
  }

  /** Dependencies sorted and without repetition; a task may not depend on itself. */
  function NormalizeDeps(ref: Ref, deps: seq<Ref>): Result<seq<Ref>, Error> {
    if ref in deps then Err(InvalidInput) else Ok(SortRefs(deps))
  }

  // ----- rows ----------------------------------------------------------------------------

  datatype RunState = RunClaimed | RunInProgress | RunWorkComplete | RunFinished | RunFailed | RunCancelled

  /** A run pinned to the revision it was claimed with. */
  datatype Binding = Binding(revision: nat, agent: Option<string>, state: RunState)

  datatype Entry = Entry(from: Status, to: Status, cause: Cause, reason: Option<string>, run: Option<RunId>, key: Option<nat>)

  datatype Planning = ReadyForDispatch | Archived

  datatype Dispatch = Dispatch(owner: Option<string>, planning: Option<Planning>, delegatedBy: Option<string>,
                               taskType: Option<string>, requeueAfter: Option<Time>)

  datatype Slot = Slot(
    status: Status, attempts: nat, blockedReason: Option<string>, dispatch: Dispatch,
    title: string, priority: Priority, provider: Option<Provider>, deps: seq<Ref>,
    revisions: seq<Revision>, log: seq<Entry>, runs: map<RunId, Binding>)

  type Store = map<Ref, Slot>

  datatype Error = NotFound | Conflict | InvalidInput | RevisionConflict(current: nat) | InvalidTransition | Constraint | NoCause | DefinitionChanged

  predicate ActiveRun(s: RunState) {
    s == RunClaimed || s == RunInProgress || s == RunWorkComplete
  }

  /** SQLite trim removes spaces. */
  predicate Blank(s: string) {
    forall i :: 0 <= i < |s| ==> s[i] == ' '
  }

  // ----- transitions -----------------------------------------------------------------------

  datatype TransitionInput = TransitionInput(cause: Cause, to: Status, reason: Option<string>, run: Option<RunId>, key: Option<nat>)

  /** The transitions_validate trigger: the enumerated pairs, an import only as the first entry. */
  predicate TriggerAllows(log: seq<Entry>, from: Status, to: Status, cause: Cause) {
    || (cause == Claim && from == Todo && to == Claimed)
    || (cause == RunStart && from == Claimed && to == InProgress)
    || (cause == MergeSucceeded && from == InProgress && to == Done)
    || (cause == PostMergeRelease && from == Done && to == Released)
    || (cause == FailureRequeue && (from == Claimed || from == InProgress) && to == Todo)
    || (cause == FailureBlock && (from == Claimed || from == InProgress) && to == Blocked)
    || (cause == ManualBlock && from == Todo && to == Blocked)
    || (cause == Unblock && from == Blocked && to == Todo)
    || (cause == OperatorReset && from != Todo && to == Todo)
    || (cause == Cancel && from in {Todo, Claimed, InProgress, Blocked} && to == TaskContract.Cancelled)
    || (cause == MigrationImport && from == Todo && to in {Blocked, Done, Released, TaskContract.Cancelled} && log == [])
  }

  /** The state bindings take when their task leaves claimed/in_progress for this cause. */
  function RunStateFor(cause: Cause): Option<RunState> {
    match cause
    case MergeSucceeded => Some(RunFinished)
    case FailureRequeue => Some(RunFailed)
    case FailureBlock => Some(RunFailed)
    case OperatorReset => Some(RunCancelled)
    case Cancel => Some(RunCancelled)
    case _ => None
  }

  function StartRuns(runs: map<RunId, Binding>): map<RunId, Binding> {
    map r | r in runs :: if runs[r].state == RunClaimed then runs[r].(state := RunInProgress) else runs[r]
  }

  function CloseRuns(runs: map<RunId, Binding>, to: RunState): map<RunId, Binding> {
    map r | r in runs :: if ActiveRun(runs[r].state) then runs[r].(state := to) else runs[r]
  }

  predicate UsesKey(log: seq<Entry>, key: Option<nat>) {
    key.Some? && exists i :: 0 <= i < |log| && log[i].key == key
  }

  /** The bindings after a transition out of status `from`. */
  function MovedRuns(runs: map<RunId, Binding>, from: Status, cause: Cause): map<RunId, Binding> {
    var started := if cause == RunStart then StartRuns(runs) else runs;
    if RunStateFor(cause).Some? && Active(from) then CloseRuns(started, RunStateFor(cause).value) else started
  }

  /** Record one transition and move the task's bindings with it; a repeated key is a no-op. */
  function ApplyTransition(s: Slot, t: TransitionInput): Result<Slot, Error> {
    if UsesKey(s.log, t.key) then Ok(s)
    else if !TriggerAllows(s.log, s.status, t.to, t.cause) then Err(InvalidTransition)
    else if t.to == Blocked && (t.reason.None? || Blank(t.reason.value)) then Err(Constraint)
    else
      Ok(s.(status := t.to, blockedReason := if t.to == Blocked then t.reason else None,
            log := s.log + [Entry(s.status, t.to, t.cause, t.reason, t.run, t.key)],
            runs := MovedRuns(s.runs, s.status, t.cause)))
  }

  // ----- claiming ----------------------------------------------------------------------------

  function Statuses(store: Store): map<Ref, Status> {
    map r | r in store :: store[r].status
  }

  /** A run id is a primary key: no binding of any task carries it. */
  predicate UnusedRun(store: Store, run: RunId) {
    forall r :: r in store ==> run !in store[r].runs
  }

  function BindRun(s: Slot, run: RunId, agent: Option<string>): Slot {
    s.(runs := CloseRuns(s.runs, RunFailed)[run := Binding(|s.revisions|, agent, RunClaimed)])
  }

  predicate OwnedByOther(s: Slot, agent: string) {
    s.dispatch.owner.Some? && s.dispatch.owner.value != "" && s.dispatch.owner.value != agent
  }

  /** Atomically claim: todo, unowned or owned by the agent, every dependency finished. */
  function ClaimTask(store: Store, ref: Ref, run: RunId, agent: string): Result<Store, Error> {
    if ref !in store then Err(NotFound)
    else
      var s := store[ref];
      if s.status != Todo then Err(Conflict)
      else if OwnedByOther(s, agent) then Err(Conflict)
      else if Waiting(s.deps, Statuses(store)) != [] then Err(Conflict)
      else
        var moved := ApplyTransition(s, TransitionInput(Claim, Claimed, None, Some(run), None));
        if moved.Err? then Err(moved.error)
        else if !UnusedRun(store, run) then Err(Constraint)
        else Ok(store[ref := BindRun(moved.value, run, Some(agent))])
  }

  function AbandonRun(s: Slot, run: RunId): Slot {
    if run in s.runs && ActiveRun(s.runs[run].state)
    then s.(runs := s.runs[run := s.runs[run].(state := RunFailed)]) else s
  }

  function ReactivateRun(s: Slot, run: RunId): Slot {
    if run in s.runs then s.(runs := s.runs[run := s.runs[run].(state := RunClaimed)]) else s
  }

  /** The compensation of a claim whose second commit failed: requeue, then close the binding. */
  function CompensateClaim(s: Slot, run: RunId): Result<Slot, Error> {
    var moved := ApplyTransition(s, TransitionInput(FailureRequeue, Todo, Some("claim_not_committed"), Some(run), None));
    if moved.Err? then moved else Ok(AbandonRun(moved.value, run))
  }

  /** Roll a session reset back: claim again for the restored run, and start it if it had started. */
  function RestoreRun(s: Slot, run: RunId, started: bool): Result<Slot, Error> {
    if s.status != Todo then Ok(s)
    else
      var again := ApplyTransition(s, TransitionInput(Claim, Claimed, Some("session_reset_rollback"), Some(run), None));
      if again.Err? then again
      else
        var live := ReactivateRun(again.value, run);
        if started then ApplyTransition(live, TransitionInput(RunStart, InProgress, None, Some(run), None)) else Ok(live)
  }

  // ----- authoring -----------------------------------------------------------------------------

  const NoDispatch := Dispatch(None, None, None, None, None)

  function NewSlot(s: Spec): Slot {
    Slot(Todo, 0, None, NoDispatch, s.title, s.priority, s.provider, s.deps,
         [Revision(1, s.title, s.body, RevisionMetadata(s))], [], map[])
  }

  function CreateTask(store: Store, ref: Ref, s: Spec): Result<Store, Error> {
    var deps := NormalizeDeps(ref, s.deps);
    if Blank(s.title) then Err(InvalidInput)
    else if deps.Err? then Err(deps.error)
    else if ref in store then Err(Conflict)
    else Ok(store[ref := NewSlot(s.(deps := deps.value))])
  }

  /** An edit: only the given fields change. */
  datatype Changes = Changes(title: Option<string>, body: Option<string>, metadata: Option<Metadata>,
                             priority: Option<Priority>, provider: Option<Option<Provider>>, deps: Option<seq<Ref>>)

  const NoChanges := Changes(None, None, None, None, None, None)

  function Or<T>(o: Option<T>, otherwise: T): T {
    if o.Some? then o.value else otherwise
  }

  /** The spec an edit asks for; `heading` is the title parsed from a new body. */
  function EditedSpec(s: Slot, c: Changes, heading: Option<string>, deps: seq<Ref>): Spec
    requires s.revisions != []
  {
    var latest := s.revisions[|s.revisions| - 1];
    Spec(if c.title.Some? then c.title.value else if c.body.Some? then Or(heading, s.title) else s.title,
         Or(c.body, latest.body), Or(c.metadata, BaseMetadata(latest.metadata)),
         Or(c.priority, s.priority), Or(c.provider, s.provider), deps)
  }

  /** Save an edit as a new revision; an edit that changes nothing is accepted whatever its base. */
  function ReviseTask(ref: Ref, s: Slot, expected: int, c: Changes, heading: Option<string>): Result<(Slot, bool), Error>
    requires s.revisions != []
  {
    if expected < 1 then Err(InvalidInput)
    else
      var deps := if c.deps.Some? then NormalizeDeps(ref, c.deps.value) else Ok(s.deps);
      if deps.Err? then Err(deps.error)
      else
        var latest := s.revisions[|s.revisions| - 1];
        var next := EditedSpec(s, c, heading, deps.value);
        if Blank(next.title) then Err(InvalidInput)
        else if RevisionMetadata(next) == latest.metadata && next.title == s.title && next.body == latest.body then Ok((s, false))
        else if latest.number != expected then Err(RevisionConflict(latest.number))
        else
          Ok((s.(title := next.title, priority := next.priority, provider := next.provider, deps := next.deps,
                 revisions := s.revisions + [Revision(latest.number + 1, next.title, next.body, RevisionMetadata(next))]), true))
  }

  /** The revision a run was bound to. */
  function RunSpec(s: Slot, run: RunId): Option<Revision> {
    if run in s.runs && 1 <= s.runs[run].revision <= |s.revisions| then Some(s.revisions[s.runs[run].revision - 1]) else None
  }
}
