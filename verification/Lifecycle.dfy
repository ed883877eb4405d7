/**
 * The lifecycle commands of a project (lib/claimManager.ts,
 * lib/claimLeaseManager.ts, lib/operatorMutations.ts, lib/taskCompletion.ts,
 * lib/sessionState.ts).  Claims and tasks live in two stores; each command is
 * the list of atomic writes it makes, and a crash keeps a prefix of it.
 */
module Lifecycle {
  import opened Prelude
  import opened TaskContract
  import opened TaskStore
  import opened ProjectTasks
  import opened Claims
  import opened Reconcile

  datatype Life = Life(store: Store, claims: seq<RunClaim>)

  datatype Write = PutStore(store: Store) | PutClaims(claims: seq<RunClaim>)

  function ApplyWrite(s: Life, w: Write): Life {
    match w
    case PutStore(store) => s.(store := store)
    case PutClaims(claims) => s.(claims := claims)
  }

  function ApplyWrites(s: Life, ws: seq<Write>): Life
    decreases |ws|
  {
    if ws == [] then s else ApplyWrites(ApplyWrite(s, ws[0]), ws[1..])
  }

  // ----- committing edited tasks ----------------------------------------------------------

  /** The projected backlog with some rows edited. */
  function Backlog(store: Store, edits: map<Ref, Row>): map<Ref, Row> {
    map r | r in store :: if r in edits then edits[r] else ProjectRow(r, store[r])
  }

  function CommitEdits(store: Store, edits: map<Ref, Row>, changes: map<Ref, Change>): Result<Store, Error> {
    CommitMap(Committer(changes), store, Backlog(store, edits))
  }

  /** The second commit of a command: a thrown commit writes nothing. */
  function StoreWrite(store: Store, edits: map<Ref, Row>, changes: map<Ref, Change>): seq<Write> {
    var r := CommitEdits(store, edits, changes);
    if r.Ok? then [PutStore(r.value)] else []
  }

  /** The usual order of the two commits: the claims, then their tasks. */
  function ClaimsThenTasks(s: Life, claims: seq<RunClaim>, edits: map<Ref, Row>, changes: map<Ref, Change>): seq<Write> {
    [PutClaims(claims)] + StoreWrite(s.store, edits, changes)
  }

  function RowOf(store: Store, ref: Ref): Row
    requires ref in store
  {
    ProjectRow(ref, store[ref])
  }

  // ----- claims -----------------------------------------------------------------------------

  predicate HasActive(claims: seq<RunClaim>, ref: Ref) {
    exists i :: 0 <= i < |claims| && ActiveOn(claims[i], ref)
  }

  function FindRun(claims: seq<RunClaim>, run: RunId): (r: Option<nat>)
    ensures r.Some? ==> r.value < |claims| && claims[r.value].run == run
    decreases |claims|
  {
    if claims == [] then None
    else
      var before := FindRun(claims[..|claims| - 1], run);
      if before.Some? then before
      else if claims[|claims| - 1].run == run then Some(|claims| - 1)
      else None
  }

  /** Some claims fail; the others stay as they are. */
  function FailWhere(claims: seq<RunClaim>, p: RunClaim -> bool): (out: seq<RunClaim>)
    ensures |out| == |claims|
    ensures forall i :: 0 <= i < |claims| ==> out[i] == if p(claims[i]) then claims[i].(state := ClaimFailed) else claims[i]
  {
    seq(|claims|, i requires 0 <= i < |claims| => if p(claims[i]) then claims[i].(state := ClaimFailed) else claims[i])
  }

  function RemoveActive(claims: seq<RunClaim>, ref: Ref): seq<RunClaim>
    decreases |claims|
  {
    if claims == [] then []
    else
      var init, last := RemoveActive(claims[..|claims| - 1], ref), claims[|claims| - 1];
      if ActiveOn(last, ref) then init else init + [last]
  }

  // ----- failures ------------------------------------------------------------------------------

  const MAX_ATTEMPTS: nat := 5
  const BACKOFF_BASE: Time := 30000
  const BACKOFF_MAX: Time := 600000

  function RequeueBackoff(attempts: nat): Time {
    if attempts == 0 then BACKOFF_BASE / 2 else Min(BACKOFF_BASE * Pow2(attempts - 1), BACKOFF_MAX)
  }

  /** A failed run blocks its task, counts an attempt, or (infrastructure failures) does neither. */
  datatype Failure = BlockPolicy | Counted | Infrastructure

  const TOO_MANY: string := "max_attempts_exceeded"

  function FailedRow(row: Row, f: Failure, at: Time): Row {
    match f
    case BlockPolicy => row.(status := Blocked)
    case Infrastructure => row.(status := Todo)
    case Counted =>
      var n := Or(row.attempts, 0) + 1;
      if n >= MAX_ATTEMPTS then row.(attempts := Some(n), status := Blocked, blockedReason := Some(TOO_MANY))
      else row.(attempts := Some(n), status := Todo, requeueAfter := Some(at + RequeueBackoff(n)))
  }

  function FailureChange(row: Row, run: RunId, why: Option<string>): Change {
    Change(if row.status == Blocked then FailureBlock else FailureRequeue,
           if row.blockedReason.Some? then row.blockedReason else why, Some(run), None)
  }

  // ----- the commands ----------------------------------------------------------------------------

  /** claimTask: claim and bind in the task store, then record the claim, or compensate. */
  function PlanClaim(s: Life, ref: Ref, run: RunId, agent: string, now: Time, lease: Time, secondCommitFails: bool): seq<Write> {
    if ref !in s.store || HasActive(s.claims, ref) then []
    else
      var claimed := ClaimTask(s.store, ref, run, agent);
      if claimed.Err? then []
      else if !secondCommitFails then
        [PutStore(claimed.value),
         PutClaims(s.claims + [RunClaim(run, ref, agent, ClaimClaimed, now, Some(now + lease), None)])]
      else
        var undone := CompensateClaim(claimed.value[ref], run);
        if undone.Err? then [PutStore(claimed.value)]
        else [PutStore(claimed.value), PutStore(claimed.value[ref := undone.value])]
  }

  function StartedClaims(s: Life, i: nat): seq<RunClaim>
    requires i < |s.claims|
  {
    s.claims[i := s.claims[i].(state := ClaimInProgress, inputSince := None)]
  }

  function StartEdits(s: Life, ref: Ref): map<Ref, Row>
    requires ref in s.store
  {
    map[ref := RowOf(s.store, ref).(status := InProgress)]
  }

  function StartChanges(ref: Ref, run: RunId): map<Ref, Change> {
    map[ref := Change(RunStart, None, Some(run), None)]
  }

  /** startRun: the claim first, then the task. */
  function PlanStart(s: Life, run: RunId, agent: string): seq<Write> {
    var i := FindRun(s.claims, run);
    if i.None? then []
    else
      var c := s.claims[i.value];
      if c.agent != agent || c.state != ClaimClaimed then []
      else if c.ref !in s.store then [PutClaims(StartedClaims(s, i.value))]
      else ClaimsThenTasks(s, StartedClaims(s, i.value), StartEdits(s, c.ref), StartChanges(c.ref, run))
  }

  function FinishedClaims(s: Life, i: nat, success: bool): seq<RunClaim>
    requires i < |s.claims|
  {
    s.claims[i := s.claims[i].(state := if success then ClaimDone else ClaimFailed, inputSince := None)]
  }

  function FailureEdits(s: Life, ref: Ref, f: Failure, at: Time): map<Ref, Row>
    requires ref in s.store
  {
    map[ref := FailedRow(RowOf(s.store, ref), f, at)]
  }

  function FailureChanges(s: Life, ref: Ref, f: Failure, at: Time, run: RunId, why: Option<string>): map<Ref, Change>
    requires ref in s.store
  {
    map[ref := FailureChange(FailedRow(RowOf(s.store, ref), f, at), run, BlockReason(f, why))]
  }

  /** finishRun: the claim first; then its task, unless an operator already moved the task off this run. */
  function PlanFinish(s: Life, run: RunId, agent: string, success: bool, f: Failure, why: Option<string>, at: Time): seq<Write> {
    var i := FindRun(s.claims, run);
    if i.None? then []
    else
      var c := s.claims[i.value];
      var claims := FinishedClaims(s, i.value, success);
      if c.agent != agent || !ActiveClaim(c) then []
      else if c.ref !in s.store || !Active(s.store[c.ref].status) then [PutClaims(claims)]
      else if success then ClaimsThenTasks(s, claims, map[], map[])
      else ClaimsThenTasks(s, claims, FailureEdits(s, c.ref, f, at), FailureChanges(s, c.ref, f, at, run, why))
  }

  /** A block needs a reason: the reported one, or the policy itself. */
  function BlockReason(f: Failure, why: Option<string>): Option<string> {
    if f == BlockPolicy && why.None? then Some("run failed with block policy") else why
  }

  const INPUT_WAIT: Time := 3600000

  predicate LeaseOver(c: RunClaim, now: Time) {
    if c.inputSince.Some? then now - c.inputSince.value >= INPUT_WAIT
    else c.leaseUntil.Some? && c.leaseUntil.value <= now
  }

  /** A stale active claim; a merged task keeps its run for finalization. */
  predicate Expires(store: Store, c: RunClaim, now: Time) {
    ActiveClaim(c) && LeaseOver(c, now) && !(c.ref in store && Finished(store[c.ref].status))
  }

  predicate ExpiredOn(s: Life, ref: Ref, now: Time) {
    exists i :: 0 <= i < |s.claims| && s.claims[i].ref == ref && Expires(s.store, s.claims[i], now)
  }

  /** The tasks whose run expires: still active, so the failure is theirs. */
  function ExpiredTasks(s: Life, now: Time): set<Ref> {
    set r | r in s.store && Active(s.store[r].status) && ExpiredOn(s, r, now)
  }

  function ExpiredRow(s: Life, r: Ref, f: Failure, now: Time): Row
    requires r in s.store
  {
    FailedRow(RowOf(s.store, r), f, now)
  }

  function ExpireEdits(s: Life, now: Time, f: Failure): map<Ref, Row> {
    map r | r in ExpiredTasks(s, now) :: ExpiredRow(s, r, f, now)
  }

  /** The first claim on the task whose lease is over. */
  function FirstExpired(store: Store, claims: seq<RunClaim>, ref: Ref, now: Time): (c: Option<RunClaim>)
    ensures c.Some? <==> exists i :: 0 <= i < |claims| && claims[i].ref == ref && Expires(store, claims[i], now)
    decreases |claims|
  {
    if claims == [] then None
    else
      var before, last := FirstExpired(store, claims[..|claims| - 1], ref, now), claims[|claims| - 1];
      if before.Some? then before
      else if last.ref == ref && Expires(store, last, now) then Some(last)
      else None
  }

  function ExpiryChange(row: Row, first: Option<RunClaim>): Change {
    match first
    case None => FailureChange(row, 0, None)
    case Some(c) => FailureChange(row, c.run, Some(if c.inputSince.Some? then "ERR_INPUT_TIMEOUT" else "ERR_LEASE_EXPIRED"))
  }

  function ExpireChanges(s: Life, now: Time, f: Failure): map<Ref, Change> {
    map r | r in ExpiredTasks(s, now) :: ExpiryChange(ExpiredRow(s, r, f, now), FirstExpired(s.store, s.claims, r, now))
  }

  function ExpiredClaim(store: Store, c: RunClaim, now: Time): RunClaim {
    if Expires(store, c, now) then c.(state := ClaimFailed, inputSince := None) else c
  }

  function ExpiredClaims(s: Life, now: Time): (out: seq<RunClaim>)
    ensures |out| == |s.claims| && forall i :: 0 <= i < |out| ==> out[i] == ExpiredClaim(s.store, s.claims[i], now)
  {
    seq(|s.claims|, i requires 0 <= i < |s.claims| => ExpiredClaim(s.store, s.claims[i], now))
  }

  /** expireStaleLeases: every stale claim first, then every affected task. */
  function PlanExpire(s: Life, now: Time, block: bool): seq<Write> {
    if forall i :: 0 <= i < |s.claims| ==> !Expires(s.store, s.claims[i], now) then []
    else
      var f := if block then BlockPolicy else Counted;
      ClaimsThenTasks(s, ExpiredClaims(s, now), ExpireEdits(s, now, f), ExpireChanges(s, now, f))
  }

  function DroppedClaims(s: Life, ref: Ref): seq<RunClaim> {
    FailWhere(s.claims, c => ActiveOn(c, ref))
  }

  function ResetEdits(s: Life, ref: Ref): map<Ref, Row>
    requires ref in s.store
  {
    map[ref := RowOf(s.store, ref).(status := Todo, requeueAfter := None, blockedReason := None)]
  }

  function ResetChanges(s: Life, ref: Ref): map<Ref, Change>
    requires ref in s.store
  {
    if s.store[ref].status == Todo then map[] else map[ref := Change(OperatorReset, None, None, None)]
  }

  /** resetTask: fail the task's active claims, then return the task to todo. */
  function PlanReset(s: Life, ref: Ref): seq<Write> {
    if ref !in s.store then []
    else ClaimsThenTasks(s, DroppedClaims(s, ref), ResetEdits(s, ref), ResetChanges(s, ref))
  }

  predicate TerminalStatus(t: Status) {
    t == Done || t == Released || t == TaskContract.Cancelled
  }

  function CancelEdits(s: Life, ref: Ref): map<Ref, Row>
    requires ref in s.store
  {
    map[ref := RowOf(s.store, ref).(status := TaskContract.Cancelled, blockedReason := None)]
  }

  /** cancelTask: remove the task's active claims, then cancel the task. */
  function PlanCancel(s: Life, ref: Ref, why: Option<string>): seq<Write> {
    if ref !in s.store || TerminalStatus(s.store[ref].status) then []
    else if HasActive(s.claims, ref) then
      ClaimsThenTasks(s, RemoveActive(s.claims, ref), CancelEdits(s, ref), map[ref := Change(Cancel, why, None, None)])
    else StoreWrite(s.store, CancelEdits(s, ref), map[ref := Change(Cancel, why, None, None)])
  }

  function FailedClaims(s: Life, i: nat): seq<RunClaim>
    requires i < |s.claims|
  {
    s.claims[i := s.claims[i].(state := ClaimFailed)]
  }

  function RequeueEdits(s: Life, ref: Ref): map<Ref, Row>
    requires ref in s.store
  {
    map[ref := RowOf(s.store, ref).(status := Todo)]
  }

  function ManualExpiry(ref: Ref, run: RunId): map<Ref, Change> {
    map[ref := Change(FailureRequeue, Some("manual_expire"), Some(run), None)]
  }

  /** expireRun: fail one claim by hand and requeue its task. */
  function PlanExpireRun(s: Life, run: RunId): seq<Write> {
    var i := FindRun(s.claims, run);
    if i.None? || !ActiveClaim(s.claims[i.value]) then [] else ExpireClaimAt(s, i.value, run)
  }

  function ExpireClaimAt(s: Life, i: nat, run: RunId): seq<Write>
    requires i < |s.claims|
  {
    var ref := s.claims[i].ref;
    if ref !in s.store || TerminalStatus(s.store[ref].status) then []
    else ClaimsThenTasks(s, FailedClaims(s, i), RequeueEdits(s, ref),
                         ManualExpiry(ref, run))
  }

  /** The run of the task's active binding. */
  ghost function ActiveRunId(s: Slot): Option<RunId> {
    if exists r :: r in s.runs && ActiveRun(s.runs[r].state)
    then
      var r :| r in s.runs && ActiveRun(s.runs[r].state);
      Some(r)
    else None
  }

  function MergeEdits(s: Life, ref: Ref): map<Ref, Row>
    requires ref in s.store
  {
    map[ref := RowOf(s.store, ref).(status := Done, blockedReason := None)]
  }

  /** markTaskDoneRuntimeOnly: the coordinator's merge confirmation. */
  ghost function PlanMerge(s: Life, ref: Ref): seq<Write> {
    if ref !in s.store || s.store[ref].status in {Blocked, Released, TaskContract.Cancelled, Done} then []
    else StoreWrite(s.store, MergeEdits(s, ref), map[ref := Change(MergeSucceeded, None, ActiveRunId(s.store[ref]), None)])
  }

  function UnblockEdits(s: Life, ref: Ref): map<Ref, Row>
    requires ref in s.store
  {
    map[ref := RowOf(s.store, ref).(status := Todo, blockedReason := None)]
  }

  function PlanUnblock(s: Life, ref: Ref, why: Option<string>): seq<Write> {
    if ref !in s.store || s.store[ref].status != Blocked then []
    else StoreWrite(s.store, UnblockEdits(s, ref), map[ref := Change(Unblock, why, None, None)])
  }

  function ActiveTasks(s: Life): set<Ref> {
    set r | r in s.store && Active(s.store[r].status)
  }

  function SessionResetEdits(s: Life): map<Ref, Row> {
    map r | r in ActiveTasks(s) :: RowOf(s.store, r).(status := Todo, blockedReason := None)
  }

  function SessionResetChanges(s: Life): map<Ref, Change> {
    map r | r in ActiveTasks(s) :: Change(FailureRequeue, Some("session_reset"), None, None)
  }

  function EndedClaims(s: Life): seq<RunClaim> {
    FailWhere(s.claims, c => ActiveClaim(c))
  }

  /** prepareSessionReset: every active task first, then every active claim. */
  function PlanSessionReset(s: Life): seq<Write> {
    var store := StoreWrite(s.store, SessionResetEdits(s), SessionResetChanges(s));
    if store == [] then [] else store + [PutClaims(EndedClaims(s))]
  }

  /** reconcileState in a project: repaired tasks first, then repaired claims. */
  function ReconcileEdits(s: Life): map<Ref, Row> {
    var view := Statuses(s.store);
    map r | r in s.store && StatusFor(Project, view[r], Winner(s.claims, r)) != view[r] ::
      RowOf(s.store, r).(status := StatusFor(Project, view[r], Winner(s.claims, r)))
  }

  /** The change a project commit names for a repair. */
  function RepairChange(r: Repair): Change {
    Change(r.cause, if r.cause == FailureRequeue then Some("reconcile_missing_claim") else None, r.run, None)
  }

  function ReconcileChanges(s: Life): map<Ref, Change> {
    map r | r in ReconcileEdits(s) :: RepairChange(RepairBy(Winner(s.claims, r)))
  }

  function PlanReconcile(s: Life): seq<Write> {
    var edits := ReconcileEdits(s);
    var claims := RepairedClaims(Project, Statuses(s.store), s.claims);
    var first := if |edits| == 0 then [] else StoreWrite(s.store, edits, ReconcileChanges(s));
    if |edits| > 0 && first == [] then []
    else first + (if claims == s.claims then [] else [PutClaims(claims)])
  }

  datatype Op =
    | ClaimOp(ref: Ref, run: RunId, agent: string, now: Time, lease: Time, secondCommitFails: bool)
    | StartOp(run: RunId, agent: string)
    | FinishOp(run: RunId, agent: string, success: bool, failure: Failure, why: Option<string>, now: Time)
    | ExpireOp(now: Time, block: bool)
    | ResetOp(ref: Ref)
    | CancelOp(ref: Ref, why: Option<string>)
    | ExpireRunOp(run: RunId)
    | MergeOp(ref: Ref)
    | UnblockOp(ref: Ref, why: Option<string>)
    | SessionResetOp
    | ReconcileOp
    | CreateOp(ref: Ref, spec: Spec)

  /** The atomic writes a command makes, in order. */
  ghost function Plan(s: Life, op: Op): seq<Write> {
    match op
    case ClaimOp(ref, run, agent, now, lease, fails) => PlanClaim(s, ref, run, agent, now, lease, fails)
    case StartOp(run, agent) => PlanStart(s, run, agent)
    case FinishOp(run, agent, success, f, why, now) => PlanFinish(s, run, agent, success, f, why, now)
    case ExpireOp(now, block) => PlanExpire(s, now, block)
    case ResetOp(ref) => PlanReset(s, ref)
    case CancelOp(ref, why) => PlanCancel(s, ref, why)
    case ExpireRunOp(run) => PlanExpireRun(s, run)
    case MergeOp(ref) => PlanMerge(s, ref)
    case UnblockOp(ref, why) => PlanUnblock(s, ref, why)
    case SessionResetOp => PlanSessionReset(s)
    case ReconcileOp => PlanReconcile(s)
    case CreateOp(ref, spec) => (match CreateTask(s.store, ref, spec) case Ok(next) => [PutStore(next)] case Err(_) => [])
  }

  /** The state a command leaves when it runs to its end. */
  ghost function Complete(s: Life, op: Op): Life {
    ApplyWrites(s, Plan(s, op))
  }

  /** The state left by a crash after the first `k` writes. */
  ghost function Crashed(s: Life, op: Op, k: nat): Life {
    var plan := Plan(s, op);
    ApplyWrites(s, if k <= |plan| then plan[..k] else plan)
  }
}
