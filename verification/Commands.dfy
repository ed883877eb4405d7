/**
 * The durable command table and the transactions that change it
 * (lib/commandDelivery.ts).  Every exported function of the source is one
 * database transaction, so every step here is atomic; a refused step changes
 * nothing because its transaction rolls back.
 */
module Commands {
  import opened Prelude

  type Time = int
  type CommandId = nat
  type RunId = nat
  type SessionId = nat
  type AgentId = string

  const MASTER: AgentId := "master"
  const COORDINATOR: AgentId := "coordinator"

  datatype CommandState =
    | Queued | Dispatching | Sent | Accepted | Running
    | Completed | Failed | Cancelled | OutcomeUnknown

  /** One row of the commands table. `rowid` breaks ties between equal creation times. */
  datatype Command = Command(
    id: CommandId, rowid: nat, run: RunId, session: SessionId, actorSession: Option<SessionId>,
    actor: AgentId, recipient: AgentId, key: string, kind: string, payload: string,
    sideEffecting: bool, maxAttempts: int, deadlineAt: Option<Time>, createdAt: Time,
    state: CommandState, attempts: int, nextAttemptAt: Option<Time>,
    dispatchStartedAt: Option<Time>, sendStartedAt: Option<Time>, deliveredAt: Option<Time>,
    acknowledgedAt: Option<Time>, terminalAt: Option<Time>, lastError: Option<string>)

  datatype EventName =
    | EvQueued | EvDispatching | EvSendStarted | EvSent | EvAccepted | EvRunning
    | EvCompleted | EvFailed | EvCancelled | EvOutcomeUnknown

  /** The command-related payload of one row of the events table. */
  datatype Event = Event(name: EventName, id: CommandId, state: CommandState, attempts: int)

  datatype RunRow = RunRow(agent: Option<AgentId>, active: bool)
  datatype SessionRow = SessionRow(agent: AgentId, run: Option<RunId>, running: bool)

  datatype Db = Db(
    commands: map<CommandId, Command>, nextRowid: nat, runs: map<RunId, RunRow>,
    sessions: map<SessionId, SessionRow>, log: seq<Event>)

  const EmptyDb := Db(map[], 0, map[], map[], [])

  datatype Error = NotFound | Conflict | Forbidden | InvalidInput

  datatype Reply = Row(row: Command) | Nothing | Rows(rows: seq<Command>) | Refused(error: Error)

  predicate Terminal(s: CommandState) {
    s == Completed || s == Failed || s == Cancelled
  }

  predicate InFlight(s: CommandState) {
    s == Queued || s == Dispatching || s == Sent || s == Accepted || s == Running
  }

  /** Reserved or waiting, with nothing written to the transport in this attempt. */
  predicate Unsent(c: Command) {
    c.state == Queued || (c.state == Dispatching && c.sendStartedAt.None?)
  }

  // ----- row changes ------------------------------------------------------------

  /** A new version of one row together with the event its transaction appends. */
  datatype Move = Move(row: Command, event: EventName)

  /** The shared `transition` helper: state, error and terminal stamp. */
  function Transition(c: Command, s: CommandState, ev: EventName, reason: string, now: Time): Move {
    Move(c.(state := s, lastError := Some(reason),
            terminalAt := if Terminal(s) || s == OutcomeUnknown then Some(now) else None), ev)
  }

  function Requeue(c: Command, nextAttempt: Time, reason: string): Move {
    Move(c.(state := Queued, nextAttemptAt := Some(nextAttempt), lastError := Some(reason)), EvQueued)
  }

  function ReserveMoves(c: Command, at: Time, now: Time): seq<Move> {
    if c.deadlineAt.Some? && c.deadlineAt.value <= at then
      [Transition(c, Failed, EvFailed, "deadline exceeded", now)]
    else
      [Move(c.(state := Dispatching, attempts := c.attempts + 1, dispatchStartedAt := Some(at),
               sendStartedAt := None), EvDispatching)]
  }

  function RunActive(db: Db, r: RunId): bool {
    r in db.runs && db.runs[r].active
  }

  function SessionRunning(db: Db, s: SessionId): bool {
    s in db.sessions && db.sessions[s].running
  }

  function SendStartedMoves(db: Db, c: Command, now: Time): Result<seq<Move>, Error> {
    if c.state != Dispatching || c.sendStartedAt.Some? then Err(Conflict)
    else if !RunActive(db, c.run) then Err(Conflict)
    else if !SessionRunning(db, c.session) then Err(Forbidden)
    else if db.sessions[c.session].run != Some(c.run) || db.sessions[c.session].agent != c.recipient then Err(Conflict)
    else Ok([Move(c.(sendStartedAt := Some(now)), EvSendStarted)])
  }

  function SentMoves(c: Command, now: Time): seq<Move> {
    if c.state != Dispatching || c.sendStartedAt.None? then []
    else [Move(c.(state := Sent, deliveredAt := Some(now)), EvSent)]
  }

  datatype Ack = AckAccepted | AckRunning | AckCompleted | AckFailed

  function AckState(a: Ack): CommandState {
    match a
    case AckAccepted => Accepted
    case AckRunning => Running
    case AckCompleted => Completed
    case AckFailed => Failed
  }

  function AckEvent(a: Ack): EventName {
    match a
    case AckAccepted => EvAccepted
    case AckRunning => EvRunning
    case AckCompleted => EvCompleted
    case AckFailed => EvFailed
  }

  predicate AckAllowed(c: Command, a: Ack) {
    && (match a
        case AckAccepted => c.state == Dispatching || c.state == Sent || c.state == OutcomeUnknown
        case AckRunning => c.state == Accepted
        case AckCompleted => c.state == Accepted || c.state == Running
        case AckFailed => c.state == Accepted || c.state == Running)
    && !(c.state == Dispatching && c.sendStartedAt.None?)
  }

  /** One acknowledgement step; a disallowed one is a conflict. */
  function ApplyAck(c: Command, a: Ack, reason: Option<string>, now: Time): Result<Move, Error> {
    if !AckAllowed(c, a) then Err(Conflict)
    else Ok(Move(c.(state := AckState(a),
                    acknowledgedAt := if c.acknowledgedAt.Some? then c.acknowledgedAt else Some(now),
                    terminalAt := if Terminal(AckState(a)) then Some(now) else None,
                    lastError := if reason.Some? then reason else c.lastError), AckEvent(a)))
  }

  function StateRank(s: CommandState): nat {
    match s
    case Accepted => 1
    case Running => 2
    case Completed => 3
    case Failed => 3
    case Cancelled => 3
    case _ => 0
  }

  function AckRank(a: Ack): nat {
    StateRank(AckState(a))
  }

  /** acknowledgeFromRuntime: behind is a no-op, ahead passes through the intermediate states. */
  function RuntimeAckMoves(c: Command, a: Ack, reason: Option<string>, now: Time): Result<seq<Move>, Error> {
    if Unsent(c) then Err(Conflict)
    else if StateRank(c.state) >= AckRank(a) then Ok([])
    else
      var first := if c.state != Accepted && c.state != Running then ApplyAck(c, AckAccepted, None, now)
                   else Ok(Move(c, EvAccepted));
      if first.Err? then Err(first.error)
      else
        var moved := if c.state != Accepted && c.state != Running then [first.value] else [];
        var mid := first.value.row;
        if a == AckAccepted then Ok(moved)
        else if a == AckRunning then
          if mid.state == Running then Ok(moved)
          else
            var last := ApplyAck(mid, AckRunning, None, now);
            if last.Err? then Err(last.error) else Ok(moved + [last.value])
        else
          var last := ApplyAck(mid, a, reason, now);
          if last.Err? then Err(last.error) else Ok(moved + [last.value])
  }

  /** Retry delay after a transport failure: doubling from one second, at most thirty. */
  function TransportBackoff(attempts: int): Time {
    if attempts < 1 then 500 else Min(1000 * Pow2(attempts - 1), 30000)
  }

  function FailTransportMoves(c: Command, reason: string, now: Time): seq<Move> {
    if c.state != Dispatching then []
    else if c.sendStartedAt.Some? && c.sideEffecting then
      [Transition(c, OutcomeUnknown, EvOutcomeUnknown, reason, now)]
    else if c.attempts >= c.maxAttempts then [Transition(c, Failed, EvFailed, reason, now)]
    else [Requeue(c, now + TransportBackoff(c.attempts), reason)]
  }

  function DeferMoves(c: Command, reason: string, retryAt: Time): seq<Move> {
    if c.state != Dispatching || c.sendStartedAt.Some? then []
    else [Requeue(c.(attempts := c.attempts - 1), retryAt, reason)]
  }

  predicate TimedOut(c: Command, at: Time) {
    c.deadlineAt.Some? && c.deadlineAt.value <= at
  }

  predicate Stalled(c: Command, at: Time, staleAfter: Time) {
    c.state == Dispatching && c.dispatchStartedAt.Some? && at - c.dispatchStartedAt.value >= staleAfter
  }

  predicate Exited(db: Db, c: Command) {
    !SessionRunning(db, c.session) || !RunActive(db, c.run)
  }

  function RecoveryReason(db: Db, c: Command, at: Time): string {
    if !RunActive(db, c.run) then "run ended"
    else if Exited(db, c) then "recipient session exited"
    else if TimedOut(c, at) then "deadline exceeded"
    else "dispatch interrupted"
  }

  /** The recovery decision for one in-flight row. */
  function ReconcileMoves(db: Db, c: Command, at: Time, staleAfter: Time, now: Time): seq<Move> {
    var timedOut, stalled, exited := TimedOut(c, at), Stalled(c, at, staleAfter), Exited(db, c);
    var reason := RecoveryReason(db, c, at);
    if !timedOut && !stalled && !exited then []
    else if Unsent(c) then
      if exited || timedOut || c.attempts >= c.maxAttempts then [Transition(c, Failed, EvFailed, reason, now)]
      else [Requeue(c, at, reason)]
    else if c.sideEffecting then [Transition(c, OutcomeUnknown, EvOutcomeUnknown, reason, now)]
    else if c.state == Dispatching && !exited && !timedOut && c.attempts < c.maxAttempts then [Requeue(c, at, reason)]
    else [Transition(c, Failed, EvFailed, reason, now)]
  }

  datatype Outcome = ResolvedCompleted | ResolvedFailed | ResolvedCancelled

  function OutcomeMove(c: Command, o: Outcome, reason: string, now: Time): Move {
    match o
    case ResolvedCompleted => Transition(c, Completed, EvCompleted, reason, now)
    case ResolvedFailed => Transition(c, Failed, EvFailed, reason, now)
    case ResolvedCancelled => Transition(c, Cancelled, EvCancelled, reason, now)
  }

  // ----- writing a row ----------------------------------------------------------

  function MoveEvent(m: Move): Event {
    Event(m.event, m.row.id, m.row.state, m.row.attempts)
  }

  function MoveEvents(ms: seq<Move>): (evs: seq<Event>)
    ensures |evs| == |ms|
    ensures forall k :: 0 <= k < |ms| ==> evs[k] == MoveEvent(ms[k])
  {
    seq(|ms|, k requires 0 <= k < |ms| => MoveEvent(ms[k]))
  }

  /** Commit the moves of row `id`: its last version and one event per move, or a refusal. */
  function Settle(db: Db, id: CommandId, ms: seq<Move>): (Db, Reply)
    requires id in db.commands
  {
    if ms == [] then (db, Row(db.commands[id]))
    else if db.commands[id].run !in db.runs then (db, Refused(NotFound))
    else
      var last := ms[|ms| - 1].row;
      (db.(commands := db.commands[id := last], log := db.log + MoveEvents(ms)), Row(last))
  }

  function SettleResult(db: Db, id: CommandId, r: Result<seq<Move>, Error>): (Db, Reply)
    requires id in db.commands
  {
    if r.Err? then (db, Refused(r.error)) else Settle(db, id, r.value)
  }

  // ----- enqueue ------------------------------------------------------------------

  /** Who asks: the in-process coordinator, or an authenticated agent session. */
  datatype Principal = InProcess | Authenticated(agent: AgentId, session: SessionId)

  datatype Request = Request(
    run: RunId, recipient: SessionId, key: string, kind: string, payload: Option<string>,
    sideEffecting: bool, maxAttempts: int, deadlineAt: Option<Time>)

  function ActorSession(p: Principal): Option<SessionId> {
    if p.InProcess? then None else Some(p.session)
  }

  function ActorId(p: Principal): AgentId {
    if p.InProcess? then COORDINATOR else p.agent
  }

  function ActorRefusal(db: Db, p: Principal, run: RunId): Option<Error>
    requires run in db.runs
  {
    if p.InProcess? then None
    else if !SessionRunning(db, p.session) then Some(Forbidden)
    else if db.sessions[p.session].agent != p.agent then Some(Forbidden)
    else if p.agent != MASTER && (Some(p.agent) != db.runs[run].agent || db.sessions[p.session].run != Some(run))
      then Some(Forbidden)
    else None
  }

  function RecipientRefusal(db: Db, q: Request): Option<Error>
    requires q.run in db.runs
  {
    if !SessionRunning(db, q.recipient) then Some(Forbidden)
    else if db.sessions[q.recipient].run != Some(q.run) || Some(db.sessions[q.recipient].agent) != db.runs[q.run].agent
      then Some(Forbidden)
    else None
  }

  /** Why a request is refused before the idempotency key is consulted. */
  function EnqueueRefusal(db: Db, p: Principal, q: Request): Option<Error> {
    if q.key == "" || q.kind == "" || q.maxAttempts < 1 || q.payload.None? then Some(InvalidInput)
    else if q.run !in db.runs then Some(NotFound)
    else if !db.runs[q.run].active then Some(Conflict)
    else
      var actor := ActorRefusal(db, p, q.run);
      if actor.Some? then actor else RecipientRefusal(db, q)
  }

  /** The row already holding this run's idempotency key. */
  predicate HoldsKey(db: Db, id: CommandId, run: RunId, key: string) {
    id in db.commands && db.commands[id].run == run && db.commands[id].key == key
  }

  predicate SameRequest(c: Command, p: Principal, q: Request) {
    && c.actorSession == ActorSession(p) && c.session == q.recipient && c.kind == q.kind
    && Some(c.payload) == q.payload && c.sideEffecting == q.sideEffecting
    && c.maxAttempts == q.maxAttempts && c.deadlineAt == q.deadlineAt
  }

  function NewRow(db: Db, p: Principal, q: Request, id: CommandId, now: Time): Command
    requires EnqueueRefusal(db, p, q).None?
  {
    Command(id, db.nextRowid, q.run, q.recipient, ActorSession(p), ActorId(p), db.sessions[q.recipient].agent,
            q.key, q.kind, q.payload.value, q.sideEffecting, q.maxAttempts, q.deadlineAt, now,
            Queued, 0, None, None, None, None, None, None, None)
  }

  /** Random ids never collide: a fresh one is in no row and in no earlier event. */
  predicate FreshId(db: Db, id: CommandId) {
    id !in db.commands && forall k :: 0 <= k < |db.log| ==> db.log[k].id != id
  }

  /** `holder` is the row the key lookup found, `newId` the random id drawn otherwise. */
  function EnqueueStep(db: Db, p: Principal, q: Request, holder: Option<CommandId>, newId: CommandId, now: Time): (Db, Reply)
    requires KeyLookup(db, q, holder)
    requires FreshId(db, newId)
  {
    var refusal := EnqueueRefusal(db, p, q);
    if refusal.Some? then (db, Refused(refusal.value))
    else if holder.Some? then
      var c := db.commands[holder.value];
      if SameRequest(c, p, q) then (db, Row(c)) else (db, Refused(Conflict))
    else
      var c := NewRow(db, p, q, newId, now);
      (db.(commands := db.commands[newId := c], nextRowid := db.nextRowid + 1,
           log := db.log + [Event(EvQueued, newId, Queued, 0)]), Row(c))
  }

  predicate KeyLookup(db: Db, q: Request, holder: Option<CommandId>) {
    match holder
    case Some(id) => HoldsKey(db, id, q.run, q.key)
    case None => forall id :: id in db.commands ==> !HoldsKey(db, id, q.run, q.key)
  }

  // ----- reservation order ----------------------------------------------------------

  predicate Due(c: Command, at: Time) {
    c.state == Queued && (c.nextAttemptAt.None? || c.nextAttemptAt.value <= at)
  }

  /** ORDER BY created_at, rowid. */
  predicate Older(c: Command, d: Command) {
    c.createdAt < d.createdAt || (c.createdAt == d.createdAt && c.rowid <= d.rowid)
  }

  predicate OldestDue(db: Db, at: Time, choice: Option<CommandId>) {
    match choice
    case None => forall id :: id in db.commands ==> !Due(db.commands[id], at)
    case Some(best) =>
      && best in db.commands && Due(db.commands[best], at)
      && forall id :: id in db.commands && Due(db.commands[id], at) ==> Older(db.commands[best], db.commands[id])
  }

  // ----- recovery sweep -------------------------------------------------------------

  /** `order` lists every in-flight command once: the rows the sweep selected, in any order. */
  predicate SweepOrder(db: Db, order: seq<CommandId>) {
    && (forall i, j :: 0 <= i < j < |order| ==> order[i] != order[j])
    && (forall id :: id in order ==> id in db.commands && InFlight(db.commands[id].state))
    && (forall id :: id in db.commands && InFlight(db.commands[id].state) ==> id in order)
  }

  /** The sweep refuses as a whole when a selected command's run row is missing. */
  predicate RunsPresent(db: Db, order: seq<CommandId>) {
    forall id :: id in order ==> id in db.commands && db.commands[id].run in db.runs
  }

  /** One selected row: the database after its decision, and the row if it changed. */
  function SweepOne(db: Db, id: CommandId, at: Time, staleAfter: Time, now: Time): (r: (Db, seq<Command>))
    requires id in db.commands
    ensures r.0.commands.Keys == db.commands.Keys
  {
    var ms := ReconcileMoves(db, db.commands[id], at, staleAfter, now);
    (Settle(db, id, ms).0, if ms == [] then [] else [ms[|ms| - 1].row])
  }

  function Sweep(db: Db, order: seq<CommandId>, at: Time, staleAfter: Time, now: Time): (r: (Db, seq<Command>))
    requires forall id :: id in order ==> id in db.commands
    ensures r.0.commands.Keys == db.commands.Keys
    decreases |order|
  {
    if order == [] then (db, [])
    else
      var (next, first) := SweepOne(db, order[0], at, staleAfter, now);
      var (final, rest) := Sweep(next, order[1..], at, staleAfter, now);
      (final, first + rest)
  }

  // ----- the steps ------------------------------------------------------------------

  datatype Step =
    | Enqueue(p: Principal, q: Request, holder: Option<CommandId>, newId: CommandId, now: Time)
    | Reserve(at: Time, choice: Option<CommandId>, now: Time)
    | MarkSendStarted(id: CommandId, now: Time)
    | MarkSent(id: CommandId, now: Time)
    | Acknowledge(id: CommandId, agent: AgentId, session: SessionId, ack: Ack, now: Time)
    | RuntimeAck(id: CommandId, session: SessionId, ack: Ack, reason: Option<string>, now: Time)
    | FailTransport(id: CommandId, why: string, now: Time)
    | Defer(id: CommandId, why: string, retryAt: Time)
    | Reconcile(at: Time, staleAfter: Time, order: seq<CommandId>, now: Time)
    | Resolve(id: CommandId, agent: AgentId, session: SessionId, outcome: Outcome, why: string, now: Time)
    | PutRun(run: RunId, runRow: RunRow)
    | DropRun(run: RunId)
    | PutSession(session: SessionId, sessionRow: SessionRow)

  /** Scheduler choices a step carries must be the ones the database would make. */
  predicate Enabled(db: Db, s: Step) {
    match s
    case Enqueue(p, q, holder, newId, now) => KeyLookup(db, q, holder) && FreshId(db, newId)
    case Reserve(at, choice, now) => OldestDue(db, at, choice)
    case Reconcile(at, staleAfter, order, now) => SweepOrder(db, order)
    case _ => true
  }

  function Blank(s: string): bool {
    forall i :: 0 <= i < |s| ==> s[i] == ' ' || s[i] == '\t' || s[i] == '\n' || s[i] == '\r'
  }

  function AcknowledgeMoves(db: Db, c: Command, agent: AgentId, session: SessionId, a: Ack, now: Time): Result<seq<Move>, Error> {
    if !SessionRunning(db, session) then Err(Forbidden)
    else if db.sessions[session].agent != agent then Err(Forbidden)
    else if session != c.session || db.sessions[session].run != Some(c.run) || agent != c.recipient then Err(Forbidden)
    else
      var m := ApplyAck(c, a, None, now);
      if m.Err? then Err(m.error) else Ok([m.value])
  }

  function ResolveMoves(db: Db, c: Command, agent: AgentId, session: SessionId, o: Outcome, why: string, now: Time): Result<seq<Move>, Error> {
    if agent != MASTER || !SessionRunning(db, session) || db.sessions[session].agent != agent then Err(Forbidden)
    else if c.state != OutcomeUnknown then Err(Conflict)
    else Ok([OutcomeMove(c, o, why, now)])
  }

  /** The moves a single-row step makes on its row. */
  function RowMoves(db: Db, c: Command, s: Step): Result<seq<Move>, Error>
    requires SingleRow(s)
  {
    match s
    case Reserve(at, _, now) => Ok(ReserveMoves(c, at, now))
    case MarkSendStarted(_, now) => SendStartedMoves(db, c, now)
    case MarkSent(_, now) => Ok(SentMoves(c, now))
    case Acknowledge(_, agent, session, a, now) => AcknowledgeMoves(db, c, agent, session, a, now)
    case RuntimeAck(_, session, a, reason, now) =>
      if c.session != session then Err(Forbidden) else RuntimeAckMoves(c, a, reason, now)
    case FailTransport(_, why, now) => Ok(FailTransportMoves(c, why, now))
    case Defer(_, why, retryAt) => Ok(DeferMoves(c, why, retryAt))
    case Resolve(_, agent, session, o, why, now) => ResolveMoves(db, c, agent, session, o, why, now)
  }

  predicate SingleRow(s: Step) {
    !s.Enqueue? && !s.Reconcile? && !s.PutRun? && !s.DropRun? && !s.PutSession?
  }

  /** The row a single-row step works on. */
  function Target(s: Step): Option<CommandId>
    requires SingleRow(s)
  {
    if s.Reserve? then s.choice else Some(s.id)
  }

  /** commitClaims removes a run: its commands are deleted with it and its sessions are detached. */
  function DropRunRow(db: Db, r: RunId): Db {
    db.(runs := db.runs - {r},
        commands := map id | id in db.commands && db.commands[id].run != r :: db.commands[id],
        sessions := map s | s in db.sessions ::
          if db.sessions[s].run == Some(r) then db.sessions[s].(run := None) else db.sessions[s])
  }

  function RowStep(db: Db, s: Step): (Db, Reply)
    requires SingleRow(s)
  {
    var target := Target(s);
    if s.Resolve? && Blank(s.why) then (db, Refused(InvalidInput))
    else if target.None? then (db, Nothing)
    else if target.value !in db.commands then (db, Refused(NotFound))
    else SettleResult(db, target.value, RowMoves(db, db.commands[target.value], s))
  }

  function Next(db: Db, s: Step): (Db, Reply)
    requires Enabled(db, s)
  {
    if SingleRow(s) then RowStep(db, s)
    else
      match s
      case Enqueue(p, q, holder, newId, now) => EnqueueStep(db, p, q, holder, newId, now)
      case Reconcile(at, staleAfter, order, now) =>
        if !RunsPresent(db, order) then (db, Refused(NotFound))
        else
          var (final, changed) := Sweep(db, order, at, staleAfter, now);
          (final, Rows(changed))
      case PutRun(r, row) => (db.(runs := db.runs[r := row]), Nothing)
      case DropRun(r) => (DropRunRow(db, r), Nothing)
      case PutSession(id, row) => (db.(sessions := db.sessions[id := row]), Nothing)
  }

  /** Any interleaving of steps by any number of processes; a step that is not enabled does not happen. */
  function Run(db: Db, steps: seq<Step>): Db
    decreases |steps|
  {
    if steps == [] then db
    else if Enabled(db, steps[0]) then Run(Next(db, steps[0]).0, steps[1..])
    else Run(db, steps[1..])
  }
}
