/**
 * What each command transaction does, in terms of the stored fields
 * (lib/commandDelivery.ts): when it is accepted, and the row it leaves.
 */
module CommandOutcomes {
  import opened Prelude
  import opened Commands
  import opened CommandInvariants
  import opened CommandRecovery

  /** The command's run is active and its recipient's session runs. */
  predicate Reachable(db: Db, c: Command) {
    && c.run in db.runs && db.runs[c.run].active
    && c.session in db.sessions && db.sessions[c.session].running
  }

  /** Nothing was written to the transport in the current attempt. */
  predicate NothingSent(c: Command) {
    c.state == Queued || (c.state == Dispatching && c.sendStartedAt == None)
  }

  predicate Late(c: Command, at: Time) {
    c.deadlineAt.Some? && c.deadlineAt.value <= at
  }

  // ----- recovery -----------------------------------------------------------------------------

  /** A reservation or send that has been under way for too long. */
  predicate Stuck(c: Command, at: Time, staleAfter: Time) {
    c.state == Dispatching && c.dispatchStartedAt.Some? && c.dispatchStartedAt.value + staleAfter <= at
  }

  /** May be tried again: stuck but reachable and in time, with attempts left, and harmless to repeat. */
  predicate Retryable(db: Db, c: Command, at: Time, staleAfter: Time) {
    && Stuck(c, at, staleAfter) && Reachable(db, c) && !Late(c, at) && c.attempts < c.maxAttempts
    && (NothingSent(c) || !c.sideEffecting)
  }

  /**
   * A sweep leaves a healthy command alone, queues a retryable one again at
   * once without counting an attempt, makes a side-effecting one whose send
   * started unknown, and fails every other.
   */
  lemma SweepOutcome(db: Db, order: seq<CommandId>, at: Time, staleAfter: Time, now: Time, id: CommandId)
    requires Inv(db) && SweepOrder(db, order) && id in db.commands
    requires db.commands[id].state in {Queued, Dispatching, Sent, Accepted, Running}
    ensures var c, final := db.commands[id], Sweep(db, order, at, staleAfter, now).0.commands;
            && id in final
            && var d := final[id];
               && (d == c <==> Reachable(db, c) && !Late(c, at) && !Stuck(c, at, staleAfter))
               && (d != c ==> d == c.(state := d.state, nextAttemptAt := d.nextAttemptAt, lastError := d.lastError, terminalAt := d.terminalAt))
               && (d != c && d.state == Queued <==> Retryable(db, c, at, staleAfter))
               && (d != c && d.state == Queued ==> d.nextAttemptAt == Some(at) && d.attempts == c.attempts && d.terminalAt == None)
               && (d.state == OutcomeUnknown <==> d != c && c.sideEffecting && !NothingSent(c))
               && (d.state == Failed <==> d != c && !Retryable(db, c, at, staleAfter) && (NothingSent(c) || !c.sideEffecting))
               && (d.state in {OutcomeUnknown, Failed} ==> d.terminalAt == Some(now))
  {
    hide Sweep, Starts;
    SelectedRunsPresent(db, order);
    SweepIsPointwise(db, order, at, staleAfter, now, id);
    assert GoodRow(db, id);
  }

  /** A command with nothing sent is failed by a sweep exactly when it cannot be reached, is late, or has spent its attempts. */
  lemma UnsentFailsExactlyWhen(db: Db, order: seq<CommandId>, at: Time, staleAfter: Time, now: Time, id: CommandId)
    requires Inv(db) && SweepOrder(db, order) && id in db.commands && NothingSent(db.commands[id])
    ensures var c, final := db.commands[id], Sweep(db, order, at, staleAfter, now).0.commands;
            id in final && (final[id].state == Failed <==>
              !Reachable(db, c) || Late(c, at) || (Stuck(c, at, staleAfter) && c.attempts >= c.maxAttempts))
  {
    hide Inv, Sweep;
    SweepOutcome(db, order, at, staleAfter, now, id);
  }

  /** Why a command was recovered is recorded. */
  lemma SweepReason(db: Db, order: seq<CommandId>, at: Time, staleAfter: Time, now: Time, id: CommandId)
    requires Inv(db) && SweepOrder(db, order) && id in db.commands
    requires db.commands[id].state in {Queued, Dispatching, Sent, Accepted, Running}
    ensures var c, final := db.commands[id], Sweep(db, order, at, staleAfter, now).0.commands;
            id in final && (final[id] != c ==>
              final[id].lastError == Some(
                if !(c.run in db.runs && db.runs[c.run].active) then "run ended"
                else if !Reachable(db, c) then "recipient session exited"
                else if Late(c, at) then "deadline exceeded"
                else "dispatch interrupted"))
  {
    hide Sweep, Starts;
    SelectedRunsPresent(db, order);
    SweepIsPointwise(db, order, at, staleAfter, now, id);
    assert GoodRow(db, id);
  }

  // ----- enqueueing -------------------------------------------------------------------------------

  /** The caller is the coordinator, the master, or the agent of the run from the run's own session. */
  predicate MaySpeakFor(db: Db, p: Principal, run: RunId) {
    match p
    case InProcess => true
    case Authenticated(agent, session) =>
      && session in db.sessions && db.sessions[session].running && db.sessions[session].agent == agent
      && (agent == "master" || (run in db.runs && db.runs[run].agent == Some(agent) && db.sessions[session].run == Some(run)))
  }

  /** The request is well formed, its run active, its caller entitled and its recipient the run's own agent. */
  predicate WellPosed(db: Db, p: Principal, q: Request) {
    && q.key != "" && q.kind != "" && q.maxAttempts >= 1 && q.payload.Some?
    && q.run in db.runs && db.runs[q.run].active && MaySpeakFor(db, p, q.run)
    && q.recipient in db.sessions && db.sessions[q.recipient].running
    && db.sessions[q.recipient].run == Some(q.run) && Some(db.sessions[q.recipient].agent) == db.runs[q.run].agent
  }

  /** The stored command asks for exactly what the request asks for. */
  predicate Asks(c: Command, p: Principal, q: Request) {
    && c.run == q.run && c.key == q.key && c.session == q.recipient && c.kind == q.kind && q.payload == Some(c.payload)
    && c.sideEffecting == q.sideEffecting && c.maxAttempts == q.maxAttempts && c.deadlineAt == q.deadlineAt
    && c.actorSession == (if p == InProcess then None else Some(p.session))
  }

  /**
   * An enqueue is accepted exactly when the request is well posed and its key is
   * new or was used for the same request.  A new command is queued with no
   * attempt made; a refusal and a repetition write nothing.
   */
  lemma EnqueueOutcome(db: Db, p: Principal, q: Request, holder: Option<CommandId>, newId: CommandId, now: Time)
    requires KeyLookup(db, q, holder) && FreshId(db, newId)
    ensures var (next, reply) := Next(db, Enqueue(p, q, holder, newId, now));
            && (reply.Row? <==> WellPosed(db, p, q) && (holder.Some? ==> Asks(db.commands[holder.value], p, q)))
            && (reply.Row? && holder.Some? ==> next == db && reply.row == db.commands[holder.value])
            && (reply.Row? && holder.None? ==>
                  && next.commands == db.commands[newId := reply.row] && Asks(reply.row, p, q)
                  && reply.row.id == newId && reply.row.state == Queued && reply.row.attempts == 0 && reply.row.createdAt == now
                  && reply.row.recipient == db.sessions[q.recipient].agent && reply.row.rowid == db.nextRowid < next.nextRowid
                  && reply.row.nextAttemptAt == None && reply.row.terminalAt == None && reply.row.sendStartedAt == None
                  && reply.row.actor == (if p == InProcess then "coordinator" else p.agent))
            && (!reply.Row? ==> next == db && reply.Refused?)
            && (WellPosed(db, p, q) && !reply.Row? ==> reply == Refused(Conflict))
  {
  }

  /** A key that was used for a different request is a conflict. */
  lemma ReusedKeyConflicts(db: Db, p: Principal, q: Request, id: CommandId, newId: CommandId, now: Time)
    requires id in db.commands && db.commands[id].run == q.run && db.commands[id].key == q.key && FreshId(db, newId)
    requires WellPosed(db, p, q) && !Asks(db.commands[id], p, q)
    ensures Next(db, Enqueue(p, q, Some(id), newId, now)) == (db, Refused(Conflict))
  {
    EnqueueOutcome(db, p, q, Some(id), newId, now);
  }

  // ----- dispatching ------------------------------------------------------------------------------

  predicate Waiting(c: Command, at: Time) {
    c.state == Queued && (c.nextAttemptAt.Some? ==> c.nextAttemptAt.value <= at)
  }

  /** The longest waiting command is taken, and counted, or failed when it is late; nothing when none waits. */
  lemma ReserveOutcome(db: Db, at: Time, choice: Option<CommandId>, now: Time)
    requires Inv(db) && Enabled(db, Reserve(at, choice, now))
    ensures var (next, reply) := Next(db, Reserve(at, choice, now));
            && (choice == None <==> forall id :: id in db.commands ==> !Waiting(db.commands[id], at))
            && (choice == None ==> next == db && reply == Nothing)
            && (choice.Some? ==>
                  && choice.value in db.commands && reply.Row?
                  && var c := db.commands[choice.value];
                     && Waiting(c, at)
                     && (forall id :: id in db.commands && Waiting(db.commands[id], at) ==>
                           c.createdAt < db.commands[id].createdAt || (c.createdAt == db.commands[id].createdAt && c.rowid <= db.commands[id].rowid))
                     && next.commands == db.commands[choice.value := reply.row]
                     && (if Late(c, at)
                         then reply.row.state == Failed && reply.row.terminalAt == Some(now) && reply.row.attempts == c.attempts
                         else reply.row == c.(state := Dispatching, attempts := c.attempts + 1, dispatchStartedAt := Some(at), sendStartedAt := None)))
  {
    hide Starts;
    if choice.Some? { assert GoodRow(db, choice.value); }
    assert forall id :: id in db.commands ==> (Due(db.commands[id], at) <==> Waiting(db.commands[id], at));
  }

  /** A send may start exactly when the command is reserved and unsent and its recipient is still the run's session. */
  lemma SendStartsExactlyWhen(db: Db, id: CommandId, now: Time)
    requires id in db.commands
    ensures var c, (next, reply) := db.commands[id], Next(db, MarkSendStarted(id, now));
            && (reply.Row? <==>
                  && c.state == Dispatching && c.sendStartedAt == None && Reachable(db, c)
                  && db.sessions[c.session].run == Some(c.run) && db.sessions[c.session].agent == c.recipient)
            && (reply.Row? ==> next.commands == db.commands[id := c.(sendStartedAt := Some(now))])
            && (!reply.Row? ==> next == db)
  {
  }

  /** A returned write marks a started send as sent, and nothing else. */
  lemma SentOutcome(db: Db, id: CommandId, now: Time)
    requires Inv(db) && id in db.commands
    ensures var c, next := db.commands[id], Next(db, MarkSent(id, now)).0;
            next.commands == db.commands[id := if c.state == Dispatching && c.sendStartedAt.Some?
                                               then c.(state := Sent, deliveredAt := Some(now)) else c]
  {
    hide Starts;
    assert GoodRow(db, id);
    assert db.commands[id := db.commands[id]] == db.commands;
  }

  /** The retry delay: one second after the first attempt, doubling, at most thirty. */
  lemma TransportBackoffDoubles(n: nat)
    requires n >= 1
    ensures TransportBackoff(1) == 1000 && TransportBackoff(n + 1) == Min(2 * TransportBackoff(n), 30000)
    ensures 1000 <= TransportBackoff(n) <= 30000
  {
    assert Pow2(n) == 2 * Pow2(n - 1);
    PowIsPositive(n - 1);
  }

  lemma {:induction false} PowIsPositive(n: nat)
    ensures Pow2(n) >= 1
  {
    if n > 0 { PowIsPositive(n - 1); }
  }

  /** A transport failure is uncertain, final or retried later, and touches only a command being dispatched. */
  lemma TransportFailureOutcome(db: Db, id: CommandId, why: string, now: Time)
    requires Inv(db) && id in db.commands
    ensures var c, final := db.commands[id], Next(db, FailTransport(id, why, now)).0.commands;
            && final == db.commands[id := final[id]]
            && var d := final[id];
               if c.state != Dispatching then d == c
               else if c.sideEffecting && !NothingSent(c) then d == c.(state := OutcomeUnknown, lastError := Some(why), terminalAt := Some(now))
               else if c.attempts >= c.maxAttempts then d == c.(state := Failed, lastError := Some(why), terminalAt := Some(now))
               else d == c.(state := Queued, lastError := Some(why), nextAttemptAt := d.nextAttemptAt)
                    && d.nextAttemptAt == Some(now + TransportBackoff(c.attempts))
  {
    hide Starts, TransportBackoff;
    assert GoodRow(db, id);
    assert db.commands[id := db.commands[id]] == db.commands;
  }

  /** A deferral returns a reserved command to the queue and gives its attempt back; a send that started cannot be deferred. */
  lemma DeferOutcome(db: Db, id: CommandId, why: string, retryAt: Time)
    requires Inv(db) && id in db.commands
    ensures var c, next := db.commands[id], Next(db, Defer(id, why, retryAt)).0;
            next.commands == db.commands[id := if c.state == Dispatching && NothingSent(c)
                                               then c.(state := Queued, attempts := c.attempts - 1, nextAttemptAt := Some(retryAt), lastError := Some(why))
                                               else c]
  {
    hide Starts, RuntimeAckMoves, SendStartedMoves, ReserveMoves, FailTransportMoves, AcknowledgeMoves, ResolveMoves, Sweep, EnqueueStep;
    assert GoodRow(db, id);
    assert db.commands[id := db.commands[id]] == db.commands;
  }

  // ----- acknowledging and resolving --------------------------------------------------------------------

  /** The recipient speaks from its own running session. */
  predicate FromRecipient(db: Db, c: Command, agent: AgentId, session: SessionId) {
    && session == c.session && agent == c.recipient && session in db.sessions && db.sessions[session].running
    && db.sessions[session].agent == agent && db.sessions[session].run == Some(c.run)
  }

  /** Acceptance follows a send; work follows acceptance; an end follows either. */
  predicate Follows(c: Command, a: Ack) {
    match a
    case AckAccepted => !NothingSent(c) && c.state in {Dispatching, Sent, OutcomeUnknown}
    case AckRunning => c.state == Accepted
    case AckCompleted => c.state in {Accepted, Running}
    case AckFailed => c.state in {Accepted, Running}
  }

  lemma AckOutcome(db: Db, id: CommandId, agent: AgentId, session: SessionId, a: Ack, now: Time)
    requires Inv(db) && id in db.commands
    ensures var c, (next, reply) := db.commands[id], Next(db, Acknowledge(id, agent, session, a, now));
            && (reply.Row? <==> FromRecipient(db, c, agent, session) && Follows(c, a))
            && (!reply.Row? ==> next == db)
            && (reply.Row? ==>
                  && next.commands == db.commands[id := reply.row]
                  && reply.row == c.(state := reply.row.state, acknowledgedAt := reply.row.acknowledgedAt, terminalAt := reply.row.terminalAt)
                  && reply.row.state == (match a case AckAccepted => Accepted case AckRunning => Running case AckCompleted => Completed case AckFailed => Failed)
                  && reply.row.acknowledgedAt == (if c.acknowledgedAt.Some? then c.acknowledgedAt else Some(now))
                  && reply.row.terminalAt == (if a == AckCompleted || a == AckFailed then Some(now) else None))
  {
    hide Starts;
    assert GoodRow(db, id);
  }

  /** Only a running master session resolves an unknown outcome, with a reason, to the outcome it names. */
  lemma ResolveOutcome(db: Db, id: CommandId, agent: AgentId, session: SessionId, o: Outcome, why: string, now: Time)
    requires Inv(db) && id in db.commands
    ensures var c, (next, reply) := db.commands[id], Next(db, Resolve(id, agent, session, o, why, now));
            && (reply.Row? <==>
                  && !Blank(why) && agent == "master" && session in db.sessions && db.sessions[session].running
                  && db.sessions[session].agent == "master" && c.state == OutcomeUnknown)
            && (!reply.Row? ==> next == db)
            && (reply.Row? ==>
                  && next.commands == db.commands[id := reply.row]
                  && reply.row == c.(state := reply.row.state, lastError := Some(why), terminalAt := Some(now))
                  && reply.row.state == (match o case ResolvedCompleted => Completed case ResolvedFailed => Failed case ResolvedCancelled => Cancelled))
  {
    hide Starts;
    assert GoodRow(db, id);
  }

  /** The command already is where the frame would take it, or beyond. */
  predicate Reached(c: Command, a: Ack) {
    || c.state in {Completed, Failed, Cancelled}
    || (a == AckAccepted && c.state in {Accepted, Running})
    || (a == AckRunning && c.state == Running)
  }

  /** The row a frame leaves when it moves the command. */
  predicate MovedBy(c: Command, d: Command, a: Ack, reason: Option<string>, now: Time) {
    && d == c.(state := d.state, acknowledgedAt := d.acknowledgedAt, terminalAt := d.terminalAt, lastError := d.lastError)
    && d.state == (match a case AckAccepted => Accepted case AckRunning => Running case AckCompleted => Completed case AckFailed => Failed)
    && d.acknowledgedAt == (if c.acknowledgedAt.Some? then c.acknowledgedAt else Some(now))
    && d.terminalAt == (if a == AckCompleted || a == AckFailed then Some(now) else None)
    && d.lastError == (if reason.Some? && (a == AckCompleted || a == AckFailed) then reason else c.lastError)
  }

  lemma FrameMoves(c: Command, a: Ack, reason: Option<string>, now: Time)
    ensures var r := RuntimeAckMoves(c, a, reason, now);
            && (r.Ok? <==> !NothingSent(c))
            && (r.Ok? ==> (r.value == [] <==> Reached(c, a)))
            && (r.Ok? && r.value != [] ==> MovedBy(c, r.value[|r.value| - 1].row, a, reason, now))
  {
  }

  /** A provider frame from the command's own session moves a sent command forward to its state, and never back. */
  lemma FrameOutcome(db: Db, id: CommandId, session: SessionId, a: Ack, reason: Option<string>, now: Time)
    requires Inv(db) && id in db.commands
    ensures var c, (next, reply) := db.commands[id], Next(db, RuntimeAck(id, session, a, reason, now));
            && (reply.Row? <==> session == c.session && !NothingSent(c))
            && (!reply.Row? ==> next == db)
            && (reply.Row? && Reached(c, a) ==> next == db && reply.row == c)
            && (reply.Row? && !Reached(c, a) ==> next.commands == db.commands[id := reply.row] && MovedBy(c, reply.row, a, reason, now))
  {
    hide Starts, RuntimeAckMoves, MovedBy, Reached;
    assert GoodRow(db, id);
    FrameMoves(db.commands[id], a, reason, now);
  }

  /** Removing a run removes its commands and detaches its sessions; every other row stays. */
  lemma DroppedRun(db: Db, run: RunId)
    ensures var next := Next(db, DropRun(run)).0;
            && run !in next.runs && (forall r :: r in db.runs && r != run ==> r in next.runs && next.runs[r] == db.runs[r])
            && (forall id :: id in next.commands <==> id in db.commands && db.commands[id].run != run)
            && (forall id :: id in next.commands ==> next.commands[id] == db.commands[id])
            && next.sessions.Keys == db.sessions.Keys
            && (forall k :: k in db.sessions ==>
                  next.sessions[k] == if db.sessions[k].run == Some(run) then db.sessions[k].(run := None) else db.sessions[k])
  {
  }
}
