/**
 * What every interleaving of command steps keeps: a reference automaton for one
 * row, the row invariant it preserves, and the agreement of the event log with
 * the table.
 */
module CommandInvariants {
  import opened Prelude
  import opened Commands

  // ----- reading the event log ------------------------------------------------------

  /** How many times a send of command `id` was started. */
  function Starts(log: seq<Event>, id: CommandId): nat
    decreases |log|
  {
    if log == [] then 0
    else
      var e := log[|log| - 1];
      Starts(log[..|log| - 1], id) + (if e.id == id && e.name == EvSendStarted then 1 else 0)
  }

  /** The latest event of command `id`. */
  function LastEvent(log: seq<Event>, id: CommandId): Option<Event>
    decreases |log|
  {
    if log == [] then None
    else if log[|log| - 1].id == id then Some(log[|log| - 1])
    else LastEvent(log[..|log| - 1], id)
  }

  // ----- the reference automaton ------------------------------------------------------

  predicate SameCommand(c: Command, d: Command) {
    && d.id == c.id && d.rowid == c.rowid && d.run == c.run && d.session == c.session
    && d.actorSession == c.actorSession && d.actor == c.actor && d.recipient == c.recipient
    && d.key == c.key && d.kind == c.kind && d.payload == c.payload
    && d.sideEffecting == c.sideEffecting && d.maxAttempts == c.maxAttempts
    && d.deadlineAt == c.deadlineAt && d.createdAt == c.createdAt
  }

  /** A send of the current attempt is on record. */
  predicate SendOnRecord(c: Command) {
    c.state == Dispatching && c.sendStartedAt.Some?
  }

  /** The legal single moves, event by event; terminal states have none. */
  predicate Edge(c: Command, m: Move) {
    var d := m.row;
    && SameCommand(c, d)
    && !Terminal(c.state)
    && (d.terminalAt.Some? <==> Terminal(d.state) || d.state == OutcomeUnknown)
    && match m.event
       case EvDispatching =>
         c.state == Queued && d.state == Dispatching && d.attempts == c.attempts + 1 && d.sendStartedAt.None?
       case EvSendStarted =>
         c.state == Dispatching && c.sendStartedAt.None? && d.state == Dispatching && d.sendStartedAt.Some?
         && d.attempts == c.attempts
       case EvSent => SendOnRecord(c) && d.state == Sent && d.attempts == c.attempts
       case EvAccepted =>
         (SendOnRecord(c) || c.state == Sent || c.state == OutcomeUnknown) && d.state == Accepted && d.attempts == c.attempts
       case EvRunning => c.state == Accepted && d.state == Running && d.attempts == c.attempts
       case EvCompleted =>
         (c.state == Accepted || c.state == Running || c.state == OutcomeUnknown) && d.state == Completed
         && d.attempts == c.attempts
       case EvFailed =>
         (c.sideEffecting && (c.state == Sent || SendOnRecord(c)) ==> false)
         && d.state == Failed && d.attempts == c.attempts
       case EvCancelled => c.state == OutcomeUnknown && d.state == Cancelled && d.attempts == c.attempts
       case EvOutcomeUnknown =>
         c.sideEffecting && (SendOnRecord(c) || c.state == Sent || c.state == Accepted || c.state == Running)
         && d.state == OutcomeUnknown && d.attempts == c.attempts
       case EvQueued =>
         c.state == Dispatching && d.state == Queued && (SendOnRecord(c) ==> !c.sideEffecting)
         && ((d.attempts == c.attempts < c.maxAttempts) || (c.sendStartedAt.None? && d.attempts == c.attempts - 1))
  }

  /** The moves follow one another, each legal from the version before it. */
  predicate Chain(c: Command, ms: seq<Move>) {
    && (ms != [] ==> Edge(c, ms[0]))
    && forall k :: 0 < k < |ms| ==> Edge(ms[k - 1].row, ms[k])
  }

  // ----- the row invariant --------------------------------------------------------------

  /** `n` sends of this command were started so far. */
  predicate RowInv(c: Command, n: nat) {
    && 1 <= c.maxAttempts && 0 <= c.attempts <= c.maxAttempts && n <= c.attempts
    && (c.state == Queued ==> c.attempts < c.maxAttempts)
    && (c.state == Dispatching && c.sendStartedAt.None? ==> n < c.attempts)
    && (c.sideEffecting ==> n <= 1 && (Unsent(c) ==> n == 0))
    && (!Unsent(c) && !Terminal(c.state) ==> n >= 1)
    && (c.state == Completed || c.state == Cancelled ==> n >= 1)
    && (c.terminalAt.Some? <==> Terminal(c.state) || c.state == OutcomeUnknown)
  }

  /** The latest event of the row tells its current state and attempt count. */
  predicate LogAgrees(db: Db, id: CommandId)
    requires id in db.commands
  {
    var e := LastEvent(db.log, id);
    e.Some? && e.value.state == db.commands[id].state && e.value.attempts == db.commands[id].attempts
  }

  predicate GoodRow(db: Db, id: CommandId)
    requires id in db.commands
  {
    var c := db.commands[id];
    && c.id == id && c.run in db.runs && c.rowid < db.nextRowid
    && RowInv(c, Starts(db.log, id))
    && LogAgrees(db, id)
  }

  predicate Inv(db: Db) {
    && (forall id :: id in db.commands ==> GoodRow(db, id))
    && (forall i, j :: i in db.commands && j in db.commands && i != j ==>
          (db.commands[i].run != db.commands[j].run || db.commands[i].key != db.commands[j].key)
          && db.commands[i].rowid != db.commands[j].rowid)
  }

  // ----- single moves -------------------------------------------------------------------

  function StartedBy(ms: seq<Move>): nat
    decreases |ms|
  {
    if ms == [] then 0
    else StartedBy(ms[..|ms| - 1]) + (if ms[|ms| - 1].event == EvSendStarted then 1 else 0)
  }

  lemma EdgeKeepsRow(c: Command, m: Move, n: nat)
    requires Edge(c, m) && RowInv(c, n)
    ensures RowInv(m.row, n + (if m.event == EvSendStarted then 1 else 0))
  {
  }

  lemma {:induction false} ChainKeepsRow(c: Command, ms: seq<Move>, n: nat)
    requires Chain(c, ms) && RowInv(c, n) && ms != []
    ensures RowInv(ms[|ms| - 1].row, n + StartedBy(ms))
    ensures SameCommand(c, ms[|ms| - 1].row)
    ensures forall k :: 0 <= k < |ms| ==> ms[k].row.id == c.id
    decreases |ms|
  {
    var init, last := ms[..|ms| - 1], ms[|ms| - 1];
    if init == [] {
      EdgeKeepsRow(c, last, n);
    } else {
      ChainKeepsRow(c, init, n);
      assert Edge(init[|init| - 1].row, last);
      EdgeKeepsRow(init[|init| - 1].row, last, n + StartedBy(init));
      forall k | 0 <= k < |ms| ensures ms[k].row.id == c.id {
        if k < |init| { assert ms[k] == init[k]; }
      }
    }
  }

  lemma OneMoreEvent(log: seq<Event>, e: Event, id: CommandId)
    ensures Starts(log + [e], id) == Starts(log, id) + if e.id == id && e.name == EvSendStarted then 1 else 0
    ensures LastEvent(log + [e], id) == if e.id == id then Some(e) else LastEvent(log, id)
  {
    var more := log + [e];
    assert more[..|more| - 1] == log && more[|more| - 1] == e;
  }

  lemma NoMoreEvents(log: seq<Event>, ms: seq<Move>)
    requires ms == []
    ensures log + MoveEvents(ms) == log
  {
  }

  lemma MoveEventsSnoc(log: seq<Event>, ms: seq<Move>)
    requires ms != []
    ensures log + MoveEvents(ms) == (log + MoveEvents(ms[..|ms| - 1])) + [MoveEvent(ms[|ms| - 1])]
  {
    var init := MoveEvents(ms[..|ms| - 1]);
    assert MoveEvents(ms) == init + [MoveEvent(ms[|ms| - 1])];
    assert log + (init + [MoveEvent(ms[|ms| - 1])]) == (log + init) + [MoveEvent(ms[|ms| - 1])];
  }

  lemma {:induction false} AppendMoves(log: seq<Event>, ms: seq<Move>, owner: CommandId, id: CommandId)
    requires forall k :: 0 <= k < |ms| ==> ms[k].row.id == owner
    ensures Starts(log + MoveEvents(ms), id) == Starts(log, id) + (if id == owner then StartedBy(ms) else 0)
    ensures LastEvent(log + MoveEvents(ms), id) ==
            if id == owner && ms != [] then Some(MoveEvent(ms[|ms| - 1])) else LastEvent(log, id)
    decreases |ms|
  {
    hide Starts, LastEvent, MoveEvents;
    if ms == [] {
      NoMoreEvents(log, ms);
    } else {
      var init := ms[..|ms| - 1];
      AppendMoves(log, init, owner, id);
      MoveEventsSnoc(log, ms);
      OneMoreEvent(log + MoveEvents(init), MoveEvent(ms[|ms| - 1]), id);
    }
  }

  // ----- every operation makes only legal moves -----------------------------------------

  lemma AckIsAnEdge(c: Command, a: Ack, reason: Option<string>, now: Time)
    requires AckAllowed(c, a)
    ensures ApplyAck(c, a, reason, now).Ok? && Edge(c, ApplyAck(c, a, reason, now).value)
  {
  }

  lemma RuntimeAckIsAChain(c: Command, a: Ack, reason: Option<string>, now: Time)
    requires !Unsent(c)
    ensures RuntimeAckMoves(c, a, reason, now).Ok?
    ensures Chain(c, RuntimeAckMoves(c, a, reason, now).value)
  {
    if StateRank(c.state) < AckRank(a) {
      var mid := c;
      if c.state != Accepted && c.state != Running {
        AckIsAnEdge(c, AckAccepted, None, now);
        mid := ApplyAck(c, AckAccepted, None, now).value.row;
      }
      if a != AckAccepted {
        AckIsAnEdge(mid, a, if a == AckRunning then None else reason, now);
      }
    }
  }

  lemma RowMovesAreLegal(db: Db, c: Command, s: Step)
    requires SingleRow(s) && RowMoves(db, c, s).Ok?
    requires s.Reserve? ==> c.state == Queued
    requires c.terminalAt.Some? <==> Terminal(c.state) || c.state == OutcomeUnknown
    ensures Chain(c, RowMoves(db, c, s).value)
  {
    hide SessionRunning;
    if s.RuntimeAck? {
      RuntimeAckIsAChain(c, s.ack, s.reason, s.now);
    }
  }

  lemma ReconcileMovesAreLegal(db: Db, c: Command, at: Time, staleAfter: Time, now: Time)
    requires InFlight(c.state) && c.terminalAt.None?
    ensures Chain(c, ReconcileMoves(db, c, at, staleAfter, now))
  {
    hide RecoveryReason, Exited, TimedOut;
  }

  // ----- the table ----------------------------------------------------------------------

  lemma SettleKeepsInv(db: Db, id: CommandId, ms: seq<Move>)
    requires Inv(db) && id in db.commands && Chain(db.commands[id], ms)
    ensures Inv(Settle(db, id, ms).0)
    ensures ms != [] ==> Settle(db, id, ms).0.commands == db.commands[id := ms[|ms| - 1].row]
  {
    hide Starts, LastEvent;
    if ms != [] {
      var next := Settle(db, id, ms).0;
      var c := db.commands[id];
      assert GoodRow(db, id);
      ChainKeepsRow(c, ms, Starts(db.log, id));
      forall k | k in next.commands ensures GoodRow(next, k) {
        assert GoodRow(db, k);
        AppendMoves(db.log, ms, id, k);
      }
    }
  }

  lemma {:induction false} SweepKeepsInv(db: Db, order: seq<CommandId>, at: Time, staleAfter: Time, now: Time)
    requires Inv(db)
    requires forall i, j :: 0 <= i < j < |order| ==> order[i] != order[j]
    requires forall id :: id in order ==> id in db.commands && InFlight(db.commands[id].state)
    ensures Inv(Sweep(db, order, at, staleAfter, now).0)
    decreases |order|
  {
    if order != [] {
      var id := order[0];
      var ms := ReconcileMoves(db, db.commands[id], at, staleAfter, now);
      assert GoodRow(db, id);
      ReconcileMovesAreLegal(db, db.commands[id], at, staleAfter, now);
      SettleKeepsInv(db, id, ms);
      var next := Settle(db, id, ms).0;
      forall k | k in order[1..] ensures k in next.commands && InFlight(next.commands[k].state) {
        assert k in order;
        assert k != id;
      }
      SweepKeepsInv(next, order[1..], at, staleAfter, now);
    }
  }

  lemma FreshIdHasNoEvents(log: seq<Event>, id: CommandId)
    requires forall k :: 0 <= k < |log| ==> log[k].id != id
    ensures Starts(log, id) == 0 && LastEvent(log, id) == None
    decreases |log|
  {
  }

  lemma EnqueueKeepsInv(db: Db, p: Principal, q: Request, holder: Option<CommandId>, newId: CommandId, now: Time)
    requires Inv(db) && KeyLookup(db, q, holder) && FreshId(db, newId)
    ensures Inv(EnqueueStep(db, p, q, holder, newId, now).0)
  {
    var next := EnqueueStep(db, p, q, holder, newId, now).0;
    if next != db {
      FreshIdHasNoEvents(db.log, newId);
      assert next.log[..|next.log| - 1] == db.log;
      forall k | k in next.commands ensures GoodRow(next, k) {
        if k != newId { assert GoodRow(db, k); }
      }
      forall i, j | i in next.commands && j in next.commands && i != j
        ensures next.commands[i].run != next.commands[j].run || next.commands[i].key != next.commands[j].key
        ensures next.commands[i].rowid != next.commands[j].rowid
      {
        assert i != newId ==> !HoldsKey(db, i, q.run, q.key) && GoodRow(db, i);
        assert j != newId ==> !HoldsKey(db, j, q.run, q.key) && GoodRow(db, j);
      }
    }
  }

  /** Repeating an accepted request finds the first command again and adds nothing. */
  lemma RepeatedEnqueueIsIdempotent(db: Db, p: Principal, q: Request, holder: Option<CommandId>, newId: CommandId, now: Time,
                                    found: Option<CommandId>, otherId: CommandId, later: Time)
    requires Inv(db) && KeyLookup(db, q, holder) && FreshId(db, newId)
    requires EnqueueStep(db, p, q, holder, newId, now).1.Row?
    requires var once := EnqueueStep(db, p, q, holder, newId, now).0;
             KeyLookup(once, q, found) && FreshId(once, otherId)
    ensures var (once, reply) := EnqueueStep(db, p, q, holder, newId, now);
            EnqueueStep(once, p, q, found, otherId, later) == (once, reply)
  {
    var (once, reply) := EnqueueStep(db, p, q, holder, newId, now);
    EnqueueKeepsInv(db, p, q, holder, newId, now);
    var id := if holder.Some? then holder.value else newId;
    assert HoldsKey(once, id, q.run, q.key);
    assert EnqueueRefusal(once, p, q) == EnqueueRefusal(db, p, q);
  }

  lemma StepKeepsInv(db: Db, s: Step)
    requires Inv(db) && Enabled(db, s)
    ensures Inv(Next(db, s).0)
  {
    if SingleRow(s) {
      var target := Target(s);
      if target.Some? && target.value in db.commands && RowMoves(db, db.commands[target.value], s).Ok? {
        assert GoodRow(db, target.value);
        RowMovesAreLegal(db, db.commands[target.value], s);
        SettleKeepsInv(db, target.value, RowMoves(db, db.commands[target.value], s).value);
      }
    } else if s.Enqueue? {
      EnqueueKeepsInv(db, s.p, s.q, s.holder, s.newId, s.now);
    } else if s.Reconcile? {
      SweepKeepsInv(db, s.order, s.at, s.staleAfter, s.now);
    } else {
      var next := Next(db, s).0;
      forall k | k in next.commands ensures GoodRow(next, k) {
        assert GoodRow(db, k);
      }
    }
  }

  lemma {:induction false} RunKeepsInv(db: Db, steps: seq<Step>)
    requires Inv(db)
    ensures Inv(Run(db, steps))
    decreases |steps|
  {
    if steps != [] {
      if Enabled(db, steps[0]) {
        StepKeepsInv(db, steps[0]);
        RunKeepsInv(Next(db, steps[0]).0, steps[1..]);
      } else {
        RunKeepsInv(db, steps[1..]);
      }
    }
  }

  // ----- the delivery guarantees ----------------------------------------------------------

  /**
   * In every interleaving of steps from an empty database, by any number of
   * dispatchers and with a crash between any two steps: a side-effecting command
   * starts a send at most once, sends never exceed attempts, attempts never
   * exceed their limit, and a queued command always has an attempt left.
   */
  lemma SendsAreBounded(steps: seq<Step>, id: CommandId)
    requires id in Run(EmptyDb, steps).commands
    ensures var db := Run(EmptyDb, steps);
            var c := db.commands[id];
            && Starts(db.log, id) <= c.attempts <= c.maxAttempts
            && (c.sideEffecting ==> Starts(db.log, id) <= 1)
            && (c.state == Queued ==> c.attempts < c.maxAttempts)
            && (c.sideEffecting && Starts(db.log, id) == 1 ==> !Unsent(c))
  {
    RunKeepsInv(EmptyDb, steps);
    assert GoodRow(Run(EmptyDb, steps), id);
  }

  /** The event log agrees with the table in every reachable state. */
  lemma LogTellsTheTable(steps: seq<Step>, id: CommandId)
    requires id in Run(EmptyDb, steps).commands
    ensures var db := Run(EmptyDb, steps);
            var c := db.commands[id];
            && LogAgrees(db, id)
            && (c.terminalAt.Some? <==> c.state in {Completed, Failed, Cancelled, OutcomeUnknown})
            && (c.state in {Sent, Accepted, Running, Completed, Cancelled, OutcomeUnknown} ==> Starts(db.log, id) >= 1)
  {
    RunKeepsInv(EmptyDb, steps);
    assert GoodRow(Run(EmptyDb, steps), id);
  }

  // ----- terminal states are never left ---------------------------------------------------

  /** The command is still this row, or it was deleted with its run and its id is spent. */
  predicate SettledAs(db: Db, id: CommandId, c: Command) {
    if id in db.commands then db.commands[id] == c
    else exists k :: 0 <= k < |db.log| && db.log[k].id == id
  }

  lemma LastEventIsInLog(log: seq<Event>, id: CommandId)
    requires LastEvent(log, id).Some?
    ensures exists k :: 0 <= k < |log| && log[k].id == id
    decreases |log|
  {
    if log[|log| - 1].id != id {
      LastEventIsInLog(log[..|log| - 1], id);
    }
  }

  lemma {:induction false} SweepSkips(db: Db, order: seq<CommandId>, at: Time, staleAfter: Time, now: Time, id: CommandId)
    requires forall k :: k in order ==> k in db.commands
    requires id !in order
    ensures var final := Sweep(db, order, at, staleAfter, now).0;
            && db.log <= final.log
            && (id in final.commands <==> id in db.commands)
            && (id in db.commands ==> final.commands[id] == db.commands[id])
    decreases |order|
  {
    if order != [] {
      var ms := ReconcileMoves(db, db.commands[order[0]], at, staleAfter, now);
      var next := SweepOne(db, order[0], at, staleAfter, now).0;
      assert db.log <= next.log;
      assert forall k :: k in order[1..] ==> k in order;
      SweepSkips(next, order[1..], at, staleAfter, now, id);
    }
  }

  lemma StepGrowsLog(db: Db, s: Step)
    requires Enabled(db, s)
    ensures db.log <= Next(db, s).0.log
  {
    if s.Reconcile? {
      SweepGrowsLog(db, s.order, s.at, s.staleAfter, s.now);
    }
  }

  lemma {:induction false} SweepGrowsLog(db: Db, order: seq<CommandId>, at: Time, staleAfter: Time, now: Time)
    requires forall k :: k in order ==> k in db.commands
    ensures db.log <= Sweep(db, order, at, staleAfter, now).0.log
    decreases |order|
  {
    if order != [] {
      var next := Settle(db, order[0], ReconcileMoves(db, db.commands[order[0]], at, staleAfter, now)).0;
      assert forall k :: k in order[1..] ==> k in order;
      SweepGrowsLog(next, order[1..], at, staleAfter, now);
    }
  }

  /** A terminal row has no legal move, so a transaction on it changes nothing. */
  lemma TransactionLeavesTerminalRow(db: Db, s: Step, id: CommandId)
    requires Inv(db) && SingleRow(s) && Target(s) == Some(id) && id in db.commands && Terminal(db.commands[id].state)
    requires Enabled(db, s) && RowMoves(db, db.commands[id], s).Ok?
    ensures RowMoves(db, db.commands[id], s).value == []
  {
    hide Starts, RowMoves;
    assert GoodRow(db, id);
    RowMovesAreLegal(db, db.commands[id], s);
  }

  lemma StepLeavesTerminalRow(db: Db, s: Step, id: CommandId)
    requires Inv(db) && Enabled(db, s) && id in db.commands && Terminal(db.commands[id].state)
    ensures id in Next(db, s).0.commands ==> Next(db, s).0.commands[id] == db.commands[id]
  {
    hide Inv, RowMoves, SweepOne;
    if s.Reconcile? {
      SweepSkips(db, s.order, s.at, s.staleAfter, s.now, id);
    } else if SingleRow(s) && Target(s) == Some(id) && RowMoves(db, db.commands[id], s).Ok? {
      TransactionLeavesTerminalRow(db, s, id);
    }
  }

  lemma StepKeepsTerminal(db: Db, s: Step, id: CommandId, c: Command)
    requires Inv(db) && Enabled(db, s) && Terminal(c.state)
    requires SettledAs(db, id, c)
    ensures SettledAs(Next(db, s).0, id, c)
  {
    var next := Next(db, s).0;
    StepGrowsLog(db, s);
    if id in db.commands {
      assert GoodRow(db, id);
      LastEventIsInLog(db.log, id);
      StepLeavesTerminalRow(db, s, id);
    }
    var k :| 0 <= k < |db.log| && db.log[k].id == id;
    assert next.log[k].id == id;
    if id !in db.commands && id in next.commands {
      SpentIdStaysOut(db, s, id);
    }
  }

  lemma SpentIdStaysOut(db: Db, s: Step, id: CommandId)
    requires Enabled(db, s) && id !in db.commands
    requires exists k :: 0 <= k < |db.log| && db.log[k].id == id
    ensures id !in Next(db, s).0.commands
  {
    if s.Reconcile? {
      SweepSkips(db, s.order, s.at, s.staleAfter, s.now, id);
    }
  }

  /** Completed, failed and cancelled rows never change again, whatever happens next. */
  lemma {:induction false} TerminalForever(db: Db, steps: seq<Step>, id: CommandId)
    requires Inv(db) && id in db.commands && Terminal(db.commands[id].state)
    ensures id in Run(db, steps).commands ==> Run(db, steps).commands[id] == db.commands[id]
  {
    TerminalForeverFrom(db, steps, id, db.commands[id]);
  }

  lemma {:induction false} TerminalForeverFrom(db: Db, steps: seq<Step>, id: CommandId, c: Command)
    requires Inv(db) && Terminal(c.state) && SettledAs(db, id, c)
    ensures SettledAs(Run(db, steps), id, c)
    decreases |steps|
  {
    if steps != [] {
      if Enabled(db, steps[0]) {
        StepKeepsInv(db, steps[0]);
        StepKeepsTerminal(db, steps[0], id, c);
        TerminalForeverFrom(Next(db, steps[0]).0, steps[1..], id, c);
      } else {
        TerminalForeverFrom(db, steps[1..], id, c);
      }
    }
  }

  // ----- unknown outcomes need evidence -----------------------------------------------------

  /** The step is an acknowledgement by the command's own recipient, or a master's explicit verdict. */
  predicate Evidence(db: Db, s: Step, c: Command) {
    match s
    case Acknowledge(id, agent, session, _, _) =>
      id == c.id && session == c.session && agent == c.recipient && SessionRunning(db, session)
    case RuntimeAck(id, session, _, _, _) => id == c.id && session == c.session
    case Resolve(id, agent, session, _, why, _) =>
      id == c.id && agent == MASTER && SessionRunning(db, session) && db.sessions[session].agent == MASTER && !Blank(why)
    case _ => false
  }

  lemma UnknownRowNeedsEvidence(db: Db, c: Command, s: Step)
    requires SingleRow(s) && !s.Reserve? && Target(s) == Some(c.id) && c.state == OutcomeUnknown && !(s.Resolve? && Blank(s.why))
    requires RowMoves(db, c, s).Ok? && RowMoves(db, c, s).value != []
    ensures Evidence(db, s, c)
  {
    hide Transition;
  }

  /** Apart from sweeps, a step changes only the row it works on. */
  lemma OtherRowsStay(db: Db, s: Step, id: CommandId)
    requires Enabled(db, s) && id in db.commands && !s.Reconcile? && (SingleRow(s) ==> Target(s) != Some(id))
    ensures id in Next(db, s).0.commands ==> Next(db, s).0.commands[id] == db.commands[id]
  {
    hide RowMoves;
  }

  /** Only evidence changes a command whose outcome is unknown. */
  lemma UnknownNeedsEvidence(db: Db, s: Step, id: CommandId)
    requires Inv(db) && Enabled(db, s)
    requires id in db.commands && db.commands[id].state == OutcomeUnknown
    ensures var next := Next(db, s).0;
            id in next.commands && next.commands[id] != db.commands[id] ==> Evidence(db, s, db.commands[id])
  {
    hide RowInv, RowMoves, Evidence, Sweep, EnqueueStep, DropRunRow;
    assert GoodRow(db, id);
    if s.Reconcile? {
      SweepSkips(db, s.order, s.at, s.staleAfter, s.now, id);
    } else if !SingleRow(s) || Target(s) != Some(id) {
      OtherRowsStay(db, s, id);
    } else if !s.Reserve? && !(s.Resolve? && Blank(s.why)) {
      if RowMoves(db, db.commands[id], s).Ok? && RowMoves(db, db.commands[id], s).value != [] {
        UnknownRowNeedsEvidence(db, db.commands[id], s);
      }
    }
  }
}
