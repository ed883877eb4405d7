/**
 * The command transactions as the source runs them: in place on the tables of
 * one database object.  Each method is proved to be exactly one step of the
 * command model, and a dispatcher tick to be a run of such steps.
 */
module CommandStore {
  import opened Prelude
  import opened Commands
  import opened CommandInvariants
  import opened CommandDispatch

  lemma SweepFirst(db: Db, id: CommandId, rest: seq<CommandId>, at: Time, staleAfter: Time, now: Time)
    requires id in db.commands && forall k :: k in rest ==> k in db.commands
    ensures var (next, first) := SweepOne(db, id, at, staleAfter, now);
            var (final, later) := Sweep(next, rest, at, staleAfter, now);
            Sweep(db, [id] + rest, at, staleAfter, now) == (final, first + later)
  {
    hide SweepOne;
    assert ([id] + rest)[1..] == rest;
  }

  lemma {:induction false} SweepExtends(db: Db, order: seq<CommandId>, id: CommandId, at: Time, staleAfter: Time, now: Time)
    requires id in db.commands && forall k :: k in order ==> k in db.commands
    ensures var (final, changed) := Sweep(db, order, at, staleAfter, now);
            var (last, more) := SweepOne(final, id, at, staleAfter, now);
            Sweep(db, order + [id], at, staleAfter, now) == (last, changed + more)
    decreases |order|
  {
    hide SweepOne, Sweep;
    if order == [] {
      assert order + [id] == [id] + [];
      SweepNothing(db, at, staleAfter, now);
      SweepFirst(db, id, [], at, staleAfter, now);
      var (last, more) := SweepOne(db, id, at, staleAfter, now);
      SweepNothing(last, at, staleAfter, now);
      assert [] + more == more + [] == more;
    } else {
      var head, rest := order[0], order[1..];
      assert order == [head] + rest && order + [id] == [head] + (rest + [id]);
      var (next, first) := SweepOne(db, head, at, staleAfter, now);
      SweepExtends(next, rest, id, at, staleAfter, now);
      SweepFirst(db, head, rest, at, staleAfter, now);
      SweepFirst(db, head, rest + [id], at, staleAfter, now);
      var (final, changed) := Sweep(next, rest, at, staleAfter, now);
      var (last, more) := SweepOne(final, id, at, staleAfter, now);
      assert first + (changed + more) == (first + changed) + more;
    }
  }

  lemma ReconcileStepIs(db: Db, order: seq<CommandId>, at: Time, staleAfter: Time, now: Time)
    requires SweepOrder(db, order)
    ensures var step := Reconcile(at, staleAfter, order, now);
            && Enabled(db, step) && (forall id :: id in order ==> id in db.commands)
            && Next(db, step) == if !RunsPresent(db, order) then (db, Refused(NotFound))
                                 else (Sweep(db, order, at, staleAfter, now).0, Rows(Sweep(db, order, at, staleAfter, now).1))
  {
    hide Sweep;
  }

  lemma MissingRun(db: Db, order: seq<CommandId>, i: nat)
    requires i < |order| && (forall id :: id in order ==> id in db.commands) && db.commands[order[i]].run !in db.runs
    ensures !RunsPresent(db, order)
  {
    assert order[i] in order;
  }

  lemma AllRunsPresent(db: Db, order: seq<CommandId>)
    requires forall i :: 0 <= i < |order| ==> order[i] in db.commands && db.commands[order[i]].run in db.runs
    ensures RunsPresent(db, order)
  {
  }

  lemma SweepNothing(db: Db, at: Time, staleAfter: Time, now: Time)
    ensures Sweep(db, [], at, staleAfter, now) == (db, [])
  {
  }

  lemma {:induction false} RunAppends(db: Db, a: seq<Step>, b: seq<Step>)
    ensures Run(db, a + b) == Run(Run(db, a), b)
    decreases |a|
  {
    if a == [] {
      assert a + b == b;
    } else {
      assert (a + b)[0] == a[0] && (a + b)[1..] == a[1..] + b;
      RunAppends(if Enabled(db, a[0]) then Next(db, a[0]).0 else db, a[1..], b);
    }
  }

  lemma RunOne(db: Db, trace: seq<Step>, s: Step)
    requires Enabled(Run(db, trace), s)
    ensures Run(db, trace + [s]) == Next(Run(db, trace), s).0
  {
    RunAppends(db, trace, [s]);
    assert [s][1..] == [];
  }

  lemma RuntimeAckMovesSomething(c: Command, a: Ack, reason: Option<string>, now: Time)
    requires !Unsent(c) && StateRank(c.state) < AckRank(a)
    ensures RuntimeAckMoves(c, a, reason, now).Ok? ==> RuntimeAckMoves(c, a, reason, now).value != []
  {
  }

  /** What the transport does with one reserved command. */
  datatype Turn = Turn(at: Time, now: Time, busy: bool, alive: bool, sendReturns: bool)

  class CommandDb {
    var commands: map<CommandId, Command>
    var nextRowid: nat
    var runs: map<RunId, RunRow>
    var sessions: map<SessionId, SessionRow>
    var log: seq<Event>

    ghost function Snapshot(): Db
      reads this
    {
      Db(commands, nextRowid, runs, sessions, log)
    }

    constructor ()
      ensures Snapshot() == EmptyDb
    {
      commands, nextRowid, runs, sessions, log := map[], 0, map[], map[], [];
    }

    /** One UPDATE of row `id` and the event of its new version. */
    method Put(id: CommandId, m: Move)
      modifies this`commands, this`log
      ensures commands == old(commands)[id := m.row]
      ensures log == old(log) + MoveEvents([m])
    {
      assert MoveEvents([m]) == [MoveEvent(m)];
      commands := commands[id := m.row];
      log := log + [MoveEvent(m)];
    }

    /** The row that already holds the request's idempotency key, if any. */
    method FindKey(q: Request) returns (holder: Option<CommandId>)
      ensures KeyLookup(Snapshot(), q, holder)
    {
      var todo := commands.Keys;
      while todo != {}
        invariant todo <= commands.Keys
        invariant forall id :: id in commands && id !in todo ==> !HoldsKey(Snapshot(), id, q.run, q.key)
        decreases |todo|
      {
        var id :| id in todo;
        if commands[id].run == q.run && commands[id].key == q.key {
          return Some(id);
        }
        todo := todo - {id};
      }
      holder := None;
    }

    method EnqueueCommand(p: Principal, q: Request, newId: CommandId, now: Time) returns (reply: Reply, ghost step: Step)
      requires FreshId(Snapshot(), newId)
      modifies this`commands, this`nextRowid, this`log
      ensures step.Enqueue? && step.p == p && step.q == q && step.newId == newId && step.now == now
      ensures Enabled(old(Snapshot()), step) && (Snapshot(), reply) == Next(old(Snapshot()), step)
    {
      var holder := FindKey(q);
      step := Enqueue(p, q, holder, newId, now);
      var db := Db(commands, nextRowid, runs, sessions, log);
      var refusal := EnqueueRefusal(db, p, q);
      if refusal.Some? {
        return Refused(refusal.value), step;
      }
      if holder.Some? {
        var c := commands[holder.value];
        if !SameRequest(c, p, q) {
          return Refused(Conflict), step;
        }
        return Row(c), step;
      }
      var c := NewRow(db, p, q, newId, now);
      nextRowid := nextRowid + 1;
      Put(newId, Move(c, EvQueued));
      assert MoveEvents([Move(c, EvQueued)]) == [Event(EvQueued, newId, Queued, 0)];
      reply := Row(c);
    }

    method FindOldestDue(at: Time) returns (best: Option<CommandId>)
      ensures OldestDue(Snapshot(), at, best)
    {
      best := None;
      var todo := commands.Keys;
      while todo != {}
        invariant todo <= commands.Keys
        invariant best.Some? ==> best.value in commands && Due(commands[best.value], at)
        invariant forall id :: id in commands && id !in todo && Due(commands[id], at) ==>
                    best.Some? && Older(commands[best.value], commands[id])
        decreases |todo|
      {
        var id :| id in todo;
        if Due(commands[id], at) && (best.None? || !Older(commands[best.value], commands[id])) {
          best := Some(id);
        }
        todo := todo - {id};
      }
    }

    method ReserveCommand(at: Time, now: Time) returns (reply: Reply, ghost step: Step)
      modifies this`commands, this`log
      ensures step.Reserve? && step.at == at && step.now == now
      ensures Enabled(old(Snapshot()), step) && (Snapshot(), reply) == Next(old(Snapshot()), step)
    {
      var choice := FindOldestDue(at);
      step := Reserve(at, choice, now);
      if choice.None? {
        return Nothing, step;
      }
      var c := commands[choice.value];
      if c.run !in runs {
        return Refused(NotFound), step;
      }
      if c.deadlineAt.Some? && c.deadlineAt.value <= at {
        var m := Transition(c, Failed, EvFailed, "deadline exceeded", now);
        Put(choice.value, m);
        return Row(m.row), step;
      }
      var updated := c.(state := Dispatching, attempts := c.attempts + 1, dispatchStartedAt := Some(at), sendStartedAt := None);
      Put(choice.value, Move(updated, EvDispatching));
      reply := Row(updated);
    }

    method StartSend(id: CommandId, now: Time) returns (reply: Reply)
      modifies this`commands, this`log
      ensures (Snapshot(), reply) == Next(old(Snapshot()), MarkSendStarted(id, now))
    {
      if id !in commands {
        return Refused(NotFound);
      }
      var c := commands[id];
      if c.state != Dispatching || c.sendStartedAt.Some? {
        return Refused(Conflict);
      }
      if c.run !in runs || !runs[c.run].active {
        return Refused(Conflict);
      }
      if c.session !in sessions || !sessions[c.session].running {
        return Refused(Forbidden);
      }
      var recipient := sessions[c.session];
      if recipient.run != Some(c.run) || recipient.agent != c.recipient {
        return Refused(Conflict);
      }
      var updated := c.(sendStartedAt := Some(now));
      Put(id, Move(updated, EvSendStarted));
      reply := Row(updated);
    }

    method FinishSend(id: CommandId, now: Time) returns (reply: Reply)
      modifies this`commands, this`log
      ensures (Snapshot(), reply) == Next(old(Snapshot()), MarkSent(id, now))
    {
      if id !in commands {
        return Refused(NotFound);
      }
      var c := commands[id];
      if c.state != Dispatching || c.sendStartedAt.None? {
        return Row(c);
      }
      if c.run !in runs {
        return Refused(NotFound);
      }
      var updated := c.(state := Sent, deliveredAt := Some(now));
      Put(id, Move(updated, EvSent));
      reply := Row(updated);
    }

    /** Acknowledge through the intermediate states, one write per state. */
    method AckForward(id: CommandId, a: Ack, reason: Option<string>, now: Time) returns (c: Command)
      requires id in commands && !Unsent(commands[id]) && StateRank(commands[id].state) < AckRank(a)
      modifies this`commands, this`log
      ensures var r := RuntimeAckMoves(old(commands)[id], a, reason, now);
              && r.Ok? && r.value != [] && c == r.value[|r.value| - 1].row
              && commands == old(commands)[id := c] && log == old(log) + MoveEvents(r.value)
    {
      c := commands[id];
      ghost var moves: seq<Move> := [];
      if c.state != Accepted && c.state != Running {
        AckIsAnEdge(c, AckAccepted, None, now);
        var m := ApplyAck(c, AckAccepted, None, now).value;
        Put(id, m);
        c, moves := m.row, [m];
      }
      if a != AckAccepted {
        var why := if a == AckRunning then None else reason;
        AckIsAnEdge(c, a, why, now);
        var m := ApplyAck(c, a, why, now).value;
        Put(id, m);
        assert MoveEvents(moves) + MoveEvents([m]) == MoveEvents(moves + [m]);
        c, moves := m.row, moves + [m];
      }
      assert RuntimeAckMoves(old(commands)[id], a, reason, now) == Ok(moves);
    }

    method AcknowledgeFromRuntime(id: CommandId, session: SessionId, a: Ack, reason: Option<string>, now: Time) returns (reply: Reply)
      modifies this`commands, this`log
      ensures (Snapshot(), reply) == Next(old(Snapshot()), RuntimeAck(id, session, a, reason, now))
    {
      if id !in commands {
        return Refused(NotFound);
      }
      var c := commands[id];
      if c.session != session {
        return Refused(Forbidden);
      }
      if Unsent(c) {
        return Refused(Conflict);
      }
      RuntimeAckIsAChain(c, a, reason, now);
      if StateRank(c.state) >= AckRank(a) {
        return Row(c);
      }
      RuntimeAckMovesSomething(c, a, reason, now);
      if c.run !in runs {
        return Refused(NotFound);
      }
      var d := AckForward(id, a, reason, now);
      reply := Row(d);
    }

    method ReportFailure(id: CommandId, why: string, now: Time) returns (reply: Reply)
      modifies this`commands, this`log
      ensures (Snapshot(), reply) == Next(old(Snapshot()), FailTransport(id, why, now))
    {
      if id !in commands {
        return Refused(NotFound);
      }
      var c := commands[id];
      if c.state != Dispatching {
        return Row(c);
      }
      if c.run !in runs {
        return Refused(NotFound);
      }
      var m: Move;
      if c.sendStartedAt.Some? && c.sideEffecting {
        m := Transition(c, OutcomeUnknown, EvOutcomeUnknown, why, now);
      } else if c.attempts >= c.maxAttempts {
        m := Transition(c, Failed, EvFailed, why, now);
      } else {
        m := Requeue(c, now + TransportBackoff(c.attempts), why);
      }
      Put(id, m);
      reply := Row(m.row);
    }

    method DeferCommand(id: CommandId, why: string, retryAt: Time) returns (reply: Reply)
      modifies this`commands, this`log
      ensures (Snapshot(), reply) == Next(old(Snapshot()), Defer(id, why, retryAt))
    {
      if id !in commands {
        return Refused(NotFound);
      }
      var c := commands[id];
      if c.state != Dispatching || c.sendStartedAt.Some? {
        return Row(c);
      }
      if c.run !in runs {
        return Refused(NotFound);
      }
      var m := Requeue(c.(attempts := c.attempts - 1), retryAt, why);
      Put(id, m);
      reply := Row(m.row);
    }

    /** SELECT the commands in flight. */
    method SelectInFlight() returns (order: seq<CommandId>)
      ensures SweepOrder(Snapshot(), order)
    {
      order := [];
      var todo := commands.Keys;
      while todo != {}
        invariant todo <= commands.Keys
        invariant forall i, j :: 0 <= i < j < |order| ==> order[i] != order[j]
        invariant forall id :: id in order ==> id in commands && id !in todo && InFlight(commands[id].state)
        invariant forall id :: id in commands && id !in todo && InFlight(commands[id].state) ==> id in order
        decreases |todo|
      {
        var id :| id in todo;
        if InFlight(commands[id].state) {
          order := order + [id];
        }
        todo := todo - {id};
      }
    }

    /** The recovery decision for one selected row, written back when it changes. */
    method RecoverRow(id: CommandId, at: Time, staleAfter: Time, now: Time) returns (changed: seq<Command>)
      requires id in commands && commands[id].run in runs
      modifies this`commands, this`log
      ensures (Snapshot(), changed) == SweepOne(old(Snapshot()), id, at, staleAfter, now)
      ensures forall k :: k in commands && k != id ==> commands[k] == old(commands)[k]
    {
      var c := commands[id];
      var db := Db(commands, nextRowid, runs, sessions, log);
      var timedOut, stalled, exited := TimedOut(c, at), Stalled(c, at, staleAfter), Exited(db, c);
      if !timedOut && !stalled && !exited {
        return [];
      }
      var reason := RecoveryReason(db, c, at);
      var m: Move;
      if Unsent(c) {
        if exited || timedOut || c.attempts >= c.maxAttempts {
          m := Transition(c, Failed, EvFailed, reason, now);
        } else {
          m := Requeue(c, at, reason);
        }
      } else if c.sideEffecting {
        m := Transition(c, OutcomeUnknown, EvOutcomeUnknown, reason, now);
      } else if c.state == Dispatching && !exited && !timedOut && c.attempts < c.maxAttempts {
        m := Requeue(c, at, reason);
      } else {
        m := Transition(c, Failed, EvFailed, reason, now);
      }
      Put(id, m);
      changed := [m.row];
    }

    /** One recovery sweep over the selected rows; a missing run row rolls the whole sweep back. */
    method ReconcileCommands(at: Time, staleAfter: Time, now: Time) returns (reply: Reply, ghost step: Step)
      modifies this`commands, this`log
      ensures step.Reconcile? && step.at == at && step.staleAfter == staleAfter && step.now == now
      ensures Enabled(old(Snapshot()), step) && (Snapshot(), reply) == Next(old(Snapshot()), step)
    {
      hide Sweep, SweepOne, Next, Enabled, SweepOrder, RunsPresent;
      var order := SelectInFlight();
      step := Reconcile(at, staleAfter, order, now);
      ReconcileStepIs(Snapshot(), order, at, staleAfter, now);
      var savedCommands, savedLog := commands, log;
      var changed: seq<Command> := [];
      ghost var before := Snapshot();
      SweepNothing(before, at, staleAfter, now);
      assert forall j :: 0 <= j < |order| ==> order[j] in order;
      for i := 0 to |order|
        invariant commands.Keys == savedCommands.Keys
        invariant Sweep(before, order[..i], at, staleAfter, now) == (Snapshot(), changed)
        invariant forall j :: i <= j < |order| ==> commands[order[j]] == savedCommands[order[j]]
        invariant forall j :: 0 <= j < i ==> savedCommands[order[j]].run in runs
      {
        var id := order[i];
        SweepExtends(before, order[..i], id, at, staleAfter, now);
        assert order[..i + 1] == order[..i] + [id];
        if commands[id].run !in runs {
          commands, log := savedCommands, savedLog;
          MissingRun(before, order, i);
          return Refused(NotFound), step;
        }
        var repaired := RecoverRow(id, at, staleAfter, now);
        changed := changed + repaired;
      }
      assert order[..|order|] == order;
      AllRunsPresent(before, order);
      reply := Rows(changed);
    }

    /**
     * One dispatcher tick: recover, then reserve and deliver until nothing is due
     * or the transport script ends (a crash).  Its effect is a run of the model,
     * and every write it made is covered by a send start it committed.
     */
    method Tick(at: Time, now: Time, script: seq<Turn>) returns (sent: seq<CommandId>, ghost trace: seq<Step>)
      requires Inv(Snapshot())
      modifies this`commands, this`log
      ensures Snapshot() == Run(old(Snapshot()), trace)
      ensures Inv(Snapshot())
      ensures forall id :: Writes(sent, id) + Starts(old(log), id) <= Starts(log, id)
    {
      ghost var before := Snapshot();
      sent := [];
      var _, swept := ReconcileCommands(at, 30000, now);
      trace := [swept];
      RunOne(before, [], swept);
      assert [] + [swept] == [swept];
      StepKeepsInv(before, swept);
      StepKeepsCover(System(before, multiset{}, []), swept);
      var i := 0;
      while i < |script|
        invariant 0 <= i <= |script|
        invariant Snapshot() == Run(before, trace) && Inv(Snapshot())
        invariant forall id :: Writes(sent, id) + Starts(before.log, id) <= Starts(log, id)
      {
        var turn := script[i];
        i := i + 1;
        var wrote, done, more := Deliver(turn);
        RunAppends(before, trace, more);
        trace := trace + more;
        assert multiset(sent + wrote) == multiset(sent) + multiset(wrote);
        sent := sent + wrote;
        if done {
          break;
        }
      }
    }

    /** The body of the dispatcher loop for one reserved command. */
    method Deliver(turn: Turn) returns (wrote: seq<CommandId>, done: bool, ghost trace: seq<Step>)
      requires Inv(Snapshot())
      modifies this`commands, this`log
      ensures Snapshot() == Run(old(Snapshot()), trace)
      ensures Inv(Snapshot())
      ensures forall id :: Writes(wrote, id) + Starts(old(log), id) <= Starts(log, id)
    {
      hide Next;
      ghost var before := Snapshot();
      wrote, done := [], false;
      var reply, reserve := ReserveCommand(turn.at, turn.now);
      trace := [reserve];
      Follow(before, before, [], reserve);
      if !reply.Row? {
        done := true;
        return;
      }
      if reply.row.state != Dispatching {
        return;
      }
      var id := reply.row.id;
      ghost var held := Snapshot();
      if turn.busy {
        var _ := DeferCommand(id, "recipient busy", turn.now + 1000);
        Follow(before, held, trace, Defer(id, "recipient busy", turn.now + 1000));
        trace := trace + [Defer(id, "recipient busy", turn.now + 1000)];
        return;
      }
      if !turn.alive {
        var _ := ReportFailure(id, "provider exited before send", turn.now);
        Follow(before, held, trace, FailTransport(id, "provider exited before send", turn.now));
        trace := trace + [FailTransport(id, "provider exited before send", turn.now)];
        return;
      }
      var started := StartSend(id, turn.now);
      Follow(before, held, trace, MarkSendStarted(id, turn.now));
      trace := trace + [MarkSendStarted(id, turn.now)];
      ghost var begun := Snapshot();
      if started.Row? {
        SendStartIsCounted(held, id, turn.now);
        wrote := [id];
        if turn.sendReturns {
          var _ := FinishSend(id, turn.now);
          Follow(before, begun, trace, MarkSent(id, turn.now));
          trace := trace + [MarkSent(id, turn.now)];
          return;
        }
      }
      var _ := ReportFailure(id, "transport operation failed", turn.now);
      Follow(before, begun, trace, FailTransport(id, "transport operation failed", turn.now));
      trace := trace + [FailTransport(id, "transport operation failed", turn.now)];
    }
  }

  /** Extend a trace by one more step. */
  lemma Follow(before: Db, here: Db, trace: seq<Step>, s: Step)
    requires Inv(here) && here == Run(before, trace) && Enabled(here, s)
    ensures Run(before, trace + [s]) == Next(here, s).0 && Inv(Next(here, s).0)
    ensures forall id :: Starts(here.log, id) <= Starts(Next(here, s).0.log, id)
  {
    RunOne(before, trace, s);
    StepKeepsInv(here, s);
    StepKeepsCover(System(here, multiset{}, []), s);
  }
}
