/**
 * Dispatchers and the transport (CommandDispatcher.tick in
 * lib/commandDelivery.ts).  Any number of dispatchers run at once; between two
 * transactions each is in one of a few places, and a crash forgets it there.
 */
module CommandDispatch {
  import opened Commands
  import opened CommandInvariants

  /** Where a dispatcher stands with the command it handles. */
  datatype Worker =
    | Holding(id: CommandId)   // reserved, nothing sent
    | MaySend(id: CommandId)   // the send start is committed, the write comes next
    | Wrote(id: CommandId)     // the write returned
    | Failing(id: CommandId)   // something threw; the failure is reported next

  /** The database, the dispatchers at work, and every write made to the transport. */
  datatype System = System(db: Db, workers: multiset<Worker>, wire: seq<CommandId>)

  const Idle := System(EmptyDb, multiset{}, [])

  datatype Action =
    | Other(s: Step)                                  // anyone's transaction
    | Take(s: Step)                                   // a dispatcher reserves
    | PutBack(id: CommandId, s: Step)                 // recipient busy, or not alive
    | Begin(id: CommandId, now: Time)
    | Write(id: CommandId, returned: bool)
    | Confirm(id: CommandId, now: Time)
    | Report(id: CommandId, why: string, now: Time)
    | Crash(w: Worker)

  predicate Possible(sys: System, a: Action) {
    match a
    case Other(s) => Enabled(sys.db, s)
    case Take(s) => s.Reserve? && Enabled(sys.db, s)
    case PutBack(id, s) => Holding(id) in sys.workers && (s.Defer? || s.FailTransport?) && s.id == id
    case Begin(id, _) => Holding(id) in sys.workers
    case Write(id, _) => MaySend(id) in sys.workers
    case Confirm(id, _) => Wrote(id) in sys.workers
    case Report(id, _, _) => Failing(id) in sys.workers
    case Crash(w) => w in sys.workers
  }

  function MoveWorker(ws: multiset<Worker>, from: Worker, to: Worker): multiset<Worker> {
    ws - multiset{from} + multiset{to}
  }

  function Act(sys: System, a: Action): System
    requires Possible(sys, a)
  {
    match a
    case Other(s) => sys.(db := Next(sys.db, s).0)
    case Take(s) =>
      var (db, reply) := Next(sys.db, s);
      if reply.Row? && reply.row.state == Dispatching
      then sys.(db := db, workers := sys.workers + multiset{Holding(s.choice.value)})
      else sys.(db := db)
    case PutBack(id, s) =>
      sys.(db := Next(sys.db, s).0, workers := sys.workers - multiset{Holding(id)})
    case Begin(id, now) =>
      var (db, reply) := Next(sys.db, MarkSendStarted(id, now));
      sys.(db := db, workers := MoveWorker(sys.workers, Holding(id), if reply.Row? then MaySend(id) else Failing(id)))
    case Write(id, returned) =>
      sys.(wire := sys.wire + [id],
           workers := MoveWorker(sys.workers, MaySend(id), if returned then Wrote(id) else Failing(id)))
    case Confirm(id, now) =>
      sys.(db := Next(sys.db, MarkSent(id, now)).0, workers := sys.workers - multiset{Wrote(id)})
    case Report(id, why, now) =>
      sys.(db := Next(sys.db, FailTransport(id, why, now)).0, workers := sys.workers - multiset{Failing(id)})
    case Crash(w) => sys.(workers := sys.workers - multiset{w})
  }

  function Behave(sys: System, acts: seq<Action>): System
    decreases |acts|
  {
    if acts == [] then sys
    else if Possible(sys, acts[0]) then Behave(Act(sys, acts[0]), acts[1..])
    else Behave(sys, acts[1..])
  }

  /** Writes of command `id` that reached the transport. */
  function Writes(wire: seq<CommandId>, id: CommandId): nat {
    multiset(wire)[id]
  }

  /** Every write, made or still owed, is covered by a committed send start. */
  ghost predicate Covered(sys: System) {
    forall id :: Writes(sys.wire, id) + sys.workers[MaySend(id)] <= Starts(sys.db.log, id)
  }

  lemma {:induction false} StartsGrow(log: seq<Event>, more: seq<Event>, id: CommandId)
    requires log <= more
    ensures Starts(log, id) <= Starts(more, id)
    decreases |more|
  {
    if |log| < |more| {
      StartsGrow(log, more[..|more| - 1], id);
    } else {
      assert log == more;
    }
  }

  lemma StepKeepsCover(sys: System, s: Step)
    requires Enabled(sys.db, s)
    ensures forall id :: Starts(sys.db.log, id) <= Starts(Next(sys.db, s).0.log, id)
  {
    StepGrowsLog(sys.db, s);
    forall id ensures Starts(sys.db.log, id) <= Starts(Next(sys.db, s).0.log, id) {
      StartsGrow(sys.db.log, Next(sys.db, s).0.log, id);
    }
  }

  lemma SendStartIsCounted(db: Db, id: CommandId, now: Time)
    requires Inv(db) && Next(db, MarkSendStarted(id, now)).1.Row?
    ensures Starts(Next(db, MarkSendStarted(id, now)).0.log, id) == Starts(db.log, id) + 1
  {
    assert GoodRow(db, id);
    var ms := SendStartedMoves(db, db.commands[id], now).value;
    AppendMoves(db.log, ms, id, id);
    assert ms[..0] == [];
    assert StartedBy(ms) == 1;
  }

  /** A transaction that gives nobody a new right to send. */
  lemma TransactionKeepsCover(sys: System, s: Step, workers: multiset<Worker>)
    requires Inv(sys.db) && Covered(sys) && Enabled(sys.db, s)
    requires forall id :: workers[MaySend(id)] <= sys.workers[MaySend(id)]
    ensures Inv(Next(sys.db, s).0) && Covered(System(Next(sys.db, s).0, workers, sys.wire))
  {
    hide Inv, Next, Starts, Enabled;
    StepKeepsInv(sys.db, s);
    StepKeepsCover(sys, s);
  }

  lemma BeginKeepsCover(sys: System, id: CommandId, now: Time)
    requires Inv(sys.db) && Covered(sys) && Possible(sys, Begin(id, now))
    ensures Inv(Act(sys, Begin(id, now)).db) && Covered(Act(sys, Begin(id, now)))
  {
    hide Inv, Next, Starts;
    var s := MarkSendStarted(id, now);
    StepKeepsInv(sys.db, s);
    StepKeepsCover(sys, s);
    if Next(sys.db, s).1.Row? { SendStartIsCounted(sys.db, id, now); }
  }

  lemma WriteKeepsCover(sys: System, id: CommandId, returned: bool)
    requires Covered(sys) && Possible(sys, Write(id, returned))
    ensures Covered(Act(sys, Write(id, returned)))
  {
    hide Starts;
    assert multiset(sys.wire + [id]) == multiset(sys.wire) + multiset{id};
  }

  lemma ActionKeepsCover(sys: System, a: Action)
    requires Inv(sys.db) && Covered(sys) && Possible(sys, a)
    ensures Inv(Act(sys, a).db) && Covered(Act(sys, a))
  {
    hide Inv, Next, Starts, Covered;
    match a
    case Other(s) => TransactionKeepsCover(sys, s, sys.workers);
    case Take(s) => TransactionKeepsCover(sys, s, Act(sys, a).workers);
    case PutBack(_, s) => TransactionKeepsCover(sys, s, Act(sys, a).workers);
    case Begin(id, now) => BeginKeepsCover(sys, id, now);
    case Write(id, returned) => WriteKeepsCover(sys, id, returned);
    case Confirm(id, now) => TransactionKeepsCover(sys, MarkSent(id, now), Act(sys, a).workers);
    case Report(id, why, now) => TransactionKeepsCover(sys, FailTransport(id, why, now), Act(sys, a).workers);
    case Crash(w) => CrashKeepsCover(sys, w);
  }

  lemma CrashKeepsCover(sys: System, w: Worker)
    requires Covered(sys) && Possible(sys, Crash(w))
    ensures Covered(Act(sys, Crash(w)))
  {
    hide Starts;
  }

  lemma {:induction false} BehaviourKeepsCover(sys: System, acts: seq<Action>)
    requires Inv(sys.db) && Covered(sys)
    ensures Inv(Behave(sys, acts).db) && Covered(Behave(sys, acts))
    decreases |acts|
  {
    if acts != [] {
      if Possible(sys, acts[0]) {
        ActionKeepsCover(sys, acts[0]);
        BehaviourKeepsCover(Act(sys, acts[0]), acts[1..]);
      } else {
        BehaviourKeepsCover(sys, acts[1..]);
      }
    }
  }

  /**
   * Over any behaviour of any number of dispatchers, with crashes anywhere: a
   * side-effecting command reaches the transport at most once, and no command
   * reaches it more often than its attempt limit allows.
   */
  lemma AtMostOnceOnTheWire(acts: seq<Action>, id: CommandId)
    requires id in Behave(Idle, acts).db.commands
    ensures var sys := Behave(Idle, acts);
            var c := sys.db.commands[id];
            && (c.sideEffecting ==> Writes(sys.wire, id) <= 1)
            && Writes(sys.wire, id) <= c.attempts <= c.maxAttempts
            && (c.sideEffecting && Unsent(c) ==> Writes(sys.wire, id) == 0)
  {
    BehaviourKeepsCover(Idle, acts);
    var sys := Behave(Idle, acts);
    assert GoodRow(sys.db, id);
    assert Writes(sys.wire, id) + sys.workers[MaySend(id)] <= Starts(sys.db.log, id);
  }
}
