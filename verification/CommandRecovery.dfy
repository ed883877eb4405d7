/** What one recovery sweep guarantees (reconcileCommands in lib/commandDelivery.ts). */
module CommandRecovery {
  import opened Commands
  import opened CommandInvariants

  /** In flight although its run ended, its recipient is gone, its deadline passed or its dispatch stalled. */
  predicate NeedsRecovery(db: Db, c: Command, at: Time, staleAfter: Time) {
    InFlight(c.state) && (TimedOut(c, at) || Stalled(c, at, staleAfter) || Exited(db, c))
  }

  /** The row after its own recovery decision. */
  function Recovered(db: Db, c: Command, at: Time, staleAfter: Time, now: Time): Command {
    var ms := ReconcileMoves(db, c, at, staleAfter, now);
    if ms == [] then c else ms[|ms| - 1].row
  }

  lemma RecoveryReadsOnlyRunsAndSessions(db: Db, other: Db, c: Command, at: Time, staleAfter: Time, now: Time)
    requires other.runs == db.runs && other.sessions == db.sessions
    ensures ReconcileMoves(other, c, at, staleAfter, now) == ReconcileMoves(db, c, at, staleAfter, now)
  {
  }

  lemma SweepOneFrame(db: Db, id: CommandId, at: Time, staleAfter: Time, now: Time)
    requires id in db.commands && db.commands[id].run in db.runs
    ensures var next := SweepOne(db, id, at, staleAfter, now).0;
            && next.runs == db.runs && next.sessions == db.sessions
            && next.commands[id] == Recovered(db, db.commands[id], at, staleAfter, now)
            && forall k :: k in db.commands && k != id ==> next.commands[k] == db.commands[k]
  {
  }

  /** The sweep decides each selected row on its own, whatever the order of the selection. */
  lemma {:induction false} SweepIsPointwise(db: Db, order: seq<CommandId>, at: Time, staleAfter: Time, now: Time, id: CommandId)
    requires forall i, j :: 0 <= i < j < |order| ==> order[i] != order[j]
    requires RunsPresent(db, order)
    ensures var final := Sweep(db, order, at, staleAfter, now).0;
            && final.runs == db.runs && final.sessions == db.sessions && final.commands.Keys == db.commands.Keys
            && (id in order ==> final.commands[id] == Recovered(db, db.commands[id], at, staleAfter, now))
            && (id in db.commands && id !in order ==> final.commands[id] == db.commands[id])
    decreases |order|
  {
    if order != [] {
      var first, rest := order[0], order[1..];
      assert first in order;
      SweepOneFrame(db, first, at, staleAfter, now);
      var next := SweepOne(db, first, at, staleAfter, now).0;
      forall k | k in rest ensures k in next.commands && next.commands[k] == db.commands[k] {
        assert k in order && k != first;
      }
      SweepIsPointwise(next, rest, at, staleAfter, now, id);
      assert id in order <==> id == first || id in rest;
      if id in rest {
        RecoveryReadsOnlyRunsAndSessions(db, next, db.commands[id], at, staleAfter, now);
      }
    }
  }

  lemma RecoveredRowIsClean(db: Db, c: Command, at: Time, staleAfter: Time, now: Time)
    requires InFlight(c.state)
    ensures !NeedsRecovery(db, Recovered(db, c, at, staleAfter, now), at, staleAfter)
    ensures c.sideEffecting && !Unsent(c) ==>
              Recovered(db, c, at, staleAfter, now) == c || Recovered(db, c, at, staleAfter, now).state == OutcomeUnknown
  {
  }

  lemma SelectedRunsPresent(db: Db, order: seq<CommandId>)
    requires Inv(db) && SweepOrder(db, order)
    ensures RunsPresent(db, order)
  {
    forall id | id in order ensures db.commands[id].run in db.runs {
      assert GoodRow(db, id);
    }
  }

  /**
   * After a sweep no in-flight command needs recovery, no row of the table is
   * lost, and no side-effecting command whose send started is queued again.
   */
  lemma SweepRecoversEverything(db: Db, order: seq<CommandId>, at: Time, staleAfter: Time, now: Time, id: CommandId)
    requires Inv(db) && SweepOrder(db, order) && id in db.commands
    ensures var final := Sweep(db, order, at, staleAfter, now).0;
            && id in final.commands
            && !NeedsRecovery(final, final.commands[id], at, staleAfter)
            && (NeedsRecovery(db, db.commands[id], at, staleAfter) || final.commands[id] == db.commands[id])
            && (db.commands[id].sideEffecting && Starts(db.log, id) >= 1 ==> !Unsent(final.commands[id]))
  {
    hide Sweep, RecoveryReason;
    SelectedRunsPresent(db, order);
    SweepIsPointwise(db, order, at, staleAfter, now, id);
    var c := db.commands[id];
    assert GoodRow(db, id);
    if InFlight(c.state) {
      RecoveredRowIsClean(db, c, at, staleAfter, now);
    }
  }

  lemma {:induction false} SweepOfCleanTable(db: Db, order: seq<CommandId>, at: Time, staleAfter: Time, now: Time)
    requires forall id :: id in order ==> id in db.commands && !NeedsRecovery(db, db.commands[id], at, staleAfter)
    requires forall id :: id in order ==> InFlight(db.commands[id].state)
    ensures Sweep(db, order, at, staleAfter, now) == (db, [])
    decreases |order|
  {
    if order != [] {
      assert order[0] in order;
      assert SweepOne(db, order[0], at, staleAfter, now) == (db, []);
      assert forall k :: k in order[1..] ==> k in order;
      SweepOfCleanTable(db, order[1..], at, staleAfter, now);
      var nothing: seq<Command> := [];
      assert nothing + nothing == nothing;
    }
  }

  /** A second sweep at the same instant changes no row and appends no event. */
  lemma SecondSweepChangesNothing(db: Db, order: seq<CommandId>, again: seq<CommandId>, at: Time, staleAfter: Time, now: Time, later: Time)
    requires Inv(db) && SweepOrder(db, order)
    requires SweepOrder(Sweep(db, order, at, staleAfter, now).0, again)
    ensures var final := Sweep(db, order, at, staleAfter, now).0;
            Sweep(final, again, at, staleAfter, later) == (final, [])
  {
    var final := Sweep(db, order, at, staleAfter, now).0;
    SelectedRunsPresent(db, order);
    forall id | id in again ensures !NeedsRecovery(final, final.commands[id], at, staleAfter) {
      SweepIsPointwise(db, order, at, staleAfter, now, id);
      SweepRecoversEverything(db, order, at, staleAfter, now, id);
    }
    SweepOfCleanTable(final, again, at, staleAfter, later);
  }
}
