/**
 * Provider frames that arrive late, twice or out of order
 * (acknowledgeFromRuntime in lib/commandDelivery.ts).
 */
module CommandAcks {
  import opened Prelude
  import opened Commands
  import opened CommandInvariants

  /** One provider frame: the state it proves, its reason and its arrival time. */
  datatype Frame = Frame(ack: Ack, reason: Option<string>, now: Time)

  /** The row after one frame; a refused frame changes nothing. */
  function AfterFrame(c: Command, f: Frame): Command {
    var r := RuntimeAckMoves(c, f.ack, f.reason, f.now);
    if r.Err? || r.value == [] then c else r.value[|r.value| - 1].row
  }

  function AfterFrames(c: Command, fs: seq<Frame>): Command
    decreases |fs|
  {
    if fs == [] then c else AfterFrames(AfterFrame(c, fs[0]), fs[1..])
  }

  function MaxRank(fs: seq<Frame>): nat
    decreases |fs|
  {
    if fs == [] then 0 else Max(AckRank(fs[0].ack), MaxRank(fs[1..]))
  }

  /** The first frame that proves an end state. */
  function FirstTerminal(fs: seq<Frame>): Option<Ack>
    decreases |fs|
  {
    if fs == [] then None
    else if AckRank(fs[0].ack) == 3 then Some(fs[0].ack)
    else FirstTerminal(fs[1..])
  }

  lemma FrameEffect(c: Command, f: Frame)
    requires !Unsent(c)
    ensures RuntimeAckMoves(c, f.ack, f.reason, f.now).Ok?
    ensures !Unsent(AfterFrame(c, f)) && SameCommand(c, AfterFrame(c, f))
    ensures StateRank(AfterFrame(c, f).state) == Max(StateRank(c.state), AckRank(f.ack))
    ensures AckRank(f.ack) > StateRank(c.state) ==> AfterFrame(c, f).state == AckState(f.ack)
    ensures AckRank(f.ack) <= StateRank(c.state) ==> AfterFrame(c, f) == c
  {
    hide Starts;
    RuntimeAckIsAChain(c, f.ack, f.reason, f.now);
  }

  /**
   * Any sequence of frames for a command whose send is on record ends at the
   * highest rank seen; the first end state wins and nothing moves it afterwards.
   */
  lemma {:induction false} FramesConverge(c: Command, fs: seq<Frame>)
    requires !Unsent(c)
    ensures var d := AfterFrames(c, fs);
            && !Unsent(d)
            && StateRank(d.state) == Max(StateRank(c.state), MaxRank(fs))
            && (StateRank(c.state) == 3 ==> d == c)
            && (StateRank(c.state) < 3 && FirstTerminal(fs).Some? ==> d.state == AckState(FirstTerminal(fs).value))
    decreases |fs|
  {
    if fs != [] {
      FrameEffect(c, fs[0]);
      FramesConverge(AfterFrame(c, fs[0]), fs[1..]);
    }
  }

  // ----- a jump ahead is a chain of single acknowledgements --------------------------------

  /** The single acknowledgements a frame stands for. */
  function AckPath(c: Command, a: Ack): seq<Ack> {
    if StateRank(c.state) >= AckRank(a) then []
    else (if c.state == Accepted || c.state == Running then [] else [AckAccepted])
         + (if a == AckAccepted then [] else [a])
  }

  /** The row reached by single acknowledgements, each of which must be allowed. */
  function SingleAcks(c: Command, path: seq<Ack>, reason: Option<string>, now: Time): Option<Command>
    decreases |path|
  {
    if path == [] then Some(c)
    else
      var why := if path[0] == AckCompleted || path[0] == AckFailed then reason else None;
      var m := ApplyAck(c, path[0], why, now);
      if m.Err? then None else SingleAcks(m.value.row, path[1..], reason, now)
  }

  lemma JumpAheadIsSingleSteps(c: Command, f: Frame)
    requires !Unsent(c)
    ensures SingleAcks(c, AckPath(c, f.ack), f.reason, f.now) == Some(AfterFrame(c, f))
  {
    var path := AckPath(c, f.ack);
    if |path| == 2 {
      assert path == [AckAccepted, f.ack];
      AckIsAnEdge(c, AckAccepted, None, f.now);
      var mid := ApplyAck(c, AckAccepted, None, f.now).value.row;
      assert path[1..] == [f.ack];
      assert [f.ack][1..] == [];
      assert SingleAcks(c, path, f.reason, f.now) == SingleAcks(mid, [f.ack], f.reason, f.now);
      var why := if f.ack == AckRunning then None else f.reason;
      AckIsAnEdge(mid, f.ack, why, f.now);
      var last := ApplyAck(mid, f.ack, why, f.now).value;
      assert SingleAcks(mid, [f.ack], f.reason, f.now) == SingleAcks(last.row, [], f.reason, f.now);
      assert RuntimeAckMoves(c, f.ack, f.reason, f.now).value == [ApplyAck(c, AckAccepted, None, f.now).value] + [last];
    } else if |path| == 1 {
      assert path[1..] == [];
    }
  }

  // ----- the same on the table ---------------------------------------------------------------

  /** Every step of the list is answered with a row. */
  predicate AllAccepted(db: Db, steps: seq<Step>)
    decreases |steps|
  {
    steps == [] ||
    (Enabled(db, steps[0]) && Next(db, steps[0]).1.Row? && AllAccepted(Next(db, steps[0]).0, steps[1..]))
  }

  function FrameSteps(id: CommandId, session: SessionId, fs: seq<Frame>): (steps: seq<Step>)
    ensures |steps| == |fs|
    decreases |fs|
  {
    if fs == [] then []
    else [FrameStep(id, session, fs[0])] + FrameSteps(id, session, fs[1..])
  }

  function FrameStep(id: CommandId, session: SessionId, f: Frame): Step {
    RuntimeAck(id, session, f.ack, f.reason, f.now)
  }

  lemma OneFrameIsAccepted(db: Db, id: CommandId, f: Frame)
    requires Inv(db) && id in db.commands && !Unsent(db.commands[id])
    ensures var step := FrameStep(id, db.commands[id].session, f);
            && Enabled(db, step) && Next(db, step).1.Row? && Inv(Next(db, step).0)
            && Next(db, step).0.commands == db.commands[id := AfterFrame(db.commands[id], f)]
            && AfterFrame(db.commands[id], f).session == db.commands[id].session && !Unsent(AfterFrame(db.commands[id], f))
  {
    hide Starts;
    assert GoodRow(db, id);
    FrameEffect(db.commands[id], f);
    StepKeepsInv(db, FrameStep(id, db.commands[id].session, f));
  }

  lemma {:induction false} FramesAreAccepted(db: Db, id: CommandId, fs: seq<Frame>)
    requires Inv(db) && id in db.commands && !Unsent(db.commands[id])
    ensures var steps := FrameSteps(id, db.commands[id].session, fs);
            && AllAccepted(db, steps)
            && Run(db, steps).commands == db.commands[id := AfterFrames(db.commands[id], fs)]
    decreases |fs|
  {
    hide Inv, Next, AfterFrame, Unsent;
    var c := db.commands[id];
    var steps := FrameSteps(id, c.session, fs);
    if fs == [] {
      assert db.commands == db.commands[id := c];
    } else {
      OneFrameIsAccepted(db, id, fs[0]);
      var next := Next(db, steps[0]).0;
      assert steps[1..] == FrameSteps(id, c.session, fs[1..]);
      FramesAreAccepted(next, id, fs[1..]);
    }
  }

  /** In every reachable state, a side-effecting command whose send started accepts every frame sequence. */
  lemma StartedCommandsAcceptFrames(steps: seq<Step>, id: CommandId, fs: seq<Frame>)
    requires var db := Run(EmptyDb, steps);
             id in db.commands && db.commands[id].sideEffecting && Starts(db.log, id) >= 1
    ensures var db := Run(EmptyDb, steps);
            AllAccepted(db, FrameSteps(id, db.commands[id].session, fs))
  {
    RunKeepsInv(EmptyDb, steps);
    SendsAreBounded(steps, id);
    FramesAreAccepted(Run(EmptyDb, steps), id, fs);
  }

  /** Exactly when a frame is refused: from a foreign session, or while nothing is on the wire. */
  lemma FrameRefusedExactlyWhen(db: Db, id: CommandId, session: SessionId, f: Frame)
    requires Inv(db) && id in db.commands
    ensures Next(db, RuntimeAck(id, session, f.ack, f.reason, f.now)).1.Refused? <==>
            session != db.commands[id].session || Unsent(db.commands[id])
  {
    assert GoodRow(db, id);
    if !Unsent(db.commands[id]) {
      FrameEffect(db.commands[id], f);
    }
  }

  // ----- repeatable commands: a late frame can be refused ---------------------------------------

  const DemoRequest := Request(1, 2, "k", "ping", Some("{}"), false, 3, None)
  const DemoSteps: seq<Step> := [
    PutRun(1, RunRow(Some("w"), true)), PutSession(2, SessionRow("w", Some(1), true)),
    Enqueue(InProcess, DemoRequest, None, 7, 0), Reserve(0, Some(7), 0), MarkSendStarted(7, 0),
    FailTransport(7, "timed out", 0)]

  /**
   * The acceptance law needs its condition: a repeatable command whose write
   * timed out is queued again, and the provider's late frame for it is refused.
   */
  lemma RepeatableCommandRefusesLateFrame()
    ensures var db := Run(EmptyDb, DemoSteps);
            && 7 in db.commands && Starts(db.log, 7) == 1 && db.commands[7].state == Queued
            && Next(db, RuntimeAck(7, 2, AckAccepted, None, 1)).1 == Refused(Conflict)
  {
    var db := DemoState();
  }

  lemma DemoEnqueue(ready: Db)
    requires ready == Db(map[], 0, map[1 := RunRow(Some("w"), true)], map[2 := SessionRow("w", Some(1), true)], [])
    ensures Enabled(ready, DemoSteps[2]) && Enabled(Next(ready, DemoSteps[2]).0, DemoSteps[3])
  {
    var c := NewRow(ready, InProcess, DemoRequest, 7, 0);
    assert Next(ready, DemoSteps[2]).0.commands == map[7 := c];
  }

  lemma DemoState() returns (again: Db)
    ensures Run(EmptyDb, DemoSteps) == again
    ensures 7 in again.commands && Starts(again.log, 7) == 1 && again.commands[7].state == Queued
    ensures again.commands[7].session == 2
  {
    var ready := Db(map[], 0, map[1 := RunRow(Some("w"), true)], map[2 := SessionRow("w", Some(1), true)], []);
    DemoEnqueue(ready);
    var queued := Next(ready, DemoSteps[2]).0;
    var taken := Next(queued, DemoSteps[3]).0;
    var started := Next(taken, DemoSteps[4]).0;
    again := Next(started, DemoSteps[5]).0;
    DemoOutcome(ready, queued, taken, started, again);
    DemoRun(ready, queued, taken, started, again);
  }

  /** The demonstration step by step; `Starts` counts only the one send start. */
  lemma DemoOutcome(ready: Db, queued: Db, taken: Db, started: Db, again: Db)
    requires ready == Db(map[], 0, map[1 := RunRow(Some("w"), true)], map[2 := SessionRow("w", Some(1), true)], [])
    requires queued == Next(ready, DemoSteps[2]).0
    requires Enabled(queued, DemoSteps[3]) && taken == Next(queued, DemoSteps[3]).0
    requires started == Next(taken, DemoSteps[4]).0 && again == Next(started, DemoSteps[5]).0
    ensures 7 in again.commands && Starts(again.log, 7) == 1 && again.commands[7].state == Queued
    ensures again.commands[7].session == 2
  {
    DemoQueued(ready);
    DemoTaken(queued);
    DemoStarted(taken);
    DemoFailed(started);
  }

  /** The command of the demonstration is in the given state with the given send starts. */
  predicate DemoAt(db: Db, state: CommandState, started: bool, starts: nat) {
    && 7 in db.commands && 1 in db.runs && 2 in db.sessions && db.sessions[2] == SessionRow("w", Some(1), true) && db.runs[1] == RunRow(Some("w"), true)
    && var c := db.commands[7];
       c.id == 7 && c.recipient == "w" && c.deadlineAt.None? && c.state == state && c.sendStartedAt.Some? == started
       && c.session == 2 && c.run == 1 && c.maxAttempts == 3 && !c.sideEffecting
       && c.attempts == (if state == Queued && starts == 0 then 0 else 1) && Starts(db.log, 7) == starts
  }

  lemma DemoQueued(ready: Db)
    requires ready == Db(map[], 0, map[1 := RunRow(Some("w"), true)], map[2 := SessionRow("w", Some(1), true)], [])
    ensures DemoAt(Next(ready, DemoSteps[2]).0, Queued, false, 0)
  {
    var queued := Next(ready, DemoSteps[2]).0;
    assert queued.log == [Event(EvQueued, 7, Queued, 0)] && queued.log[..0] == [];
  }

  lemma DemoTaken(queued: Db)
    requires DemoAt(queued, Queued, false, 0) && Enabled(queued, DemoSteps[3])
    ensures DemoAt(Next(queued, DemoSteps[3]).0, Dispatching, false, 0)
  {
    hide Starts;
    var c := queued.commands[7];
    AppendMoves(queued.log, ReserveMoves(c, 0, 0), 7, 7);
    OneMove(ReserveMoves(c, 0, 0)[0]);
  }

  lemma DemoStarted(taken: Db)
    requires DemoAt(taken, Dispatching, false, 0)
    ensures DemoAt(Next(taken, DemoSteps[4]).0, Dispatching, true, 1)
  {
    hide Starts;
    var c := taken.commands[7];
    AppendMoves(taken.log, SendStartedMoves(taken, c, 0).value, 7, 7);
    OneMove(SendStartedMoves(taken, c, 0).value[0]);
  }

  lemma DemoFailed(started: Db)
    requires DemoAt(started, Dispatching, true, 1)
    ensures DemoAt(Next(started, DemoSteps[5]).0, Queued, true, 1)
  {
    hide Starts;
    var c := started.commands[7];
    AppendMoves(started.log, FailTransportMoves(c, "timed out", 0), 7, 7);
    OneMove(FailTransportMoves(c, "timed out", 0)[0]);
  }

  lemma OneMove(m: Move)
    ensures StartedBy([m]) == if m.event == EvSendStarted then 1 else 0
  {
    assert [m][..0] == [];
  }

  lemma DemoRun(ready: Db, queued: Db, taken: Db, started: Db, again: Db)
    requires ready == Db(map[], 0, map[1 := RunRow(Some("w"), true)], map[2 := SessionRow("w", Some(1), true)], [])
    requires queued == Next(ready, DemoSteps[2]).0
    requires Enabled(queued, DemoSteps[3]) && taken == Next(queued, DemoSteps[3]).0
    requires started == Next(taken, DemoSteps[4]).0 && again == Next(started, DemoSteps[5]).0
    ensures Run(EmptyDb, DemoSteps) == again
  {
    var withRun := Next(EmptyDb, DemoSteps[0]).0;
    assert ready == Next(withRun, DemoSteps[1]).0;
    assert DemoSteps[1..][1..] == DemoSteps[2..] && DemoSteps[2..][1..] == DemoSteps[3..];
    assert DemoSteps[3..][1..] == DemoSteps[4..] && DemoSteps[4..][1..] == DemoSteps[5..];
    assert DemoSteps[5..][1..] == [];
    assert Run(started, DemoSteps[5..]) == Run(again, []);
    assert Run(taken, DemoSteps[4..]) == Run(started, DemoSteps[5..]);
    assert Run(queued, DemoSteps[3..]) == Run(taken, DemoSteps[4..]);
    assert Run(ready, DemoSteps[2..]) == Run(queued, DemoSteps[3..]);
    assert Run(withRun, DemoSteps[1..]) == Run(ready, DemoSteps[2..]);
  }
}
