/**
 * The durable event cursor: legacy import, compare-and-set advance, operator
 * reset and the coordinator's batch loop (lib/eventOffsets.ts, lib/eventLog.ts,
 * coordinator.ts).  Reads, writes and handlers of several processes interleave.
 */
module EventCursor {
  import opened Prelude

  /** What identifies an event: its own id, or its position for rows written before ids. */
  datatype Id = EventId(n: nat) | LegacySeq(number: nat)

  /** A row of the events table; an invalid row cannot be parsed and is never handled. */
  datatype Row = Row(number: nat, id: Option<nat>, valid: bool)

  function Identity(row: Row): Id {
    if row.id.Some? then EventId(row.id.value) else LegacySeq(row.number)
  }

  /** The checkpoint file of the previous storage format; empty when there is none. */
  datatype Legacy = Legacy(processed: set<Id>, last: nat)

  /** The row was processed before the cursor existed. */
  predicate InLegacy(l: Legacy, row: Row) {
    (row.id.Some? && EventId(row.id.value) in l.processed) || LegacySeq(row.number) in l.processed
  }

  /** Sequence numbers are assigned in increasing order, from 1. */
  predicate Increasing(rows: seq<Row>) {
    && (forall i :: 0 <= i < |rows| ==> rows[i].number >= 1)
    && (forall i, j :: 0 <= i < j < |rows| ==> rows[i].number < rows[j].number)
  }

  function LastSeq(rows: seq<Row>): nat {
    if rows == [] then 0 else rows[|rows| - 1].number
  }

  /** The number of rows at or below the sequence number: where a batch after it starts. */
  function CountUpTo(rows: seq<Row>, number: nat): (n: nat)
    ensures n <= |rows|
    ensures forall i :: 0 <= i < n ==> rows[i].number <= number
    ensures Increasing(rows) ==> forall i :: n <= i < |rows| ==> rows[i].number > number
    decreases |rows|
  {
    if rows == [] then 0
    else if rows[|rows| - 1].number <= number && CountUpTo(rows[..|rows| - 1], number) == |rows| - 1 then |rows|
    else CountUpTo(rows[..|rows| - 1], number)
  }

  /** The length of the longest prefix below the checkpoint that was already processed. */
  function LegacyPrefix(rows: seq<Row>, l: Legacy): (n: nat)
    ensures n <= |rows|
    ensures forall i :: 0 <= i < n ==> rows[i].number <= l.last && InLegacy(l, rows[i])
    ensures n < |rows| ==> rows[n].number > l.last || !InLegacy(l, rows[n])
    decreases |rows|
  {
    if rows != [] && rows[0].number <= l.last && InLegacy(l, rows[0]) then 1 + LegacyPrefix(rows[1..], l) else 0
  }

  // ----- the system ----------------------------------------------------------------------------

  /** Where a coordinator stands with the current row of its batch. */
  datatype Stage = Check | Handle | Advance | Swap(current: nat)

  /** A coordinator process; `next` and `end` are positions in the log. */
  datatype Worker = Idle | HasCursor(cursor: nat) | Batch(next: nat, end: nat, stage: Stage)

  type Pid = nat

  /** The event database, the checkpoint file, the processes, and every handling so far. */
  datatype System = System(rows: seq<Row>, cursor: Option<nat>, reset: bool, legacy: Legacy,
                           workers: map<Pid, Worker>, handled: seq<nat>)

  datatype Step =
    | Append(row: Row)
    | Initialize
    | ReadCursor(pid: Pid)
    | ReadBatch(pid: Pid, limit: nat)
    | CheckRow(pid: Pid)
    | HandleOk(pid: Pid)
    | HandleFail(pid: Pid)
    | ReadOffset(pid: Pid)
    | CompareAndSet(pid: Pid)
    | Crash(pid: Pid)
    | Reset(number: nat)

  function At(s: System, pid: Pid): Worker {
    if pid in s.workers then s.workers[pid] else Idle
  }

  function Put(s: System, pid: Pid, w: Worker): System {
    s.(workers := s.workers[pid := w])
  }

  function Offset(s: System): nat {
    if s.cursor.Some? then s.cursor.value else 0
  }

  /** initializeEventOffset: an existing offset stays; otherwise import the processed prefix. */
  function ImportedCursor(rows: seq<Row>, l: Legacy): nat {
    var n := LegacyPrefix(rows, l);
    if n == 0 then 0 else rows[n - 1].number
  }

  /** The row needs no handling: behind the cursor, or processed before the cursor existed. */
  predicate Skipped(s: System, row: Row) {
    row.number <= Offset(s) || (row.number <= s.legacy.last && !s.reset && Identity(row) in s.legacy.processed)
  }

  /** The worker is at a row of the log in the given stage. */
  predicate Stands(s: System, pid: Pid, stage: Stage) {
    var w := At(s, pid);
    w.Batch? && w.next < w.end && w.next < |s.rows| && w.stage == stage
  }

  predicate Swapping(s: System, pid: Pid) {
    var w := At(s, pid);
    w.Batch? && w.next < w.end && w.next < |s.rows| && w.stage.Swap?
  }

  function NextRow(w: Worker): Worker
    requires w.Batch?
  {
    if w.next + 1 < w.end then Batch(w.next + 1, w.end, Check) else Idle
  }

  /** One atomic step; a step that is not possible leaves everything as it is. */
  function Next(s: System, step: Step): System {
    match step
    case Append(row) => if row.number > LastSeq(s.rows) then s.(rows := s.rows + [row]) else s
    case Initialize => if s.cursor.Some? then s else s.(cursor := Some(ImportedCursor(s.rows, s.legacy)))
    case ReadCursor(p) => if At(s, p).Idle? && s.cursor.Some? then Put(s, p, HasCursor(s.cursor.value)) else s
    case ReadBatch(p, limit) =>
      if !At(s, p).HasCursor? then s
      else
        var from := CountUpTo(s.rows, At(s, p).cursor);
        var end := Min(from + limit, |s.rows|);
        Put(s, p, if from < end then Batch(from, end, Check) else Idle)
    case CheckRow(p) =>
      if !Stands(s, p, Check) then s
      else
        var w := At(s, p);
        Put(s, p, w.(stage := if !s.rows[w.next].valid || Skipped(s, s.rows[w.next]) then Advance else Handle))
    case HandleOk(p) =>
      if !Stands(s, p, Handle) then s
      else Put(s, p, At(s, p).(stage := Advance)).(handled := s.handled + [s.rows[At(s, p).next].number])
    case HandleFail(p) => if Stands(s, p, Handle) then Put(s, p, Idle) else s
    case ReadOffset(p) =>
      if !Stands(s, p, Advance) then s
      else
        var w := At(s, p);
        Put(s, p, if s.rows[w.next].number > Offset(s) then w.(stage := Swap(Offset(s))) else NextRow(w))
    case CompareAndSet(p) =>
      if !Swapping(s, p) then s
      else
        var w := At(s, p);
        if s.cursor == Some(w.stage.current) then Put(s, p, NextRow(w)).(cursor := Some(s.rows[w.next].number))
        else Put(s, p, Idle)
    case Crash(p) => Put(s, p, Idle)
    case Reset(number) => if s.cursor.Some? && number <= s.cursor.value then s.(cursor := Some(number), reset := true) else s
  }

  function Run(s: System, steps: seq<Step>): System
    decreases |steps|
  {
    if steps == [] then s else Run(Next(s, steps[0]), steps[1..])
  }

  // ----- no event is skipped ----------------------------------------------------------------------

  /** The row needs nothing more: invalid, handled here, or processed before. */
  predicate Done(s: System, row: Row) {
    !row.valid || row.number in s.handled || (row.number <= s.legacy.last && InLegacy(s.legacy, row))
  }

  predicate DoneUpTo(s: System, n: int) {
    n <= |s.rows| && forall i :: 0 <= i < n ==> Done(s, s.rows[i])
  }

  predicate Covered(s: System, number: nat) {
    number <= LastSeq(s.rows) && forall i :: 0 <= i < |s.rows| && s.rows[i].number <= number ==> Done(s, s.rows[i])
  }

  predicate WorkerInv(s: System, w: Worker) {
    match w
    case Idle => true
    case HasCursor(c) => Covered(s, c)
    case Batch(next, end, stage) =>
      next < end <= |s.rows| && DoneUpTo(s, next) && ((stage.Advance? || stage.Swap?) ==> Done(s, s.rows[next]))
  }

  predicate Inv(s: System) {
    && Increasing(s.rows)
    && (s.cursor.Some? ==> Covered(s, s.cursor.value))
    && (forall p :: p in s.workers ==> WorkerInv(s, s.workers[p]))
  }

  /** Facts about the log only accumulate. */
  predicate Grows(s: System, t: System) {
    && s.rows <= t.rows && s.handled <= t.handled && t.legacy == s.legacy && Increasing(t.rows)
  }

  lemma DoneGrows(s: System, t: System, row: Row)
    requires Grows(s, t) && Done(s, row)
    ensures Done(t, row)
  {
    if row.number in s.handled {
      var i :| 0 <= i < |s.handled| && s.handled[i] == row.number;
      assert t.handled[i] == row.number;
    }
  }

  lemma CoveredGrows(s: System, t: System, number: nat)
    requires Grows(s, t) && Covered(s, number)
    ensures Covered(t, number)
  {
    forall i | 0 <= i < |t.rows| && t.rows[i].number <= number ensures Done(t, t.rows[i]) {
      assert i < |s.rows| && t.rows[i] == s.rows[i];
      DoneGrows(s, t, s.rows[i]);
    }
  }

  lemma WorkerGrows(s: System, t: System, w: Worker)
    requires Grows(s, t) && WorkerInv(s, w)
    ensures WorkerInv(t, w)
  {
    hide Done;
    match w
    case Idle =>
    case HasCursor(c) => CoveredGrows(s, t, c);
    case Batch(next, end, stage) =>
      forall i | 0 <= i < next ensures Done(t, t.rows[i]) { DoneGrows(s, t, s.rows[i]); }
      if stage.Advance? || stage.Swap? { DoneGrows(s, t, s.rows[next]); }
  }

  lemma StepGrows(s: System, step: Step)
    requires Increasing(s.rows)
    ensures Grows(s, Next(s, step))
  {
    hide CountUpTo, LegacyPrefix;
  }

  /** The process a step belongs to. */
  function ActorOf(step: Step): Option<Pid> {
    match step
    case ReadCursor(p) => Some(p)
    case ReadBatch(p, _) => Some(p)
    case CheckRow(p) => Some(p)
    case HandleOk(p) => Some(p)
    case HandleFail(p) => Some(p)
    case ReadOffset(p) => Some(p)
    case CompareAndSet(p) => Some(p)
    case Crash(p) => Some(p)
    case _ => None
  }

  lemma OthersStay(s: System, step: Step, p: Pid)
    requires ActorOf(step) != Some(p)
    ensures At(Next(s, step), p) == At(s, p)
  {
  }

  lemma BatchStartsAfterTheCursor(s: System, c: nat)
    requires Increasing(s.rows) && Covered(s, c)
    ensures DoneUpTo(s, CountUpTo(s.rows, c))
  {
    hide Done;
  }

  /** The acting process keeps its own part of the invariant. */
  lemma ActorKeepsInv(s: System, step: Step, p: Pid)
    requires Inv(s) && ActorOf(step) == Some(p)
    ensures WorkerInv(Next(s, step), At(Next(s, step), p))
  {
    hide Done, CountUpTo, InLegacy;
    StepGrows(s, step);
    var w, t := At(s, p), Next(s, step);
    assert WorkerInv(s, w);
    WorkerGrows(s, t, w);
    match step
    case ReadCursor(_) => if s.cursor.Some? { CoveredGrows(s, t, s.cursor.value); }
    case ReadBatch(_, _) => if w.HasCursor? { BatchStartsAfterTheCursor(s, w.cursor); }
    case CheckRow(_) =>
      if Stands(s, p, Check) && (!s.rows[w.next].valid || Skipped(s, s.rows[w.next])) {
        SkippedIsDone(s, s.rows[w.next], w.next);
        DoneGrows(s, t, s.rows[w.next]);
      }
    case HandleOk(_) => if Stands(s, p, Handle) { HandledIsDone(t, s.rows[w.next]); }
    case _ =>
  }

  lemma SkippedIsDone(s: System, row: Row, i: nat)
    requires Inv(s) && i < |s.rows| && s.rows[i] == row && (!row.valid || Skipped(s, row))
    ensures Done(s, row)
  {
    if row.number <= Offset(s) {
      assert s.cursor.Some?;
    }
  }

  lemma HandledIsDone(s: System, row: Row)
    requires s.handled != [] && s.handled[|s.handled| - 1] == row.number
    ensures Done(s, row)
  {
  }

  /** The cursor moves forward only over rows that are done, and backwards freely. */
  lemma CursorStaysCovered(s: System, step: Step)
    requires Inv(s)
    ensures Next(s, step).cursor.Some? ==> Covered(Next(s, step), Next(s, step).cursor.value)
  {
    hide Done;
    StepGrows(s, step);
    var t := Next(s, step);
    if s.cursor.Some? { CoveredGrows(s, t, s.cursor.value); }
    match step
    case Initialize => if s.cursor.None? { ImportIsCovered(s, t); }
    case CompareAndSet(p) =>
      if Swapping(s, p) {
        assert WorkerInv(s, At(s, p));
        RowIsCovered(s, At(s, p).next);
        CoveredGrows(s, t, s.rows[At(s, p).next].number);
      }
    case _ =>
  }

  lemma RowIsCovered(s: System, n: nat)
    requires Increasing(s.rows) && n < |s.rows| && DoneUpTo(s, n) && Done(s, s.rows[n])
    ensures Covered(s, s.rows[n].number)
  {
    hide Done;
  }

  lemma ImportIsCovered(s: System, t: System)
    requires Increasing(s.rows) && t == s.(cursor := t.cursor)
    ensures Covered(t, ImportedCursor(s.rows, s.legacy))
  {
    var n := LegacyPrefix(s.rows, s.legacy);
    if n > 0 {
      assert forall i :: 0 <= i < n ==> Done(t, s.rows[i]);
      RowIsCovered(t, n - 1);
    }
  }

  lemma StepKeepsInv(s: System, step: Step)
    requires Inv(s)
    ensures Inv(Next(s, step))
  {
    hide Covered, WorkerInv;
    StepGrows(s, step);
    CursorStaysCovered(s, step);
    var t := Next(s, step);
    forall p | p in t.workers ensures WorkerInv(t, t.workers[p]) {
      assert At(t, p) == t.workers[p];
      if ActorOf(step) == Some(p) {
        ActorKeepsInv(s, step, p);
      } else {
        OthersStay(s, step, p);
        IdleIsFine(s);
        WorkerGrows(s, t, At(s, p));
      }
    }
  }

  lemma IdleIsFine(s: System)
    ensures WorkerInv(s, Idle)
  {
  }

  lemma {:induction false} RunKeepsInv(s: System, steps: seq<Step>)
    requires Inv(s)
    ensures Inv(Run(s, steps))
    decreases |steps|
  {
    hide Inv, Next;
    if steps != [] {
      StepKeepsInv(s, steps[0]);
      RunKeepsInv(Next(s, steps[0]), steps[1..]);
    }
  }

  /** Events may have been written before the cursor existed; nothing was handled here yet. */
  function Start(rows: seq<Row>, legacy: Legacy): System {
    System(rows, None, false, legacy, map[], [])
  }

  /**
   * No event is skipped: after any interleaving of coordinators, handler
   * failures, crashes, resets and the legacy import, every valid event at or
   * below the cursor was handled here or processed before.
   */
  lemma NoEventIsSkipped(rows: seq<Row>, legacy: Legacy, steps: seq<Step>, row: Row)
    requires Increasing(rows)
    requires var s := Run(Start(rows, legacy), steps); s.cursor.Some? && row in s.rows && row.valid && row.number <= s.cursor.value
    ensures row.number in Run(Start(rows, legacy), steps).handled || (row.number <= legacy.last && InLegacy(legacy, row))
  {
    var s := Run(Start(rows, legacy), steps);
    RunKeepsInv(Start(rows, legacy), steps);
    RunKeepsLegacy(Start(rows, legacy), steps);
    var i :| 0 <= i < |s.rows| && s.rows[i] == row;
    assert Done(s, s.rows[i]);
  }

  lemma {:induction false} RunKeepsLegacy(s: System, steps: seq<Step>)
    ensures Run(s, steps).legacy == s.legacy
    decreases |steps|
  {
    if steps != [] { RunKeepsLegacy(Next(s, steps[0]), steps[1..]); }
  }

  // ----- imports and batches ------------------------------------------------------------------------------

  /** Processed before, by id or by position, within the checkpoint. */
  predicate WasProcessed(l: Legacy, row: Row) {
    row.number <= l.last && ((row.id.Some? && EventId(row.id.value) in l.processed) || LegacySeq(row.number) in l.processed)
  }

  /**
   * The first cursor is the last row of the longest processed prefix: every row
   * up to it was processed, and the next one, if any, was not.
   */
  lemma ImportEffect(s: System, n: nat)
    requires s.cursor == None && Increasing(s.rows) && n <= |s.rows|
    requires (forall i :: 0 <= i < n ==> WasProcessed(s.legacy, s.rows[i])) && (n < |s.rows| ==> !WasProcessed(s.legacy, s.rows[n]))
    ensures Next(s, Initialize) == s.(cursor := Some(if n == 0 then 0 else s.rows[n - 1].number))
  {
    PrefixIs(s.rows, s.legacy, n);
  }

  lemma {:induction false} PrefixIs(rows: seq<Row>, l: Legacy, n: nat)
    requires n <= |rows| && (forall i :: 0 <= i < n ==> WasProcessed(l, rows[i])) && (n < |rows| ==> !WasProcessed(l, rows[n]))
    ensures LegacyPrefix(rows, l) == n
    decreases n
  {
    if n > 0 {
      assert forall i :: 0 <= i < n - 1 ==> rows[1..][i] == rows[i + 1];
      PrefixIs(rows[1..], l, n - 1);
    }
  }

  /** A batch is the rows right after the cursor, as many as there are up to the limit. */
  lemma BatchEffect(s: System, p: Pid, limit: nat)
    requires Increasing(s.rows) && At(s, p).HasCursor?
    ensures var c, w := At(s, p).cursor, At(Next(s, ReadBatch(p, limit)), p);
            && (w.Idle? <==> limit == 0 || forall i :: 0 <= i < |s.rows| ==> s.rows[i].number <= c)
            && (!w.Idle? ==>
                  && w.Batch? && w.stage == Check && w.next < w.end <= |s.rows|
                  && (forall i :: 0 <= i < w.next ==> s.rows[i].number <= c) && s.rows[w.next].number > c
                  && w.end - w.next == Min(limit, |s.rows| - w.next))
  {
    var n := CountUpTo(s.rows, At(s, p).cursor);
    if n < |s.rows| { assert s.rows[n].number > At(s, p).cursor; }
  }

  // ----- nothing processed before the cursor existed is handled again ---------------------------------

  /** The checkpoint of the previous format covers the row by its identity. */
  predicate Covers(l: Legacy, row: Row) {
    row.number <= l.last && (match row.id case Some(n) => EventId(n) case None => LegacySeq(row.number)) in l.processed
  }

  /** Every handled number belongs to a row the checkpoint did not cover. */
  ghost predicate OnlyPending(s: System) {
    && !s.reset
    && (forall k :: 0 <= k < |s.handled| ==> HasPendingRow(s, s.handled[k]))
    && (forall p :: p in s.workers && AboutToHandle(s, s.workers[p]) ==> !Covers(s.legacy, s.rows[s.workers[p].next]))
  }

  predicate AboutToHandle(s: System, w: Worker) {
    w.Batch? && w.stage == Handle && w.next < |s.rows|
  }

  /** The row a handled number belongs to. */
  predicate PendingRow(s: System, number: nat, i: int) {
    0 <= i < |s.rows| && s.rows[i].number == number && !Covers(s.legacy, s.rows[i])
  }

  ghost predicate HasPendingRow(s: System, number: nat) {
    exists i :: PendingRow(s, number, i)
  }

  /** A step handles at most the row its process is about to handle. */
  lemma StepHandles(s: System, step: Step)
    ensures var t := Next(s, step);
            t.handled == s.handled
            || (step.HandleOk? && Stands(s, step.pid, Handle) && t.handled == s.handled + [s.rows[At(s, step.pid).next].number])
  {
    hide CountUpTo, LegacyPrefix;
  }

  lemma PendingHandled(s: System, step: Step, k: nat)
    requires Inv(s) && OnlyPending(s) && !step.Reset? && k < |Next(s, step).handled|
    ensures HasPendingRow(Next(s, step), Next(s, step).handled[k])
  {
    hide Next, Inv, Covers;
    InvIncreasing(s);
    StepGrows(s, step);
    StepHandles(s, step);
    var t := Next(s, step);
    if k < |s.handled| {
      assert HasPendingRow(s, s.handled[k]);
      var i :| PendingRow(s, s.handled[k], i);
      assert PendingRow(t, t.handled[k], i);
    } else {
      var n := At(s, step.pid).next;
      assert AboutToHandle(s, s.workers[step.pid]);
      assert PendingRow(t, t.handled[k], n);
    }
  }

  lemma InvIncreasing(s: System)
    requires Inv(s)
    ensures Increasing(s.rows)
  {
  }

  lemma PendingStep(s: System, step: Step)
    requires Inv(s) && OnlyPending(s) && !step.Reset?
    ensures OnlyPending(Next(s, step))
  {
    hide Inv, Covers, HasPendingRow, Next;
    var t := Next(s, step);
    StepKeepsFlag(s, step);
    forall k | 0 <= k < |t.handled| ensures HasPendingRow(t, t.handled[k]) {
      PendingHandled(s, step, k);
    }
    forall p | p in t.workers && AboutToHandle(t, t.workers[p])
      ensures !Covers(t.legacy, t.rows[t.workers[p].next])
    {
      PendingWorker(s, step, p);
    }
  }

  lemma StepKeepsFlag(s: System, step: Step)
    requires !step.Reset?
    ensures Next(s, step).reset == s.reset
  {
    hide CountUpTo, LegacyPrefix;
  }

  /** A process is about to handle only what the checkpoint does not cover. */
  lemma PendingWorker(s: System, step: Step, p: Pid)
    requires Inv(s) && OnlyPending(s) && !step.Reset?
    requires var t := Next(s, step); p in t.workers && AboutToHandle(t, t.workers[p])
    ensures var t := Next(s, step); !Covers(t.legacy, t.rows[t.workers[p].next])
  {
    hide Covered, DoneUpTo, Done, CountUpTo, LegacyPrefix;
    var t := Next(s, step);
    if ActorOf(step) != Some(p) {
      OthersStay(s, step, p);
      assert p in s.workers && AboutToHandle(t, s.workers[p]);
      assert WorkerInv(s, s.workers[p]);
      assert AboutToHandle(s, s.workers[p]) && t.rows[t.workers[p].next] == s.rows[t.workers[p].next];
    }
  }

  lemma {:induction false} PendingRun(s: System, steps: seq<Step>)
    requires Inv(s) && OnlyPending(s) && forall i :: 0 <= i < |steps| ==> !steps[i].Reset?
    ensures OnlyPending(Run(s, steps))
    decreases |steps|
  {
    hide Inv, Next, OnlyPending;
    if steps != [] {
      StepKeepsInv(s, steps[0]);
      PendingStep(s, steps[0]);
      PendingRun(Next(s, steps[0]), steps[1..]);
    }
  }

  /**
   * Without a reset, no event that was processed before the cursor existed is
   * handled again, by any number of coordinators and whatever fails or crashes.
   */
  lemma ProcessedBeforeIsNotHandled(rows: seq<Row>, legacy: Legacy, steps: seq<Step>, row: Row)
    requires Increasing(rows) && forall i :: 0 <= i < |steps| ==> !steps[i].Reset?
    requires row in Run(Start(rows, legacy), steps).rows
    requires row.number <= legacy.last && (if row.id.Some? then EventId(row.id.value) else LegacySeq(row.number)) in legacy.processed
    ensures row.number !in Run(Start(rows, legacy), steps).handled
  {
    hide Done, Covered;
    var s := Run(Start(rows, legacy), steps);
    RunKeepsInv(Start(rows, legacy), steps);
    RunKeepsLegacy(Start(rows, legacy), steps);
    PendingRun(Start(rows, legacy), steps);
    var j :| 0 <= j < |s.rows| && s.rows[j] == row;
    forall k | 0 <= k < |s.handled| ensures s.handled[k] != row.number {
      assert HasPendingRow(s, s.handled[k]);
      var i :| PendingRow(s, s.handled[k], i);
      assert i != j;
    }
  }

  // ----- order and repetition -----------------------------------------------------------------------

  /** What may make an event be handled again. */
  predicate Disturbs(step: Step) {
    step.Crash? || step.HandleFail? || step.Reset?
  }

  /** The coordinator lock: only one process reads and handles events. */
  predicate OnlyBy(steps: seq<Step>, p: Pid) {
    forall i :: 0 <= i < |steps| ==> ActorOf(steps[i]) == None || ActorOf(steps[i]) == Some(p)
  }

  /** Whatever the process handles next comes after `e`. */
  predicate Ahead(s: System, p: Pid, e: nat) {
    var w := At(s, p);
    match w
    case Idle => s.cursor.Some? && e <= s.cursor.value
    case HasCursor(c) => s.cursor.Some? && e <= s.cursor.value
    case Batch(next, end, stage) =>
      && next < end <= |s.rows| && s.cursor.Some?
      && (match stage
          case Check => e <= s.cursor.value
          case Handle => e <= s.cursor.value < s.rows[next].number
          case Advance => e <= s.cursor.value || e <= s.rows[next].number
          case Swap(current) => current == s.cursor.value < s.rows[next].number && e <= s.rows[next].number)
  }

  lemma AheadStep(s: System, step: Step, p: Pid, e: nat)
    requires Inv(s) && Ahead(s, p, e) && !Disturbs(step) && (ActorOf(step) == None || ActorOf(step) == Some(p))
    ensures Ahead(Next(s, step), p, e)
    ensures Next(s, step).handled == s.handled || (|Next(s, step).handled| == |s.handled| + 1 && s.handled <= Next(s, step).handled
                                                   && e < Next(s, step).handled[|s.handled|])
  {
    hide Covered, DoneUpTo, Done, CountUpTo;
    assert WorkerInv(s, At(s, p));
  }

  predicate Calm(steps: seq<Step>) {
    forall i :: 0 <= i < |steps| ==> !Disturbs(steps[i])
  }

  /** Without a disturbance everything handled from here on comes after `e`. */
  lemma {:induction false} CalmRunHandlesLater(s: System, steps: seq<Step>, p: Pid, e: nat)
    requires Inv(s) && Ahead(s, p, e) && OnlyBy(steps, p) && Calm(steps)
    ensures s.handled <= Run(s, steps).handled
    ensures forall i :: |s.handled| <= i < |Run(s, steps).handled| ==> e < Run(s, steps).handled[i]
    decreases |steps|
  {
    hide Inv, Next, Ahead;
    if steps != [] {
      var t := Next(s, steps[0]);
      StepKeepsInv(s, steps[0]);
      AheadStep(s, steps[0], p, e);
      CalmRunHandlesLater(t, steps[1..], p, e);
      forall i | |s.handled| <= i < |Run(s, steps).handled| ensures e < Run(s, steps).handled[i] {
        if i < |t.handled| { assert Run(s, steps).handled[i] == t.handled[i]; }
      }
    }
  }

  /** Right after handling an event, the process is ahead of it. */
  lemma HandlingIsAhead(s: System, p: Pid)
    requires Inv(s) && Stands(s, p, Handle) && s.cursor.Some?
    ensures Ahead(Next(s, HandleOk(p)), p, s.rows[At(s, p).next].number)
  {
    hide Covered, DoneUpTo;
    assert WorkerInv(s, At(s, p));
  }

  /**
   * In order and at most once: with one coordinator, between handling an event
   * and handling any event at or before it there is a crash, a failed handler
   * or a reset.
   */
  lemma HandledAgainOnlyAfterADisturbance(s: System, steps: seq<Step>, p: Pid)
    requires Inv(s) && Stands(s, p, Handle) && s.cursor.Some? && OnlyBy(steps, p) && Calm(steps)
    ensures var e, t := s.rows[At(s, p).next].number, Run(Next(s, HandleOk(p)), steps);
            && |t.handled| > |s.handled| && t.handled[|s.handled|] == e
            && forall i :: |s.handled| < i < |t.handled| ==> e < t.handled[i]
  {
    hide Inv, Ahead, Run;
    var e, mid := s.rows[At(s, p).next].number, Next(s, HandleOk(p));
    StepKeepsInv(s, HandleOk(p));
    HandlingIsAhead(s, p);
    CalmRunHandlesLater(mid, steps, p, e);
  }

  // ----- resets ----------------------------------------------------------------------------------------

  /** With one coordinator, its place never falls behind the cursor. */
  predicate Solo(s: System, p: Pid) {
    match At(s, p)
    case Idle => true
    case HasCursor(c) => s.cursor.Some? && s.cursor.value <= c
    case Batch(next, end, stage) =>
      && next < end <= |s.rows| && s.cursor.Some? && s.cursor.value < s.rows[next].number
      && (stage.Swap? ==> s.cursor.value <= stage.current < s.rows[next].number)
  }

  lemma SoloStep(s: System, step: Step, p: Pid)
    requires Inv(s) && Solo(s, p) && (ActorOf(step) == None || ActorOf(step) == Some(p))
    ensures Solo(Next(s, step), p)
  {
    hide Covered, DoneUpTo, Done, LegacyPrefix;
    assert WorkerInv(s, At(s, p));
  }

  /** A lone coordinator stays so through every run, disturbed or not. */
  lemma {:induction false} SoloRun(s: System, steps: seq<Step>, p: Pid)
    requires Inv(s) && Solo(s, p) && OnlyBy(steps, p)
    ensures Solo(Run(s, steps), p)
    decreases |steps|
  {
    hide Inv, Next, Solo;
    if steps != [] {
      StepKeepsInv(s, steps[0]);
      SoloStep(s, steps[0], p);
      SoloRun(Next(s, steps[0]), steps[1..], p);
    }
  }

  /** The undisturbed rest of a process's work on its current row, from each stage. */
  function FromAdvance(s: System, p: Pid): System {
    var t := Next(s, ReadOffset(p));
    if Swapping(t, p) then Next(t, CompareAndSet(p)) else t
  }

  function FromHandle(s: System, p: Pid): System {
    FromAdvance(Next(s, HandleOk(p)), p)
  }

  function FromCheck(s: System, p: Pid): System {
    var t := Next(s, CheckRow(p));
    if Stands(t, p, Handle) then FromHandle(t, p) else FromAdvance(t, p)
  }

  function ToRowEnd(s: System, p: Pid, limit: nat): System {
    match At(s, p)
    case Idle => s
    case HasCursor(_) =>
      var t := Next(s, ReadBatch(p, limit));
      if Stands(t, p, Check) then FromCheck(t, p) else t
    case Batch(_, _, stage) =>
      match stage
      case Check => FromCheck(s, p)
      case Handle => FromHandle(s, p)
      case Advance => FromAdvance(s, p)
      case Swap(_) => Next(s, CompareAndSet(p))
  }

  /** The row the process works on, or will read next. */
  function CurrentRow(s: System, p: Pid): (n: nat)
    ensures n <= |s.rows|
  {
    match At(s, p)
    case Idle => |s.rows|
    case HasCursor(c) => CountUpTo(s.rows, c)
    case Batch(next, _, _) => if next < |s.rows| then next else |s.rows|
  }

  /** Where the process must stand for a reset to `target` to hold. */
  predicate ResetHolds(s: System, p: Pid, target: nat) {
    match At(s, p)
    case Idle => true
    case HasCursor(c) => LastSeq(s.rows) <= c
    case Batch(_, _, stage) => stage.Swap? && stage.current != target
  }

  /** The handling the process itself still owes its current row. */
  function OwnHandling(s: System, p: Pid): seq<nat> {
    var n := CurrentRow(s, p);
    if n == |s.rows| then []
    else match At(s, p)
      case Idle => []
      case HasCursor(_) => if s.rows[n].valid then [s.rows[n].number] else []
      case Batch(_, _, stage) =>
        if stage == Handle || (stage == Check && s.rows[n].valid) then [s.rows[n].number] else []
  }

  lemma AdvanceAfterReset(s: System, p: Pid)
    requires Solo(s, p) && Stands(s, p, Advance)
    ensures var t, row := FromAdvance(s, p), s.rows[At(s, p).next];
            t.cursor == Some(row.number) && t.handled == s.handled && t.rows == s.rows && At(t, p) == NextRow(At(s, p))
  {
  }

  lemma HandleAfterReset(s: System, p: Pid)
    requires Solo(s, p) && Stands(s, p, Handle)
    ensures var t, row := FromHandle(s, p), s.rows[At(s, p).next];
            t.cursor == Some(row.number) && t.handled == s.handled + [row.number] && t.rows == s.rows && At(t, p) == NextRow(At(s, p))
  {
    hide FromAdvance;
    AdvanceAfterReset(Next(s, HandleOk(p)), p);
  }

  lemma CheckAfterReset(s: System, p: Pid)
    requires Solo(s, p) && Stands(s, p, Check) && s.reset
    ensures var t, row := FromCheck(s, p), s.rows[At(s, p).next];
            && t.cursor == Some(row.number) && t.rows == s.rows && At(t, p) == NextRow(At(s, p))
            && t.handled == s.handled + if row.valid then [row.number] else []
  {
    hide FromAdvance, FromHandle;
    var t := Next(s, CheckRow(p));
    if s.rows[At(s, p).next].valid { HandleAfterReset(t, p); } else { AdvanceAfterReset(t, p); }
  }

  /** A stale cursor reads the batch after itself, not after the reset. */
  lemma ReadAfterReset(s: System, p: Pid, limit: nat)
    requires Increasing(s.rows) && Solo(s, p) && At(s, p).HasCursor? && limit >= 1
    ensures var t, n := Next(s, ReadBatch(p, limit)), CountUpTo(s.rows, At(s, p).cursor);
            && t == s.(workers := t.workers)
            && (n == |s.rows| <==> LastSeq(s.rows) <= At(s, p).cursor)
            && (if n < |s.rows| then Stands(t, p, Check) && At(t, p).next == n && Solo(t, p) else At(t, p).Idle?)
  {
    var n := CountUpTo(s.rows, At(s, p).cursor);
    assert n < |s.rows| ==> s.rows[n].number <= LastSeq(s.rows);
  }

  /**
   * A reset holds exactly when the one coordinator is idle, has read a cursor
   * with nothing after it, or is about to swap a value the reset replaced.
   * Otherwise the work it had begun overtakes the reset: the cursor ends on its
   * current row, and of the rows between only that row is handled.
   */
  lemma ResetHoldsExactlyWhen(s: System, p: Pid, target: nat, limit: nat)
    requires Inv(s) && Solo(s, p) && s.cursor.Some? && target <= s.cursor.value && limit >= 1
    ensures var t, n := ToRowEnd(Next(s, Reset(target)), p, limit), CurrentRow(s, p);
            && (t.cursor == Some(target) && At(t, p).Idle? <==> ResetHolds(s, p, target))
            && (ResetHolds(s, p, target) ==> t.handled == s.handled)
            && (!ResetHolds(s, p, target) ==>
                  n < |s.rows| && t.cursor == Some(s.rows[n].number) && target < s.rows[n].number
                  && t.handled == s.handled + OwnHandling(s, p) && Ahead(t, p, s.rows[n].number))
  {
    hide FromCheck, FromHandle, FromAdvance, Covered, DoneUpTo, CountUpTo, LegacyPrefix;
    var a := Next(s, Reset(target));
    assert At(a, p) == At(s, p) && Solo(a, p) && WorkerInv(s, At(s, p));
    match At(s, p)
    case Idle =>
    case HasCursor(c) =>
      ReadAfterReset(a, p, limit);
      var b := Next(a, ReadBatch(p, limit));
      if CountUpTo(s.rows, c) < |s.rows| { CheckAfterReset(b, p); }
    case Batch(next, end, stage) =>
      match stage
      case Check => CheckAfterReset(a, p);
      case Handle => HandleAfterReset(a, p);
      case Advance => AdvanceAfterReset(a, p);
      case Swap(_) =>
  }

  /** An overtaken reset replays nothing: the next thing handled, without a disturbance, comes after the current row. */
  lemma OvertakenResetReplaysNothing(s: System, p: Pid, target: nat, limit: nat, steps: seq<Step>)
    requires Inv(s) && Solo(s, p) && s.cursor.Some? && target <= s.cursor.value && limit >= 1 && !ResetHolds(s, p, target)
    requires OnlyBy(steps, p) && Calm(steps) && CurrentRow(s, p) < |s.rows|
    ensures var t := ToRowEnd(Next(s, Reset(target)), p, limit);
            forall i :: |t.handled| <= i < |Run(t, steps).handled| ==> s.rows[CurrentRow(s, p)].number < Run(t, steps).handled[i]
  {
    hide Inv, Solo, Next, Run, Ahead, CurrentRow, ResetHolds, OwnHandling;
    var a := Next(s, Reset(target));
    var t := ToRowEnd(a, p, limit);
    ResetHoldsExactlyWhen(s, p, target, limit);
    StepKeepsInv(s, Reset(target));
    var rest := RestOfTheRow(a, p, limit);
    RunKeepsInv(a, rest);
    CalmRunHandlesLater(t, steps, p, s.rows[CurrentRow(s, p)].number);
  }

  // ----- the database and the coordinator as they run ---------------------------------------------------

  lemma {:induction false} RunAppend(s: System, a: seq<Step>, b: seq<Step>)
    ensures Run(s, a + b) == Run(Run(s, a), b)
    decreases |a|
  {
    hide Next;
    if a == [] {
      assert a + b == b;
    } else {
      assert (a + b)[1..] == a[1..] + b;
      RunAppend(Next(s, a[0]), a[1..], b);
    }
  }

  lemma RunOne(s: System, x: Step)
    ensures Run(s, [x]) == Next(s, x)
  {
    hide Next;
    assert [x][1..] == [];
  }

  lemma RunTwo(s: System, x: Step, y: Step)
    ensures Run(s, [x, y]) == Next(Next(s, x), y)
  {
    hide Next;
    assert [x, y][1..] == [y];
    RunOne(Next(s, x), y);
  }

  /** The rest of a row is a calm run of the process itself. */
  lemma RestOfTheRow(s: System, p: Pid, limit: nat) returns (steps: seq<Step>)
    ensures Run(s, steps) == ToRowEnd(s, p, limit) && OnlyBy(steps, p) && Calm(steps)
  {
    hide Next, Run, FromCheck, FromHandle, FromAdvance;
    match At(s, p)
    case Idle =>
      steps := [];
      RunNothing(s);
    case HasCursor(_) =>
      RunOne(s, ReadBatch(p, limit));
      var t := Next(s, ReadBatch(p, limit));
      steps := [ReadBatch(p, limit)];
      if Stands(t, p, Check) {
        var more := CheckSteps(t, p);
        RunAppend(s, steps, more);
        steps := steps + more;
      }
    case Batch(_, _, stage) =>
      match stage {
        case Check => steps := CheckSteps(s, p);
        case Handle => steps := HandleSteps(s, p);
        case Advance => steps := AdvanceSteps(s, p);
        case Swap(_) =>
          RunOne(s, CompareAndSet(p));
          steps := [CompareAndSet(p)];
      }
  }

  lemma RunNothing(s: System)
    ensures Run(s, []) == s
  {
  }

  lemma AdvanceSteps(s: System, p: Pid) returns (steps: seq<Step>)
    ensures Run(s, steps) == FromAdvance(s, p) && OnlyBy(steps, p) && Calm(steps)
  {
    hide Next, Run;
    RunOne(s, ReadOffset(p));
    RunTwo(s, ReadOffset(p), CompareAndSet(p));
    steps := if Swapping(Next(s, ReadOffset(p)), p) then [ReadOffset(p), CompareAndSet(p)] else [ReadOffset(p)];
  }

  lemma HandleSteps(s: System, p: Pid) returns (steps: seq<Step>)
    ensures Run(s, steps) == FromHandle(s, p) && OnlyBy(steps, p) && Calm(steps)
  {
    hide Next, Run, FromAdvance;
    RunOne(s, HandleOk(p));
    var more := AdvanceSteps(Next(s, HandleOk(p)), p);
    RunAppend(s, [HandleOk(p)], more);
    steps := [HandleOk(p)] + more;
  }

  lemma CheckSteps(s: System, p: Pid) returns (steps: seq<Step>)
    ensures Run(s, steps) == FromCheck(s, p) && OnlyBy(steps, p) && Calm(steps)
  {
    hide Next, Run, FromAdvance, FromHandle;
    RunOne(s, CheckRow(p));
    var t := Next(s, CheckRow(p));
    var more;
    if Stands(t, p, Handle) { more := HandleSteps(t, p); } else { more := AdvanceSteps(t, p); }
    RunAppend(s, [CheckRow(p)], more);
    steps := [CheckRow(p)] + more;
  }

  lemma CalmAppend(a: seq<Step>, b: seq<Step>)
    ensures Calm(a + b) <==> Calm(a) && Calm(b)
  {
    if Calm(a + b) {
      assert forall i :: 0 <= i < |a| ==> a[i] == (a + b)[i];
      assert forall i :: 0 <= i < |b| ==> b[i] == (a + b)[|a| + i];
    }
  }

  lemma BatchBegins(s: System, p: Pid, limit: nat)
    requires At(s, p).Idle? && s.cursor.Some?
    ensures var from := CountUpTo(s.rows, s.cursor.value);
            var end := Min(from + limit, |s.rows|);
            Run(s, [ReadCursor(p), ReadBatch(p, limit)]) == Put(s, p, if from < end then Batch(from, end, Check) else Idle)
  {
    hide Run, CountUpTo;
    RunTwo(s, ReadCursor(p), ReadBatch(p, limit));
    var held := Next(s, ReadCursor(p));
    assert held == Put(s, p, HasCursor(s.cursor.value)) && At(held, p) == HasCursor(s.cursor.value);
    assert held.workers[p := Idle] == s.workers[p := Idle];
  }

  /** A reset of an idle system replays: the next batch starts right after the target and handles its first valid row. */
  lemma ResetReplays(s: System, p: Pid, target: nat, limit: nat, n: nat)
    requires Inv(s) && At(s, p).Idle? && s.cursor.Some? && target <= s.cursor.value && limit > 0
    requires n < |s.rows| && s.rows[n].number > target && (forall i :: 0 <= i < n ==> s.rows[i].number <= target) && s.rows[n].valid
    ensures var t := Run(s, [Reset(target)] + [ReadCursor(p), ReadBatch(p, limit)] + [CheckRow(p)]);
            Stands(t, p, Handle) && At(t, p).next == n
  {
    hide Inv, Run, CountUpTo;
    var a := Next(s, Reset(target));
    RunOne(s, Reset(target));
    RunAppend(s, [Reset(target)], [ReadCursor(p), ReadBatch(p, limit)]);
    BatchBegins(a, p, limit);
    LaterRowsAreLater(s, n);
    CountIs(s.rows, target, n);
    var c := Run(s, [Reset(target)] + [ReadCursor(p), ReadBatch(p, limit)]);
    RunAppend(s, [Reset(target)] + [ReadCursor(p), ReadBatch(p, limit)], [CheckRow(p)]);
    RunOne(c, CheckRow(p));
  }

  lemma LaterRowsAreLater(s: System, n: nat)
    requires Inv(s) && n < |s.rows|
    ensures forall i :: n <= i < |s.rows| ==> s.rows[i].number >= s.rows[n].number
  {
    hide Covered, WorkerInv;
  }

  lemma {:induction false} CountIs(rows: seq<Row>, target: nat, n: nat)
    requires n <= |rows| && (forall i :: 0 <= i < n ==> rows[i].number <= target) && forall i :: n <= i < |rows| ==> rows[i].number > target
    ensures CountUpTo(rows, target) == n
    decreases |rows|
  {
    if rows != [] {
      CountIs(rows[..|rows| - 1], target, Min(n, |rows| - 1));
    }
  }

  /** One coordinator process over the event database; `handled` records its handlers' successes. */
  class Coordinator {
    var rows: seq<Row>
    var cursor: Option<nat>
    var reset: bool
    var handled: seq<nat>
    const legacy: Legacy

    constructor (rows: seq<Row>, legacy: Legacy)
      ensures View(Idle) == Start(rows, legacy).(workers := map[0 := Idle])
    {
      this.rows, this.cursor, this.reset, this.handled, this.legacy := rows, None, false, [], legacy;
    }

    ghost function View(w: Worker): System
      reads this
    {
      System(rows, cursor, reset, legacy, map[0 := w], handled)
    }

    /** initializeEventOffset: scan the processed prefix and stop at the first gap. */
    method InitializeEventOffset() returns (offset: nat)
      modifies this`cursor
      ensures View(Idle) == Next(old(View(Idle)), Initialize) && cursor == Some(offset)
    {
      if cursor.Some? { return cursor.value; }
      offset := 0;
      var i := 0;
      while i < |rows| && rows[i].number <= legacy.last && InLegacy(legacy, rows[i])
        invariant i <= |rows| && offset == (if i == 0 then 0 else rows[i - 1].number)
        invariant LegacyPrefix(rows, legacy) == i + LegacyPrefix(rows[i..], legacy)
      {
        assert rows[i..][1..] == rows[i + 1..];
        offset := rows[i].number;
        i := i + 1;
      }
      cursor := Some(offset);
    }

    /** advanceEventOffset: a compare-and-set. */
    method AdvanceEventOffset(expected: nat, next: nat) returns (ok: bool)
      requires expected <= next
      modifies this`cursor
      ensures ok <==> old(cursor) == Some(expected)
      ensures cursor == if ok then Some(next) else old(cursor)
    {
      ok := cursor == Some(expected);
      if ok { cursor := Some(next); }
    }

    /** resetEventOffset: only backwards. */
    method ResetEventOffset(target: nat) returns (ok: bool)
      modifies this`cursor, this`reset
      ensures ok <==> old(cursor).Some? && target <= old(cursor).value
      ensures View(Idle) == Next(old(View(Idle)), Reset(target))
    {
      ok := cursor.Some? && target <= cursor.value;
      if ok { cursor, reset := Some(target), true; }
    }

    /** appendSequencedEvent: the database assigns the number. */
    method AppendSequencedEvent(id: Option<nat>, valid: bool) returns (number: nat)
      requires Increasing(rows)
      modifies this`rows
      ensures number > LastSeq(old(rows)) && Increasing(rows)
      ensures View(Idle) == Next(old(View(Idle)), Append(Row(number, id, valid)))
    {
      number := LastSeq(rows) + 1;
      rows := rows + [Row(number, id, valid)];
    }

    /** readEventBatch: the rows after a position, invalid ones included. */
    method ReadEventBatch(after: nat, limit: nat) returns (from: nat, end: nat)
      requires Increasing(rows)
      ensures from == CountUpTo(rows, after) && end == Min(from + limit, |rows|)
    {
      from := 0;
      while from < |rows| && rows[from].number <= after
        invariant from <= CountUpTo(rows, after)
      {
        from := from + 1;
      }
      end := Min(from + limit, |rows|);
    }

    /** advanceCursor: read the offset, and move it if the row is beyond. */
    method AdvanceCursor(number: nat, ghost next: nat, ghost end: nat) returns (ghost steps: seq<Step>)
      requires next < end <= |rows| && cursor.Some? && rows[next].number == number
      modifies this`cursor
      ensures cursor == Some(Max(old(cursor).value, number))
      ensures View(NextRow(Batch(next, end, Check))) == Run(old(View(Batch(next, end, Advance))), steps)
      ensures OnlyBy(steps, 0) && Calm(steps)
    {
      hide CountUpTo, LegacyPrefix, Run;
      ghost var s := View(Batch(next, end, Advance));
      var current := cursor.value;
      if number > current {
        RunTwo(s, ReadOffset(0), CompareAndSet(0));
        var ok := AdvanceEventOffset(current, number);
        steps := [ReadOffset(0), CompareAndSet(0)];
      } else {
        RunOne(s, ReadOffset(0));
        steps := [ReadOffset(0)];
      }
    }

    /** Handle one row unless it is invalid or already done; a failed handler ends the batch. */
    method HandleRow(next: nat, end: nat, fails: nat -> bool) returns (stopped: bool, ghost steps: seq<Step>)
      requires next < end <= |rows| && cursor.Some?
      modifies this`handled
      ensures View(if stopped then Idle else Batch(next, end, Advance)) == Run(old(View(Batch(next, end, Check))), steps)
      ensures OnlyBy(steps, 0) && (Calm(steps) <==> !stopped)
      ensures stopped <==> rows[next].valid && !Skipped(old(View(Idle)), rows[next]) && fails(rows[next].number)
    {
      hide CountUpTo, LegacyPrefix, Run;
      ghost var s := View(Batch(next, end, Check));
      var row := rows[next];
      if !row.valid || row.number <= cursor.value || (row.number <= legacy.last && !reset && Identity(row) in legacy.processed) {
        RunOne(s, CheckRow(0));
        return false, [CheckRow(0)];
      }
      if fails(row.number) {
        RunTwo(s, CheckRow(0), HandleFail(0));
        steps := [CheckRow(0), HandleFail(0)];
        assert Disturbs(steps[1]);
        return true, steps;
      }
      RunTwo(s, CheckRow(0), HandleOk(0));
      handled := handled + [row.number];
      return false, [CheckRow(0), HandleOk(0)];
    }

    /** One row of a batch: handle or skip it, then move the cursor over it. */
    method ProcessRow(next: nat, end: nat, fails: nat -> bool) returns (stopped: bool, ghost steps: seq<Step>)
      requires next < end <= |rows| && cursor.Some?
      modifies this`cursor, this`handled
      ensures View(if stopped then Idle else NextRow(Batch(next, end, Check))) == Run(old(View(Batch(next, end, Check))), steps)
      ensures OnlyBy(steps, 0) && (Calm(steps) <==> !stopped)
      ensures cursor == if stopped then old(cursor) else Some(Max(old(cursor).value, rows[next].number))
    {
      hide Run, Skipped, Next;
      ghost var s := View(Batch(next, end, Check));
      ghost var moving;
      stopped, steps := HandleRow(next, end, fails);
      if stopped { return; }
      moving := AdvanceCursor(rows[next].number, next, end);
      RunAppend(s, steps, moving);
      CalmAppend(steps, moving);
      steps := steps + moving;
    }

    /**
     * processEventCheckpoint: read a batch after the cursor and work through it.
     * The result is a run of the system above, calm unless a handler failed, and
     * then the cursor has passed every row of the batch.
     */
    method ProcessEventCheckpoint(limit: nat, fails: nat -> bool) returns (stopped: bool, ghost steps: seq<Step>)
      requires Increasing(rows)
      modifies this`cursor, this`handled
      ensures View(Idle) == Run(old(View(Idle)), steps)
      ensures OnlyBy(steps, 0) && (Calm(steps) <==> !stopped) && cursor.Some?
      ensures !stopped ==> forall i :: 0 <= i < |rows| && i < CountUpTo(rows, Next(old(View(Idle)), Initialize).cursor.value) + limit ==>
                             rows[i].number <= cursor.value
    {
      hide CountUpTo, LegacyPrefix, Run, Skipped, Next, Increasing;
      ghost var s0 := View(Idle);
      var offset := InitializeEventOffset();
      ghost var s1 := View(Idle);
      RunOne(s0, Initialize);
      steps := [Initialize];
      var from, end := ReadEventBatch(offset, limit);
      BatchBegins(s1, 0, limit);
      RunAppend(s0, steps, [ReadCursor(0), ReadBatch(0, limit)]);
      steps := steps + [ReadCursor(0), ReadBatch(0, limit)];
      var i := from;
      assert Increasing(rows);
      while i < end
        invariant from <= i && (i <= end || i == from) && rows == old(rows) && cursor.Some? && reset == old(reset)
        invariant View(if i < end then Batch(i, end, Check) else Idle) == Run(s0, steps)
        invariant OnlyBy(steps, 0) && Calm(steps)
        invariant forall j :: 0 <= j < i && j < |rows| ==> rows[j].number <= cursor.value
      {
        ghost var here := View(Batch(i, end, Check));
        ghost var more;
        stopped, more := ProcessRow(i, end, fails);
        RunAppend(s0, steps, more);
        CalmAppend(steps, more);
        steps := steps + more;
        if stopped { return; }
        i := i + 1;
      }
      stopped := false;
    }
  }
}
