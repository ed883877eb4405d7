/**
 * Nudging stalled workers: the remediation policies and the time-based
 * fallback of one tick (lib/remediationPolicies.ts, coordinator.ts).
 */
module Nudges {
  import opened Prelude

  type Time = int
  type RunId = nat
  type Phase = nat

  // ----- configuration ---------------------------------------------------------------------------

  /** A numeric flag: anything that is not a positive number falls back to the default. */
  function IntFlag(parsed: Option<int>, default: int): (r: int)
    requires default >= 1
    ensures r >= 1 && (r == default || parsed == Some(r))
  {
    if parsed.Some? && parsed.value > 0 then parsed.value else default
  }

  datatype Config = Config(maxAttempts: int, phaseStuck: Time, maxNudges: int,
                           staleNudge: Time, forceFail: Time, retryAfter: Time, interval: Time)

  /** Every configuration the flags can produce allows at least one nudge. */
  function LoadConfig(maxAttempts: Option<int>, phaseStuck: Option<int>, maxNudges: Option<int>,
                      staleNudge: Time, forceFail: Time, retryAfter: Time, interval: Time): (c: Config)
    ensures c.maxNudges >= 1
    ensures maxAttempts == phaseStuck == maxNudges == None ==> c.maxAttempts == 3 && c.phaseStuck == 20 * 60 * 1000 && c.maxNudges == 3
  {
    Config(IntFlag(maxAttempts, 3), IntFlag(phaseStuck, 1200000), IntFlag(maxNudges, 3), staleNudge, forceFail, retryAfter, interval)
  }

  // ----- policies ----------------------------------------------------------------------------------

  datatype Action = RequeueNow | RecordInput | Block | NudgeTargeted

  datatype Signals = Signals(sessionAlive: bool, prompt: bool, hooks: nat, attempts: nat, nudges: nat, phaseChanged: bool, idle: Time)

  datatype Policy = Policy(id: string, matches: Signals -> bool, action: Action)

  function BuiltinPolicies(c: Config): seq<Policy> {
    [ Policy("session_dead", (s: Signals) => !s.sessionAlive, RequeueNow),
      Policy("permission_prompt", (s: Signals) => s.prompt || s.hooks > 0, RecordInput),
      Policy("repeated_failure", (s: Signals) => s.nudges > 0 && s.attempts >= c.maxAttempts, Block),
      Policy("phase_stuck", (s: Signals) => s.nudges > 0 && s.nudges < c.maxNudges && !s.phaseChanged && s.idle >= c.phaseStuck, NudgeTargeted),
      Policy("excessive_nudges", (s: Signals) => s.nudges >= c.maxNudges && !s.phaseChanged, RequeueNow) ]
  }

  /** The position of the first policy that matches. */
  ghost predicate IsFirst(policies: seq<Policy>, s: Signals, i: nat) {
    i < |policies| && policies[i].matches(s) && forall j :: 0 <= j < i ==> !policies[j].matches(s)
  }

  /** evaluateRemediationPolicies */
  method EvaluatePolicies(policies: seq<Policy>, s: Signals) returns (action: Option<Action>)
    ensures action.None? <==> forall i :: 0 <= i < |policies| ==> !policies[i].matches(s)
    ensures action.Some? ==> exists i: nat :: IsFirst(policies, s, i) && action == Some(policies[i].action)
  {
    for i := 0 to |policies|
      invariant forall j :: 0 <= j < i ==> !policies[j].matches(s)
    {
      if policies[i].matches(s) {
        assert IsFirst(policies, s, i);
        return Some(policies[i].action);
      }
    }
    return None;
  }

  /** What the built-in policies decide. */
  function Decision(c: Config, s: Signals): Option<Action> {
    if !s.sessionAlive then Some(RequeueNow)
    else if s.prompt || s.hooks > 0 then Some(RecordInput)
    else if s.nudges > 0 && s.attempts >= c.maxAttempts then Some(Block)
    else if 0 < s.nudges < c.maxNudges && !s.phaseChanged && s.idle >= c.phaseStuck then Some(NudgeTargeted)
    else if s.nudges >= c.maxNudges && !s.phaseChanged then Some(RequeueNow)
    else None
  }

  lemma FirstMatchIsTheDecision(c: Config, s: Signals, i: nat)
    requires IsFirst(BuiltinPolicies(c), s, i)
    ensures Decision(c, s) == Some(BuiltinPolicies(c)[i].action)
  {
    var ps := BuiltinPolicies(c);
    assert ps[0].matches(s) == !s.sessionAlive;
    assert ps[1].matches(s) == (s.prompt || s.hooks > 0);
    assert ps[2].matches(s) == (s.nudges > 0 && s.attempts >= c.maxAttempts);
    assert ps[3].matches(s) == (s.nudges > 0 && s.nudges < c.maxNudges && !s.phaseChanged && s.idle >= c.phaseStuck);
    assert i > 0 ==> !ps[0].matches(s);
    assert i > 1 ==> !ps[1].matches(s);
    assert i > 2 ==> !ps[2].matches(s);
    assert i > 3 ==> !ps[3].matches(s);
  }

  lemma NoMatchIsNoDecision(c: Config, s: Signals)
    requires forall i :: 0 <= i < |BuiltinPolicies(c)| ==> !BuiltinPolicies(c)[i].matches(s)
    ensures Decision(c, s) == None
  {
    var ps := BuiltinPolicies(c);
    assert !ps[0].matches(s) && !ps[1].matches(s) && !ps[2].matches(s) && !ps[3].matches(s) && !ps[4].matches(s);
  }

  // ----- one tick of one run ---------------------------------------------------------------------------

  /** Where the run's claim stands. */
  datatype Progress =
    | NotInProgress
    | Unmeasured
    | AwaitingInput
    | Finalizing
    | Rebasing
    | Working

  datatype Agent = Agent(hasSession: bool, offline: bool, alive: bool, prompt: bool)

  /**
   * Where a call made during a visit throws, if one does: before anything is
   * remembered, once the phase is, or after all of the visit's own updates.
   */
  datatype Fault = NoFault | AtOnce | AfterPhase | AtEnd

  /** What a tick observes of a run; `delivered` is whether a queued nudge reaches its session. */
  datatype Observation = Observation(progress: Progress, idle: Time, hooks: nat, agent: Option<Agent>, phase: Option<Phase>,
                                     attempts: nat, now: Time, delivered: bool, fault: Fault)

  /** What the coordinator remembers of a run between ticks. */
  datatype Memory = Memory(nudges: nat, lastNudge: Option<Time>, phase: Option<Phase>)

  const FORGOTTEN := Memory(0, None, None)

  datatype Outcome = Left | Nudged | NudgeLost | InputRecorded | Requeued | Blocked | ForceFailed | Retried

  predicate Reachable(a: Option<Agent>) {
    a.Some? && a.value.hasSession && !a.value.offline
  }

  predicate PhaseChanged(m: Memory, o: Observation) {
    o.phase.Some? && m.phase.Some? && o.phase != m.phase
  }

  /** The memory once the phase of this tick is recorded: a new phase clears the count. */
  function Observed(m: Memory, o: Observation): Memory {
    Memory(if PhaseChanged(m, o) then 0 else m.nudges, m.lastNudge, if o.phase.Some? then o.phase else m.phase)
  }

  function SignalsOf(m: Memory, o: Observation, a: Agent): Signals {
    var alive := a.hasSession && !a.offline && a.alive;
    Signals(alive, alive && a.prompt, o.hooks, o.attempts, Observed(m, o).nudges, PhaseChanged(m, o), o.idle)
  }

  /** A nudge that reached the session. */
  function Sent(m: Memory, o: Observation): (Memory, Outcome) {
    (m.(nudges := m.nudges + 1, lastNudge := Some(o.now)), Nudged)
  }

  /** A nudge of the fallback is queued, and sent once the tick has visited every claim. */
  function Nudge(m: Memory, o: Observation): (Memory, Outcome) {
    if o.delivered then Sent(m, o) else (m, NudgeLost)
  }

  /** executeRemediation */
  function Remediate(m: Memory, o: Observation, action: Action): (Memory, Outcome) {
    match action
    case RecordInput => (m, InputRecorded)
    case NudgeTargeted => if Reachable(o.agent) then Sent(m, o) else (m, Left)
    case RequeueNow => (FORGOTTEN, Requeued)
    case Block => (FORGOTTEN, Blocked)
  }

  /** The staleness cascade below the policies. */
  function Cascade(c: Config, m: Memory, o: Observation): (Memory, Outcome) {
    if o.idle >= c.forceFail then (FORGOTTEN, ForceFailed)
    else if o.idle < c.staleNudge then (m, Left)
    else if m.lastNudge.Some? && o.now - m.lastNudge.value < c.interval then (m, Left)
    else if !Reachable(o.agent) then (m, Left)
    else Nudge(m, o)
  }

  function RetryFinalization(c: Config, m: Memory, o: Observation): (Memory, Outcome) {
    if o.idle < c.retryAfter || o.now - (if m.lastNudge.Some? then m.lastNudge.value else 0) < c.interval then (m, Left)
    else if !Reachable(o.agent) || o.agent.value.prompt then (m.(lastNudge := None), Retried)
    else (m.(lastNudge := Some(o.now)), Retried)
  }

  /** A visit in which nothing throws before its updates are made. */
  function Undisturbed(c: Config, m: Memory, o: Observation): (Memory, Outcome) {
    match o.progress
    case NotInProgress => (FORGOTTEN, Left)
    case Unmeasured => (m, Left)
    case AwaitingInput => (m.(lastNudge := None), Left)
    case Finalizing => (m.(lastNudge := None), Left)
    case Rebasing => RetryFinalization(c, m, o)
    case Working =>
      var seen := Observed(m, o);
      var action := if o.agent.Some? then Decision(c, SignalsOf(m, o, o.agent.value)) else None;
      if action.Some? then Remediate(seen, o, action.value) else Cascade(c, seen, o)
  }

  /** A claim that is not in progress is only forgotten; any other visit makes calls that may throw. */
  predicate Throws(o: Observation) {
    o.progress != NotInProgress && o.fault != NoFault
  }

  function Visit(c: Config, m: Memory, o: Observation): (Memory, Outcome) {
    if Throws(o) && o.fault == AtOnce then (m, Left)
    else if Throws(o) && o.fault == AfterPhase then (if o.progress == Working then Observed(m, o) else m, Left)
    else Undisturbed(c, m, o)
  }

  // ----- the nudge budget ---------------------------------------------------------------------------------

  function Visits(c: Config, m: Memory, os: seq<Observation>): Memory
    decreases |os|
  {
    if os == [] then m else Visits(c, Visit(c, m, os[0]).0, os[1..])
  }

  lemma VisitStaysInBudget(c: Config, m: Memory, o: Observation)
    requires c.maxNudges >= 1 && m.nudges <= c.maxNudges
    ensures Visit(c, m, o).0.nudges <= c.maxNudges
  {
  }

  /** Across any ticks, with whatever flags, a run's nudge counter never exceeds the limit. */
  lemma NudgesAreBounded(maxAttempts: Option<int>, phaseStuck: Option<int>, maxNudges: Option<int>,
                         staleNudge: Time, forceFail: Time, retryAfter: Time, interval: Time, os: seq<Observation>)
    ensures var c := LoadConfig(maxAttempts, phaseStuck, maxNudges, staleNudge, forceFail, retryAfter, interval);
            Visits(c, FORGOTTEN, os).nudges <= c.maxNudges
  {
    VisitsStayInBudget(LoadConfig(maxAttempts, phaseStuck, maxNudges, staleNudge, forceFail, retryAfter, interval), FORGOTTEN, os);
  }

  lemma {:induction false} VisitsStayInBudget(c: Config, m: Memory, os: seq<Observation>)
    requires c.maxNudges >= 1 && m.nudges <= c.maxNudges
    ensures Visits(c, m, os).nudges <= c.maxNudges
    decreases |os|
  {
    hide Visit;
    if os != [] {
      VisitStaysInBudget(c, m, os[0]);
      VisitsStayInBudget(c, Visit(c, m, os[0]).0, os[1..]);
    }
  }

  /** A run at the limit in an unchanged phase is never nudged; if its agent is known, it is remediated instead. */
  lemma AtTheLimitIsRemediated(c: Config, m: Memory, o: Observation)
    requires c.maxNudges >= 1 && m.nudges >= c.maxNudges && !PhaseChanged(m, o)
    ensures Visit(c, m, o).1 !in {Nudged, NudgeLost}
    ensures o.progress == Working && o.agent.Some? && o.fault == NoFault ==> Visit(c, m, o).1 in {Requeued, InputRecorded, Blocked}
  {
  }

  /** A visit that neither ends the run nor starts a new phase. */
  predicate Keeps(c: Config, m: Memory, o: Observation) {
    o.progress != NotInProgress && !PhaseChanged(m, o) && Visit(c, m, o).1 !in {Requeued, Blocked, ForceFailed}
  }

  /** The nudges delivered in a list of visits. */
  function Delivered(c: Config, m: Memory, os: seq<Observation>): nat
    decreases |os|
  {
    if os == [] then 0
    else (if Visit(c, m, os[0]).1 == Nudged then 1 else 0) + Delivered(c, Visit(c, m, os[0]).0, os[1..])
  }

  predicate AllKeep(c: Config, m: Memory, os: seq<Observation>)
    decreases |os|
  {
    os == [] || (Keeps(c, m, os[0]) && AllKeep(c, Visit(c, m, os[0]).0, os[1..]))
  }

  lemma CountedVisit(c: Config, m: Memory, o: Observation)
    requires Keeps(c, m, o)
    ensures Visit(c, m, o).0.nudges == m.nudges + if Visit(c, m, o).1 == Nudged then 1 else 0
  {
  }

  /** While a run stays in one phase the counter counts the delivered nudges, so there are at most maxNudges of them. */
  lemma {:induction false} CounterCountsNudges(c: Config, m: Memory, os: seq<Observation>)
    requires c.maxNudges >= 1 && m.nudges <= c.maxNudges && AllKeep(c, m, os)
    ensures Visits(c, m, os).nudges == m.nudges + Delivered(c, m, os)
    ensures Delivered(c, m, os) <= c.maxNudges - m.nudges
    decreases |os|
  {
    hide Visit, Keeps;
    if os != [] {
      CountedVisit(c, m, os[0]);
      VisitStaysInBudget(c, m, os[0]);
      CounterCountsNudges(c, Visit(c, m, os[0]).0, os[1..]);
    }
  }

  /** The bound rests on the flags: with a limit of zero the first visit of a new phase would exceed it. */
  lemma ZeroLimitWouldBeExceeded()
    ensures var c := Config(3, 10, 0, 5, 100, 5, 5);
            var o := Observation(Working, 7, 0, Some(Agent(true, false, true, false)), Some(2), 0, 50, true, NoFault);
            Visit(c, Memory(0, None, Some(1)), o).0.nudges > c.maxNudges
  {
  }

  // ----- what a visit does, by cause ---------------------------------------------------------------------------

  /** The session answers. */
  predicate Answers(o: Observation) {
    o.agent.Some? && o.agent.value.hasSession && !o.agent.value.offline && o.agent.value.alive
  }

  /** The worker asks for something: a blocking prompt, or a hook event. */
  predicate Asks(o: Observation) {
    o.hooks > 0 || (Answers(o) && o.agent.value.prompt)
  }

  /** The nudges that count in the phase of this visit. */
  function NudgesInPhase(m: Memory, o: Observation): nat {
    if o.phase.Some? && m.phase.Some? && o.phase != m.phase then 0 else m.nudges
  }

  /** The phase is the one remembered, or none is known. */
  predicate SamePhase(m: Memory, o: Observation) {
    !(o.phase.Some? && m.phase.Some? && o.phase != m.phase)
  }

  /** The run has waited long enough for the fallback: stale, not yet hopeless, and not nudged within the interval. */
  predicate NudgeDue(c: Config, m: Memory, o: Observation) {
    c.staleNudge <= o.idle < c.forceFail && (m.lastNudge.Some? ==> m.lastNudge.value + c.interval <= o.now)
  }

  /**
   * A working run whose agent is known, in a visit where nothing throws: a dead
   * session is requeued; a question is recorded; a task out of attempts is
   * blocked once nudged; a stuck phase is nudged up to the limit and requeued
   * from there on; anything else is left to the fallback.
   */
  lemma WorkerVisitOutcome(c: Config, m: Memory, o: Observation)
    requires o.progress == Working && o.agent.Some? && o.fault == NoFault
    ensures var n, outcome := NudgesInPhase(m, o), Visit(c, m, o).1;
            if !Answers(o) then outcome == Requeued
            else if Asks(o) then outcome == InputRecorded
            else if n > 0 && o.attempts >= c.maxAttempts then outcome == Blocked
            else if SamePhase(m, o) && n >= c.maxNudges then outcome == Requeued
            else if SamePhase(m, o) && n > 0 && o.idle >= c.phaseStuck then outcome == Nudged
            else if o.idle >= c.forceFail then outcome == ForceFailed
            else if NudgeDue(c, m, o) then outcome == (if o.delivered then Nudged else NudgeLost)
            else outcome == Left
  {
  }

  /** Without an agent record a run is only force-failed, never nudged. */
  lemma AgentlessVisitOutcome(c: Config, m: Memory, o: Observation)
    requires o.progress == Working && o.agent.None? && o.fault == NoFault
    ensures Visit(c, m, o).1 == if o.idle >= c.forceFail then ForceFailed else Left
  {
  }

  /** What is remembered: nothing of a run that ended, the time of a nudge, and the latest phase. */
  lemma VisitRemembers(c: Config, m: Memory, o: Observation)
    requires o.fault == NoFault
    ensures var (after, outcome) := Visit(c, m, o);
            && (outcome in {Requeued, Blocked, ForceFailed} || o.progress == NotInProgress ==> after == Memory(0, None, None))
            && (outcome == Nudged ==> after.lastNudge == Some(o.now) && after.nudges == NudgesInPhase(m, o) + 1)
            && (o.progress == Working && outcome !in {Requeued, Blocked, ForceFailed} ==>
                  after.phase == (if o.phase.Some? then o.phase else m.phase) && (outcome != Nudged ==> after.nudges == NudgesInPhase(m, o) && after.lastNudge == m.lastNudge))
            && (o.progress in {AwaitingInput, Finalizing} ==> after == m.(lastNudge := None))
  {
  }

  /** A stalled rebase is asked for again at most once per interval. */
  lemma RetryOutcome(c: Config, m: Memory, o: Observation)
    requires o.progress == Rebasing && o.fault == NoFault
    ensures var (after, outcome) := Visit(c, m, o);
            && (outcome == Retried <==> o.idle >= c.retryAfter && (if m.lastNudge.Some? then m.lastNudge.value else 0) + c.interval <= o.now)
            && after.nudges == m.nudges && after.phase == m.phase
            && (outcome == Retried ==>
                  after.lastNudge == if o.agent.Some? && o.agent.value.hasSession && !o.agent.value.offline && !o.agent.value.prompt then Some(o.now) else None)
            && (outcome != Retried ==> after == m)
  {
  }

  // ----- the coordinator's maps --------------------------------------------------------------------------------

  class Tracker {
    var nudgeCount: map<RunId, nat>
    var nudgeAt: map<RunId, Time>
    var lastPhase: map<RunId, Phase>
    const config: Config

    constructor (config: Config)
      ensures this.config == config && forall run :: MemoryOf(run) == FORGOTTEN
    {
      nudgeCount, nudgeAt, lastPhase, this.config := map[], map[], map[], config;
    }

    ghost function MemoryOf(run: RunId): Memory
      reads this
    {
      Memory(if run in nudgeCount then nudgeCount[run] else 0,
             if run in nudgeAt then Some(nudgeAt[run]) else None,
             if run in lastPhase then Some(lastPhase[run]) else None)
    }

    ghost predicate OthersUnchanged(before: map<RunId, nat>, at: map<RunId, Time>, phases: map<RunId, Phase>, run: RunId)
      reads this
    {
      forall r :: r != run ==>
        && (r in nudgeCount <==> r in before) && (r in before ==> nudgeCount[r] == before[r])
        && (r in nudgeAt <==> r in at) && (r in at ==> nudgeAt[r] == at[r])
        && (r in lastPhase <==> r in phases) && (r in phases ==> lastPhase[r] == phases[r])
    }

    method Forget(run: RunId)
      modifies this
      ensures MemoryOf(run) == FORGOTTEN
      ensures OthersUnchanged(old(nudgeCount), old(nudgeAt), old(lastPhase), run)
    {
      nudgeCount, nudgeAt, lastPhase := nudgeCount - {run}, nudgeAt - {run}, lastPhase - {run};
    }

    /** A nudge that reached the session is counted and timed. */
    method CountNudge(run: RunId, now: Time)
      modifies this`nudgeCount, this`nudgeAt
      ensures MemoryOf(run) == old(MemoryOf(run)).(nudges := old(MemoryOf(run)).nudges + 1, lastNudge := Some(now))
      ensures OthersUnchanged(old(nudgeCount), old(nudgeAt), old(lastPhase), run)
    {
      nudgeCount := nudgeCount[run := (if run in nudgeCount then nudgeCount[run] else 0) + 1];
      nudgeAt := nudgeAt[run := now];
    }

    method ExecuteRemediation(run: RunId, o: Observation, action: Action) returns (outcome: Outcome)
      modifies this
      ensures (MemoryOf(run), outcome) == Remediate(old(MemoryOf(run)), o, action)
      ensures OthersUnchanged(old(nudgeCount), old(nudgeAt), old(lastPhase), run)
    {
      match action
      case RecordInput => outcome := InputRecorded;
      case NudgeTargeted =>
        outcome := Left;
        if Reachable(o.agent) {
          CountNudge(run, o.now);
          outcome := Nudged;
        }
      case RequeueNow =>
        Forget(run);
        outcome := Requeued;
      case Block =>
        Forget(run);
        outcome := Blocked;
    }

    /** The cascade; a nudge is only queued here. */
    method RunCascade(run: RunId, o: Observation) returns (outcome: Outcome)
      modifies this
      ensures (MemoryOf(run), outcome) == Cascade(config, old(MemoryOf(run)), Queued(o))
      ensures OthersUnchanged(old(nudgeCount), old(nudgeAt), old(lastPhase), run)
    {
      outcome := Left;
      if o.idle >= config.forceFail {
        Forget(run);
        return ForceFailed;
      }
      if o.idle < config.staleNudge { return; }
      if run in nudgeAt && o.now - nudgeAt[run] < config.interval { return; }
      if !Reachable(o.agent) { return; }
      outcome := NudgeLost;
    }

    /** The evaluation of the policies for a worker with an agent record. */
    method Decide(s: Signals) returns (action: Option<Action>)
      ensures action == Decision(config, s)
    {
      action := EvaluatePolicies(BuiltinPolicies(config), s);
      if action.Some? {
        ghost var i: nat :| IsFirst(BuiltinPolicies(config), s, i) && action == Some(BuiltinPolicies(config)[i].action);
        FirstMatchIsTheDecision(config, s, i);
      } else {
        NoMatchIsNoDecision(config, s);
      }
    }

    /** Record the phase of this tick; a changed phase clears the count. */
    method TrackPhase(run: RunId, phase: Option<Phase>) returns (changed: bool)
      modifies this`nudgeCount, this`lastPhase
      ensures forall o: Observation :: o.phase == phase ==>
                MemoryOf(run) == Observed(old(MemoryOf(run)), o) && changed == PhaseChanged(old(MemoryOf(run)), o)
      ensures OthersUnchanged(old(nudgeCount), old(nudgeAt), old(lastPhase), run)
    {
      changed := phase.Some? && run in lastPhase && phase.value != lastPhase[run];
      if phase.Some? { lastPhase := lastPhase[run := phase.value]; }
      if changed { nudgeCount := nudgeCount[run := 0]; }
    }

    /** The loop body of enforceInProgressLifecycle for one claim; a nudge of the fallback is queued. */
    method VisitRun(run: RunId, o: Observation) returns (outcome: Outcome)
      modifies this
      ensures (MemoryOf(run), outcome) == Visit(config, old(MemoryOf(run)), Queued(o))
      ensures OthersUnchanged(old(nudgeCount), old(nudgeAt), old(lastPhase), run)
    {
      hide Cascade, Remediate, Decision;
      outcome := Left;
      if o.progress == NotInProgress {
        Forget(run);
        return;
      }
      if o.fault == AtOnce { return; }
      if o.progress == AwaitingInput || o.progress == Finalizing {
        if o.fault == AfterPhase { return; }
        nudgeAt := nudgeAt - {run};
      } else if o.progress == Rebasing {
        if o.fault == AfterPhase { return; }
        var last := if run in nudgeAt then nudgeAt[run] else 0;
        if o.idle >= config.retryAfter && o.now - last >= config.interval {
          outcome := Retried;
          nudgeAt := if !Reachable(o.agent) || o.agent.value.prompt then nudgeAt - {run} else nudgeAt[run := o.now];
        }
      } else if o.progress == Working {
        outcome := VisitWorker(run, o);
      }
    }

    method VisitWorker(run: RunId, o: Observation) returns (outcome: Outcome)
      requires o.progress == Working && o.fault != AtOnce
      modifies this
      ensures (MemoryOf(run), outcome) == Visit(config, old(MemoryOf(run)), Queued(o))
      ensures OthersUnchanged(old(nudgeCount), old(nudgeAt), old(lastPhase), run)
    {
      hide Cascade, Decision;
      outcome := Left;
      ghost var was := MemoryOf(run);
      var changed := TrackPhase(run, o.phase);
      assert MemoryOf(run) == Observed(was, o) == Observed(was, Queued(o));
      if o.fault == AfterPhase { return; }
      var action := None;
      if o.agent.Some? {
        var a := o.agent.value;
        var alive := a.hasSession && !a.offline && a.alive;
        var count := if run in nudgeCount then nudgeCount[run] else 0;
        var s := Signals(alive, alive && a.prompt, o.hooks, o.attempts, count, changed, o.idle);
        assert s == SignalsOf(was, o, a) == SignalsOf(was, Queued(o), a);
        action := Decide(s);
      }
      if action.Some? {
        outcome := ExecuteRemediation(run, o, action.value);
      } else {
        outcome := RunCascade(run, o);
      }
    }

    /** The visits of a tick, in order, until one throws. */
    method VisitAll(runs: seq<RunId>, seen: RunId -> Observation) returns (outcomes: seq<Outcome>, threw: bool)
      requires forall i, j :: 0 <= i < j < |runs| ==> runs[i] != runs[j]
      modifies this
      ensures |outcomes| <= |runs| && (threw <==> exists i :: 0 <= i < |runs| && Throws(seen(runs[i])))
      ensures if threw then outcomes != [] && Throws(seen(runs[|outcomes| - 1])) else |outcomes| == |runs|
      ensures forall i :: 0 <= i < |outcomes| - 1 ==> !Throws(seen(runs[i]))
      ensures forall i :: 0 <= i < |outcomes| ==>
                (MemoryOf(runs[i]), outcomes[i]) == Visit(config, old(MemoryOf(runs[i])), Queued(seen(runs[i])))
      ensures forall r :: (forall i :: 0 <= i < |outcomes| ==> runs[i] != r) ==> MemoryOf(r) == old(MemoryOf(r))
    {
      hide Visit, Throws;
      outcomes := [];
      for i := 0 to |runs|
        invariant |outcomes| == i && forall j :: 0 <= j < i ==> !Throws(seen(runs[j]))
        invariant forall j :: 0 <= j < i ==> (MemoryOf(runs[j]), outcomes[j]) == Visit(config, old(MemoryOf(runs[j])), Queued(seen(runs[j])))
        invariant forall r :: (forall j :: 0 <= j < i ==> runs[j] != r) ==> MemoryOf(r) == old(MemoryOf(r))
      {
        label before:
        var outcome := VisitRun(runs[i], seen(runs[i]));
        assert forall r :: r != runs[i] ==> MemoryOf(r) == old@before(MemoryOf(r));
        outcomes := outcomes + [outcome];
        if Throws(seen(runs[i])) { return outcomes, true; }
      }
      return outcomes, false;
    }

    /**
     * enforceInProgressLifecycle: visit the claims in order.  A visit that throws
     * ends the tick: later claims are not visited and queued nudges are dropped.
     * Otherwise every claim is visited and the queued nudges go out.
     */
    method EnforceInProgressLifecycle(runs: seq<RunId>, seen: RunId -> Observation) returns (outcomes: seq<Outcome>, threw: bool)
      requires forall i, j :: 0 <= i < j < |runs| ==> runs[i] != runs[j]
      modifies this
      ensures |outcomes| <= |runs| && (threw <==> exists i :: 0 <= i < |runs| && Throws(seen(runs[i])))
      ensures if threw then outcomes != [] && Throws(seen(runs[|outcomes| - 1])) else |outcomes| == |runs|
      ensures forall i :: 0 <= i < |outcomes| - 1 ==> !Throws(seen(runs[i]))
      ensures forall i :: 0 <= i < |outcomes| ==>
                (MemoryOf(runs[i]), outcomes[i]) ==
                Visit(config, old(MemoryOf(runs[i])), if threw then Queued(seen(runs[i])) else seen(runs[i]))
      ensures forall r :: (forall i :: 0 <= i < |outcomes| ==> runs[i] != r) ==> MemoryOf(r) == old(MemoryOf(r))
    {
      hide Visit, Throws;
      outcomes, threw := VisitAll(runs, seen);
      if threw { return; }
      for i := 0 to |runs|
        invariant |outcomes| == |runs|
        invariant forall j :: 0 <= j < |runs| ==>
                    (MemoryOf(runs[j]), outcomes[j]) ==
                    Visit(config, old(MemoryOf(runs[j])), if j < i then seen(runs[j]) else Queued(seen(runs[j])))
        invariant forall r :: (forall j :: 0 <= j < |runs| ==> runs[j] != r) ==> MemoryOf(r) == old(MemoryOf(r))
      {
        var o := seen(runs[i]);
        QueuedThenSent(config, old(MemoryOf(runs[i])), o);
        if outcomes[i] == NudgeLost && o.delivered {
          label before:
          CountNudge(runs[i], o.now);
          assert forall r :: r != runs[i] ==> MemoryOf(r) == old@before(MemoryOf(r));
          outcomes := outcomes[i := Nudged];
        }
      }
    }
  }

  /** The visit as the loop leaves it, its nudge still queued. */
  function Queued(o: Observation): Observation {
    o.(delivered := false)
  }

  /** Sending the queued nudge completes the visit. */
  lemma QueuedThenSent(c: Config, m: Memory, o: Observation)
    ensures Visit(c, m, o) ==
            if Visit(c, m, Queued(o)).1 == NudgeLost && o.delivered then Sent(Visit(c, m, Queued(o)).0, o) else Visit(c, m, Queued(o))
  {
  }
}
