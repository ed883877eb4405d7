/**
 * The choice of tasks to dispatch in one tick: repeated selection of the next
 * spawnable task under the worker capacity (coordinator.ts).
 */
module DispatchSelection {
  import opened Prelude
  import opened TaskContract
  import opened TaskStore
  import opened Claims

  /** A backlog task as the scheduler sees it; `planning` and `owner` are unset when absent. */
  datatype Task = Task(ref: Ref, status: Status, requeueAfter: Option<Time>, planning: Option<Planning>,
                       knownType: bool, owner: Option<string>, deps: seq<Ref>, priority: Option<Priority>)

  function Rank(t: Task): nat {
    match t.priority
    case Some(Low) => 0
    case Some(Normal) => 1
    case Some(High) => 2
    case Some(Critical) => 3
    case None => 1
  }

  predicate UniqueRefs(tasks: seq<Task>) {
    forall i, j :: 0 <= i < j < |tasks| ==> tasks[i].ref != tasks[j].ref
  }

  predicate IsFinished(tasks: seq<Task>, ref: Ref) {
    exists i :: 0 <= i < |tasks| && tasks[i].ref == ref && Finished(tasks[i].status)
  }

  /** The conditions of the scan apart from the excluded refs. */
  predicate Eligible(tasks: seq<Task>, now: Time, t: Task) {
    && t.status == Todo
    && (t.requeueAfter.None? || t.requeueAfter.value <= now)
    && (t.planning.None? || t.planning == Some(ReadyForDispatch))
    && t.knownType
    && (t.owner.None? || t.owner == Some(""))
    && forall d :: d in t.deps ==> IsFinished(tasks, d)
  }

  // ----- the reference: one stable order --------------------------------------------------------

  function Filter(ts: seq<Task>, p: Task -> bool): (out: seq<Task>)
    ensures |out| <= |ts|
    ensures forall t :: t in out <==> t in ts && p(t)
    decreases |ts|
  {
    if ts == [] then []
    else if p(ts[0]) then [ts[0]] + Filter(ts[1..], p)
    else Filter(ts[1..], p)
  }

  function HasRank(rank: nat): Task -> bool {
    (t: Task) => Rank(t) == rank
  }

  function OfRank(ts: seq<Task>, rank: nat): seq<Task> {
    Filter(ts, HasRank(rank))
  }

  /** Highest priority first, backlog order within a priority. */
  function ByPriority(ts: seq<Task>): seq<Task> {
    OfRank(ts, 3) + OfRank(ts, 2) + OfRank(ts, 1) + OfRank(ts, 0)
  }

  /** The tasks a scan would accept, in backlog order. */
  function Candidates(tasks: seq<Task>, now: Time, excluded: set<Ref>): seq<Task> {
    Filter(tasks, Accepts(tasks, now, excluded))
  }

  function Accepts(tasks: seq<Task>, now: Time, excluded: set<Ref>): Task -> bool {
    (t: Task) => Eligible(tasks, now, t) && t.ref !in excluded
  }

  // ----- filters ------------------------------------------------------------------------------------

  lemma {:induction false} FilterSame(ts: seq<Task>, p: Task -> bool, q: Task -> bool)
    requires forall t :: t in ts ==> p(t) == q(t)
    ensures Filter(ts, p) == Filter(ts, q)
    decreases |ts|
  {
    if ts != [] {
      assert ts[0] in ts;
      FilterSame(ts[1..], p, q);
    }
  }

  lemma {:induction false} FilterTwice(ts: seq<Task>, p: Task -> bool, q: Task -> bool, both: Task -> bool)
    requires forall t :: t in ts ==> both(t) == (p(t) && q(t))
    ensures Filter(Filter(ts, p), q) == Filter(ts, both)
    decreases |ts|
  {
    if ts != [] {
      assert ts[0] in ts;
      FilterTwice(ts[1..], p, q, both);
      if p(ts[0]) { assert ([ts[0]] + Filter(ts[1..], p))[1..] == Filter(ts[1..], p); }
    }
  }

  lemma {:induction false} FilterAll(ts: seq<Task>, p: Task -> bool)
    requires forall t :: t in ts ==> p(t)
    ensures Filter(ts, p) == ts
    decreases |ts|
  {
    if ts != [] {
      assert ts[0] in ts;
      FilterAll(ts[1..], p);
    }
  }

  lemma {:induction false} FilterNone(ts: seq<Task>, p: Task -> bool)
    requires forall t :: t in ts ==> !p(t)
    ensures Filter(ts, p) == []
    decreases |ts|
  {
    if ts != [] {
      assert ts[0] in ts;
      FilterNone(ts[1..], p);
    }
  }

  lemma {:induction false} FilterIsUnique(ts: seq<Task>, p: Task -> bool)
    requires UniqueRefs(ts)
    ensures UniqueRefs(Filter(ts, p))
    decreases |ts|
  {
    if ts != [] {
      FilterIsUnique(ts[1..], p);
      var rest := Filter(ts[1..], p);
      forall t | t in rest ensures t.ref != ts[0].ref {
        var i :| 0 <= i < |ts[1..]| && ts[1..][i] == t;
        assert ts[i + 1] == t;
      }
      assert forall i :: 0 <= i < |rest| ==> rest[i] in rest;
    }
  }

  /** The first element a filter keeps. */
  lemma {:induction false} FilterFirst(ts: seq<Task>, p: Task -> bool, j: nat)
    requires j < |ts| && p(ts[j]) && forall i :: 0 <= i < j ==> !p(ts[i])
    ensures Filter(ts, p) != [] && Filter(ts, p)[0] == ts[j]
    decreases |ts|
  {
    if j > 0 { FilterFirst(ts[1..], p, j - 1); }
  }

  // ----- taking the best removes the head of the order --------------------------------------------------

  function OtherThan(ref: Ref): Task -> bool {
    (t: Task) => t.ref != ref
  }

  function Without(ts: seq<Task>, ref: Ref): seq<Task> {
    Filter(ts, OtherThan(ref))
  }

  lemma WithoutHead(ts: seq<Task>)
    requires UniqueRefs(ts) && ts != []
    ensures Without(ts, ts[0].ref) == ts[1..]
  {
    FilterAll(ts[1..], OtherThan(ts[0].ref));
  }

  lemma WithoutAbsent(ts: seq<Task>, ref: Ref)
    requires forall t :: t in ts ==> t.ref != ref
    ensures Without(ts, ref) == ts
  {
    FilterAll(ts, OtherThan(ref));
  }

  lemma RankThenRemove(ts: seq<Task>, ref: Ref, rank: nat)
    ensures OfRank(Without(ts, ref), rank) == Without(OfRank(ts, rank), ref)
  {
    var both := (t: Task) => Rank(t) == rank && t.ref != ref;
    FilterTwice(ts, HasRank(rank), OtherThan(ref), both);
    FilterTwice(ts, OtherThan(ref), HasRank(rank), both);
  }

  lemma OfRankIsUnique(ts: seq<Task>, rank: nat)
    requires UniqueRefs(ts)
    ensures UniqueRefs(OfRank(ts, rank))
  {
    FilterIsUnique(ts, HasRank(rank));
  }

  /** Removing the head from its own rank drops it there, and nothing elsewhere. */
  lemma RemoveFromRank(ts: seq<Task>, head: Task, rank: nat)
    requires UniqueRefs(ts) && head in ts && (Rank(head) == rank ==> OfRank(ts, rank) != [] && OfRank(ts, rank)[0] == head)
    ensures OfRank(Without(ts, head.ref), rank) == if Rank(head) == rank then OfRank(ts, rank)[1..] else OfRank(ts, rank)
  {
    RankThenRemove(ts, head.ref, rank);
    OfRankIsUnique(ts, rank);
    if Rank(head) == rank {
      WithoutHead(OfRank(ts, rank));
    } else {
      forall t | t in OfRank(ts, rank) ensures t.ref != head.ref { SameRefSameTask(ts, t, head); }
      WithoutAbsent(OfRank(ts, rank), head.ref);
    }
  }

  lemma SameRefSameTask(ts: seq<Task>, t: Task, u: Task)
    requires UniqueRefs(ts) && t in ts && u in ts
    ensures t.ref == u.ref ==> t == u
  {
    var i :| 0 <= i < |ts| && ts[i] == t;
    var j :| 0 <= j < |ts| && ts[j] == u;
  }

  lemma RankIsSmall(t: Task)
    ensures Rank(t) <= 3
  {
  }

  /** The head of the order is in the first non-empty rank. */
  lemma HeadOfOrder(ts: seq<Task>)
    requires ByPriority(ts) != []
    ensures var head := ByPriority(ts)[0];
            && head in ts && OfRank(ts, Rank(head)) != [] && OfRank(ts, Rank(head))[0] == head
            && forall r :: Rank(head) < r <= 3 ==> OfRank(ts, r) == []
  {
    var head := ByPriority(ts)[0];
    if OfRank(ts, 3) != [] { assert head in OfRank(ts, 3); }
    else if OfRank(ts, 2) != [] { assert head in OfRank(ts, 2); }
    else if OfRank(ts, 1) != [] { assert head in OfRank(ts, 1); }
    else { assert head in OfRank(ts, 0); }
  }

  /** Excluding the best task leaves the rest of the order. */
  lemma TakingTheBest(ts: seq<Task>)
    requires UniqueRefs(ts) && ByPriority(ts) != []
    ensures ByPriority(Without(ts, ByPriority(ts)[0].ref)) == ByPriority(ts)[1..]
  {
    hide Filter, OfRank, Without, Rank;
    var head := ByPriority(ts)[0];
    HeadOfOrder(ts);
    RankIsSmall(head);
    RemoveFromRank(ts, head, 3);
    RemoveFromRank(ts, head, 2);
    RemoveFromRank(ts, head, 1);
    RemoveFromRank(ts, head, 0);
  }

  lemma ExcludingOneMore(tasks: seq<Task>, now: Time, excluded: set<Ref>, ref: Ref)
    ensures Candidates(tasks, now, excluded + {ref}) == Without(Candidates(tasks, now, excluded), ref)
  {
    FilterTwice(tasks, Accepts(tasks, now, excluded), OtherThan(ref), Accepts(tasks, now, excluded + {ref}));
  }

  // ----- the order is by urgency ------------------------------------------------------------------------

  /** Critical before high before normal (or none) before low. */
  predicate MoreUrgent(p: Option<Priority>, q: Option<Priority>) {
    match p
    case Some(Critical) => q != Some(Critical)
    case Some(High) => q in {None, Some(Normal), Some(Low)}
    case Some(Low) => false
    case _ => q == Some(Low)
  }

  lemma RankIsUrgency(a: Task, b: Task)
    ensures Rank(a) > Rank(b) <==> MoreUrgent(a.priority, b.priority)
  {
  }

  lemma {:induction false} FilterKeepsOrder(ts: seq<Task>, p: Task -> bool, i: nat, j: nat) returns (a: nat, b: nat)
    requires i < j < |Filter(ts, p)|
    ensures a < b < |ts| && ts[a] == Filter(ts, p)[i] && ts[b] == Filter(ts, p)[j]
    decreases |ts|
  {
    if !p(ts[0]) {
      a, b := FilterKeepsOrder(ts[1..], p, i, j);
      a, b := a + 1, b + 1;
    } else if i == 0 {
      var rest := Filter(ts[1..], p);
      assert rest[j - 1] in rest;
      b :| 0 <= b < |ts[1..]| && ts[1..][b] == rest[j - 1];
      a, b := 0, b + 1;
    } else {
      a, b := FilterKeepsOrder(ts[1..], p, i - 1, j - 1);
      a, b := a + 1, b + 1;
    }
  }

  /** The rank of a position of the order, and the place in that rank's list. */
  lemma PlaceInOrder(ts: seq<Task>, i: nat) returns (r: nat, k: nat, before: nat)
    requires i < |ByPriority(ts)|
    ensures r <= 3 && k < |OfRank(ts, r)| && ByPriority(ts)[i] == OfRank(ts, r)[k] && Rank(ByPriority(ts)[i]) == r
    ensures i == before + k
    ensures before == (if r == 3 then 0 else if r == 2 then |OfRank(ts, 3)| else if r == 1 then |OfRank(ts, 3)| + |OfRank(ts, 2)|
                       else |OfRank(ts, 3)| + |OfRank(ts, 2)| + |OfRank(ts, 1)|)
  {
    hide Filter;
    var a, b, c := |OfRank(ts, 3)|, |OfRank(ts, 2)|, |OfRank(ts, 1)|;
    if i < a { r, k, before := 3, i, 0; }
    else if i < a + b { r, k, before := 2, i - a, a; }
    else if i < a + b + c { r, k, before := 1, i - a - b, a + b; }
    else { r, k, before := 0, i - a - b - c, a + b + c; }
    assert OfRank(ts, r)[k] in OfRank(ts, r);
  }

  lemma {:induction false} RanksPartition(ts: seq<Task>)
    ensures multiset(OfRank(ts, 3)) + multiset(OfRank(ts, 2)) + multiset(OfRank(ts, 1)) + multiset(OfRank(ts, 0)) == multiset(ts)
    decreases |ts|
  {
    if ts != [] {
      RanksPartition(ts[1..]);
      RankIsSmall(ts[0]);
      assert ts == [ts[0]] + ts[1..];
    }
  }

  /** The order lists every task once, never a more urgent one later, and equally urgent ones as the backlog does. */
  lemma OrderIsByUrgency(ts: seq<Task>)
    ensures multiset(ByPriority(ts)) == multiset(ts)
    ensures forall i, j :: 0 <= i < j < |ByPriority(ts)| ==> !MoreUrgent(ByPriority(ts)[j].priority, ByPriority(ts)[i].priority)
    ensures forall i, j :: 0 <= i < j < |ByPriority(ts)| && !MoreUrgent(ByPriority(ts)[i].priority, ByPriority(ts)[j].priority) ==>
              exists a, b :: 0 <= a < b < |ts| && ts[a] == ByPriority(ts)[i] && ts[b] == ByPriority(ts)[j]
  {
    hide Filter, OfRank, Rank, MoreUrgent, ByPriority;
    RanksPartition(ts);
    OrderIsRanks(ts);
    forall i, j | 0 <= i < j < |ByPriority(ts)|
      ensures !MoreUrgent(ByPriority(ts)[j].priority, ByPriority(ts)[i].priority)
      ensures !MoreUrgent(ByPriority(ts)[i].priority, ByPriority(ts)[j].priority) ==>
                exists a, b :: 0 <= a < b < |ts| && ts[a] == ByPriority(ts)[i] && ts[b] == ByPriority(ts)[j]
    {
      var r, k, before := PlaceInOrder(ts, i);
      var q, l, later := PlaceInOrder(ts, j);
      RankIsUrgency(ByPriority(ts)[j], ByPriority(ts)[i]);
      RankIsUrgency(ByPriority(ts)[i], ByPriority(ts)[j]);
      if r == q {
        InRankOrder(ts, r, k, l);
      }
    }
  }

  lemma OrderIsRanks(ts: seq<Task>)
    ensures multiset(ByPriority(ts)) == multiset(OfRank(ts, 3)) + multiset(OfRank(ts, 2)) + multiset(OfRank(ts, 1)) + multiset(OfRank(ts, 0))
  {
    hide OfRank;
  }

  lemma InRankOrder(ts: seq<Task>, r: nat, k: nat, l: nat)
    requires k < l < |OfRank(ts, r)|
    ensures exists a, b :: 0 <= a < b < |ts| && ts[a] == OfRank(ts, r)[k] && ts[b] == OfRank(ts, r)[l]
  {
    hide Filter;
    var a, b := FilterKeepsOrder(ts, HasRank(r), k, l);
  }

  // ----- one selection ----------------------------------------------------------------------------------

  lemma {:induction false} FilterSnoc(ts: seq<Task>, last: Task, p: Task -> bool)
    ensures Filter(ts + [last], p) == if p(last) then Filter(ts, p) + [last] else Filter(ts, p)
    decreases |ts|
  {
    if ts == [] {
      assert ([] + [last])[1..] == [];
    } else {
      assert (ts + [last])[1..] == ts[1..] + [last];
      FilterSnoc(ts[1..], last, p);
    }
  }

  /** The first task of the highest rank heads the order. */
  lemma FirstOfHighestRank(ts: seq<Task>, best: nat)
    requires best < |ts| && (forall j :: 0 <= j < |ts| ==> Rank(ts[j]) <= Rank(ts[best]))
    requires forall j :: 0 <= j < best ==> Rank(ts[j]) < Rank(ts[best])
    ensures ByPriority(ts) != [] && ByPriority(ts)[0] == ts[best]
  {
    hide Filter, Rank;
    RankIsSmall(ts[best]);
    forall r: nat | Rank(ts[best]) < r ensures OfRank(ts, r) == [] { FilterNone(ts, HasRank(r)); }
    FilterFirst(ts, HasRank(Rank(ts[best])), best);
  }

  lemma NothingToOrder(ts: seq<Task>)
    ensures ByPriority(ts) == [] <==> ts == []
  {
    hide Filter, Rank;
    if ts == [] {
      FilterNone(ts, HasRank(3));
      FilterNone(ts, HasRank(2));
      FilterNone(ts, HasRank(1));
      FilterNone(ts, HasRank(0));
    } else {
      RankIsSmall(ts[0]);
      FilterHolds(ts, HasRank(Rank(ts[0])), ts[0]);
    }
  }

  lemma FilterHolds(ts: seq<Task>, p: Task -> bool, t: Task)
    requires t in ts && p(t)
    ensures t in Filter(ts, p) && Filter(ts, p) != []
  {
  }

  /** The refs of finished tasks. */
  method FinishedRefs(tasks: seq<Task>) returns (done: set<Ref>)
    ensures forall d :: d in done <==> IsFinished(tasks, d)
  {
    done := {};
    for i := 0 to |tasks|
      invariant forall d :: d in done <==> exists j :: 0 <= j < i && tasks[j].ref == d && Finished(tasks[j].status)
    {
      if tasks[i].status == Done || tasks[i].status == Released {
        done := done + {tasks[i].ref};
      }
    }
  }

  /** The scan of one selection. */
  method CollectEligible(tasks: seq<Task>, excluded: set<Ref>, now: Time) returns (eligible: seq<Task>)
    ensures eligible == Candidates(tasks, now, excluded)
  {
    hide Filter;
    var done := FinishedRefs(tasks);
    eligible := [];
    FilterNone([], Accepts(tasks, now, excluded));
    for i := 0 to |tasks|
      invariant eligible == Filter(tasks[..i], Accepts(tasks, now, excluded))
    {
      var task := tasks[i];
      assert tasks[..i + 1] == tasks[..i] + [task];
      FilterSnoc(tasks[..i], task, Accepts(tasks, now, excluded));
      if task.status != Todo { continue; }
      if task.requeueAfter.Some? && task.requeueAfter.value > now { continue; }
      if task.ref in excluded { continue; }
      if task.planning.Some? && task.planning.value != ReadyForDispatch { continue; }
      if !task.knownType { continue; }
      if task.owner.Some? && task.owner.value != "" { continue; }
      if exists d :: d in task.deps && d !in done { continue; }
      eligible := eligible + [task];
    }
    assert tasks[..|tasks|] == tasks;
  }

  /** nextSpawnableTask: the head of the stable priority order, none when no task is eligible. */
  method NextSpawnableTask(tasks: seq<Task>, excluded: set<Ref>, now: Time) returns (next: Option<Task>)
    ensures var order := ByPriority(Candidates(tasks, now, excluded));
            next == if order == [] then None else Some(order[0])
  {
    hide Filter, Candidates, Rank, ByPriority;
    var eligible := CollectEligible(tasks, excluded, now);
    NothingToOrder(eligible);
    if eligible == [] { return None; }
    var best := 0;
    for i := 1 to |eligible|
      invariant best < i
      invariant forall j :: 0 <= j < i ==> Rank(eligible[j]) <= Rank(eligible[best])
      invariant forall j :: 0 <= j < best ==> Rank(eligible[j]) < Rank(eligible[best])
    {
      if Rank(eligible[i]) > Rank(eligible[best]) { best := i; }
    }
    FirstOfHighestRank(eligible, best);
    return Some(eligible[best]);
  }

  /** What a task must satisfy to be dispatched at an instant. */
  predicate MayBeDispatched(tasks: seq<Task>, now: Time, t: Task) {
    && t.status == Todo
    && (t.requeueAfter.Some? ==> t.requeueAfter.value <= now)
    && t.planning in {None, Some(ReadyForDispatch)} && t.knownType && t.owner in {None, Some("")}
    && forall d :: d in t.deps ==> exists i :: 0 <= i < |tasks| && tasks[i].ref == d && tasks[i].status in {Done, Released}
  }

  lemma EligibleIsDispatchable(tasks: seq<Task>, now: Time, t: Task)
    ensures Eligible(tasks, now, t) <==> MayBeDispatched(tasks, now, t)
  {
    assert forall d :: IsFinished(tasks, d) <==> exists i :: 0 <= i < |tasks| && tasks[i].ref == d && tasks[i].status in {Done, Released};
  }

  // ----- the selection loop -------------------------------------------------------------------------------

  /** The agents that hold an active claim. */
  function ActiveAgents(claims: seq<RunClaim>): (agents: set<string>)
    ensures forall a :: a in agents <==> exists i :: 0 <= i < |claims| && claims[i].agent == a && claims[i].state in {ClaimClaimed, ClaimInProgress}
  {
    set i | 0 <= i < |claims| && ActiveClaim(claims[i]) :: claims[i].agent
  }

  function Reserved(claims: seq<RunClaim>): set<Ref> {
    set i | 0 <= i < |claims| && ActiveClaim(claims[i]) :: claims[i].ref
  }

  function RefsOf(ts: seq<Task>): set<Ref> {
    set i | 0 <= i < |ts| :: ts[i].ref
  }

  /** No requeue time lies between the first and the last of `n` selections. */
  predicate Steady(tasks: seq<Task>, clock: nat -> Time, n: nat) {
    forall i: nat | i < n :: clock(0) <= clock(i)
      && forall j :: 0 <= j < |tasks| && tasks[j].requeueAfter.Some? ==> !(clock(0) < tasks[j].requeueAfter.value <= clock(i))
  }

  lemma SteadyCandidates(tasks: seq<Task>, clock: nat -> Time, n: nat, i: nat, excluded: set<Ref>)
    requires Steady(tasks, clock, n) && i < n
    ensures Candidates(tasks, clock(i), excluded) == Candidates(tasks, clock(0), excluded)
  {
    hide Filter, IsFinished;
    forall t | t in tasks ensures Eligible(tasks, clock(i), t) == Eligible(tasks, clock(0), t) {
      var j :| 0 <= j < |tasks| && tasks[j] == t;
    }
    FilterSame(tasks, Accepts(tasks, clock(i), excluded), Accepts(tasks, clock(0), excluded));
  }

  lemma SteadyIsMonotone(tasks: seq<Task>, clock: nat -> Time, n: nat)
    requires Steady(tasks, clock, n + 1)
    ensures Steady(tasks, clock, n)
  {
  }

  /** How many selections a tick makes: one more than it finds, unless capacity ends it. */
  function Selections(capacity: int, found: nat): nat {
    if capacity <= 0 then 0 else Min(capacity, found + 1)
  }

  /** After taking the first tasks of the order, the order of the rest is what remains of it. */
  lemma OneMorePick(tasks: seq<Task>, now: Time, reserved: set<Ref>, items: seq<Task>)
    requires UniqueRefs(tasks)
    requires ByPriority(Candidates(tasks, now, reserved + RefsOf(items))) != []
    ensures var order := ByPriority(Candidates(tasks, now, reserved + RefsOf(items)));
            ByPriority(Candidates(tasks, now, reserved + RefsOf(items + [order[0]]))) == order[1..]
  {
    hide Filter, ByPriority, Candidates;
    var excluded := reserved + RefsOf(items);
    var head := ByPriority(Candidates(tasks, now, excluded))[0];
    RefsOfSnoc(items, head);
    assert reserved + RefsOf(items + [head]) == excluded + {head.ref};
    CandidatesAreUnique(tasks, now, excluded);
    ExcludingOneMore(tasks, now, excluded, head.ref);
    TakingTheBest(Candidates(tasks, now, excluded));
  }

  lemma CandidatesAreUnique(tasks: seq<Task>, now: Time, excluded: set<Ref>)
    requires UniqueRefs(tasks)
    ensures UniqueRefs(Candidates(tasks, now, excluded))
  {
    FilterIsUnique(tasks, Accepts(tasks, now, excluded));
  }

  lemma RefsOfSnoc(items: seq<Task>, t: Task)
    ensures RefsOf(items + [t]) == RefsOf(items) + {t.ref}
  {
    var more := items + [t];
    assert forall i :: 0 <= i < |items| ==> more[i] == items[i];
    assert more[|items|] == t;
  }

  lemma CandidateIsAccepted(tasks: seq<Task>, now: Time, excluded: set<Ref>)
    requires ByPriority(Candidates(tasks, now, excluded)) != []
    ensures var head := ByPriority(Candidates(tasks, now, excluded))[0];
            head in tasks && Eligible(tasks, now, head) && head.ref !in excluded
  {
    hide ByPriority, Eligible;
    HeadOfOrder(Candidates(tasks, now, excluded));
  }

  /** The task heads the order of what may be selected at that instant. */
  predicate IsNext(tasks: seq<Task>, now: Time, excluded: set<Ref>, t: Task) {
    var order := ByPriority(Candidates(tasks, now, excluded));
    order != [] && order[0] == t
  }

  lemma NextIs(tasks: seq<Task>, now: Time, excluded: set<Ref>, t: Task)
    requires var order := ByPriority(Candidates(tasks, now, excluded)); order != [] && order[0] == t
    ensures IsNext(tasks, now, excluded, t)
  {
  }

  /** The tasks chosen so far: distinct, unreserved and each the best at its instant. */
  ghost predicate Chosen(tasks: seq<Task>, clock: nat -> Time, reserved: set<Ref>, items: seq<Task>) {
    && UniqueRefs(items)
    && (forall j :: 0 <= j < |items| ==> items[j] in tasks && Eligible(tasks, clock(j), items[j]) && items[j].ref !in reserved)
    && (forall j :: 0 <= j < |items| ==> IsNext(tasks, clock(j), reserved + RefsOf(items[..j]), items[j]))
  }

  lemma NothingChosen(tasks: seq<Task>, clock: nat -> Time, reserved: set<Ref>)
    ensures Chosen(tasks, clock, reserved, []) && FirstOf(tasks, clock(0), reserved, [])
  {
    hide ByPriority, Candidates;
    assert reserved + RefsOf([]) == reserved;
  }

  lemma ChosenSnoc(tasks: seq<Task>, clock: nat -> Time, reserved: set<Ref>, items: seq<Task>, t: Task)
    requires Chosen(tasks, clock, reserved, items) && IsNext(tasks, clock(|items|), reserved + RefsOf(items), t)
    ensures Chosen(tasks, clock, reserved, items + [t])
  {
    hide ByPriority, Candidates, Eligible;
    CandidateIsAccepted(tasks, clock(|items|), reserved + RefsOf(items));
    var more := items + [t];
    assert forall j :: 0 <= j < |items| ==> more[j] == items[j] && items[j].ref in RefsOf(items);
    assert forall j :: 0 <= j <= |items| ==> more[..j] == items[..j];
    assert items[..|items|] == items;
  }

  lemma ChosenMeans(tasks: seq<Task>, clock: nat -> Time, reserved: set<Ref>, items: seq<Task>)
    requires Chosen(tasks, clock, reserved, items)
    ensures UniqueRefs(items)
    ensures forall j :: 0 <= j < |items| ==> items[j] in tasks && MayBeDispatched(tasks, clock(j), items[j]) && items[j].ref !in reserved
    ensures forall j :: 0 <= j < |items| ==> IsNext(tasks, clock(j), reserved + RefsOf(items[..j]), items[j])
  {
    hide IsNext, Eligible, MayBeDispatched;
    forall j | 0 <= j < |items| ensures MayBeDispatched(tasks, clock(j), items[j]) {
      EligibleIsDispatchable(tasks, clock(j), items[j]);
    }
  }

  /** When no candidate is left, every task that may be dispatched is excluded. */
  lemma NoneIsLeft(tasks: seq<Task>, now: Time, excluded: set<Ref>)
    requires Candidates(tasks, now, excluded) == []
    ensures forall t :: t in tasks && MayBeDispatched(tasks, now, t) ==> t.ref in excluded
  {
    hide Eligible, MayBeDispatched;
    forall t | t in tasks && MayBeDispatched(tasks, now, t) ensures t.ref in excluded {
      EligibleIsDispatchable(tasks, now, t);
      if t.ref !in excluded { FilterHolds(tasks, Accepts(tasks, now, excluded), t); }
    }
  }

  /** The chosen tasks are the first of one order, and the rest of it is what is left. */
  ghost predicate FirstOf(tasks: seq<Task>, now: Time, reserved: set<Ref>, items: seq<Task>) {
    var order := ByPriority(Candidates(tasks, now, reserved));
    |items| <= |order| && items == order[..|items|] && ByPriority(Candidates(tasks, now, reserved + RefsOf(items))) == order[|items|..]
  }

  lemma FirstOfSnoc(tasks: seq<Task>, now: Time, reserved: set<Ref>, items: seq<Task>, t: Task)
    requires UniqueRefs(tasks) && FirstOf(tasks, now, reserved, items) && IsNext(tasks, now, reserved + RefsOf(items), t)
    ensures FirstOf(tasks, now, reserved, items + [t])
  {
    hide ByPriority, Candidates, RefsOf;
    OneMorePick(tasks, now, reserved, items);
  }

  lemma NothingLeft(tasks: seq<Task>, now: Time, reserved: set<Ref>, items: seq<Task>)
    requires FirstOf(tasks, now, reserved, items) && ByPriority(Candidates(tasks, now, reserved + RefsOf(items))) == []
    ensures |items| == |ByPriority(Candidates(tasks, now, reserved))|
  {
    hide ByPriority, Candidates, RefsOf;
  }

  lemma FirstOfMeans(tasks: seq<Task>, now: Time, reserved: set<Ref>, items: seq<Task>)
    requires FirstOf(tasks, now, reserved, items)
    ensures |items| <= |ByPriority(Candidates(tasks, now, reserved))| && items == ByPriority(Candidates(tasks, now, reserved))[..|items|]
  {
    hide ByPriority, Candidates, RefsOf;
  }

  /**
   * The selection loop of executeDispatchPlan.  The chosen tasks are distinct,
   * unreserved and eligible when chosen, each the best at its instant; capacity
   * is never exceeded and never left while a task is eligible; and unless a task
   * comes due in between, they
   * are the first of all eligible tasks in the stable priority order.
   */
  method SelectForDispatch(tasks: seq<Task>, claims: seq<RunClaim>, maxWorkers: int, clock: nat -> Time) returns (items: seq<Task>)
    requires UniqueRefs(tasks)
    ensures items != [] ==> |ActiveAgents(claims)| + |items| <= maxWorkers
    ensures UniqueRefs(items)
    ensures forall i :: 0 <= i < |items| ==> items[i] in tasks && MayBeDispatched(tasks, clock(i), items[i])
    ensures forall i, j :: 0 <= i < |items| && 0 <= j < |claims| && claims[j].ref == items[i].ref ==> claims[j].state !in {ClaimClaimed, ClaimInProgress}
    ensures forall i :: 0 <= i < |items| ==> IsNext(tasks, clock(i), Reserved(claims) + RefsOf(items[..i]), items[i])
    ensures |ActiveAgents(claims)| + |items| < maxWorkers ==>
              forall t :: t in tasks && MayBeDispatched(tasks, clock(|items|), t) ==> 
                t.ref in RefsOf(items) || exists j :: 0 <= j < |claims| && claims[j].ref == t.ref && claims[j].state in {ClaimClaimed, ClaimInProgress}
    ensures Steady(tasks, clock, Selections(maxWorkers - |ActiveAgents(claims)|, |items|)) ==>
              var order := ByPriority(Candidates(tasks, clock(0), Reserved(claims)));
              items == order[..Min(|order|, Max(0, maxWorkers - |ActiveAgents(claims)|))]
  {
    hide Steady, Chosen, FirstOf, IsNext, ByPriority, Candidates, MayBeDispatched;
    items := [];
    var capacity, reserved := maxWorkers - |ActiveAgents(claims)|, Reserved(claims);
    NothingChosen(tasks, clock, reserved);
    if capacity <= 0 { return; }
    for i := 0 to capacity
      invariant |items| == i && Chosen(tasks, clock, reserved, items)
      invariant Steady(tasks, clock, i) ==> FirstOf(tasks, clock(0), reserved, items)
    {
      var next := NextSpawnableTask(tasks, reserved + RefsOf(items), clock(i));
      if Steady(tasks, clock, i + 1) {
        SteadyIsMonotone(tasks, clock, i);
        SteadyCandidates(tasks, clock, i + 1, i, reserved + RefsOf(items));
      }
      if next.None? {
        NothingToOrder(Candidates(tasks, clock(i), reserved + RefsOf(items)));
        NoneIsLeft(tasks, clock(i), reserved + RefsOf(items));
        if Steady(tasks, clock, i + 1) { NothingLeft(tasks, clock(0), reserved, items); }
        break;
      }
      NextIs(tasks, clock(i), reserved + RefsOf(items), next.value);
      ChosenSnoc(tasks, clock, reserved, items, next.value);
      if Steady(tasks, clock, i + 1) {
        NextIs(tasks, clock(0), reserved + RefsOf(items), next.value);
        FirstOfSnoc(tasks, clock(0), reserved, items, next.value);
      }
      items := items + [next.value];
    }
    ChosenMeans(tasks, clock, reserved, items);
    if FirstOf(tasks, clock(0), reserved, items) { FirstOfMeans(tasks, clock(0), reserved, items); }
  }

  // ----- what a selected task guarantees ----------------------------------------------------------------------

  /** The statuses of the backlog, by ref. */
  function StatusMap(tasks: seq<Task>): map<Ref, Status>
    requires UniqueRefs(tasks)
  {
    map i | 0 <= i < |tasks| :: tasks[i].ref := tasks[i].status
  }

  /** A selected task is ready by the contract that guards its claim. */
  lemma EligibleIsReady(tasks: seq<Task>, now: Time, t: Task)
    requires UniqueRefs(tasks) && Eligible(tasks, now, t)
    ensures DependencyReadiness(t.status, t.deps, StatusMap(tasks)) == Ready
  {
    var statuses := StatusMap(tasks);
    forall d | d in t.deps ensures Satisfied(d, statuses) {
      assert IsFinished(tasks, d);
      var i :| 0 <= i < |tasks| && tasks[i].ref == d && Finished(tasks[i].status);
      assert tasks[i].ref in statuses;
    }
  }
}
