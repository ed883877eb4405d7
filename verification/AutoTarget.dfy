/** Round-robin choice of an agent for a delegated task (lib/dispatchPlanner.ts). */
module AutoTarget {
  import opened Prelude
  import opened Claims

  type AgentId = string

  datatype AgentStatus = Idle | Running | Offline | Dead
  datatype Role = Worker | Reviewer | Master | Scout
  datatype Agent = Agent(id: AgentId, status: AgentStatus, role: Role)

  predicate Dispatchable(a: Agent, busy: set<AgentId>) {
    a.status != Offline && a.status != Dead && a.role != Master && a.role != Scout && a.id !in busy
  }

  /** The agents with an active claim. */
  function Busy(claims: seq<RunClaim>): set<AgentId> {
    set i | 0 <= i < |claims| && ActiveClaim(claims[i]) :: claims[i].agent
  }

  /** The ids of the agents that may take the task, in listing order. */
  function Eligible(agents: seq<Agent>, busy: set<AgentId>, owner: Option<AgentId>, able: Agent -> bool): (ids: seq<AgentId>)
    ensures forall id :: id in ids <==>
              exists i :: 0 <= i < |agents| && agents[i].id == id && MayTake(agents[i], busy, owner, able)
    decreases |agents|
  {
    if agents == [] then []
    else
      var init, last := Eligible(agents[..|agents| - 1], busy, owner, able), agents[|agents| - 1];
      if MayTake(last, busy, owner, able)
      then init + [last.id] else init
  }

  predicate MayTake(a: Agent, busy: set<AgentId>, owner: Option<AgentId>, able: Agent -> bool) {
    Dispatchable(a, busy) && (owner.None? || owner == Some("") || owner == Some(a.id)) && able(a)
  }

  lemma NoAgents(busy: set<AgentId>, owner: Option<AgentId>, able: Agent -> bool)
    ensures Eligible([], busy, owner, able) == []
  {
  }

  lemma OneMoreAgent(agents: seq<Agent>, i: nat, busy: set<AgentId>, owner: Option<AgentId>, able: Agent -> bool)
    requires i < |agents|
    ensures var before := Eligible(agents[..i], busy, owner, able);
            Eligible(agents[..i + 1], busy, owner, able) == if MayTake(agents[i], busy, owner, able) then before + [agents[i].id] else before
  {
    hide Dispatchable;
    assert agents[..i + 1][..i] == agents[..i];
  }

  /** Up, a worker, without an active claim, the owner if there is one, and able. */
  predicate Suits(a: Agent, claims: seq<RunClaim>, owner: Option<AgentId>, able: Agent -> bool) {
    && a.status in {Idle, Running} && a.role in {Worker, Reviewer} && owner in {None, Some(""), Some(a.id)} && able(a)
    && forall j :: 0 <= j < |claims| && claims[j].state in {ClaimClaimed, ClaimInProgress} ==> claims[j].agent != a.id
  }

  /** An agent may be chosen exactly when it suits. */
  lemma EligibleExactlyWhen(agents: seq<Agent>, claims: seq<RunClaim>, owner: Option<AgentId>, able: Agent -> bool, id: AgentId)
    ensures id in Eligible(agents, Busy(claims), owner, able) <==>
            exists i :: 0 <= i < |agents| && agents[i].id == id && Suits(agents[i], claims, owner, able)
  {
    hide Eligible;
    forall i | 0 <= i < |agents| ensures MayTake(agents[i], Busy(claims), owner, able) <==> Suits(agents[i], claims, owner, able) {
      assert agents[i].id in Busy(claims) <==> exists j :: 0 <= j < |claims| && ActiveClaim(claims[j]) && claims[j].agent == agents[i].id;
    }
  }

  // ----- one selection -----------------------------------------------------------------------------

  /** findIndex */
  function IndexOf(ids: seq<AgentId>, id: Option<AgentId>): (i: Option<nat>)
    ensures i.Some? ==> i.value < |ids| && Some(ids[i.value]) == id
    ensures i.None? ==> forall j :: 0 <= j < |ids| ==> Some(ids[j]) != id
    decreases |ids|
  {
    if ids == [] then None
    else if Some(ids[0]) == id then Some(0)
    else
      var rest := IndexOf(ids[1..], id);
      if rest.Some? then Some(rest.value + 1) else None
  }

  /** The position chosen after the remembered agent. */
  function NextIndex(ids: seq<AgentId>, last: Option<AgentId>): (i: nat)
    requires ids != []
    ensures i < |ids|
  {
    var at := IndexOf(ids, last);
    if at.None? then 0 else (at.value + 1) % |ids|
  }

  /** The remembered agent of the process. */
  class Selector {
    var last: Option<AgentId>

    constructor ()
      ensures last == None
    {
      last := None;
    }

    /** selectAutoTarget */
    method SelectAutoTarget(agents: seq<Agent>, claims: seq<RunClaim>, owner: Option<AgentId>, able: Agent -> bool)
      returns (target: Option<AgentId>)
      modifies this
      ensures var ids := Eligible(agents, Busy(claims), owner, able);
              if ids == [] then target.None? && last == old(last)
              else target == Some(ids[NextIndex(ids, old(last))]) && last == target
    {
      hide Dispatchable, IndexOf, Eligible;
      NoAgents(Busy(claims), owner, able);
      var eligible := [];
      for i := 0 to |agents|
        invariant last == old(last) && eligible == Eligible(agents[..i], Busy(claims), owner, able)
      {
        OneMoreAgent(agents, i, Busy(claims), owner, able);
        var a := agents[i];
        if Dispatchable(a, Busy(claims)) && (owner.None? || owner.value == "" || owner.value == a.id) && able(a) {
          eligible := eligible + [a.id];
        }
      }
      assert agents[..|agents|] == agents;
      if eligible == [] { return None; }
      var lastIndex := IndexOf(eligible, last);
      var next := if lastIndex.None? then eligible[0] else eligible[(lastIndex.value + 1) % |eligible|];
      last := Some(next);
      return Some(next);
    }
  }

  // ----- fairness ----------------------------------------------------------------------------------

  predicate Distinct(ids: seq<AgentId>) {
    forall i, j :: 0 <= i < j < |ids| ==> ids[i] != ids[j]
  }

  /** The agents chosen by consecutive selections over the same list. */
  function Picks(ids: seq<AgentId>, last: Option<AgentId>, k: nat): (ps: seq<AgentId>)
    requires ids != []
    ensures |ps| == k
    decreases k
  {
    if k == 0 then []
    else
      var next := ids[NextIndex(ids, last)];
      [next] + Picks(ids, Some(next), k - 1)
  }

  lemma IndexOfElement(ids: seq<AgentId>, i: nat)
    requires Distinct(ids) && i < |ids|
    ensures IndexOf(ids, Some(ids[i])) == Some(i)
  {
  }

  function Wrap(x: nat, n: nat): nat {
    if x < n then x else x - n
  }

  /** Up to one full round, the selections walk the list from where they start. */
  lemma {:induction false} PicksWalk(ids: seq<AgentId>, i: nat, k: nat)
    requires Distinct(ids) && i < |ids| && k <= |ids|
    ensures forall j :: 0 <= j < k ==> i + 1 + j < 2 * |ids| && Picks(ids, Some(ids[i]), k)[j] == ids[Wrap(i + 1 + j, |ids|)]
    decreases k
  {
    hide IndexOf;
    if k > 0 {
      IndexOfElement(ids, i);
      var next := NextIndex(ids, Some(ids[i]));
      assert next == Wrap(i + 1, |ids|);
      PicksWalk(ids, next, k - 1);
      var ps := Picks(ids, Some(ids[i]), k);
      forall j | 0 <= j < k ensures i + 1 + j < 2 * |ids| && ps[j] == ids[Wrap(i + 1 + j, |ids|)] {
        if j > 0 {
          assert ps[j] == Picks(ids, Some(ids[next]), k - 1)[j - 1];
        }
      }
    }
  }

  /** Any n consecutive selections over n agents form a permutation of them, whoever was served last. */
  lemma RoundRobinIsFair(ids: seq<AgentId>, last: Option<AgentId>)
    requires Distinct(ids) && ids != []
    ensures multiset(Picks(ids, last, |ids|)) == multiset(ids)
  {
    var n, start := |ids|, NextIndex(ids, last);
    var ps := Picks(ids, last, n);
    PicksWalk(ids, start, n - 1);
    forall j | 0 <= j < n ensures start + j < 2 * n && ps[j] == ids[Wrap(start + j, n)] {
      if j > 0 {
        assert ps[j] == Picks(ids, Some(ids[start]), n - 1)[j - 1];
      }
    }
    assert ps == ids[start..] + ids[..start];
    assert ids == ids[..start] + ids[start..];
  }
}
