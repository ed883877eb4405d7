/** The cross-check of claims against task statuses (lib/reconcile.ts). */
module Reconcile {
  import opened Prelude
  import opened TaskContract
  import opened TaskStore
  import opened Claims

  /** A legacy state directory, or a project one whose task database is authoritative. */
  datatype Mode = Legacy | Project

  type View = map<Ref, Status>

  function Expected(c: RunClaim): Status {
    if c.state == ClaimInProgress then InProgress else Claimed
  }

  /** In a project, an unfinished task that does not reflect the claim makes the claim the orphan. */
  predicate Mismatch(mode: Mode, status: Status, c: RunClaim) {
    mode == Project && !Finished(status) && status != Expected(c) && !(status == Claimed && Expected(c) == InProgress)
  }

  /** An active claim stays active: its task is known, it wins the task, and it matches. */
  predicate Survives(mode: Mode, view: View, claims: seq<RunClaim>, c: RunClaim) {
    c.ref in view && Winner(claims, c.ref) == Some(c) && !Mismatch(mode, view[c.ref], c)
  }

  function RepairedClaim(mode: Mode, view: View, claims: seq<RunClaim>, c: RunClaim): RunClaim {
    if ActiveClaim(c) && !Survives(mode, view, claims, c) then c.(state := ClaimFailed) else c
  }

  function RepairedClaims(mode: Mode, view: View, claims: seq<RunClaim>): (out: seq<RunClaim>)
    ensures |out| == |claims| && forall i :: 0 <= i < |claims| ==> out[i] == RepairedClaim(mode, view, claims, claims[i])
  {
    seq(|claims|, i requires 0 <= i < |claims| => RepairedClaim(mode, view, claims, claims[i]))
  }

  /** What one pass makes of a task, given its status and the claim that wins it. */
  function StatusFor(mode: Mode, status: Status, w: Option<RunClaim>): Status {
    match w
    case None => if Active(status) then Todo else status
    case Some(c) => if mode == Project && (Finished(status) || Mismatch(mode, status, c)) then status else Expected(c)
  }

  function ClaimFor(mode: Mode, status: Status, w: Option<RunClaim>): Option<RunClaim> {
    if w.Some? && Mismatch(mode, status, w.value) then None else w
  }

  function RepairedView(mode: Mode, view: View, claims: seq<RunClaim>): View {
    map r | r in view :: StatusFor(mode, view[r], Winner(claims, r))
  }

  /** What a pass records with a repaired status: the cause, and the run that is the reason. */
  datatype Repair = Repair(cause: Cause, run: Option<RunId>)

  function RepairBy(w: Option<RunClaim>): Repair {
    match w
    case Some(c) => Repair(RunStart, Some(c.run))
    case None => Repair(FailureRequeue, None)
  }

  /** The repairs of one pass: one for each status it changes. */
  function Repairs(mode: Mode, view: View, claims: seq<RunClaim>): map<Ref, Repair> {
    map r | r in view && StatusFor(mode, view[r], Winner(claims, r)) != view[r] :: RepairBy(Winner(claims, r))
  }

  /** Every status change a pass proposes in a project is a legal transition for its cause. */
  lemma RepairsAreLegal(status: Status, w: Option<RunClaim>)
    requires StatusFor(Project, status, w) != status
    ensures CanTransition(status, StatusFor(Project, status, w), RepairBy(w).cause)
  {
  }

  // ----- what a pass keeps ------------------------------------------------------------------

  /** No claim is lost or renamed, terminal claims stay, and a claim changes only by failing. */
  lemma PassKeepsClaims(mode: Mode, view: View, claims: seq<RunClaim>)
    ensures var out := RepairedClaims(mode, view, claims);
            && |out| == |claims|
            && forall i :: 0 <= i < |claims| ==>
                 (out[i] == claims[i] || (ActiveClaim(claims[i]) && out[i] == claims[i].(state := ClaimFailed)))
    ensures DistinctRuns(claims) ==> DistinctRuns(RepairedClaims(mode, view, claims))
  {
  }

  /** After a pass a task is won by its previous winner if that one matched, and by nobody otherwise. */
  lemma WinnerAfterPass(mode: Mode, view: View, claims: seq<RunClaim>, ref: Ref)
    requires DistinctRuns(claims) && ref in view
    ensures Winner(RepairedClaims(mode, view, claims), ref) == ClaimFor(mode, view[ref], Winner(claims, ref))
  {
    var out := RepairedClaims(mode, view, claims);
    var was, now := Winner(claims, ref), Winner(out, ref);
    if now.Some? {
      var i :| 0 <= i < |out| && out[i] == now.value;
      assert Survives(mode, view, claims, claims[i]);
    }
    if was.Some? && !Mismatch(mode, view[ref], was.value) {
      var i :| 0 <= i < |claims| && claims[i] == was.value;
      assert out[i] == was.value;
      assert out[i] in out;
    }
  }

  /** Every active claim is the only one on a known task. */
  predicate Tidy(view: View, claims: seq<RunClaim>) {
    forall i :: 0 <= i < |claims| && ActiveClaim(claims[i]) ==> claims[i].ref in view && Winner(claims, claims[i].ref) == Some(claims[i])
  }

  lemma PassTidies(mode: Mode, view: View, claims: seq<RunClaim>)
    requires DistinctRuns(claims)
    ensures Tidy(RepairedView(mode, view, claims), RepairedClaims(mode, view, claims))
  {
    var out := RepairedClaims(mode, view, claims);
    forall i | 0 <= i < |out| && ActiveClaim(out[i]) ensures out[i].ref in view && Winner(out, out[i].ref) == Some(out[i]) {
      assert Survives(mode, view, claims, claims[i]);
      WinnerAfterPass(mode, view, claims, out[i].ref);
    }
  }

  // ----- what a pass changes -------------------------------------------------------------------

  /** Another active claim on the same task was made earlier; ties go to the smaller run id. */
  predicate Overtaken(claims: seq<RunClaim>, i: nat)
    requires i < |claims|
  {
    exists j :: 0 <= j < |claims| && claims[j].state in {ClaimClaimed, ClaimInProgress} && claims[j].ref == claims[i].ref
      && (claims[j].claimedAt < claims[i].claimedAt || (claims[j].claimedAt == claims[i].claimedAt && claims[j].run < claims[i].run))
  }

  /** The task is finished, or its status fits the claim: a started claim may be ahead of a claimed task. */
  predicate Fits(status: Status, c: RunClaim) {
    || status in {Done, Released}
    || (status == Claimed && c.state in {ClaimClaimed, ClaimInProgress})
    || (status == InProgress && c.state == ClaimInProgress)
  }

  /**
   * A pass fails an active claim exactly when its task is unknown, an earlier
   * claim holds the task, or (in a project) the task does not fit it.
   */
  lemma ClaimFailsExactlyWhen(mode: Mode, view: View, claims: seq<RunClaim>, i: nat)
    requires DistinctRuns(claims) && i < |claims|
    ensures var c, d := claims[i], RepairedClaims(mode, view, claims)[i];
            if c.state in {ClaimClaimed, ClaimInProgress}
               && (c.ref !in view || Overtaken(claims, i) || (mode == Project && !Fits(view[c.ref], c)))
            then d == c.(state := ClaimFailed) else d == c
  {
    hide RepairedClaims;
    var c := claims[i];
    if ActiveClaim(c) && c.ref in view {
      WinsExactlyWhen(claims, i);
    }
  }

  /** An active claim wins its task exactly when no other overtook it. */
  lemma WinsExactlyWhen(claims: seq<RunClaim>, i: nat)
    requires DistinctRuns(claims) && i < |claims| && ActiveClaim(claims[i])
    ensures Winner(claims, claims[i].ref) == Some(claims[i]) <==> !Overtaken(claims, i)
  {
    var c, w := claims[i], Winner(claims, claims[i].ref);
    assert c in claims;
    var k :| 0 <= k < |claims| && claims[k] == w.value;
    if !Overtaken(claims, i) {
      assert !(claims[k].claimedAt < c.claimedAt || (claims[k].claimedAt == c.claimedAt && claims[k].run < c.run));
      assert claims[k].run == c.run;
    } else {
      var j :| 0 <= j < |claims| && ActiveOn(claims[j], c.ref)
        && (claims[j].claimedAt < c.claimedAt || (claims[j].claimedAt == c.claimedAt && claims[j].run < c.run));
      assert claims[j] in claims;
    }
  }

  /** A task without an active claim is not left active, and is otherwise untouched. */
  lemma UnclaimedAfterPass(mode: Mode, view: View, claims: seq<RunClaim>, r: Ref)
    requires r in view && forall i :: 0 <= i < |claims| && claims[i].ref == r ==> claims[i].state !in {ClaimClaimed, ClaimInProgress}
    ensures RepairedView(mode, view, claims)[r] == if view[r] in {Claimed, InProgress} then Todo else view[r]
  {
    assert Winner(claims, r).None?;
  }

  /** The task of the claim that holds it: a project only records a missed start; a legacy task follows the claim. */
  lemma ClaimedAfterPass(mode: Mode, view: View, claims: seq<RunClaim>, i: nat)
    requires DistinctRuns(claims) && i < |claims| && claims[i].state in {ClaimClaimed, ClaimInProgress} && claims[i].ref in view
    requires !Overtaken(claims, i)
    ensures var c, was, now := claims[i], view[claims[i].ref], RepairedView(mode, view, claims)[claims[i].ref];
            match mode
            case Project => now == if was == Claimed && c.state == ClaimInProgress then InProgress else was
            case Legacy => now == if c.state == ClaimInProgress then InProgress else Claimed
  {
    hide Winner, Overtaken;
    WinsExactlyWhen(claims, i);
  }

  // ----- fixed points -----------------------------------------------------------------------

  /** Nothing is left to repair. */
  predicate Settled(mode: Mode, view: View, claims: seq<RunClaim>) {
    RepairedView(mode, view, claims) == view && RepairedClaims(mode, view, claims) == claims
  }

  /** A tidy state is settled when each task agrees with the claim that wins it. */
  lemma TidyAndAgreedIsSettled(mode: Mode, view: View, claims: seq<RunClaim>)
    requires Tidy(view, claims)
    requires forall r :: r in view ==>
               StatusFor(mode, view[r], Winner(claims, r)) == view[r] && ClaimFor(mode, view[r], Winner(claims, r)) == Winner(claims, r)
    ensures Settled(mode, view, claims)
  {
    var out := RepairedClaims(mode, view, claims);
    forall i | 0 <= i < |claims| ensures out[i] == claims[i] {
      if ActiveClaim(claims[i]) {
        assert ClaimFor(mode, view[claims[i].ref], Winner(claims, claims[i].ref)) == Some(claims[i]);
      }
    }
  }

  /** One task under repeated passes: one pass settles a legacy task, two settle a project task. */
  lemma TaskSettles(status: Status, w: Option<RunClaim>)
    requires w.Some? ==> ActiveClaim(w.value)
    ensures var once, left := StatusFor(Legacy, status, w), ClaimFor(Legacy, status, w);
            StatusFor(Legacy, once, left) == once && ClaimFor(Legacy, once, left) == left
    ensures var once, left := StatusFor(Project, status, w), ClaimFor(Project, status, w);
            var twice, rest := StatusFor(Project, once, left), ClaimFor(Project, once, left);
            StatusFor(Project, twice, rest) == twice && ClaimFor(Project, twice, rest) == rest
  {
  }

  /** From any state, one pass in legacy mode reaches a fixed point. */
  lemma LegacySettlesInOnePass(view: View, claims: seq<RunClaim>)
    requires DistinctRuns(claims)
    ensures Settled(Legacy, RepairedView(Legacy, view, claims), RepairedClaims(Legacy, view, claims))
  {
    var v, c := RepairedView(Legacy, view, claims), RepairedClaims(Legacy, view, claims);
    PassTidies(Legacy, view, claims);
    forall r | r in v
      ensures StatusFor(Legacy, v[r], Winner(c, r)) == v[r] && ClaimFor(Legacy, v[r], Winner(c, r)) == Winner(c, r)
    {
      WinnerAfterPass(Legacy, view, claims, r);
      TaskSettles(view[r], Winner(claims, r));
    }
    TidyAndAgreedIsSettled(Legacy, v, c);
  }

  /** From any state, two passes in project mode reach a fixed point. */
  lemma ProjectSettlesInTwoPasses(view: View, claims: seq<RunClaim>)
    requires DistinctRuns(claims)
    ensures var v, c := RepairedView(Project, view, claims), RepairedClaims(Project, view, claims);
            Settled(Project, RepairedView(Project, v, c), RepairedClaims(Project, v, c))
  {
    var v, c := RepairedView(Project, view, claims), RepairedClaims(Project, view, claims);
    PassKeepsClaims(Project, view, claims);
    var v2, c2 := RepairedView(Project, v, c), RepairedClaims(Project, v, c);
    PassTidies(Project, v, c);
    forall r | r in v2
      ensures StatusFor(Project, v2[r], Winner(c2, r)) == v2[r] && ClaimFor(Project, v2[r], Winner(c2, r)) == Winner(c2, r)
    {
      WinnerAfterPass(Project, view, claims, r);
      WinnerAfterPass(Project, v, c, r);
      TaskSettles(view[r], Winner(claims, r));
    }
    TidyAndAgreedIsSettled(Project, v2, c2);
  }

  /** A task that needs the second pass: in progress, but its claim never recorded the start. */
  predicate NeedsSecondPass(view: View, claims: seq<RunClaim>, r: Ref) {
    r in view && view[r] == InProgress && Winner(claims, r).Some? && Winner(claims, r).value.state == ClaimClaimed
  }

  lemma TaskSettlesAtOnceExactlyWhen(status: Status, w: Option<RunClaim>)
    requires w.Some? ==> ActiveClaim(w.value)
    ensures var once, left := StatusFor(Project, status, w), ClaimFor(Project, status, w);
            (StatusFor(Project, once, left) == once && ClaimFor(Project, once, left) == left) <==>
            !(status == InProgress && w.Some? && w.value.state == ClaimClaimed)
  {
  }

  lemma NoSecondPassNeeded(view: View, claims: seq<RunClaim>)
    requires DistinctRuns(claims) && forall r :: r in view ==> !NeedsSecondPass(view, claims, r)
    ensures Settled(Project, RepairedView(Project, view, claims), RepairedClaims(Project, view, claims))
  {
    var v, c := RepairedView(Project, view, claims), RepairedClaims(Project, view, claims);
    PassTidies(Project, view, claims);
    forall r | r in v
      ensures StatusFor(Project, v[r], Winner(c, r)) == v[r] && ClaimFor(Project, v[r], Winner(c, r)) == Winner(c, r)
    {
      assert !NeedsSecondPass(view, claims, r);
      WinnerAfterPass(Project, view, claims, r);
      TaskSettlesAtOnceExactlyWhen(view[r], Winner(claims, r));
    }
    TidyAndAgreedIsSettled(Project, v, c);
  }

  lemma SecondPassNeeded(view: View, claims: seq<RunClaim>, r: Ref)
    requires DistinctRuns(claims) && NeedsSecondPass(view, claims, r)
    ensures !Settled(Project, RepairedView(Project, view, claims), RepairedClaims(Project, view, claims))
  {
    var v, c := RepairedView(Project, view, claims), RepairedClaims(Project, view, claims);
    WinnerAfterPass(Project, view, claims, r);
    assert v[r] == InProgress && Winner(c, r).None?;
    assert RepairedView(Project, v, c)[r] == Todo;
  }

  /** One project pass is enough exactly when no task is in progress under a merely claimed claim. */
  lemma OneProjectPassSettlesExactlyWhen(view: View, claims: seq<RunClaim>)
    requires DistinctRuns(claims)
    ensures Settled(Project, RepairedView(Project, view, claims), RepairedClaims(Project, view, claims)) <==>
            forall r :: r in view ==> !NeedsSecondPass(view, claims, r)
  {
    if r :| r in view && NeedsSecondPass(view, claims, r) {
      SecondPassNeeded(view, claims, r);
    } else {
      NoSecondPassNeeded(view, claims);
    }
  }

  // ----- the pass as the source runs it -------------------------------------------------------

  function Failed(c: RunClaim): RunClaim {
    c.(state := ClaimFailed)
  }

  /** The active claims of each known task, by position; orphans fail at once. */
  ghost predicate Grouped(view: View, claims: seq<RunClaim>, n: nat, out: seq<RunClaim>, groups: map<Ref, seq<nat>>)
    requires n <= |claims|
  {
    && |out| == |claims|
    && (forall j :: 0 <= j < |claims| ==>
          out[j] == if j < n && ActiveClaim(claims[j]) && claims[j].ref !in view then Failed(claims[j]) else claims[j])
    && (forall r :: r in groups ==> r in view && groups[r] != [] && forall k :: k in groups[r] ==> k < n && ActiveOn(claims[k], r))
    && (forall j :: 0 <= j < n && ActiveClaim(claims[j]) && claims[j].ref in view ==>
          claims[j].ref in groups && j in groups[claims[j].ref])
  }

  method GroupActiveClaims(view: View, claims: seq<RunClaim>) returns (out: seq<RunClaim>, groups: map<Ref, seq<nat>>)
    ensures Grouped(view, claims, |claims|, out, groups)
  {
    out, groups := claims, map[];
    for i := 0 to |claims|
      invariant Grouped(view, claims, i, out, groups)
    {
      var c := claims[i];
      if ActiveClaim(c) {
        if c.ref !in view {
          out := out[i := Failed(c)];
        } else {
          var current := if c.ref in groups then groups[c.ref] else [];
          groups := groups[c.ref := current + [i]];
        }
      }
    }
  }

  /** The position of the claim that wins a group. */
  method WinnerOfGroup(claims: seq<RunClaim>, group: seq<nat>) returns (w: nat)
    requires group != [] && forall k :: k in group ==> k < |claims|
    ensures w in group && forall k :: k in group ==> Sooner(claims[w], claims[k])
  {
    assert forall i :: 0 <= i < |group| ==> group[i] in group;
    w := group[0];
    for i := 1 to |group|
      invariant w in group
      invariant forall j :: 0 <= j < i ==> Sooner(claims[w], claims[group[j]])
    {
      if !Sooner(claims[w], claims[group[i]]) {
        w := group[i];
      }
    }
  }

  /** Fail every claim of the group but the kept one. */
  method FailOthers(claims: seq<RunClaim>, group: seq<nat>, w: nat) returns (out: seq<RunClaim>)
    requires forall k :: k in group ==> k < |claims|
    ensures |out| == |claims|
    ensures forall j :: 0 <= j < |claims| ==> out[j] == if j in group && j != w then Failed(claims[j]) else claims[j]
  {
    out := claims;
    assert forall i :: 0 <= i < |group| ==> group[i] in group;
    for i := 0 to |group|
      invariant |out| == |claims|
      invariant forall j :: 0 <= j < |claims| ==> out[j] == if j in group[..i] && j != w then Failed(claims[j]) else claims[j]
    {
      var k := group[i];
      assert group[..i + 1] == group[..i] + [k];
      if k != w {
        out := out[k := Failed(claims[k])];
      }
    }
    assert group[..|group|] == group;
  }

  /** Claim `j` is the kept one of its task. */
  predicate IsKept(claims: seq<RunClaim>, kept: map<Ref, nat>, j: int)
    requires 0 <= j < |claims|
  {
    claims[j].ref in kept && kept[claims[j].ref] == j
  }

  /** The kept claim of every known task with an active claim is the soonest of them. */
  ghost predicate KeepsSoonest(view: View, claims: seq<RunClaim>, kept: map<Ref, nat>) {
    && (forall r :: r in kept ==> r in view && kept[r] < |claims| && ActiveOn(claims[kept[r]], r))
    && (forall j :: 0 <= j < |claims| && ActiveClaim(claims[j]) && claims[j].ref in view ==>
          claims[j].ref in kept && Sooner(claims[kept[claims[j].ref]], claims[j]))
  }

  /** Fail orphans and duplicates; remember which claim each task keeps. */
  method Deduplicate(view: View, claims: seq<RunClaim>) returns (out: seq<RunClaim>, kept: map<Ref, nat>)
    ensures KeepsSoonest(view, claims, kept)
    ensures |out| == |claims|
    ensures forall j :: 0 <= j < |claims| ==>
              out[j] == if ActiveClaim(claims[j]) && !IsKept(claims, kept, j) then Failed(claims[j]) else claims[j]
  {
    var groups;
    out, groups := GroupActiveClaims(view, claims);
    kept := map[];
    var todo := groups.Keys;
    while todo != {}
      invariant todo <= groups.Keys && kept.Keys == groups.Keys - todo && |out| == |claims|
      invariant forall r :: r in kept ==> r in view && kept[r] in groups[r] && forall k :: k in groups[r] ==> Sooner(claims[kept[r]], claims[k])
      invariant forall j :: 0 <= j < |claims| ==>
                  out[j] == if ActiveClaim(claims[j]) && claims[j].ref !in todo && !IsKept(claims, kept, j) then Failed(claims[j]) else claims[j]
      decreases |todo|
    {
      var r :| r in todo;
      var w := WinnerOfGroup(claims, groups[r]);
      out := FailOthers(out, groups[r], w);
      kept := kept[r := w];
      todo := todo - {r};
    }
  }

  function Pick(claims: seq<RunClaim>, kept: map<Ref, nat>, r: Ref): Option<RunClaim>
    requires r in kept ==> kept[r] < |claims|
  {
    if r in kept then Some(claims[kept[r]]) else None
  }

  /** Statuses and repairs follow the kept claims. */
  ghost predicate RepairedByKept(mode: Mode, view: View, claims: seq<RunClaim>, kept: map<Ref, nat>, repaired: View, changes: map<Ref, Repair>)
    requires forall r :: r in kept ==> kept[r] < |claims|
  {
    && repaired.Keys == view.Keys && (forall r :: r in view ==> repaired[r] == StatusFor(mode, view[r], Pick(claims, kept, r)))
    && (forall r :: r in changes <==> r in view && repaired[r] != view[r])
    && (forall r :: r in changes ==> changes[r] == RepairBy(Pick(claims, kept, r)))
  }

  /** The decision for one task (the loop body over the backlog). */
  method RepairTask(mode: Mode, status: Status, claim: Option<RunClaim>) returns (next: Status, fail: bool, change: Option<Repair>)
    ensures next == StatusFor(mode, status, claim)
    ensures fail <==> claim.Some? && Mismatch(mode, status, claim.value)
    ensures change == if next != status then Some(RepairBy(claim)) else None
  {
    next, fail, change := status, false, None;
    if claim.Some? {
      var expected := if claim.value.state == ClaimInProgress then InProgress else Claimed;
      if mode == Project && (status == Done || status == Released) {
        return;
      }
      if mode == Project && status != expected && !(status == Claimed && expected == InProgress) {
        fail := true;
        return;
      }
      if status != expected {
        next, change := expected, Some(Repair(RunStart, Some(claim.value.run)));
      }
    } else if status == Claimed || status == InProgress {
      next, change := Todo, Some(Repair(FailureRequeue, None));
    }
  }

  /** Walk the tasks in backlog order and repair status or kept claim in place. */
  method RepairTasks(mode: Mode, order: seq<Ref>, view: View, claims: seq<RunClaim>, kept: map<Ref, nat>)
    returns (repaired: View, out: seq<RunClaim>, changes: map<Ref, Repair>)
    requires (forall r :: r in order <==> r in view) && forall i, j :: 0 <= i < j < |order| ==> order[i] != order[j]
    requires forall r :: r in kept ==> r in view && kept[r] < |claims| && claims[kept[r]].ref == r
    ensures RepairedByKept(mode, view, claims, kept, repaired, changes)
    ensures |out| == |claims|
    ensures forall j :: 0 <= j < |claims| ==>
              out[j] == if IsKept(claims, kept, j) && Mismatch(mode, view[claims[j].ref], claims[j]) then Failed(claims[j]) else claims[j]
  {
    hide Mismatch;
    repaired, out, changes := view, claims, map[];
    assert forall i :: 0 <= i < |order| ==> order[i] in order;
    ghost var done: set<Ref> := {};
    for i := 0 to |order|
      invariant done <= view.Keys
      invariant forall j :: 0 <= j < |order| ==> (order[j] in done <==> j < i)
      invariant repaired.Keys == view.Keys
      invariant forall r :: r in view ==> repaired[r] == if r in done then StatusFor(mode, view[r], Pick(claims, kept, r)) else view[r]
      invariant forall r :: r in changes ==> r in done && repaired[r] != view[r] && changes[r] == RepairBy(Pick(claims, kept, r))
      invariant forall r :: r in view && repaired[r] != view[r] ==> r in changes
      invariant |out| == |claims|
      invariant forall j :: 0 <= j < |claims| ==>
                  out[j] == if IsKept(claims, kept, j) && claims[j].ref in done && Mismatch(mode, view[claims[j].ref], claims[j])
                            then Failed(claims[j]) else claims[j]
    {
      var ref := order[i];
      var next, fail, change := RepairTask(mode, view[ref], Pick(claims, kept, ref));
      if fail {
        out := out[kept[ref] := Failed(claims[kept[ref]])];
      }
      repaired := repaired[ref := next];
      if change.Some? {
        changes := changes[ref := change.value];
      }
      done := done + {ref};
    }
    forall r | r in view ensures r in done {
      assert r in order;
    }
  }

  lemma KeptClaimsWin(view: View, claims: seq<RunClaim>, kept: map<Ref, nat>, r: Ref)
    requires DistinctRuns(claims) && KeepsSoonest(view, claims, kept) && r in view
    ensures r in kept ==> kept[r] < |claims|
    ensures Winner(claims, r) == Pick(claims, kept, r)
  {
    if r in kept {
      var w := claims[kept[r]];
      assert w in claims;
      forall c | c in claims && ActiveOn(c, r) ensures Sooner(w, c) {
        var j :| 0 <= j < |claims| && claims[j] == c;
      }
      assert Winner(claims, r).Some?;
      WinnerIsUnique(claims, r, w, Winner(claims, r).value);
    }
  }

  /** Failing the unkept claims and the mismatched kept ones is the specified repair. */
  lemma TwoStagesAreTheRepair(mode: Mode, view: View, claims: seq<RunClaim>, kept: map<Ref, nat>, j: int)
    requires DistinctRuns(claims) && KeepsSoonest(view, claims, kept) && 0 <= j < |claims|
    ensures RepairedClaim(mode, view, claims, claims[j]) ==
            if ActiveClaim(claims[j]) && (!IsKept(claims, kept, j) || Mismatch(mode, view[claims[j].ref], claims[j]))
            then Failed(claims[j]) else claims[j]
  {
    var c := claims[j];
    if ActiveClaim(c) && c.ref in view {
      KeptClaimsWin(view, claims, kept, c.ref);
      assert claims[kept[c.ref]] == c <==> kept[c.ref] == j;
    }
  }

  /** When the kept claims are the winners, that is the specified repair. */
  lemma KeptRepairIsTheRepair(mode: Mode, view: View, claims: seq<RunClaim>, kept: map<Ref, nat>, deduplicated: seq<RunClaim>,
                              repaired: View, changes: map<Ref, Repair>)
    requires DistinctRuns(claims) && KeepsSoonest(view, claims, kept) && |deduplicated| == |claims|
    requires forall r :: r in kept ==> kept[r] < |claims| && deduplicated[kept[r]] == claims[kept[r]]
    requires RepairedByKept(mode, view, deduplicated, kept, repaired, changes)
    ensures repaired == RepairedView(mode, view, claims) && changes == Repairs(mode, view, claims)
  {
    hide Winner, StatusFor, KeepsSoonest, Sooner;
    forall r | r in view ensures Winner(claims, r) == Pick(deduplicated, kept, r) {
      KeptClaimsWin(view, claims, kept, r);
    }
  }

  /** reconcileState: group the active claims, fail orphans and duplicates, then repair task by task. */
  method ReconcileState(mode: Mode, order: seq<Ref>, view: View, claims: seq<RunClaim>)
    returns (repaired: View, out: seq<RunClaim>, changes: map<Ref, Repair>)
    requires DistinctRuns(claims)
    requires (forall r :: r in order <==> r in view) && forall i, j :: 0 <= i < j < |order| ==> order[i] != order[j]
    ensures repaired == RepairedView(mode, view, claims)
    ensures out == RepairedClaims(mode, view, claims)
    ensures changes == Repairs(mode, view, claims)
  {
    hide StatusFor, Mismatch, RepairedByKept, Sooner, Winner, RepairedView, Repairs;
    var deduplicated, kept := Deduplicate(view, claims);
    assert forall r :: r in kept ==> deduplicated[kept[r]] == claims[kept[r]];
    repaired, out, changes := RepairTasks(mode, order, view, deduplicated, kept);
    KeptRepairIsTheRepair(mode, view, claims, kept, deduplicated, repaired, changes);
    forall j | 0 <= j < |claims| ensures out[j] == RepairedClaim(mode, view, claims, claims[j]) {
      TwoStagesAreTheRepair(mode, view, claims, kept, j);
    }
  }
}
