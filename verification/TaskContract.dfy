/** The lifecycle authority of a task, independent of its storage (lib/projectContract.ts). */
module TaskContract {
  type Ref = nat

  datatype Status = Todo | Claimed | InProgress | Blocked | Done | Released | Cancelled

  datatype Cause =
    | Claim | RunStart | MergeSucceeded | PostMergeRelease | FailureRequeue | FailureBlock
    | ManualBlock | Unblock | OperatorReset | Cancel | MigrationImport

  predicate Active(s: Status) {
    s == Claimed || s == InProgress
  }

  predicate Finished(s: Status) {
    s == Done || s == Released
  }

  predicate CanTransition(from: Status, to: Status, cause: Cause) {
    match cause
    case Claim => from == Todo && to == Claimed
    case RunStart => from == Claimed && to == InProgress
    case MergeSucceeded => from == InProgress && to == Done
    case PostMergeRelease => from == Done && to == Released
    case FailureRequeue => Active(from) && to == Todo
    case FailureBlock => Active(from) && to == Blocked
    case ManualBlock => from == Todo && to == Blocked
    case Unblock => from == Blocked && to == Todo
    case OperatorReset => from != Todo && to == Todo
    case Cancel => from !in {Done, Released, Cancelled} && to == Cancelled
    case MigrationImport => from == Todo && to in {Blocked, Done, Released, Cancelled}
  }

  // ----- dependency readiness ---------------------------------------------------------

  datatype Readiness = Ready | WaitingFor(refs: seq<Ref>) | NotTodo

  predicate Satisfied(ref: Ref, statuses: map<Ref, Status>) {
    ref in statuses && Finished(statuses[ref])
  }

  /** The dependencies still open, each once, in the order first named. */
  function Waiting(deps: seq<Ref>, statuses: map<Ref, Status>): (w: seq<Ref>)
    ensures forall r :: r in w <==> r in deps && !Satisfied(r, statuses)
    ensures forall i, j :: 0 <= i < j < |w| ==> w[i] != w[j]
    decreases |deps|
  {
    if deps == [] then []
    else
      var init := Waiting(deps[..|deps| - 1], statuses);
      var last := deps[|deps| - 1];
      assert deps == deps[..|deps| - 1] + [last];
      if Satisfied(last, statuses) || last in deps[..|deps| - 1] then init else init + [last]
  }

  /** Readiness of a task; missing dependencies count as open. */
  function DependencyReadiness(status: Status, deps: seq<Ref>, statuses: map<Ref, Status>): (r: Readiness)
    ensures r.Ready? <==> status == Todo && forall d :: d in deps ==> Satisfied(d, statuses)
    ensures r.WaitingFor? ==> r.refs != [] && forall d :: d in r.refs <==> d in deps && !Satisfied(d, statuses)
  {
    if status != Todo then NotTodo
    else
      var w := Waiting(deps, statuses);
      if w == [] then Ready
      else
        assert w[0] in w;
        WaitingFor(w)
  }
}
