/** Operational claims and the choice between duplicates (types/claims.ts, lib/lifecycleDiagnostics.ts). */
module Claims {
  import opened Prelude
  import opened TaskContract
  import opened TaskStore

  datatype ClaimState = ClaimClaimed | ClaimInProgress | ClaimDone | ClaimFailed

  datatype RunClaim = RunClaim(
    run: RunId, ref: Ref, agent: string, state: ClaimState, claimedAt: Time,
    leaseUntil: Option<Time>, inputSince: Option<Time>)

  predicate ActiveClaim(c: RunClaim) {
    c.state == ClaimClaimed || c.state == ClaimInProgress
  }

  predicate ActiveOn(c: RunClaim, ref: Ref) {
    ActiveClaim(c) && c.ref == ref
  }

  /** Run ids are unique. */
  predicate DistinctRuns(claims: seq<RunClaim>) {
    forall i, j :: 0 <= i < j < |claims| ==> claims[i].run != claims[j].run
  }

  /** Oldest claim first, ties by run id. */
  predicate Sooner(c: RunClaim, d: RunClaim) {
    c.claimedAt < d.claimedAt || (c.claimedAt == d.claimedAt && c.run <= d.run)
  }

  ghost predicate IsWinner(claims: seq<RunClaim>, ref: Ref, w: RunClaim) {
    w in claims && ActiveOn(w, ref) && forall c :: c in claims && ActiveOn(c, ref) ==> Sooner(w, c)
  }

  /** The first of the claims in claim order (selectDuplicateClaimWinner). */
  method SelectDuplicateClaimWinner(claims: seq<RunClaim>) returns (keep: RunClaim)
    requires claims != []
    ensures keep in claims
    ensures forall c :: c in claims ==> keep.claimedAt < c.claimedAt || (keep.claimedAt == c.claimedAt && keep.run <= c.run)
  {
    keep := claims[0];
    for i := 1 to |claims|
      invariant keep in claims
      invariant forall j :: 0 <= j < i ==> Sooner(keep, claims[j])
    {
      if !Sooner(keep, claims[i]) {
        keep := claims[i];
      }
    }
  }

  /** The claim that wins a task: none when no claim on it is active. */
  function Winner(claims: seq<RunClaim>, ref: Ref): (w: Option<RunClaim>)
    ensures w.None? ==> forall c :: c in claims ==> !ActiveOn(c, ref)
    ensures w.Some? ==> IsWinner(claims, ref, w.value)
    decreases |claims|
  {
    if claims == [] then None
    else
      var last := claims[|claims| - 1];
      var before := Winner(claims[..|claims| - 1], ref);
      assert claims == claims[..|claims| - 1] + [last];
      if !ActiveOn(last, ref) then before
      else if before.None? || !Sooner(before.value, last) then Some(last)
      else before
  }

  lemma WinnerIsUnique(claims: seq<RunClaim>, ref: Ref, v: RunClaim, w: RunClaim)
    requires DistinctRuns(claims) && IsWinner(claims, ref, v) && IsWinner(claims, ref, w)
    ensures v == w
  {
    assert Sooner(v, w) && Sooner(w, v);
  }

  /** Two listings of the same claims keep the same winner. */
  lemma WinnerIgnoresOrder(claims: seq<RunClaim>, other: seq<RunClaim>, ref: Ref)
    requires DistinctRuns(claims) && multiset(claims) == multiset(other)
    ensures Winner(claims, ref) == Winner(other, ref)
  {
    assert forall c :: c in claims <==> c in multiset(claims);
    assert forall c :: c in other <==> c in multiset(other);
    if Winner(claims, ref).Some? && Winner(other, ref).Some? {
      WinnerIsUnique(claims, ref, Winner(claims, ref).value, Winner(other, ref).value);
    }
  }
}
