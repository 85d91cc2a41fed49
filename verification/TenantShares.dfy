/** How one dispatch cycle splits its batch between tenants. */
module TenantShares {
  import opened Numbers

  function Sum(counts: seq<nat>): nat {
    if counts == [] then 0 else Sum(counts[..|counts| - 1]) + counts[|counts| - 1]
  }

  /** `Math.max(1, Math.ceil(batchSize / tenants))`. */
  function FairShare(batchSize: nat, tenants: nat): (share: nat)
    requires tenants > 0
    ensures share >= 1 && share * tenants >= batchSize
    ensures share > 1 ==> (share - 1) * tenants < batchSize
  {
    var ceiling := (batchSize + tenants - 1) / tenants;
    if ceiling < 1 then 1 else ceiling
  }

  function Share(batchSize: nat, tenants: nat, remaining: nat): nat
    requires tenants > 0
  {
    if tenants > 1 then FairShare(batchSize, tenants) else remaining
  }

  /** What one tenant gets when `before` rows are taken already. */
  function Taken(due: nat, share: nat, left: nat): nat {
    Min(due, Min(left, share))
  }

  ghost predicate SplitAt(due: seq<nat>, batchSize: nat, taken: seq<nat>, i: nat)
    requires i < |taken| <= |due|
  {
    var before := Sum(taken[..i]);
    before <= batchSize && taken[i] == Taken(due[i], Share(batchSize, |due|, batchSize - before), batchSize - before)
  }

  ghost predicate IsSplit(due: seq<nat>, batchSize: nat, taken: seq<nat>) {
    |taken| == |due| && forall i | 0 <= i < |taken| :: SplitAt(due, batchSize, taken, i)
  }

  lemma SplitSnoc(due: seq<nat>, batchSize: nat, taken: seq<nat>, claimed: nat)
    requires |taken| < |due| && Sum(taken) <= batchSize
    requires forall i | 0 <= i < |taken| :: SplitAt(due, batchSize, taken, i)
    requires claimed == Taken(due[|taken|], Share(batchSize, |due|, batchSize - Sum(taken)), batchSize - Sum(taken))
    ensures forall i | 0 <= i <= |taken| :: SplitAt(due, batchSize, taken + [claimed], i)
    ensures Sum(taken + [claimed]) == Sum(taken) + claimed
  {
    var longer := taken + [claimed];
    forall i | 0 <= i <= |taken| ensures SplitAt(due, batchSize, longer, i) {
      assert longer[..i] == taken[..i];
      if i == |taken| { assert taken[..i] == taken; } else { assert SplitAt(due, batchSize, taken, i); }
    }
    assert longer[..|taken|] == taken;
  }

  /** The tenant loop of `dispatchDue`; `due[i]` rows of tenant `i` can be claimed. */
  method SplitBatch(due: seq<nat>, batchSize: nat) returns (taken: seq<nat>)
    ensures IsSplit(due, batchSize, taken) && Sum(taken) <= batchSize
  {
    taken := [];
    var rows := 0;
    for i := 0 to |due|
      invariant |taken| == i && rows == Sum(taken) <= batchSize
      invariant forall k | 0 <= k < i :: SplitAt(due, batchSize, taken, k)
    {
      var remaining := batchSize - rows;
      var claimed := 0;
      if remaining > 0 {
        var share := Share(batchSize, |due|, remaining);
        var limit := if remaining < share then remaining else share;
        claimed := if due[i] < limit then due[i] else limit;
      }
      SplitSnoc(due, batchSize, taken, claimed);
      taken := taken + [claimed];
      rows := rows + claimed;
    }
  }

  lemma SumSnoc(taken: seq<nat>, i: nat)
    requires i < |taken|
    ensures Sum(taken[..i + 1]) == Sum(taken[..i]) + taken[i]
  {
    assert taken[..i + 1][..i] == taken[..i];
  }

  /** What the first `i` tenants would take if the batch had no end: their due rows, each up to the fair share. */
  function Demand(due: seq<nat>, share: nat, i: nat): nat
    requires i <= |due|
  {
    if i == 0 then 0 else Demand(due, share, i - 1) + Min(due[i - 1], share)
  }

  /** The tenants before `i` get what they demand, until the batch is used up. */
  lemma {:induction false} TakenIsDemand(due: seq<nat>, batchSize: nat, taken: seq<nat>, i: nat)
    requires IsSplit(due, batchSize, taken) && |due| > 1 && i <= |due|
    ensures Sum(taken[..i]) == Min(batchSize, Demand(due, FairShare(batchSize, |due|), i))
  {
    if i > 0 {
      TakenIsDemand(due, batchSize, taken, i - 1);
      assert SplitAt(due, batchSize, taken, i - 1);
      SumSnoc(taken, i - 1);
    }
  }

  /**
   * A tenant with due rows gets none exactly when the due rows of the tenants
   * before it, each counted up to the fair share, already fill the batch.
   */
  lemma StarvedIff(due: seq<nat>, batchSize: nat, taken: seq<nat>, i: nat)
    requires IsSplit(due, batchSize, taken) && i < |due| && due[i] > 0
    ensures taken[i] == 0 <==> Demand(due, FairShare(batchSize, |due|), i) >= batchSize
  {
    assert SplitAt(due, batchSize, taken, i);
    if |due| > 1 { TakenIsDemand(due, batchSize, taken, i); }
  }

  lemma {:induction false} FullDemand(due: seq<nat>, share: nat, i: nat)
    requires i <= |due| && forall k | 0 <= k < i :: due[k] >= share
    ensures Demand(due, share, i) == i * share
  {
    if i > 0 {
      FullDemand(due, share, i - 1);
      assert i * share == (i - 1) * share + share;
    }
  }

  /** So the ceiling starves every tenant behind enough busy ones: their full shares fill the batch. */
  lemma CeilingStarvesIff(due: seq<nat>, batchSize: nat, taken: seq<nat>, i: nat)
    requires IsSplit(due, batchSize, taken) && i < |due| && due[i] > 0
    requires forall k | 0 <= k < i :: due[k] >= FairShare(batchSize, |due|)
    ensures taken[i] == 0 <==> i * FairShare(batchSize, |due|) >= batchSize
  {
    StarvedIff(due, batchSize, taken, i);
    FullDemand(due, FairShare(batchSize, |due|), i);
  }
}
