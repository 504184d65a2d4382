/** The gauge list and the claim selection of the AeroManager screen
    (frontend/app/src/screens/AeroManagerScreen/AeroManagerScreen.tsx). The
    claimable amount of each gauge, read from the chain, is a parameter:
    `None` where the read gave no result. */
module AeroManagerScreen {
  import opened Common
  import opened WhiteLabel

  /** Base mainnet, the chain whose deployment names the gauge. */
  const BaseChainId: nat := 8453
  const ZeroAddress: string := "0x0000000000000000000000000000000000000000"

  /** A collateral shown on the screen; `kind` is its upper-cased type. */
  datatype LpCollateral = LpCollateral(symbol: string, name: string, kind: string, gauge: string)

  // ---------------------------------------------------------------- the gauge list

  /** The collateral is a "samm" or "vamm" LP whose Base deployment names a
      gauge that is neither empty nor the zero address. */
  predicate HasGauge(c: CollateralConfig) {
    && IsAmmKind(c.kind)
    && BaseChainId in c.deployments
    && c.deployments[BaseChainId].gauge.Some?
    && c.deployments[BaseChainId].gauge.value != ""
    && c.deployments[BaseChainId].gauge.value != ZeroAddress
  }

  /** The entry pushed for a collateral with a gauge. */
  function Entry(c: CollateralConfig): (e: LpCollateral)
    requires HasGauge(c)
    ensures e.kind == "SAMM" || e.kind == "VAMM"
    ensures e.gauge == c.deployments[BaseChainId].gauge.value && e.gauge != ZeroAddress
    ensures e.symbol == c.symbol && e.name == c.name
  {
    LpCollateral(c.symbol, c.name, ToUpper(c.kind.value), c.deployments[BaseChainId].gauge.value)
  }

  /** The collaterals with a gauge, as entries, in configuration order. */
  function LpCollaterals(collaterals: seq<CollateralConfig>): (r: seq<LpCollateral>)
    ensures |r| <= |collaterals|
  {
    if collaterals == [] then []
    else
      var last := collaterals[|collaterals| - 1];
      LpCollaterals(collaterals[..|collaterals| - 1]) + (if HasGauge(last) then [Entry(last)] else [])
  }

  /** The list keeps configuration order: that of a concatenation is the
      concatenation of the lists. */
  lemma {:induction false} LpCollateralsAppend(a: seq<CollateralConfig>, b: seq<CollateralConfig>)
    ensures LpCollaterals(a + b) == LpCollaterals(a) + LpCollaterals(b)
  {
    if b != [] {
      LpCollateralsAppend(a, b[..|b| - 1]);
      assert (a + b)[..|a + b| - 1] == a + b[..|b| - 1];
    } else {
      assert a + b == a;
    }
  }

  /** Exactly the collaterals with a gauge appear, each as its entry. */
  lemma {:induction false} LpCollateralsMembers(collaterals: seq<CollateralConfig>)
    ensures forall i :: 0 <= i < |collaterals| && HasGauge(collaterals[i]) ==> Entry(collaterals[i]) in LpCollaterals(collaterals)
    ensures forall e :: e in LpCollaterals(collaterals) ==>
      exists i :: 0 <= i < |collaterals| && HasGauge(collaterals[i]) && e == Entry(collaterals[i])
  {
    if collaterals != [] {
      var init := collaterals[..|collaterals| - 1];
      LpCollateralsMembers(init);
      forall e | e in LpCollaterals(collaterals)
        ensures exists i :: 0 <= i < |collaterals| && HasGauge(collaterals[i]) && e == Entry(collaterals[i])
      {
        if e in LpCollaterals(init) {
          var i :| 0 <= i < |init| && HasGauge(init[i]) && e == Entry(init[i]);
          assert collaterals[i] == init[i];
        }
      }
      forall i | 0 <= i < |collaterals| && HasGauge(collaterals[i])
        ensures Entry(collaterals[i]) in LpCollaterals(collaterals)
      {
        if i < |init| {
          assert collaterals[i] == init[i];
        }
      }
    }
  }

  /** `getLpCollateralsWithGauges`: the loop pushing an entry for each
      collateral with a gauge. */
  method GetLpCollateralsWithGauges(collaterals: seq<CollateralConfig>) returns (lpCollaterals: seq<LpCollateral>)
    ensures lpCollaterals == LpCollaterals(collaterals)
  {
    lpCollaterals := [];
    for i := 0 to |collaterals|
      invariant lpCollaterals == LpCollaterals(collaterals[..i])
    {
      var collateral := collaterals[i];
      assert collaterals[..i + 1][..i] == collaterals[..i];
      if collateral.kind.Some? && (collateral.kind.value == "samm" || collateral.kind.value == "vamm") {
        if BaseChainId in collateral.deployments {
          var deployment := collateral.deployments[BaseChainId];
          if deployment.gauge.Some? && deployment.gauge.value != "" && deployment.gauge.value != ZeroAddress {
            lpCollaterals := lpCollaterals + [LpCollateral(collateral.symbol, collateral.name,
              ToUpper(collateral.kind.value), deployment.gauge.value)];
          }
        }
      }
    }
    assert collaterals[..|collaterals|] == collaterals;
  }

  // ---------------------------------------------------------------- claimable amounts

  /** `claimableAmounts[index]`: `undefined` past the end of the list. */
  function AmountAt(amounts: seq<Option<nat>>, index: nat): Option<nat> {
    if index < |amounts| then amounts[index] else None
  }

  /** The gauge at the index has an amount, and it is positive. */
  predicate IsClaimable(amounts: seq<Option<nat>>, index: nat) {
    AmountAt(amounts, index).Some? && AmountAt(amounts, index).value > 0
  }

  /** `totalClaimable`: the sum of the amounts that are present. */
  function TotalClaimable(amounts: seq<Option<nat>>): nat {
    if amounts == [] then 0
    else
      var last := amounts[|amounts| - 1];
      TotalClaimable(amounts[..|amounts| - 1]) + (if last.Some? then last.value else 0)
  }

  /** Every amount present is at most the total, and the total is zero exactly
      when no gauge is claimable. */
  lemma {:induction false} TotalClaimableBounds(amounts: seq<Option<nat>>)
    ensures forall i :: 0 <= i < |amounts| && amounts[i].Some? ==> amounts[i].value <= TotalClaimable(amounts)
    ensures TotalClaimable(amounts) == 0 <==> forall i :: 0 <= i < |amounts| ==> !IsClaimable(amounts, i)
  {
    if amounts != [] {
      var init := amounts[..|amounts| - 1];
      TotalClaimableBounds(init);
      forall i | 0 <= i < |amounts| && amounts[i].Some? ensures amounts[i].value <= TotalClaimable(amounts) {
        if i < |init| {
          assert amounts[i] == init[i];
        }
      }
      if TotalClaimable(amounts) == 0 {
        forall i | 0 <= i < |amounts| ensures !IsClaimable(amounts, i) {
          if i < |init| {
            assert amounts[i] == init[i];
            assert AmountAt(init, i) == AmountAt(amounts, i);
          }
        }
      } else if TotalClaimable(init) != 0 {
        var i :| 0 <= i < |init| && IsClaimable(init, i);
        assert amounts[i] == init[i];
        assert IsClaimable(amounts, i);
      } else {
        assert IsClaimable(amounts, |amounts| - 1);
      }
    }
  }

  /** `claimableGauges`: the gauges whose amount is present and positive, in
      list order (here from index `from` on). */
  function ClaimableFrom(lpCollaterals: seq<LpCollateral>, amounts: seq<Option<nat>>, from: nat): (r: seq<LpCollateral>)
    requires from <= |lpCollaterals|
    ensures |r| <= |lpCollaterals| - from
    decreases |lpCollaterals| - from
  {
    if from == |lpCollaterals| then []
    else (if IsClaimable(amounts, from) then [lpCollaterals[from]] else []) + ClaimableFrom(lpCollaterals, amounts, from + 1)
  }

  function ClaimableGauges(lpCollaterals: seq<LpCollateral>, amounts: seq<Option<nat>>): seq<LpCollateral> {
    ClaimableFrom(lpCollaterals, amounts, 0)
  }

  /** Exactly the gauges at claimable indices are on the claimable list. */
  lemma {:induction false} ClaimableMembers(lpCollaterals: seq<LpCollateral>, amounts: seq<Option<nat>>, from: nat)
    requires from <= |lpCollaterals|
    ensures forall i :: from <= i < |lpCollaterals| && IsClaimable(amounts, i) ==> lpCollaterals[i] in ClaimableFrom(lpCollaterals, amounts, from)
    ensures forall e :: e in ClaimableFrom(lpCollaterals, amounts, from) ==>
      exists i :: from <= i < |lpCollaterals| && IsClaimable(amounts, i) && lpCollaterals[i] == e
    decreases |lpCollaterals| - from
  {
    if from < |lpCollaterals| {
      ClaimableMembers(lpCollaterals, amounts, from + 1);
    }
  }

  /** `firstClaimableIndex`: the first index whose amount is present and
      positive, or -1. */
  function FirstClaimableIndex(lpCollaterals: seq<LpCollateral>, amounts: seq<Option<nat>>, from: nat): (r: int)
    requires from <= |lpCollaterals|
    ensures r == -1 <==> forall i :: from <= i < |lpCollaterals| ==> !IsClaimable(amounts, i)
    ensures r != -1 ==> from <= r < |lpCollaterals| && IsClaimable(amounts, r)
    ensures r != -1 ==> forall i :: from <= i < r ==> !IsClaimable(amounts, i)
    decreases |lpCollaterals| - from
  {
    if from == |lpCollaterals| then -1
    else if IsClaimable(amounts, from) then from
    else FirstClaimableIndex(lpCollaterals, amounts, from + 1)
  }

  /** The claimable list is empty exactly when there is no claimable index,
      and otherwise starts with the gauge at the first one. */
  lemma {:induction false} ClaimableHead(lpCollaterals: seq<LpCollateral>, amounts: seq<Option<nat>>, from: nat)
    requires from <= |lpCollaterals|
    ensures ClaimableFrom(lpCollaterals, amounts, from) == [] <==> FirstClaimableIndex(lpCollaterals, amounts, from) == -1
    ensures ClaimableFrom(lpCollaterals, amounts, from) != [] ==>
      ClaimableFrom(lpCollaterals, amounts, from)[0] == lpCollaterals[FirstClaimableIndex(lpCollaterals, amounts, from)]
    decreases |lpCollaterals| - from
  {
    if from < |lpCollaterals| {
      ClaimableHead(lpCollaterals, amounts, from + 1);
    }
  }

  /** `handleClaimAll`: the gauge claimed, if any. Nothing when no gauge is
      claimable; otherwise the gauge at the first claimable index, which is
      the first gauge of the claimable list. */
  function ClaimAllTarget(lpCollaterals: seq<LpCollateral>, amounts: seq<Option<nat>>): (r: Option<string>)
    ensures r.None? <==> ClaimableGauges(lpCollaterals, amounts) == []
    ensures r.Some? ==> r.value == ClaimableGauges(lpCollaterals, amounts)[0].gauge
  {
    ClaimableHead(lpCollaterals, amounts, 0);
    if |ClaimableGauges(lpCollaterals, amounts)| == 0 then None
    else
      var index := FirstClaimableIndex(lpCollaterals, amounts, 0);
      if index != -1 then Some(lpCollaterals[index].gauge) else None
  }

  /** The "Claim All" button: shown exactly when more than one gauge is
      claimable, that is when there are two claimable indices; then there is
      a gauge to claim. */
  function ShowClaimAll(lpCollaterals: seq<LpCollateral>, amounts: seq<Option<nat>>): (b: bool)
    ensures b ==> ClaimAllTarget(lpCollaterals, amounts).Some?
    ensures b <==> exists i, j :: 0 <= i < j < |lpCollaterals| && IsClaimable(amounts, i) && IsClaimable(amounts, j)
  {
    if |ClaimableGauges(lpCollaterals, amounts)| > 1 then
      TwoClaimable(lpCollaterals, amounts, 0);
      true
    else
      assert !exists i, j :: 0 <= i < j < |lpCollaterals| && IsClaimable(amounts, i) && IsClaimable(amounts, j) by {
        forall i, j | 0 <= i < j < |lpCollaterals| && IsClaimable(amounts, i) && IsClaimable(amounts, j)
          ensures false
        {
          ClaimableTwo(lpCollaterals, amounts, 0, i, j);
        }
      }
      false
  }

  /** Two entries on the claimable list come from two claimable indices. */
  lemma {:induction false} TwoClaimable(lpCollaterals: seq<LpCollateral>, amounts: seq<Option<nat>>, from: nat)
    requires from <= |lpCollaterals| && |ClaimableFrom(lpCollaterals, amounts, from)| > 1
    ensures exists i, j :: from <= i < j < |lpCollaterals| && IsClaimable(amounts, i) && IsClaimable(amounts, j)
    decreases |lpCollaterals| - from
  {
    var rest := ClaimableFrom(lpCollaterals, amounts, from + 1);
    if IsClaimable(amounts, from) {
      ClaimableHead(lpCollaterals, amounts, from + 1);
      var j := FirstClaimableIndex(lpCollaterals, amounts, from + 1);
      assert IsClaimable(amounts, from) && IsClaimable(amounts, j);
    } else {
      TwoClaimable(lpCollaterals, amounts, from + 1);
      var i, j :| from + 1 <= i < j < |lpCollaterals| && IsClaimable(amounts, i) && IsClaimable(amounts, j);
    }
  }

  /** Two claimable indices put two entries on the claimable list. */
  lemma {:induction false} ClaimableTwo(lpCollaterals: seq<LpCollateral>, amounts: seq<Option<nat>>, from: nat, i: nat, j: nat)
    requires from <= i < j < |lpCollaterals| && IsClaimable(amounts, i) && IsClaimable(amounts, j)
    ensures |ClaimableFrom(lpCollaterals, amounts, from)| > 1
    decreases |lpCollaterals| - from
  {
    if from == i {
      ClaimableHead(lpCollaterals, amounts, from + 1);
      assert FirstClaimableIndex(lpCollaterals, amounts, from + 1) != -1;
    } else {
      ClaimableTwo(lpCollaterals, amounts, from + 1, i, j);
    }
  }

  /** With no more amounts read than gauges listed, there is something to
      claim in total exactly when the claimable list is not empty. */
  lemma TotalPositiveIffClaimable(lpCollaterals: seq<LpCollateral>, amounts: seq<Option<nat>>)
    requires |amounts| <= |lpCollaterals|
    ensures TotalClaimable(amounts) > 0 <==> ClaimableGauges(lpCollaterals, amounts) != []
  {
    TotalClaimableBounds(amounts);
    ClaimableHead(lpCollaterals, amounts, 0);
  }
}
