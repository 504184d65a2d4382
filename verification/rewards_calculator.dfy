/** The borrower aggregation of the backend
    (backend/src/services/rewards-calculator.ts). The reward formula there is
    an unimplemented placeholder: every `rewardAmount` stays unset, and no
    allocation is modelled. */
module RewardsCalculator {
  import opened Common
  import opened BackendTypes

  // ---------------------------------------------------------------- specification

  /** The distinct borrowers of `results`, in order of first appearance (the key
      order of a JavaScript `Map` filled from `results`). */
  function Borrowers(results: seq<TroveCollateralTwa>): seq<string> {
    if results == [] then []
    else
      var bs, b := Borrowers(results[..|results| - 1]), results[|results| - 1].borrower;
      if b in bs then bs else bs + [b]
  }

  /** The results of borrower `b`, in input order. */
  function ForBorrower(results: seq<TroveCollateralTwa>, b: string): seq<TroveCollateralTwa> {
    if results == [] then []
    else
      var init, r := results[..|results| - 1], results[|results| - 1];
      ForBorrower(init, b) + (if r.borrower == b then [r] else [])
  }

  /** The sum of the time-weighted averages (`reduce` from `0n`). */
  function SumTwa(results: seq<TroveCollateralTwa>): nat {
    if results == [] then 0 else SumTwa(results[..|results| - 1]) + results[|results| - 1].timeWeightedAverage
  }

  /** Each borrower is listed once, and exactly the borrowers of some result are
      listed. */
  lemma {:induction false} BorrowersFacts(results: seq<TroveCollateralTwa>)
    ensures Distinct(Borrowers(results))
    ensures forall b :: b in Borrowers(results) <==> exists r :: r in results && r.borrower == b
  {
    if results != [] {
      var init, r := results[..|results| - 1], results[|results| - 1];
      BorrowersFacts(init);
      assert results == init + [r];
      assert forall x :: x in results <==> x in init || x == r;
    }
  }

  /** A result is in the group of `b` exactly when it is one of the results and
      its borrower is `b`; so every result lands in its own borrower's group and
      in no other. */
  lemma {:induction false} ForBorrowerMembers(results: seq<TroveCollateralTwa>, b: string)
    ensures forall r :: r in ForBorrower(results, b) <==> r in results && r.borrower == b
  {
    if results != [] {
      var init, r := results[..|results| - 1], results[|results| - 1];
      ForBorrowerMembers(init, b);
      assert results == init + [r];
      assert forall x :: x in results <==> x in init || x == r;
    }
  }

  /** A borrower with no result has an empty group. */
  lemma {:induction false} ForAbsentBorrower(results: seq<TroveCollateralTwa>, b: string)
    requires b !in Borrowers(results)
    ensures ForBorrower(results, b) == []
  {
    if results != [] {
      var init := results[..|results| - 1];
      ForAbsentBorrower(init, b);
    }
  }

  /** The group totals of the borrowers `bs`. */
  function GroupTotals(results: seq<TroveCollateralTwa>, bs: seq<string>): nat {
    if bs == [] then 0 else GroupTotals(results, bs[..|bs| - 1]) + SumTwa(ForBorrower(results, bs[|bs| - 1]))
  }

  lemma {:induction false} GroupTotalsAppendResult(results: seq<TroveCollateralTwa>, r: TroveCollateralTwa, bs: seq<string>)
    requires Distinct(bs)
    ensures GroupTotals(results + [r], bs)
            == GroupTotals(results, bs) + (if r.borrower in bs then r.timeWeightedAverage else 0)
  {
    if bs != [] {
      var init, b := bs[..|bs| - 1], bs[|bs| - 1];
      assert Distinct(init);
      GroupTotalsAppendResult(results, r, init);
      assert (results + [r])[..|results|] == results;
      var before := ForBorrower(results, b);
      if r.borrower == b {
        assert ForBorrower(results + [r], b) == before + [r];
        assert SumTwa(before + [r]) == SumTwa(before) + r.timeWeightedAverage by {
          assert (before + [r])[..|before|] == before;
        }
        assert r.borrower !in init;
      } else {
        assert ForBorrower(results + [r], b) == before + [];
        assert before + [] == before;
        assert r.borrower in bs <==> r.borrower in init;
      }
    }
  }

  /** The borrower totals add up to the total over all results (`totalTWA`). */
  lemma {:induction false} GroupTotalsSumAll(results: seq<TroveCollateralTwa>)
    ensures GroupTotals(results, Borrowers(results)) == SumTwa(results)
  {
    if results != [] {
      var init, r := results[..|results| - 1], results[|results| - 1];
      var bs := Borrowers(init);
      GroupTotalsSumAll(init);
      BorrowersFacts(init);
      assert results == init + [r];
      GroupTotalsAppendResult(init, r, bs);
      if r.borrower !in bs {
        ForAbsentBorrower(init, r.borrower);
        var own := ForBorrower(results, r.borrower);
        assert own == [] + [r];
        assert SumTwa(own) == r.timeWeightedAverage by {
          assert own[..0] == [];
        }
        assert (bs + [r.borrower])[..|bs|] == bs;
      }
    }
  }

  // ---------------------------------------------------------------- the calculator

  /** `calculateRewards`: one distribution per distinct borrower, in order of
      first appearance, holding that borrower's results in input order and their
      summed time-weighted average; the reward amount is left unset and
      `totalAeroToDistribute` is not used. */
  method CalculateRewards(twaResults: seq<TroveCollateralTwa>, totalAeroToDistribute: int)
    returns (distributions: seq<UserDistribution>)
    ensures |distributions| == |Borrowers(twaResults)|
    ensures forall i :: 0 <= i < |distributions| ==>
      && distributions[i].borrower == Borrowers(twaResults)[i]
      && distributions[i].troves == ForBorrower(twaResults, distributions[i].borrower)
      && distributions[i].totalTimeWeightedCollateral == SumTwa(distributions[i].troves)
      && distributions[i].rewardAmount.None?
  {
    // The Map and, beside it, the order in which its keys were first set.
    var userTroves: map<string, seq<TroveCollateralTwa>> := map[];
    var keys: seq<string> := [];
    for i := 0 to |twaResults|
      invariant keys == Borrowers(twaResults[..i])
      invariant forall b :: b in userTroves <==> b in keys
      invariant forall b :: b in userTroves ==> userTroves[b] == ForBorrower(twaResults[..i], b)
    {
      assert twaResults[..i + 1][..i] == twaResults[..i];
      var twa := twaResults[i];
      var existing := if twa.borrower in userTroves then userTroves[twa.borrower] else [];
      existing := existing + [twa];
      if twa.borrower !in userTroves {
        ForAbsentBorrower(twaResults[..i], twa.borrower);
        keys := keys + [twa.borrower];
      }
      userTroves := userTroves[twa.borrower := existing];
      forall b | b in userTroves ensures userTroves[b] == ForBorrower(twaResults[..i + 1], b) {
        if b != twa.borrower {
          assert ForBorrower(twaResults[..i + 1], b) == ForBorrower(twaResults[..i], b) + [];
        }
      }
    }
    assert twaResults[..|twaResults|] == twaResults;
    distributions := [];
    for k := 0 to |keys|
      invariant |distributions| == k
      invariant forall i :: 0 <= i < k ==>
        && distributions[i].borrower == keys[i]
        && distributions[i].troves == ForBorrower(twaResults, keys[i])
        && distributions[i].totalTimeWeightedCollateral == SumTwa(distributions[i].troves)
        && distributions[i].rewardAmount.None?
    {
      var borrower := keys[k];
      var troves := userTroves[borrower];
      var userTotalTwa := SumTwa(troves);
      distributions := distributions + [UserDistribution(borrower, troves, userTotalTwa, None)];
    }
  }

  // ---------------------------------------------------------------- the result record

  /** `buildDistributionResult`: the partial result with `distributions` added. */
  function BuildDistributionResult(distributions: seq<UserDistribution>, result: PartialDistributionResult)
    : (r: DistributionResult)
    ensures r.distributions == distributions
  {
    DistributionResult(result.period, result.lpCollaterals, result.totalClaimedAero, distributions)
  }

  /** `Omit<DistributionResult, "distributions">` of a full result. */
  function WithoutDistributions(r: DistributionResult): PartialDistributionResult {
    PartialDistributionResult(r.period, r.lpCollaterals, r.totalClaimedAero)
  }

  /** Building keeps every field of the partial result unchanged, and a full
      result is rebuilt from its parts. */
  lemma BuildDistributionResultRoundTrip(distributions: seq<UserDistribution>, result: PartialDistributionResult, full: DistributionResult)
    ensures WithoutDistributions(BuildDistributionResult(distributions, result)) == result
    ensures BuildDistributionResult(full.distributions, WithoutDistributions(full)) == full
  {
  }
}
