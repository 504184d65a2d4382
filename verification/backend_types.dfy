/** The records the backend batch job passes between its services
    (backend/src/types.ts). Amounts and timestamps are arbitrary-precision
    non-negative integers; addresses and ids are strings. */
module BackendTypes {
  import opened Common

  /** A position as the subgraph reports it. `status` is kept as the string the
      query returned: the source casts it to its status union without checking. */
  datatype Trove = Trove(
    id: string,
    borrower: string,
    collateralId: string,
    deposit: nat,
    createdAt: nat,
    closedAt: Option<nat>,
    updatedAt: nat,
    status: string)

  /** One collateral-size change of a trove. */
  datatype CollateralSnapshot = CollateralSnapshot(troveId: string, deposit: nat, timestamp: nat)

  /** The time-weighted average deposit of one trove over its active window. */
  datatype TroveCollateralTwa = TroveCollateralTwa(
    troveId: string,
    borrower: string,
    collateralId: string,
    timeWeightedAverage: nat,
    activeTime: nat)

  datatype DistributionPeriod = DistributionPeriod(startTimestamp: nat, endTimestamp: nat)

  datatype AeroLpCollateral = AeroLpCollateral(token: string, gauge: string)

  /** `rewardAmount` is optional in the source; the calculator leaves it unset. */
  datatype UserDistribution = UserDistribution(
    borrower: string,
    troves: seq<TroveCollateralTwa>,
    totalTimeWeightedCollateral: nat,
    rewardAmount: Option<nat>)

  datatype DistributionResult = DistributionResult(
    period: DistributionPeriod,
    lpCollaterals: seq<AeroLpCollateral>,
    totalClaimedAero: int,
    distributions: seq<UserDistribution>)

  /** `Omit<DistributionResult, "distributions">`. */
  datatype PartialDistributionResult = PartialDistributionResult(
    period: DistributionPeriod,
    lpCollaterals: seq<AeroLpCollateral>,
    totalClaimedAero: int)

  datatype StakedEvent = StakedEvent(
    gauge: string, token: string, amount: nat, blockNumber: nat, transactionHash: string)

  /** A claim through a gauge. The source's interface omits `epoch` and
      `timestamp`, but the fetch fills both and the epoch resolver reads `epoch`. */
  datatype ClaimedEvent = ClaimedEvent(
    gauge: string,
    total: nat,
    claimFee: nat,
    epoch: nat,
    blockNumber: nat,
    timestamp: nat,
    transactionHash: string)

  datatype DistributedEvent = DistributedEvent(
    gauge: string,
    recipients: nat,
    totalRewardAmount: nat,
    epoch: nat,
    blockNumber: nat,
    timestamp: nat,
    transactionHash: string)

  datatype GaugeDistributionInfo = GaugeDistributionInfo(
    gauge: string,
    token: string,
    period: DistributionPeriod,
    latestDistributedEpoch: nat,
    claimEpoch: nat,
    totalRewards: int)
}
