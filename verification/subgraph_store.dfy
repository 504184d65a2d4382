/** The entity store of the subgraph: the entities the handlers of
    subgraph/src/AeroManager.mapping.ts and subgraph/src/shared/collateral.ts
    write, one map per entity type keyed by entity id, and the data sources
    created from templates. Addresses and hashes are their lower-case hex
    strings (`toHexString()`), so an address and the id made from it coincide. */
module SubgraphStore {
  import opened Common

  /** `AeroGauge`, keyed by the gauge address. */
  datatype AeroGauge = AeroGauge(
    collateral: string, gauge: string, token: string, activePool: string, aeroManager: string)

  datatype AeroStake = AeroStake(
    collateral: string, activePool: string, gauge: string, token: string, amount: nat,
    blockNumber: nat, timestamp: nat, transactionHash: string)

  datatype AeroClaim = AeroClaim(
    collateral: string, activePool: string, gauge: string, total: nat, claimFee: nat, epoch: nat,
    blockNumber: nat, timestamp: nat, transactionHash: string)

  datatype AeroDistribution = AeroDistribution(
    collateral: string, gauge: string, recipients: nat, totalRewardAmount: nat, epoch: nat,
    blockNumber: nat, timestamp: nat, transactionHash: string)

  /** `Collateral`; `collIndex` is an `i32` in the source. */
  datatype Collateral = Collateral(
    collIndex: int, redeemable: bool, minCollRatio: nat, isAeroLPCollateral: bool)

  /** `CollateralAddresses`; `aeroGauge` is set only for a branch with a gauge. */
  datatype CollateralAddresses = CollateralAddresses(
    collateral: string, borrowerOperations: string, sortedTroves: string, stabilityPool: string,
    activePool: string, token: string, troveManager: string, troveNft: string, aeroGauge: Option<string>)

  /** The context a branch's trove templates are created with. */
  datatype BranchContext = BranchContext(
    addresses: CollateralAddresses, collId: string, collType: string, collIndex: int, totalCollaterals: int)

  /** A data source created from a template. */
  datatype DataSource =
    | AeroManagerSource(address: string)
    | TroveManagerSource(address: string, context: BranchContext)
    | TroveNftSource(address: string, context: BranchContext)

  /** Referential integrity: every gauge sits under its own address and names
      a stored collateral, and so does every stake, claim and distribution. */
  predicate Integrity(
    aeroGauges: map<string, AeroGauge>, aeroStakes: map<string, AeroStake>, aeroClaims: map<string, AeroClaim>,
    aeroDistributions: map<string, AeroDistribution>, collaterals: map<string, Collateral>)
  {
    && (forall g :: g in aeroGauges ==> aeroGauges[g].gauge == g && aeroGauges[g].collateral in collaterals)
    && (forall id :: id in aeroStakes ==> aeroStakes[id].collateral in collaterals)
    && (forall id :: id in aeroClaims ==> aeroClaims[id].collateral in collaterals)
    && (forall id :: id in aeroDistributions ==> aeroDistributions[id].collateral in collaterals)
  }

  /** Adding a collateral, and a gauge under its own address that names it,
      keeps the store consistent. */
  lemma RegisterKeepsIntegrity(
    aeroGauges: map<string, AeroGauge>, aeroStakes: map<string, AeroStake>, aeroClaims: map<string, AeroClaim>,
    aeroDistributions: map<string, AeroDistribution>, collaterals: map<string, Collateral>,
    collId: string, c: Collateral, gauge: Option<AeroGauge>)
    requires Integrity(aeroGauges, aeroStakes, aeroClaims, aeroDistributions, collaterals)
    requires gauge.Some? ==> gauge.value.collateral == collId
    ensures var gs := if gauge.Some? then aeroGauges[gauge.value.gauge := gauge.value] else aeroGauges;
      Integrity(gs, aeroStakes, aeroClaims, aeroDistributions, collaterals[collId := c])
  {
  }

  class Store {
    var aeroGauges: map<string, AeroGauge>
    var aeroStakes: map<string, AeroStake>
    var aeroClaims: map<string, AeroClaim>
    var aeroDistributions: map<string, AeroDistribution>
    var collaterals: map<string, Collateral>
    var collateralAddresses: map<string, CollateralAddresses>
    var dataSources: seq<DataSource>

    predicate Valid()
      reads this
    {
      Integrity(aeroGauges, aeroStakes, aeroClaims, aeroDistributions, collaterals)
    }

    /** An empty store. */
    constructor ()
      ensures Valid()
      ensures aeroGauges == map[] && aeroStakes == map[] && aeroClaims == map[] && aeroDistributions == map[]
      ensures collaterals == map[] && collateralAddresses == map[] && dataSources == []
    {
      aeroGauges, aeroStakes, aeroClaims, aeroDistributions := map[], map[], map[], map[];
      collaterals, collateralAddresses, dataSources := map[], map[], [];
    }
  }
}
